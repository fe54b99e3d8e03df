/** `COIL.finiteBuildCoil`: the tangent, normal and binormal frames along a
    coil filament and the rectangular cross-section swept along it.

    The spline derivatives (`spline_tangent`), `sqrt` and the trigonometric
    functions are parameters. numpy divides by zero without raising: a zero
    length met while normalising makes only the entries of the affected
    points nan (for the parallel frame, those of every later point too).
    The model is coarser and reports any such zero length as a whole-result
    `Err(NonFinite)`. */
module FiniteBuild {
  import opened Vectors
  import opened Results
  import opened Coils


  // ---------------------------------------------------------------------
  // Normalisation

  /** `v / sqrt(v·v)`. */
  function Normalize(v: Vec3, sqrt: real -> real): (r: Result<Vec3>)
    ensures r.Ok? <==> sqrt(Norm2(v)) != 0.0
    ensures r.Err? ==> r == Err(NonFinite)
  {
    var n := sqrt(Norm2(v));
    if n == 0.0 then Err(NonFinite) else Ok(Scale(1.0 / n, v))
  }

  /** With the real square root, a normalised vector has length one and
      points the way the input does. */
  lemma NormalizeUnit(v: Vec3, sqrt: real -> real)
    requires IsSqrt(sqrt) && Normalize(v, sqrt).Ok?
    ensures Norm2(Normalize(v, sqrt).value) == 1.0
    ensures exists k :: k > 0.0 && Normalize(v, sqrt).value == Scale(k, v)
  {
    var n := sqrt(Norm2(v));
    NormNonNegative(v);
    assert n >= 0.0 && n * n == Norm2(v);
    NormScale(1.0 / n, v);
    UnitInverse(n, Norm2(v));
    PositiveInverse(n);
  }

  lemma UnitInverse(n: real, q: real)
    requires n != 0.0 && n * n == q
    ensures 1.0 / n * (1.0 / n) * q == 1.0
  {
  }

  lemma PositiveInverse(n: real)
    requires n > 0.0
    ensures 1.0 / n > 0.0
  {
  }

  /** Every vector of `vs` normalised. numpy would leave nan in the entry
      of a zero-length vector only; here any zero length spoils the result. */
  function NormalizeAll(vs: seq<Vec3>, sqrt: real -> real): (r: Result<seq<Vec3>>)
    ensures r.Ok? <==> forall i :: 0 <= i < |vs| ==> Normalize(vs[i], sqrt).Ok?
    ensures r.Err? ==> r == Err(NonFinite)
    ensures r.Ok? ==> |r.value| == |vs| && forall i :: 0 <= i < |vs| ==> Ok(r.value[i]) == Normalize(vs[i], sqrt)
  {
    if forall i :: 0 <= i < |vs| ==> Normalize(vs[i], sqrt).Ok? then
      Ok(seq(|vs|, i requires 0 <= i < |vs| && Normalize(vs[i], sqrt).Ok? => Normalize(vs[i], sqrt).value))
    else Err(NonFinite)
  }

  /** All entries of a normalised sequence are unit vectors. */
  lemma NormalizeAllUnit(vs: seq<Vec3>, sqrt: real -> real)
    requires IsSqrt(sqrt) && NormalizeAll(vs, sqrt).Ok?
    ensures forall i :: 0 <= i < |vs| ==> Norm2(NormalizeAll(vs, sqrt).value[i]) == 1.0
  {
    forall i | 0 <= i < |vs|
      ensures Norm2(NormalizeAll(vs, sqrt).value[i]) == 1.0
    {
      NormalizeUnit(vs[i], sqrt);
    }
  }

  // ---------------------------------------------------------------------
  // The Rodrigues rotation of the parallel-transport frame

  /** A 3x3 matrix by rows. */
  datatype Mat3 = Mat3(r0: Vec3, r1: Vec3, r2: Vec3)

  /** The matrix-vector product `M @ v`. */
  function Apply(m: Mat3, v: Vec3): Vec3 {
    Vec3(Dot(m.r0, v), Dot(m.r1, v), Dot(m.r2, v))
  }

  /** `rotate(x, ang)` with `c = cos(ang)` and `s = sin(ang)`, row by
      row. */
  function Rotate(a: Vec3, c: real, s: real): Mat3 {
    Mat3(RotateRow0(a, c, s), RotateRow1(a, c, s), RotateRow2(a, c, s))
  }

  function RotateRow0(a: Vec3, c: real, s: real): Vec3 {
    Vec3(c + a.x * a.x * (1.0 - c), a.x * a.y * (1.0 - c) - s * a.z, a.z * a.x * (1.0 - c) + s * a.y)
  }

  function RotateRow1(a: Vec3, c: real, s: real): Vec3 {
    Vec3(a.x * a.y * (1.0 - c) + s * a.z, c + a.y * a.y * (1.0 - c), a.z * a.y * (1.0 - c) - s * a.x)
  }

  function RotateRow2(a: Vec3, c: real, s: real): Vec3 {
    Vec3(a.x * a.z * (1.0 - c) - s * a.y, a.y * a.z * (1.0 - c) + s * a.x, c + a.z * a.z * (1.0 - c))
  }

  /** Rodrigues' formula `c v + s (a × v) + (1 - c)(a·v) a`. */
  function RotateVec(a: Vec3, c: real, s: real, v: Vec3): Vec3 {
    Add(Add(Scale(c, v), Scale(s, Cross(a, v))), Scale((1.0 - c) * Dot(a, v), a))
  }

  /** The matrix of `rotate` is Rodrigues' formula. */
  lemma RotateIsRodrigues(a: Vec3, c: real, s: real, v: Vec3)
    ensures Apply(Rotate(a, c, s), v) == RotateVec(a, c, s, v)
  {
    var l, r := Apply(Rotate(a, c, s), v), RotateVec(a, c, s, v);
    RotateRowX(a, c, s, v);
    RotateRowY(a, c, s, v);
    RotateRowZ(a, c, s, v);
    assert l.x == r.x && l.y == r.y && l.z == r.z;
  }

  lemma RotateRowX(a: Vec3, c: real, s: real, v: Vec3)
    ensures Apply(Rotate(a, c, s), v).x == RotateVec(a, c, s, v).x
  {
    RowDot0(a, c, s, v);
    RotateVecTerms(a, c, s, v);
  }

  lemma RotateRowY(a: Vec3, c: real, s: real, v: Vec3)
    ensures Apply(Rotate(a, c, s), v).y == RotateVec(a, c, s, v).y
  {
    RowDot1(a, c, s, v);
    RotateVecTerms(a, c, s, v);
  }

  lemma RotateRowZ(a: Vec3, c: real, s: real, v: Vec3)
    ensures Apply(Rotate(a, c, s), v).z == RotateVec(a, c, s, v).z
  {
    RowDot2(a, c, s, v);
    RotateVecTerms(a, c, s, v);
  }

  /** Each row of the matrix against `v` gives one coordinate of the
      Rodrigues terms. */
  lemma RowDot0(a: Vec3, c: real, s: real, v: Vec3)
    ensures Dot(RotateRow0(a, c, s), v) == c * v.x + s * Cross(a, v).x + (1.0 - c) * Dot(a, v) * a.x
  {
    RowX(c, s, a.x, a.y, a.z, v.x, v.y, v.z, Dot(a, v), RotateRow0(a, c, s).x, RotateRow0(a, c, s).y, RotateRow0(a, c, s).z);
  }

  lemma RowDot1(a: Vec3, c: real, s: real, v: Vec3)
    ensures Dot(RotateRow1(a, c, s), v) == c * v.y + s * Cross(a, v).y + (1.0 - c) * Dot(a, v) * a.y
  {
    RowY(c, s, a.x, a.y, a.z, v.x, v.y, v.z, Dot(a, v), RotateRow1(a, c, s).x, RotateRow1(a, c, s).y, RotateRow1(a, c, s).z);
  }

  lemma RowDot2(a: Vec3, c: real, s: real, v: Vec3)
    ensures Dot(RotateRow2(a, c, s), v) == c * v.z + s * Cross(a, v).z + (1.0 - c) * Dot(a, v) * a.z
  {
    RowZ(c, s, a.x, a.y, a.z, v.x, v.y, v.z, Dot(a, v), RotateRow2(a, c, s).x, RotateRow2(a, c, s).y, RotateRow2(a, c, s).z);
  }

  lemma RowX(c: real, s: real, a0: real, a1: real, a2: real, v0: real, v1: real, v2: real, d: real, p: real, q: real, r: real)
    requires d == a0 * v0 + a1 * v1 + a2 * v2
    requires p == c + a0 * a0 * (1.0 - c) && q == a0 * a1 * (1.0 - c) - s * a2 && r == a2 * a0 * (1.0 - c) + s * a1
    ensures p * v0 + q * v1 + r * v2 == c * v0 + s * (a1 * v2 - a2 * v1) + (1.0 - c) * d * a0
  {
    RowTerms(c, s, a0, a1, a2, v0, v1, v2, d, p, q, r, a0 * a1, a2, a1);
  }

  lemma RowY(c: real, s: real, a0: real, a1: real, a2: real, v0: real, v1: real, v2: real, d: real, p: real, q: real, r: real)
    requires d == a0 * v0 + a1 * v1 + a2 * v2
    requires p == a0 * a1 * (1.0 - c) + s * a2 && q == c + a1 * a1 * (1.0 - c) && r == a2 * a1 * (1.0 - c) - s * a0
    ensures p * v0 + q * v1 + r * v2 == c * v1 + s * (a2 * v0 - a0 * v2) + (1.0 - c) * d * a1
  {
    RowTerms(c, s, a1, a2, a0, v1, v2, v0, d, q, r, p, a2 * a1, a0, a2);
  }

  lemma RowZ(c: real, s: real, a0: real, a1: real, a2: real, v0: real, v1: real, v2: real, d: real, p: real, q: real, r: real)
    requires d == a0 * v0 + a1 * v1 + a2 * v2
    requires p == a0 * a2 * (1.0 - c) - s * a1 && q == a1 * a2 * (1.0 - c) + s * a0 && r == c + a2 * a2 * (1.0 - c)
    ensures p * v0 + q * v1 + r * v2 == c * v2 + s * (a0 * v1 - a1 * v0) + (1.0 - c) * d * a2
  {
    RowTerms(c, s, a2, a0, a1, v2, v0, v1, d, r, p, q, a0 * a2, a1, a0);
  }

  /** One row of the rotation matrix against `v`, with the diagonal entry
      `p` on coordinate `i` and the off-diagonal entries `q`, `r` carrying
      `∓ s e` and `± s f`. */
  lemma RowTerms(c: real, s: real, ai: real, aj: real, ak: real, vi: real, vj: real, vk: real, d: real,
                 p: real, q: real, r: real, aij: real, e: real, f: real)
    requires d == ai * vi + aj * vj + ak * vk && aij == ai * aj
    requires p == c + ai * ai * (1.0 - c) && q == aij * (1.0 - c) - s * e && r == ak * ai * (1.0 - c) + s * f
    ensures p * vi + q * vj + r * vk == c * vi + s * (f * vk - e * vj) + (1.0 - c) * d * ai
  {
  }

  /** A rotation about a unit axis by an angle with `c² + s² = 1` keeps
      every dot product, hence every length and every right angle. */
  lemma RotatePreservesDot(a: Vec3, c: real, s: real, v: Vec3, w: Vec3)
    requires Norm2(a) == 1.0 && c * c + s * s == 1.0
    ensures Dot(RotateVec(a, c, s, v), RotateVec(a, c, s, w)) == Dot(v, w)
  {
    RotateVecSplit(a, c, s, v);
    RotateVecSplit(a, c, s, w);
    CrossSplit(a, v);
    CrossSplit(a, w);
    DotSplit(a, a);
    DotSplit(a, v);
    DotSplit(a, w);
    DotSplit(v, w);
    DotSplit(RotateVec(a, c, s, v), RotateVec(a, c, s, w));
    RotateDotVecs(c, s, Dot(a, v), Dot(a, w), (1.0 - c) * Dot(a, v), (1.0 - c) * Dot(a, w), a, v, w,
      Cross(a, v), Cross(a, w), RotateVec(a, c, s, v), RotateVec(a, c, s, w),
      Dot(RotateVec(a, c, s, v), RotateVec(a, c, s, w)), Dot(v, w));
  }

  /** `r = c v + s p + k a`, coordinate by coordinate. */
  ghost predicate Combines(c: real, s: real, k: real, a: Vec3, v: Vec3, p: Vec3, r: Vec3)
  {
    r.x == c * v.x + s * p.x + k * a.x && r.y == c * v.y + s * p.y + k * a.y && r.z == c * v.z + s * p.z + k * a.z
  }

  /** `p = a × v`, coordinate by coordinate. */
  ghost predicate CrossIs(a: Vec3, v: Vec3, p: Vec3)
  {
    p.x == a.y * v.z - a.z * v.y && p.y == a.z * v.x - a.x * v.z && p.z == a.x * v.y - a.y * v.x
  }

  /** `d = u · w`, written out. */
  ghost predicate DotIs(u: Vec3, w: Vec3, d: real)
  {
    d == u.x * w.x + u.y * w.y + u.z * w.z
  }

  lemma RotateVecSplit(a: Vec3, c: real, s: real, v: Vec3)
    ensures Combines(c, s, (1.0 - c) * Dot(a, v), a, v, Cross(a, v), RotateVec(a, c, s, v))
  {
    RotateVecTerms(a, c, s, v);
  }

  lemma CrossSplit(a: Vec3, v: Vec3)
    ensures CrossIs(a, v, Cross(a, v))
  {
  }

  lemma DotSplit(u: Vec3, w: Vec3)
    ensures DotIs(u, w, Dot(u, w))
  {
  }

  /** `RotateDotScalar` with the coordinates kept in their vectors. */
  lemma RotateDotVecs(c: real, s: real, av: real, aw: real, ka: real, kb: real, a: Vec3, v: Vec3, w: Vec3,
                      p: Vec3, q: Vec3, r: Vec3, t: Vec3, rt: real, vw: real)
    requires DotIs(a, a, 1.0) && c * c + s * s == 1.0
    requires DotIs(a, v, av) && DotIs(a, w, aw) && DotIs(r, t, rt) && DotIs(v, w, vw)
    requires ka == (1.0 - c) * av && kb == (1.0 - c) * aw
    requires CrossIs(a, v, p) && CrossIs(a, w, q)
    requires Combines(c, s, ka, a, v, p, r) && Combines(c, s, kb, a, w, q, t)
    ensures rt == vw
  {
    RotateDotScalar(c, s, av, aw, ka, kb, a.x, a.y, a.z, v.x, v.y, v.z, w.x, w.y, w.z, p.x, p.y, p.z, q.x, q.y, q.z,
      r.x, r.y, r.z, t.x, t.y, t.z, rt);
  }

  /** `RotatePreservesDot` on coordinates: `p = a × v`, `q = a × w`,
      `r = c v + s p + ka a`, `t = c w + s q + kb a`. */
  lemma RotateDotScalar(c: real, s: real, av: real, aw: real, ka: real, kb: real, a0: real, a1: real, a2: real,
                        v0: real, v1: real, v2: real, w0: real, w1: real, w2: real,
                        p0: real, p1: real, p2: real, q0: real, q1: real, q2: real,
                        r0: real, r1: real, r2: real, t0: real, t1: real, t2: real, rt: real)
    requires a0 * a0 + a1 * a1 + a2 * a2 == 1.0 && c * c + s * s == 1.0
    requires av == a0 * v0 + a1 * v1 + a2 * v2 && aw == a0 * w0 + a1 * w1 + a2 * w2
    requires ka == (1.0 - c) * av && kb == (1.0 - c) * aw
    requires p0 == a1 * v2 - a2 * v1 && p1 == a2 * v0 - a0 * v2 && p2 == a0 * v1 - a1 * v0
    requires q0 == a1 * w2 - a2 * w1 && q1 == a2 * w0 - a0 * w2 && q2 == a0 * w1 - a1 * w0
    requires r0 == c * v0 + s * p0 + ka * a0 && t0 == c * w0 + s * q0 + kb * a0
    requires r1 == c * v1 + s * p1 + ka * a1 && t1 == c * w1 + s * q1 + kb * a1
    requires r2 == c * v2 + s * p2 + ka * a2 && t2 == c * w2 + s * q2 + kb * a2
    requires rt == r0 * t0 + r1 * t1 + r2 * t2
    ensures rt == v0 * w0 + v1 * w1 + v2 * w2
  {
    var vw, vq, va := v0 * w0 + v1 * w1 + v2 * w2, v0 * q0 + v1 * q1 + v2 * q2, v0 * a0 + v1 * a1 + v2 * a2;
    var pw, pq, pa := p0 * w0 + p1 * w1 + p2 * w2, p0 * q0 + p1 * q1 + p2 * q2, p0 * a0 + p1 * a1 + p2 * a2;
    var aq := a0 * q0 + a1 * q1 + a2 * q2;
    ExpandDot(c, s, ka, kb, a0, a1, a2, v0, v1, v2, w0, w1, w2, p0, p1, p2, q0, q1, q2, r0, r1, r2, t0, t1, t2,
      vw, vq, va, pw, pq, pa, aw, aq, 1.0, rt);
    TripleSwapScalar(a0, a1, a2, v0, v1, v2, w0, w1, w2, p0, p1, p2, q0, q1, q2, pw, vq);
    BinetCauchyScalar(a0, a1, a2, v0, v1, v2, w0, w1, w2, p0, p1, p2, q0, q1, q2, pq, 1.0, vw, aw, va);
    assert pa == 0.0;
    assert aq == 0.0;
    RodriguesCancels(c, s, ka, kb, vw, vq, va, pw, pq, pa, aw, aq);
  }

  /** `r = c v + s p + ka a` and `t = c w + s q + kb a` coordinate-wise give
      `r · t` as nine products of dot products. */
  lemma ExpandDot(c: real, s: real, ka: real, kb: real, a0: real, a1: real, a2: real,
                  v0: real, v1: real, v2: real, w0: real, w1: real, w2: real,
                  p0: real, p1: real, p2: real, q0: real, q1: real, q2: real,
                  r0: real, r1: real, r2: real, t0: real, t1: real, t2: real,
                  vw: real, vq: real, va: real, pw: real, pq: real, pa: real, aw: real, aq: real, aa: real, rt: real)
    requires r0 == c * v0 + s * p0 + ka * a0 && t0 == c * w0 + s * q0 + kb * a0
    requires r1 == c * v1 + s * p1 + ka * a1 && t1 == c * w1 + s * q1 + kb * a1
    requires r2 == c * v2 + s * p2 + ka * a2 && t2 == c * w2 + s * q2 + kb * a2
    requires vw == v0 * w0 + v1 * w1 + v2 * w2 && vq == v0 * q0 + v1 * q1 + v2 * q2 && va == v0 * a0 + v1 * a1 + v2 * a2
    requires pw == p0 * w0 + p1 * w1 + p2 * w2 && pq == p0 * q0 + p1 * q1 + p2 * q2 && pa == p0 * a0 + p1 * a1 + p2 * a2
    requires aw == a0 * w0 + a1 * w1 + a2 * w2 && aq == a0 * q0 + a1 * q1 + a2 * q2 && aa == a0 * a0 + a1 * a1 + a2 * a2
    requires rt == r0 * t0 + r1 * t1 + r2 * t2
    ensures rt == c * c * vw + c * s * vq + c * kb * va + s * c * pw + s * s * pq + s * kb * pa
                + ka * c * aw + ka * s * aq + ka * kb * aa
  {
    ExpandCoord(c, s, ka, kb, a0, v0, w0, p0, q0, r0, t0);
    ExpandCoord(c, s, ka, kb, a1, v1, w1, p1, q1, r1, t1);
    ExpandCoord(c, s, ka, kb, a2, v2, w2, p2, q2, r2, t2);
    Distrib3(c * c, v0 * w0, v1 * w1, v2 * w2, vw);
    Distrib3(c * s, v0 * q0, v1 * q1, v2 * q2, vq);
    Distrib3(c * kb, v0 * a0, v1 * a1, v2 * a2, va);
    Distrib3(s * c, p0 * w0, p1 * w1, p2 * w2, pw);
    Distrib3(s * s, p0 * q0, p1 * q1, p2 * q2, pq);
    Distrib3(s * kb, p0 * a0, p1 * a1, p2 * a2, pa);
    Distrib3(ka * c, a0 * w0, a1 * w1, a2 * w2, aw);
    Distrib3(ka * s, a0 * q0, a1 * q1, a2 * q2, aq);
    Distrib3(ka * kb, a0 * a0, a1 * a1, a2 * a2, aa);
  }

  /** One coordinate of `Rv · Rw`, multiplied out. */
  lemma ExpandCoord(c: real, s: real, ka: real, kb: real, a: real, v: real, w: real, p: real, q: real, r: real, t: real)
    requires r == c * v + s * p + ka * a && t == c * w + s * q + kb * a
    ensures r * t == c * c * (v * w) + c * s * (v * q) + c * kb * (v * a) + s * c * (p * w) + s * s * (p * q)
                   + s * kb * (p * a) + ka * c * (a * w) + ka * s * (a * q) + ka * kb * (a * a)
  {
  }

  lemma Distrib3(k: real, m0: real, m1: real, m2: real, m: real)
    requires m == m0 + m1 + m2
    ensures k * m == k * m0 + k * m1 + k * m2
  {
  }

  /** The three terms of Rodrigues' formula, coordinate by coordinate, with
      `a × v` kept whole. */
  lemma RotateVecTerms(a: Vec3, c: real, s: real, v: Vec3)
    ensures RotateVec(a, c, s, v).x == c * v.x + s * Cross(a, v).x + (1.0 - c) * Dot(a, v) * a.x
    ensures RotateVec(a, c, s, v).y == c * v.y + s * Cross(a, v).y + (1.0 - c) * Dot(a, v) * a.y
    ensures RotateVec(a, c, s, v).z == c * v.z + s * Cross(a, v).z + (1.0 - c) * Dot(a, v) * a.z
  {
  }

  /** With `c² + s² = 1` and a unit axis the expanded `Rv · Rw` collapses to
      `v · w`. */
  lemma RodriguesCancels(c: real, s: real, ka: real, kb: real, vw: real, vq: real, va: real, pw: real, pq: real, pa: real,
                         aw: real, aq: real)
    requires c * c + s * s == 1.0 && ka == (1.0 - c) * va && kb == (1.0 - c) * aw
    requires pw == -vq && pa == 0.0 && aq == 0.0 && pq == vw - aw * va
    ensures c * c * vw + c * s * vq + c * kb * va + s * c * pw + s * s * pq + s * kb * pa
          + ka * c * aw + ka * s * aq + ka * kb * 1.0 == vw
  {
  }

  lemma TripleSwapScalar(a0: real, a1: real, a2: real, v0: real, v1: real, v2: real, w0: real, w1: real, w2: real,
                         p0: real, p1: real, p2: real, q0: real, q1: real, q2: real, pw: real, vq: real)
    requires p0 == a1 * v2 - a2 * v1 && p1 == a2 * v0 - a0 * v2 && p2 == a0 * v1 - a1 * v0
    requires q0 == a1 * w2 - a2 * w1 && q1 == a2 * w0 - a0 * w2 && q2 == a0 * w1 - a1 * w0
    requires pw == p0 * w0 + p1 * w1 + p2 * w2 && vq == v0 * q0 + v1 * q1 + v2 * q2
    ensures pw == -vq
  {
  }

  lemma BinetCauchyScalar(a0: real, a1: real, a2: real, v0: real, v1: real, v2: real, w0: real, w1: real, w2: real,
                          p0: real, p1: real, p2: real, q0: real, q1: real, q2: real,
                          pq: real, aa: real, vw: real, aw: real, va: real)
    requires p0 == a1 * v2 - a2 * v1 && p1 == a2 * v0 - a0 * v2 && p2 == a0 * v1 - a1 * v0
    requires q0 == a1 * w2 - a2 * w1 && q1 == a2 * w0 - a0 * w2 && q2 == a0 * w1 - a1 * w0
    requires pq == p0 * q0 + p1 * q1 + p2 * q2 && aa == a0 * a0 + a1 * a1 + a2 * a2
    requires vw == v0 * w0 + v1 * w1 + v2 * w2 && aw == a0 * w0 + a1 * w1 + a2 * w2 && va == v0 * a0 + v1 * a1 + v2 * a2
    ensures pq == aa * vw - aw * va
  {
  }

  lemma DotComm(u: Vec3, w: Vec3)
    ensures Dot(u, w) == Dot(w, u)
  {
  }

  /** `(a - b) · c = a · c - b · c`. */
  lemma DotSubLeft(a: Vec3, b: Vec3, c: Vec3)
    ensures Dot(Sub(a, b), c) == Dot(a, c) - Dot(b, c)
  {
  }

  lemma MulZeroRight(k: real, z: real)
    requires z == 0.0
    ensures k * z == 0.0
  {
  }

  // ---------------------------------------------------------------------
  // The numerical functions

  /** numpy's `sqrt`, `cos`, `sin` and `arccos`, passed in. */
  datatype Math = Math(sqrt: real -> real, cos: real -> real, sin: real -> real, arccos: real -> real)

  /** The functions are the real ones as far as the frames need them: the
      real square root, and `cos(arccos d) = d`, `sin(arccos d) = sqrt(1 - d²)`
      on `[-1, 1]`. */
  ghost predicate Exact(m: Math) {
    && IsSqrt(m.sqrt)
    && forall d :: -1.0 <= d <= 1.0 ==> m.cos(m.arccos(d)) == d && m.sin(m.arccos(d)) == m.sqrt(1.0 - d * d)
  }

  // ---------------------------------------------------------------------
  // The centroid frame

  /** The centroid frame's normal before normalisation: the offset of the
      point from the geometric centre with its component along the
      (unit) tangent removed. */
  function CentroidNormal(p: Vec3, center: Vec3, t: Vec3): Vec3 {
    var d := Sub(p, center);
    Sub(d, Scale(Dot(d, t), t))
  }

  /** Against a unit tangent the centroid normal is perpendicular. */
  lemma CentroidNormalPerp(p: Vec3, center: Vec3, t: Vec3)
    requires Norm2(t) == 1.0
    ensures Dot(CentroidNormal(p, center, t), t) == 0.0
  {
    RejectionPerp(Sub(p, center), t);
  }

  lemma RejectionPerp(d: Vec3, t: Vec3)
    requires Dot(t, t) == 1.0
    ensures Dot(Sub(d, Scale(Dot(d, t), t)), t) == 0.0
  {
    DotSubLeft(d, Scale(Dot(d, t), t), t);
    DotScaleLeft(Dot(d, t), t, t);
  }

  // ---------------------------------------------------------------------
  // The parallel-transport frame

  /** A keyword argument that may be left to its default. */
  datatype Given = Default | Given(value: real)

  /** The default of `vx` and `vy`: `x[0] - average(x[0:-1])` per axis. It
      is evaluated even when the caller passes a value; averaging the empty
      `x[0:-1]` of a one-point coil gives nan. */
  function DefaultSeed(pts: seq<Vec3>): (r: Result<Vec3>)
    requires |pts| > 0
    ensures r.Ok? <==> |pts| > 1
  {
    var mean := GeomCenter(pts[..|pts| - 1]);
    if mean.Ok? then Ok(Sub(pts[0], mean.value)) else Err(NonFinite)
  }

  /** The keyword argument if given, else its default. */
  function Choose(g: Given, fallback: Result<real>): Result<real> {
    match g
    case Given(v) => Ok(v)
    case Default => fallback
  }

  /** The first normal before normalisation: `(vx, vy, vz)` with `vz`
      solved from `v · T[0] = 0`; numpy divides by a zero `T[0, 2]` into
      inf or nan. */
  function ParallelSeed(vx: real, vy: real, t0: Vec3): (r: Result<Vec3>)
    ensures r.Ok? <==> t0.z != 0.0
    ensures r.Err? ==> r == Err(NonFinite)
    ensures r.Ok? ==> r.value.x == vx && r.value.y == vy && Dot(r.value, t0) == 0.0
  {
    if t0.z == 0.0 then Err(NonFinite)
    else
      DivCancel(-(vx * t0.x + vy * t0.y), t0.z);
      Ok(Vec3(vx, vy, -(vx * t0.x + vy * t0.y) / t0.z))
  }

  lemma DivCancel(a: real, z: real)
    requires z != 0.0
    ensures a / z * z == a
  {
  }

  /** The number of consecutive pairs in `ts`. */
  function Pairs(ts: seq<Vec3>): nat {
    if |ts| == 0 then 0 else |ts| - 1
  }

  /** `B` before normalisation: `T[i] × T[i + 1]` for each consecutive
      pair. A zero cross product (parallel tangents) normalises to nan. */
  function Crossings(ts: seq<Vec3>): (cs: seq<Vec3>)
    ensures |cs| == Pairs(ts)
  {
    seq(Pairs(ts), i requires 0 <= i < Pairs(ts) => Cross(ts[i], ts[i + 1]))
  }

  /** `theta`: `arccos(T[i] · T[i + 1])` for each consecutive pair. */
  function Angles(ts: seq<Vec3>, m: Math): (thetas: seq<real>)
    ensures |thetas| == Pairs(ts)
  {
    seq(Pairs(ts), i requires 0 <= i < Pairs(ts) => m.arccos(Dot(ts[i], ts[i + 1])))
  }

  /** `rotate(x, ang)`. */
  function Rotation(axis: Vec3, theta: real, m: Math): Mat3 {
    Rotate(axis, m.cos(theta), m.sin(theta))
  }

  /** The transport loop: `V[0] = v0` and `V[i + 1] = rotate(B[i], theta[i]) @ V[i]`. */
  function Transport(v0: Vec3, axes: seq<Vec3>, thetas: seq<real>, m: Math): (vs: seq<Vec3>)
    requires |thetas| == |axes|
    ensures |vs| == |axes| + 1 && vs[0] == v0
    ensures forall i :: 0 <= i < |axes| ==> vs[i + 1] == Apply(Rotation(axes[i], thetas[i], m), vs[i])
    decreases |axes|
  {
    if |axes| == 0 then [v0]
    else
      var k := |axes| - 1;
      var prev := Transport(v0, axes[..k], thetas[..k], m);
      prev + [Apply(Rotation(axes[k], thetas[k], m), prev[k])]
  }

  /** The parallel frame's normals: seed, normalise, transport. A coil
      without points fails on `x[0]` before anything else. */
  function ParallelNormals(pts: seq<Vec3>, ts: seq<Vec3>, vx: Given, vy: Given, m: Math): (r: Result<seq<Vec3>>)
    requires |ts| == |pts|
    ensures |pts| == 0 <==> r == Err(IndexOutOfRange)
    ensures r.Ok? ==> |r.value| == |pts|
  {
    if |pts| == 0 then Err(IndexOutOfRange)
    else
      var dflt := DefaultSeed(pts);
      var x :- Choose(vx, if dflt.Ok? then Ok(dflt.value.x) else Err(NonFinite));
      var y :- Choose(vy, if dflt.Ok? then Ok(dflt.value.y) else Err(NonFinite));
      var seed :- ParallelSeed(x, y, ts[0]);
      var v0 :- Normalize(seed, m.sqrt);
      var axes :- NormalizeAll(Crossings(ts), m.sqrt);
      Ok(Transport(v0, axes, Angles(ts, m), m))
  }

  // ---------------------------------------------------------------------
  // Frames and the finite-build mesh

  /** The three frames the routine knows. */
  const FrameNames: set<string> := {"centroid", "frenet", "parallel"}

  /** Unit tangents `t`, normals `n` and binormals `b`, one per point. */
  datatype Frame = Frame(t: seq<Vec3>, n: seq<Vec3>, b: seq<Vec3>)

  /** The normals of the chosen frame before normalisation. An unknown
      frame name leaves `xn` unassigned: the `assert True` there does not
      stop the routine, and reading `xn` raises a NameError. */
  function RawNormals(frame: string, pts: seq<Vec3>, ts: seq<Vec3>, accel: seq<Vec3>, vx: Given, vy: Given, m: Math)
    : (r: Result<seq<Vec3>>)
    requires |ts| == |pts| && |accel| == |pts|
    ensures frame !in FrameNames ==> r == Err(UnboundName)
    ensures frame == "frenet" ==> r == Ok(accel)
    ensures r.Ok? ==> |r.value| == |pts|
  {
    if frame == "centroid" then
      if |pts| == 0 then Ok([])
      else
        var center := GeomCenter(pts).value;
        Ok(seq(|pts|, i requires 0 <= i < |pts| => CentroidNormal(pts[i], center, ts[i])))
    else if frame == "frenet" then Ok(accel)
    else if frame == "parallel" then ParallelNormals(pts, ts, vx, vy, m)
    else Err(UnboundName)
  }

  /** `t × n` at every point, before normalisation. */
  function Binormals(ts: seq<Vec3>, ns: seq<Vec3>): (bs: seq<Vec3>)
    requires |ns| == |ts|
    ensures |bs| == |ts|
  {
    seq(|ts|, i requires 0 <= i < |ts| => Cross(ts[i], ns[i]))
  }

  /** The frame of `finiteBuildCoil`: normalised spline tangents, the
      chosen normals normalised, and the normalised binormals. The
      exceptions (unknown frame, empty parallel frame) win over any nan. */
  function BuildFrame(frame: string, pts: seq<Vec3>, tangent: seq<Vec3>, accel: seq<Vec3>, vx: Given, vy: Given, m: Math)
    : (r: Result<Frame>)
    requires |tangent| == |pts| && |accel| == |pts|
    ensures frame !in FrameNames ==> r == Err(UnboundName)
    ensures frame == "parallel" && |pts| == 0 ==> r == Err(IndexOutOfRange)
    ensures r.Err? && frame in FrameNames && !(frame == "parallel" && |pts| == 0) ==> r == Err(NonFinite)
    ensures r.Ok? ==> |r.value.t| == |pts| && |r.value.n| == |pts| && |r.value.b| == |pts|
  {
    if frame !in FrameNames then Err(UnboundName)
    else if frame == "parallel" && |pts| == 0 then Err(IndexOutOfRange)
    else
      var ts :- NormalizeAll(tangent, m.sqrt);
      var raw :- RawNormals(frame, pts, ts, accel, vx, vy, m);
      var ns :- NormalizeAll(raw, m.sqrt);
      var bs :- NormalizeAll(Binormals(ts, ns), m.sqrt);
      Ok(Frame(ts, ns, bs))
  }

  /** The four corners of the cross-section at `p`, boundary lines 1 to 4
      of the source: `p ∓ (w/2) b ± (h/2) n`. */
  function Corners(p: Vec3, b: Vec3, n: Vec3, width: real, height: real): (cs: seq<Vec3>)
    ensures |cs| == 4
  {
    var hb, hn := Scale(width / 2.0, b), Scale(height / 2.0, n);
    [Add(Sub(p, hb), hn), Add(Add(p, hb), hn), Sub(Add(p, hb), hn), Sub(Sub(p, hb), hn)]
  }

  /** Corner `k` at every point. */
  function CornerRow(pts: seq<Vec3>, bs: seq<Vec3>, ns: seq<Vec3>, width: real, height: real, k: nat): (row: seq<Vec3>)
    requires |bs| == |pts| && |ns| == |pts| && k < 4
    ensures |row| == |pts|
  {
    seq(|pts|, i requires 0 <= i < |pts| => Corners(pts[i], bs[i], ns[i], width, height)[k])
  }

  /** `finiteBuildCoil`: the five boundary lines `[x1, x2, x3, x4, x1]` of
      the swept rectangle, each one point per filament point. */
  function FiniteBuildCoil(pts: seq<Vec3>, tangent: seq<Vec3>, accel: seq<Vec3>, width: real, height: real,
                           frame: string, vx: Given, vy: Given, m: Math): (r: Result<seq<seq<Vec3>>>)
    requires |tangent| == |pts| && |accel| == |pts|
    ensures r.Ok? <==> BuildFrame(frame, pts, tangent, accel, vx, vy, m).Ok?
    ensures r.Err? ==> r == Err(BuildFrame(frame, pts, tangent, accel, vx, vy, m).fault)
    ensures r.Ok? ==> |r.value| == 5 && r.value[4] == r.value[0]
    ensures r.Ok? ==> forall k :: 0 <= k < 5 ==> |r.value[k]| == |pts|
  {
    var f :- BuildFrame(frame, pts, tangent, accel, vx, vy, m);
    var row := k requires 0 <= k < 4 => CornerRow(pts, f.b, f.n, width, height, k);
    Ok([row(0), row(1), row(2), row(3), row(0)])
  }

  // ---------------------------------------------------------------------
  // Properties of the frames

  /** The rotation of one transport step, from tangent `t` to tangent `u`. */
  function Step(t: Vec3, u: Vec3, m: Math): Mat3
    requires Normalize(Cross(t, u), m.sqrt).Ok?
  {
    Rotation(Normalize(Cross(t, u), m.sqrt).value, m.arccos(Dot(t, u)), m)
  }

  /** What a transport step is made of, for unit tangents `t`, `u` with
      `d = t · u`: `|t × u|² = 1 - d²`, so `d` lies in `[-1, 1]`, the angle
      has cosine `d` and sine `|t × u|`, and the axis is a unit vector. */
  lemma StepFacts(t: Vec3, u: Vec3, m: Math)
    requires Exact(m) && Norm2(t) == 1.0 && Norm2(u) == 1.0 && Normalize(Cross(t, u), m.sqrt).Ok?
    ensures -1.0 <= Dot(t, u) <= 1.0
    ensures m.cos(m.arccos(Dot(t, u))) == Dot(t, u)
    ensures m.sin(m.arccos(Dot(t, u))) == m.sqrt(Norm2(Cross(t, u)))
    ensures m.cos(m.arccos(Dot(t, u))) * m.cos(m.arccos(Dot(t, u))) + m.sin(m.arccos(Dot(t, u))) * m.sin(m.arccos(Dot(t, u))) == 1.0
    ensures Norm2(Normalize(Cross(t, u), m.sqrt).value) == 1.0
    ensures Step(t, u, m)
         == Rotate(Normalize(Cross(t, u), m.sqrt).value, m.cos(m.arccos(Dot(t, u))), m.sin(m.arccos(Dot(t, u))))
  {
    LagrangeStep(t, u);
    StepAngle(Dot(t, u), Norm2(Cross(t, u)), m);
    NormalizeUnit(Cross(t, u), m.sqrt);
  }

  /** The angle `arccos d` for `d` in `[-1, 1]`: its cosine is `d`, its
      sine `sqrt(q)` with `q = 1 - d²`, and the two satisfy `c² + s² = 1`. */
  lemma StepAngle(d: real, q: real, m: Math)
    requires Exact(m) && -1.0 <= d <= 1.0 && q == 1.0 - d * d
    ensures m.cos(m.arccos(d)) == d && m.sin(m.arccos(d)) == m.sqrt(q)
    ensures m.cos(m.arccos(d)) * m.cos(m.arccos(d)) + m.sin(m.arccos(d)) * m.sin(m.arccos(d)) == 1.0
  {
    SquareAtMostOne(d);
    assert m.sqrt(q) * m.sqrt(q) == q;
    Pythagoras(m.cos(m.arccos(d)), m.sin(m.arccos(d)), d, q);
  }

  /** For unit `t`, `u`: `|t × u|² = 1 - (t·u)²`, hence `|t·u| <= 1`. */
  lemma LagrangeStep(t: Vec3, u: Vec3)
    requires Norm2(t) == 1.0 && Norm2(u) == 1.0
    ensures Norm2(Cross(t, u)) == 1.0 - Dot(t, u) * Dot(t, u)
    ensures -1.0 <= Dot(t, u) <= 1.0
  {
    LagrangeIdentity(t, u);
    NormNonNegative(Cross(t, u));
    UnitRange(Dot(t, u), Norm2(Cross(t, u)));
  }

  /** Lagrange's identity `|t × u|² = |t|² |u|² - (t·u)²`. */
  lemma LagrangeIdentity(t: Vec3, u: Vec3)
    ensures Norm2(Cross(t, u)) == Norm2(t) * Norm2(u) - Dot(t, u) * Dot(t, u)
  {
  }

  lemma UnitRange(d: real, q: real)
    requires q == 1.0 - d * d && q >= 0.0
    ensures -1.0 <= d <= 1.0
  {
  }

  lemma SquareAtMostOne(d: real)
    requires -1.0 <= d <= 1.0
    ensures d * d <= 1.0
  {
    if d >= 0.0 {
      assert d * d <= d * 1.0;
    } else {
      assert d * d == (-d) * (-d) <= (-d) * 1.0;
    }
  }

  lemma Pythagoras(c: real, s: real, d: real, q: real)
    requires c == d && s * s == q && q == 1.0 - d * d
    ensures c * c + s * s == 1.0
  {
  }

  /** The step rotation takes the tangent to the next tangent. */
  lemma StepCarriesTangent(t: Vec3, u: Vec3, m: Math)
    requires Exact(m) && Norm2(t) == 1.0 && Norm2(u) == 1.0 && Normalize(Cross(t, u), m.sqrt).Ok?
    ensures Apply(Step(t, u, m), t) == u
  {
    StepFacts(t, u, m);
    var n := Cross(t, u);
    var k := m.sqrt(Norm2(n));
    var axis := Normalize(n, m.sqrt).value;
    var c, s := m.cos(m.arccos(Dot(t, u))), m.sin(m.arccos(Dot(t, u)));
    assert axis == Scale(1.0 / k, n);
    RotateIsRodrigues(axis, c, s, t);
    // the axis is perpendicular to t
    CrossOrthogonalLeft(t, u);
    DotComm(n, t);
    DotScaleLeft(1.0 / k, n, t);
    MulZeroRight(1.0 / k, Dot(n, t));
    MulZeroRight(1.0 - c, Dot(axis, t));
    ScaleByZero(axis);
    // axis × t = (u - d t) / |t × u|
    CrossScaleLeft(1.0 / k, n, t);
    CrossCrossBack(t, u);
    ScaleOne(u);
    InverseScale(k, Cross(n, t));
    assert Scale(s, Cross(axis, t)) == Sub(u, Scale(Dot(t, u), t));
  }

  /** One transport step keeps a unit normal unit and perpendicular to the
      tangent: it was perpendicular to `t` and is now to `u`. */
  lemma StepKeepsNormal(t: Vec3, u: Vec3, v: Vec3, m: Math)
    requires Exact(m) && Norm2(t) == 1.0 && Norm2(u) == 1.0 && Normalize(Cross(t, u), m.sqrt).Ok?
    requires Norm2(v) == 1.0 && Dot(v, t) == 0.0
    ensures Norm2(Apply(Step(t, u, m), v)) == 1.0
    ensures Dot(Apply(Step(t, u, m), v), u) == 0.0
  {
    StepFacts(t, u, m);
    StepCarriesTangent(t, u, m);
    var axis := Normalize(Cross(t, u), m.sqrt).value;
    var c, s := m.cos(m.arccos(Dot(t, u))), m.sin(m.arccos(Dot(t, u)));
    RotateIsRodrigues(axis, c, s, v);
    RotateIsRodrigues(axis, c, s, t);
    RotatePreservesDot(axis, c, s, v, v);
    RotatePreservesDot(axis, c, s, v, t);
  }

  /** Along the whole transport every normal is a unit vector
      perpendicular to its tangent, given a first normal that is. */
  lemma {:induction false} TransportAt(ts: seq<Vec3>, v0: Vec3, axes: seq<Vec3>, thetas: seq<real>, m: Math, i: nat)
    requires Exact(m) && |ts| > 0 && forall j :: 0 <= j < |ts| ==> Norm2(ts[j]) == 1.0
    requires Norm2(v0) == 1.0 && Dot(v0, ts[0]) == 0.0
    requires |axes| == |ts| - 1 && |thetas| == |axes|
    requires forall j :: 0 <= j < |axes| ==>
               Normalize(Cross(ts[j], ts[j + 1]), m.sqrt) == Ok(axes[j]) && thetas[j] == m.arccos(Dot(ts[j], ts[j + 1]))
    requires i < |ts|
    ensures Norm2(Transport(v0, axes, thetas, m)[i]) == 1.0 && Dot(Transport(v0, axes, thetas, m)[i], ts[i]) == 0.0
  {
    if i > 0 {
      TransportAt(ts, v0, axes, thetas, m, i - 1);
      assert Rotation(axes[i - 1], thetas[i - 1], m) == Step(ts[i - 1], ts[i], m);
      StepKeepsNormal(ts[i - 1], ts[i], Transport(v0, axes, thetas, m)[i - 1], m);
    }
  }

  /** The parallel frame's normals are unit vectors perpendicular to the
      unit tangents. */
  lemma ParallelNormalsFrame(pts: seq<Vec3>, ts: seq<Vec3>, vx: Given, vy: Given, m: Math)
    requires Exact(m) && |ts| == |pts| && forall j :: 0 <= j < |ts| ==> Norm2(ts[j]) == 1.0
    requires ParallelNormals(pts, ts, vx, vy, m).Ok?
    ensures forall i :: 0 <= i < |pts| ==>
              Norm2(ParallelNormals(pts, ts, vx, vy, m).value[i]) == 1.0
              && Dot(ParallelNormals(pts, ts, vx, vy, m).value[i], ts[i]) == 0.0
  {
    var seed, axes := ParallelParts(pts, ts, vx, vy, m);
    NormalizeUnit(seed, m.sqrt);
    NormalizeKeepsPerp(seed, ts[0], m.sqrt);
    StepsOf(ts, axes, m);
    TransportFrame(ts, Normalize(seed, m.sqrt).value, axes, Angles(ts, m), m);
  }

  /** The axes and angles of the parallel frame are those of `Step`. */
  lemma StepsOf(ts: seq<Vec3>, axes: seq<Vec3>, m: Math)
    requires NormalizeAll(Crossings(ts), m.sqrt) == Ok(axes) && |axes| == |ts| - 1
    ensures forall j :: 0 <= j < |axes| ==>
              Normalize(Cross(ts[j], ts[j + 1]), m.sqrt) == Ok(axes[j]) && Angles(ts, m)[j] == m.arccos(Dot(ts[j], ts[j + 1]))
  {
    forall j | 0 <= j < |axes|
      ensures Normalize(Cross(ts[j], ts[j + 1]), m.sqrt) == Ok(axes[j]) && Angles(ts, m)[j] == m.arccos(Dot(ts[j], ts[j + 1]))
    {
      assert Crossings(ts)[j] == Cross(ts[j], ts[j + 1]);
    }
  }

  /** `TransportAt` at every index. */
  lemma TransportFrame(ts: seq<Vec3>, v0: Vec3, axes: seq<Vec3>, thetas: seq<real>, m: Math)
    requires Exact(m) && |ts| > 0 && forall j :: 0 <= j < |ts| ==> Norm2(ts[j]) == 1.0
    requires Norm2(v0) == 1.0 && Dot(v0, ts[0]) == 0.0
    requires |axes| == |ts| - 1 && |thetas| == |axes|
    requires forall j :: 0 <= j < |axes| ==>
               Normalize(Cross(ts[j], ts[j + 1]), m.sqrt) == Ok(axes[j]) && thetas[j] == m.arccos(Dot(ts[j], ts[j + 1]))
    ensures forall i :: 0 <= i < |ts| ==>
              Norm2(Transport(v0, axes, thetas, m)[i]) == 1.0 && Dot(Transport(v0, axes, thetas, m)[i], ts[i]) == 0.0
  {
    forall i | 0 <= i < |ts|
      ensures Norm2(Transport(v0, axes, thetas, m)[i]) == 1.0 && Dot(Transport(v0, axes, thetas, m)[i], ts[i]) == 0.0
    {
      TransportAt(ts, v0, axes, thetas, m, i);
    }
  }

  /** What a successful parallel frame is made of: a seed perpendicular
      to the first tangent that normalises, and the normalised axes. */
  lemma ParallelParts(pts: seq<Vec3>, ts: seq<Vec3>, vx: Given, vy: Given, m: Math) returns (seed: Vec3, axes: seq<Vec3>)
    requires |ts| == |pts| && ParallelNormals(pts, ts, vx, vy, m).Ok?
    ensures |pts| > 0 && Dot(seed, ts[0]) == 0.0 && Normalize(seed, m.sqrt).Ok?
    ensures NormalizeAll(Crossings(ts), m.sqrt) == Ok(axes) && |axes| == |ts| - 1
    ensures ParallelNormals(pts, ts, vx, vy, m).value == Transport(Normalize(seed, m.sqrt).value, axes, Angles(ts, m), m)
  {
    var dflt := DefaultSeed(pts);
    var x := Choose(vx, if dflt.Ok? then Ok(dflt.value.x) else Err(NonFinite)).value;
    var y := Choose(vy, if dflt.Ok? then Ok(dflt.value.y) else Err(NonFinite)).value;
    seed := ParallelSeed(x, y, ts[0]).value;
    axes := NormalizeAll(Crossings(ts), m.sqrt).value;
  }

  /** What a successful frame is made of. */
  lemma FrameParts(frame: string, pts: seq<Vec3>, tangent: seq<Vec3>, accel: seq<Vec3>, vx: Given, vy: Given, m: Math)
    returns (raw: seq<Vec3>)
    requires |tangent| == |pts| && |accel| == |pts| && BuildFrame(frame, pts, tangent, accel, vx, vy, m).Ok?
    ensures NormalizeAll(tangent, m.sqrt) == Ok(BuildFrame(frame, pts, tangent, accel, vx, vy, m).value.t)
    ensures RawNormals(frame, pts, BuildFrame(frame, pts, tangent, accel, vx, vy, m).value.t, accel, vx, vy, m) == Ok(raw)
    ensures NormalizeAll(raw, m.sqrt) == Ok(BuildFrame(frame, pts, tangent, accel, vx, vy, m).value.n)
    ensures NormalizeAll(Binormals(BuildFrame(frame, pts, tangent, accel, vx, vy, m).value.t,
                                   BuildFrame(frame, pts, tangent, accel, vx, vy, m).value.n), m.sqrt)
         == Ok(BuildFrame(frame, pts, tangent, accel, vx, vy, m).value.b)
  {
    var ts := NormalizeAll(tangent, m.sqrt).value;
    raw := RawNormals(frame, pts, ts, accel, vx, vy, m).value;
  }

  /** Normalising keeps a right angle. */
  lemma NormalizeKeepsPerp(v: Vec3, w: Vec3, sqrt: real -> real)
    requires IsSqrt(sqrt) && Normalize(v, sqrt).Ok? && Dot(v, w) == 0.0
    ensures Dot(Normalize(v, sqrt).value, w) == 0.0
  {
    NormalizeUnit(v, sqrt);
    var k :| k > 0.0 && Normalize(v, sqrt).value == Scale(k, v);
    DotScaleLeft(k, v, w);
    MulZeroRight(k, Dot(v, w));
  }

  /** Every frame is made of unit vectors, and the binormal is
      perpendicular to both the tangent and the normal. */
  lemma FrameUnitBinormal(frame: string, pts: seq<Vec3>, tangent: seq<Vec3>, accel: seq<Vec3>, vx: Given, vy: Given, m: Math)
    requires Exact(m) && |tangent| == |pts| && |accel| == |pts| && BuildFrame(frame, pts, tangent, accel, vx, vy, m).Ok?
    ensures var f := BuildFrame(frame, pts, tangent, accel, vx, vy, m).value;
            forall i :: 0 <= i < |pts| ==>
              && Norm2(f.t[i]) == 1.0 && Norm2(f.n[i]) == 1.0 && Norm2(f.b[i]) == 1.0
              && Dot(f.b[i], f.t[i]) == 0.0 && Dot(f.b[i], f.n[i]) == 0.0
  {
    var f := BuildFrame(frame, pts, tangent, accel, vx, vy, m).value;
    var raw := FrameParts(frame, pts, tangent, accel, vx, vy, m);
    NormalizeAllUnit(tangent, m.sqrt);
    NormalizeAllUnit(raw, m.sqrt);
    NormalizeAllUnit(Binormals(f.t, f.n), m.sqrt);
    forall i | 0 <= i < |pts|
      ensures Dot(f.b[i], f.t[i]) == 0.0 && Dot(f.b[i], f.n[i]) == 0.0
    {
      assert Binormals(f.t, f.n)[i] == Cross(f.t[i], f.n[i]);
      assert Normalize(Cross(f.t[i], f.n[i]), m.sqrt).Ok?;
      CrossOrthogonalLeft(f.t[i], f.n[i]);
      CrossOrthogonalRight(f.t[i], f.n[i]);
      DotComm(f.t[i], Cross(f.t[i], f.n[i]));
      DotComm(f.n[i], Cross(f.t[i], f.n[i]));
      NormalizeKeepsPerp(Cross(f.t[i], f.n[i]), f.t[i], m.sqrt);
      NormalizeKeepsPerp(Cross(f.t[i], f.n[i]), f.n[i], m.sqrt);
    }
  }

  /** In the centroid and parallel frames the normal is perpendicular to
      the tangent as well, so the frame is orthonormal. (The Frenet normal
      is the raw spline acceleration and carries no such promise.) */
  lemma FrameNormalPerp(frame: string, pts: seq<Vec3>, tangent: seq<Vec3>, accel: seq<Vec3>, vx: Given, vy: Given, m: Math)
    requires Exact(m) && |tangent| == |pts| && |accel| == |pts| && BuildFrame(frame, pts, tangent, accel, vx, vy, m).Ok?
    requires frame == "centroid" || frame == "parallel"
    ensures var f := BuildFrame(frame, pts, tangent, accel, vx, vy, m).value;
            forall i :: 0 <= i < |pts| ==> Dot(f.n[i], f.t[i]) == 0.0
  {
    var f := BuildFrame(frame, pts, tangent, accel, vx, vy, m).value;
    var raw := FrameParts(frame, pts, tangent, accel, vx, vy, m);
    NormalizeAllUnit(tangent, m.sqrt);
    if frame == "parallel" {
      ParallelNormalsFrame(pts, f.t, vx, vy, m);
    }
    forall i | 0 <= i < |pts|
      ensures Dot(f.n[i], f.t[i]) == 0.0
    {
      if frame == "centroid" {
        CentroidNormalPerp(pts[i], GeomCenter(pts).value, f.t[i]);
      }
      NormalizeKeepsPerp(raw[i], f.t[i], m.sqrt);
    }
  }

  /** The corners are the rectangle spanned by `width · b` and
      `height · n` centred on the filament point. */
  lemma CornerEdges(p: Vec3, b: Vec3, n: Vec3, width: real, height: real)
    ensures Sub(Corners(p, b, n, width, height)[1], Corners(p, b, n, width, height)[0]) == Scale(width, b)
    ensures Sub(Corners(p, b, n, width, height)[2], Corners(p, b, n, width, height)[3]) == Scale(width, b)
    ensures Sub(Corners(p, b, n, width, height)[0], Corners(p, b, n, width, height)[3]) == Scale(height, n)
    ensures Sub(Corners(p, b, n, width, height)[1], Corners(p, b, n, width, height)[2]) == Scale(height, n)
    ensures Add(Corners(p, b, n, width, height)[0], Corners(p, b, n, width, height)[2]) == Scale(2.0, p)
    ensures Add(Corners(p, b, n, width, height)[1], Corners(p, b, n, width, height)[3]) == Scale(2.0, p)
  {
  }

  /** With an orthonormal `b`, `n` the cross-section is a `width × height`
      rectangle: its sides have those lengths and meet at right angles. */
  lemma CornerRectangle(p: Vec3, b: Vec3, n: Vec3, width: real, height: real)
    requires Norm2(b) == 1.0 && Norm2(n) == 1.0 && Dot(b, n) == 0.0
    ensures Norm2(Sub(Corners(p, b, n, width, height)[1], Corners(p, b, n, width, height)[0])) == width * width
    ensures Norm2(Sub(Corners(p, b, n, width, height)[0], Corners(p, b, n, width, height)[3])) == height * height
    ensures Dot(Sub(Corners(p, b, n, width, height)[1], Corners(p, b, n, width, height)[0]),
                Sub(Corners(p, b, n, width, height)[0], Corners(p, b, n, width, height)[3])) == 0.0
  {
    CornerEdges(p, b, n, width, height);
    RectangleSides(b, n, width, height);
  }

  lemma RectangleSides(b: Vec3, n: Vec3, width: real, height: real)
    requires Norm2(b) == 1.0 && Norm2(n) == 1.0 && Dot(b, n) == 0.0
    ensures Norm2(Scale(width, b)) == width * width && Norm2(Scale(height, n)) == height * height
    ensures Dot(Scale(width, b), Scale(height, n)) == 0.0
  {
    NormScale(width, b);
    NormScale(height, n);
    MulOne(width * width, Norm2(b));
    MulOne(height * height, Norm2(n));
    DotScaleLeft(width, b, Scale(height, n));
    DotScaleRight(height, b, n);
    MulZeroRight(height, Dot(b, n));
    MulZeroRight(width, Dot(b, Scale(height, n)));
  }

  lemma MulOne(k: real, x: real)
    requires x == 1.0
    ensures k * x == k
  {
  }

  lemma DotScaleRight(k: real, a: Vec3, b: Vec3)
    ensures Dot(a, Scale(k, b)) == k * Dot(a, b)
  {
    DotComm(a, Scale(k, b));
    DotScaleLeft(k, b, a);
    DotComm(b, a);
  }

  // ---------------------------------------------------------------------
  // The boundary lines

  /** The boundary lines at point `i` are the corners of the frame there. */
  lemma RowsAre(pts: seq<Vec3>, tangent: seq<Vec3>, accel: seq<Vec3>, width: real, height: real,
                frame: string, vx: Given, vy: Given, m: Math, i: nat)
    requires |tangent| == |pts| && |accel| == |pts| && i < |pts|
    requires FiniteBuildCoil(pts, tangent, accel, width, height, frame, vx, vy, m).Ok?
    ensures var rows := FiniteBuildCoil(pts, tangent, accel, width, height, frame, vx, vy, m).value;
            var f := BuildFrame(frame, pts, tangent, accel, vx, vy, m).value;
            forall k :: 0 <= k < 4 ==> rows[k][i] == Corners(pts[i], f.b[i], f.n[i], width, height)[k]
  {
  }

  /** At every filament point the boundary lines of `finiteBuildCoil` are
      the corners of a parallelogram centred on the point: lines 1 and 3,
      and lines 2 and 4, lie opposite each other across it, line 2 is line
      1 moved by `width` along the binormal and line 1 is line 4 moved by
      `height` along the normal. */
  lemma FiniteBuildCorners(pts: seq<Vec3>, tangent: seq<Vec3>, accel: seq<Vec3>, width: real, height: real,
                           frame: string, vx: Given, vy: Given, m: Math, i: nat)
    requires |tangent| == |pts| && |accel| == |pts| && i < |pts|
    requires FiniteBuildCoil(pts, tangent, accel, width, height, frame, vx, vy, m).Ok?
    ensures var rows := FiniteBuildCoil(pts, tangent, accel, width, height, frame, vx, vy, m).value;
            var f := BuildFrame(frame, pts, tangent, accel, vx, vy, m).value;
            && Add(rows[0][i], rows[2][i]) == Scale(2.0, pts[i])
            && Add(rows[1][i], rows[3][i]) == Scale(2.0, pts[i])
            && Sub(rows[1][i], rows[0][i]) == Scale(width, f.b[i])
            && Sub(rows[2][i], rows[3][i]) == Scale(width, f.b[i])
            && Sub(rows[0][i], rows[3][i]) == Scale(height, f.n[i])
  {
    var f := BuildFrame(frame, pts, tangent, accel, vx, vy, m).value;
    RowsAre(pts, tangent, accel, width, height, frame, vx, vy, m, i);
    CornerEdges(pts[i], f.b[i], f.n[i], width, height);
  }

  /** With the real square root, every cross-section is a `width × height`
      rectangle: its sides have those lengths and meet at right angles, and
      the width side is perpendicular to the tangent. */
  lemma FiniteBuildRectangle(pts: seq<Vec3>, tangent: seq<Vec3>, accel: seq<Vec3>, width: real, height: real,
                             frame: string, vx: Given, vy: Given, m: Math, i: nat)
    requires Exact(m) && |tangent| == |pts| && |accel| == |pts| && i < |pts|
    requires FiniteBuildCoil(pts, tangent, accel, width, height, frame, vx, vy, m).Ok?
    ensures var rows := FiniteBuildCoil(pts, tangent, accel, width, height, frame, vx, vy, m).value;
            var f := BuildFrame(frame, pts, tangent, accel, vx, vy, m).value;
            && Norm2(Sub(rows[1][i], rows[0][i])) == width * width
            && Norm2(Sub(rows[0][i], rows[3][i])) == height * height
            && Dot(Sub(rows[1][i], rows[0][i]), Sub(rows[0][i], rows[3][i])) == 0.0
            && Dot(Sub(rows[1][i], rows[0][i]), f.t[i]) == 0.0
  {
    var f := BuildFrame(frame, pts, tangent, accel, vx, vy, m).value;
    FrameUnitBinormal(frame, pts, tangent, accel, vx, vy, m);
    FiniteBuildCorners(pts, tangent, accel, width, height, frame, vx, vy, m, i);
    DotComm(f.b[i], f.n[i]);
    RectangleSides(f.b[i], f.n[i], width, height);
    WidthAcross(width, f.b[i], f.t[i]);
  }

  /** In the centroid and parallel frames the whole cross-section lies in
      the plane perpendicular to the tangent. */
  lemma FiniteBuildNormalPlane(pts: seq<Vec3>, tangent: seq<Vec3>, accel: seq<Vec3>, width: real, height: real,
                               frame: string, vx: Given, vy: Given, m: Math, i: nat)
    requires Exact(m) && |tangent| == |pts| && |accel| == |pts| && i < |pts|
    requires frame == "centroid" || frame == "parallel"
    requires FiniteBuildCoil(pts, tangent, accel, width, height, frame, vx, vy, m).Ok?
    ensures var rows := FiniteBuildCoil(pts, tangent, accel, width, height, frame, vx, vy, m).value;
            var f := BuildFrame(frame, pts, tangent, accel, vx, vy, m).value;
            && Dot(Sub(rows[1][i], rows[0][i]), f.t[i]) == 0.0
            && Dot(Sub(rows[0][i], rows[3][i]), f.t[i]) == 0.0
  {
    var f := BuildFrame(frame, pts, tangent, accel, vx, vy, m).value;
    FrameUnitBinormal(frame, pts, tangent, accel, vx, vy, m);
    FrameNormalPerp(frame, pts, tangent, accel, vx, vy, m);
    FiniteBuildCorners(pts, tangent, accel, width, height, frame, vx, vy, m, i);
    WidthAcross(width, f.b[i], f.t[i]);
    WidthAcross(height, f.n[i], f.t[i]);
  }

  lemma WidthAcross(k: real, b: Vec3, t: Vec3)
    requires Dot(b, t) == 0.0
    ensures Dot(Scale(k, b), t) == 0.0
  {
    DotScaleLeft(k, b, t);
    MulZeroRight(k, Dot(b, t));
  }
}
