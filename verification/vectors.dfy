/** Cartesian 3-vectors over the reals and the ring identities the coil
    geometry relies on. Coordinates of the coil arrays (x, y, z) are
    grouped into one `Vec3` per point. */
module Vectors {

  datatype Vec3 = Vec3(x: real, y: real, z: real)

  const Zero: Vec3 := Vec3(0.0, 0.0, 0.0)

  function Add(a: Vec3, b: Vec3): Vec3 {
    Vec3(a.x + b.x, a.y + b.y, a.z + b.z)
  }

  function Sub(a: Vec3, b: Vec3): Vec3 {
    Vec3(a.x - b.x, a.y - b.y, a.z - b.z)
  }

  function Scale(k: real, a: Vec3): Vec3 {
    Vec3(k * a.x, k * a.y, k * a.z)
  }

  function Neg(a: Vec3): Vec3 {
    Vec3(-a.x, -a.y, -a.z)
  }

  function Dot(a: Vec3, b: Vec3): real {
    a.x * b.x + a.y * b.y + a.z * b.z
  }

  /** Squared Euclidean length. */
  function Norm2(a: Vec3): real {
    Dot(a, a)
  }

  function Cross(a: Vec3, b: Vec3): Vec3 {
    Vec3(a.y * b.z - a.z * b.y, a.z * b.x - a.x * b.z, a.x * b.y - a.y * b.x)
  }

  /** Squared distance between two points. */
  function Dist2(a: Vec3, b: Vec3): real {
    Norm2(Sub(a, b))
  }

  /** `sqrt` is the real square root: the one parameter standing for
      numpy's `sqrt` wherever a length has to come out exact. */
  ghost predicate IsSqrt(sqrt: real -> real) {
    && sqrt(0.0) == 0.0
    && forall x :: x >= 0.0 ==> sqrt(x) >= 0.0 && sqrt(x) * sqrt(x) == x
  }

  /** Componentwise sum of a sequence of vectors (numpy `sum` per axis). */
  function Sum(vs: seq<Vec3>): Vec3 {
    if |vs| == 0 then Zero else Add(vs[0], Sum(vs[1..]))
  }

  /** Sum of `ws[i] * vs[i]`: the weighted sums `sum(fa * dx)` of the kernel. */
  function WeightedSum(ws: seq<real>, vs: seq<Vec3>): Vec3
    requires |ws| == |vs|
  {
    if |vs| == 0 then Zero else Add(Scale(ws[0], vs[0]), WeightedSum(ws[1..], vs[1..]))
  }

  // ---------------------------------------------------------------------
  // Scalar identities. Each is a polynomial identity over a handful of
  // real variables; the vector lemmas below instantiate them on
  // coordinates so that what remains for the solver is linear.

  /** A square is never negative. */
  lemma SquareNonNegative(k: real)
    ensures k * k >= 0.0
  {
    if k < 0.0 {
      var m := -k;
      assert m * m > 0.0;
      assert k * k == m * m;
    }
  }

  lemma MulZero(k: real)
    ensures k * 0.0 == 0.0
  {
  }

  lemma MulAssoc(j: real, k: real, x: real)
    ensures (j * k) * x == j * (k * x)
  {
  }

  lemma MulAddDistrib(k: real, x: real, y: real)
    ensures k * x + k * y == k * (x + y)
  {
  }

  lemma MulSubDistrib(k: real, x: real, y: real)
    ensures k * (x - y) == k * x - k * y
  {
  }

  lemma MulSucc(n: real, x: real)
    ensures (n + 1.0) * x == n * x + x
  {
  }

  lemma ScaledDot3(k: real, ax: real, ay: real, az: real, bx: real, b2: real, bz: real)
    ensures (k * ax) * bx + (k * ay) * b2 + (k * az) * bz == k * (ax * bx + ay * b2 + az * bz)
  {
  }

  lemma ScaledSquares3(k: real, x: real, y: real, z: real)
    ensures (k * x) * (k * x) + (k * y) * (k * y) + (k * z) * (k * z) == k * k * (x * x + y * y + z * z)
  {
  }

  lemma Det2SubLeft(a1: real, a2: real, b1: real, b2: real, c1: real, c2: real)
    ensures (a1 - b1) * c2 - (a2 - b2) * c1 == (a1 * c2 - a2 * c1) - (b1 * c2 - b2 * c1)
  {
  }

  lemma Det2AddRight(a1: real, a2: real, b1: real, b2: real, c1: real, c2: real)
    ensures a1 * (b2 + c2) - a2 * (b1 + c1) == (a1 * b2 - a2 * b1) + (a1 * c2 - a2 * c1)
  {
  }

  /** The scalar triple product, written out, is cyclic. */
  lemma Det3Cyclic(ax: real, ay: real, az: real, bx: real, b2: real, bz: real, cx: real, cy: real, cz: real)
    ensures ax * (b2 * cz - bz * cy) + ay * (bz * cx - bx * cz) + az * (bx * cy - b2 * cx)
         == bx * (cy * az - cz * ay) + b2 * (cz * ax - cx * az) + bz * (cx * ay - cy * ax)
  {
  }

  /** A determinant with a repeated row vanishes. */
  lemma Det3Repeated(ax: real, ay: real, az: real, bx: real, b2: real, bz: real)
    ensures ax * (ay * bz - az * b2) + ay * (az * bx - ax * bz) + az * (ax * b2 - ay * bx) == 0.0
  {
  }

  /** First coordinate of `a × (b × c) = b (a·c) - c (a·b)`; the other two
      follow by cycling the coordinates. */
  lemma BacCabFirst(ax: real, ay: real, az: real, bx: real, b2: real, bz: real, cx: real, cy: real, cz: real,
                    ac: real, ab: real, p: real, q: real)
    requires ac == ax * cx + ay * cy + az * cz
    requires ab == ax * bx + ay * b2 + az * bz
    requires p == bx * cy - b2 * cx && q == bz * cx - bx * cz
    ensures ay * p - az * q == ac * bx - ab * cx
  {
  }

  // ---------------------------------------------------------------------
  // Vector identities

  /** The squared length is never negative. */
  lemma NormNonNegative(a: Vec3)
    ensures Norm2(a) >= 0.0
  {
    SquareNonNegative(a.x);
    SquareNonNegative(a.y);
    SquareNonNegative(a.z);
  }

  /** Distribution of a factor over a sum of two vectors. */
  lemma ScaleAdd(k: real, s: Vec3, t: Vec3)
    ensures Add(Scale(k, s), Scale(k, t)) == Scale(k, Add(s, t))
  {
    var l, r := Add(Scale(k, s), Scale(k, t)), Scale(k, Add(s, t));
    MulAddDistrib(k, s.x, t.x);
    MulAddDistrib(k, s.y, t.y);
    MulAddDistrib(k, s.z, t.z);
    assert l.x == r.x && l.y == r.y && l.z == r.z;
  }

  lemma ScaleZero(k: real)
    ensures Scale(k, Zero) == Zero
  {
    MulZero(k);
    var l := Scale(k, Zero);
    assert l.x == 0.0 && l.y == 0.0 && l.z == 0.0;
  }

  lemma ScaleByZero(a: Vec3)
    ensures Scale(0.0, a) == Zero
  {
  }

  /** Scaling by `n` undoes scaling by `1/n`. */
  lemma InverseScale(n: real, a: Vec3)
    requires n != 0.0
    ensures Scale(n, Scale(1.0 / n, a)) == a
  {
    ScaleScale(n, 1.0 / n, a);
    MulInverse(n);
    ScaleOne(a);
  }

  lemma ScaleOne(a: Vec3)
    ensures Scale(1.0, a) == a
  {
  }

  /** Scaling by a product is scaling twice. */
  lemma ScaleScale(j: real, k: real, a: Vec3)
    ensures Scale(j * k, a) == Scale(j, Scale(k, a))
  {
    var l, r := Scale(j * k, a), Scale(j, Scale(k, a));
    MulAssoc(j, k, a.x);
    MulAssoc(j, k, a.y);
    MulAssoc(j, k, a.z);
    assert l.x == r.x && l.y == r.y && l.z == r.z;
  }

  lemma ScaleSub(k: real, a: Vec3, b: Vec3)
    ensures Scale(k, Sub(a, b)) == Sub(Scale(k, a), Scale(k, b))
  {
    var l, r := Scale(k, Sub(a, b)), Sub(Scale(k, a), Scale(k, b));
    MulSubDistrib(k, a.x, b.x);
    MulSubDistrib(k, a.y, b.y);
    MulSubDistrib(k, a.z, b.z);
    assert l.x == r.x && l.y == r.y && l.z == r.z;
  }

  lemma ScaleSucc(n: real, a: Vec3)
    ensures Scale(n + 1.0, a) == Add(Scale(n, a), a)
  {
    var l, r := Scale(n + 1.0, a), Add(Scale(n, a), a);
    MulSucc(n, a.x);
    MulSucc(n, a.y);
    MulSucc(n, a.z);
    assert l.x == r.x && l.y == r.y && l.z == r.z;
  }

  lemma DotScaleLeft(k: real, a: Vec3, b: Vec3)
    ensures Dot(Scale(k, a), b) == k * Dot(a, b)
  {
    ScaledDot3(k, a.x, a.y, a.z, b.x, b.y, b.z);
  }

  lemma NormScale(k: real, a: Vec3)
    ensures Norm2(Scale(k, a)) == k * k * Norm2(a)
  {
    ScaledSquares3(k, a.x, a.y, a.z);
  }

  /** `a × b` is orthogonal to `a`. */
  lemma CrossOrthogonalLeft(a: Vec3, b: Vec3)
    ensures Dot(a, Cross(a, b)) == 0.0
  {
    Det3Repeated(a.x, a.y, a.z, b.x, b.y, b.z);
  }

  /** The scalar triple product is invariant under cyclic rotation. */
  lemma TripleCyclic(a: Vec3, b: Vec3, c: Vec3)
    ensures Dot(a, Cross(b, c)) == Dot(b, Cross(c, a))
  {
    Det3Cyclic(a.x, a.y, a.z, b.x, b.y, b.z, c.x, c.y, c.z);
  }

  /** `a × b` is orthogonal to `b`. */
  lemma CrossOrthogonalRight(a: Vec3, b: Vec3)
    ensures Dot(b, Cross(a, b)) == 0.0
  {
    TripleCyclic(b, a, b);
    CrossOrthogonalLeft(a, b);
  }

  lemma CrossAntiSymmetric(a: Vec3, b: Vec3)
    ensures Cross(b, a) == Neg(Cross(a, b))
  {
  }

  lemma CrossSubLeft(a: Vec3, b: Vec3, c: Vec3)
    ensures Cross(Sub(a, b), c) == Sub(Cross(a, c), Cross(b, c))
  {
    var l, r := Cross(Sub(a, b), c), Sub(Cross(a, c), Cross(b, c));
    Det2SubLeft(a.y, a.z, b.y, b.z, c.y, c.z);
    Det2SubLeft(a.z, a.x, b.z, b.x, c.z, c.x);
    Det2SubLeft(a.x, a.y, b.x, b.y, c.x, c.y);
    assert l.x == r.x && l.y == r.y && l.z == r.z;
  }

  /** Scaling a factor scales the product. */
  lemma CrossScaleLeft(k: real, a: Vec3, b: Vec3)
    ensures Cross(Scale(k, a), b) == Scale(k, Cross(a, b))
  {
    CrossScaleLeftCoords(k, a.x, a.y, a.z, b.x, b.y, b.z);
  }

  /** `CrossScaleLeft` on vectors given by their coordinates, so that the
      solver sees only products of plain variables. */
  lemma CrossScaleLeftCoords(k: real, ax: real, ay: real, az: real, bx: real, b2: real, bz: real)
    ensures Cross(Scale(k, Vec3(ax, ay, az)), Vec3(bx, b2, bz)) == Scale(k, Cross(Vec3(ax, ay, az), Vec3(bx, b2, bz)))
  {
  }

  lemma CrossScaleRight(k: real, a: Vec3, b: Vec3)
    ensures Cross(a, Scale(k, b)) == Scale(k, Cross(a, b))
  {
    CrossScaleRightCoords(k, a.x, a.y, a.z, b.x, b.y, b.z);
  }

  lemma CrossScaleRightCoords(k: real, ax: real, ay: real, az: real, bx: real, b2: real, bz: real)
    ensures Cross(Vec3(ax, ay, az), Scale(k, Vec3(bx, b2, bz))) == Scale(k, Cross(Vec3(ax, ay, az), Vec3(bx, b2, bz)))
  {
  }

  lemma CrossAddRight(a: Vec3, b: Vec3, c: Vec3)
    ensures Cross(a, Add(b, c)) == Add(Cross(a, b), Cross(a, c))
  {
    var l, r := Cross(a, Add(b, c)), Add(Cross(a, b), Cross(a, c));
    Det2AddRight(a.y, a.z, b.y, b.z, c.y, c.z);
    Det2AddRight(a.z, a.x, b.z, b.x, c.z, c.x);
    Det2AddRight(a.x, a.y, b.x, b.y, c.x, c.y);
    assert l.x == r.x && l.y == r.y && l.z == r.z;
  }

  /** `j b - k c`, coordinate by coordinate. */
  lemma Combination(j: real, b: Vec3, k: real, c: Vec3)
    ensures Sub(Scale(j, b), Scale(k, c)) == Vec3(j * b.x - k * c.x, j * b.y - k * c.y, j * b.z - k * c.z)
  {
  }

  /** The "BAC-CAB" rule `a × (b × c) = b (a·c) - c (a·b)`. */
  lemma BacCab(a: Vec3, b: Vec3, c: Vec3)
    ensures Cross(a, Cross(b, c)) == Sub(Scale(Dot(a, c), b), Scale(Dot(a, b), c))
  {
    BacCabX(a, b, c);
    BacCabY(a, b, c);
    BacCabZ(a, b, c);
    Combination(Dot(a, c), b, Dot(a, b), c);
  }

  lemma BacCabX(a: Vec3, b: Vec3, c: Vec3)
    ensures Cross(a, Cross(b, c)).x == Dot(a, c) * b.x - Dot(a, b) * c.x
  {
    BacCabFirst(a.x, a.y, a.z, b.x, b.y, b.z, c.x, c.y, c.z, Dot(a, c), Dot(a, b), Cross(b, c).z, Cross(b, c).y);
  }

  lemma BacCabY(a: Vec3, b: Vec3, c: Vec3)
    ensures Cross(a, Cross(b, c)).y == Dot(a, c) * b.y - Dot(a, b) * c.y
  {
    BacCabFirst(a.y, a.z, a.x, b.y, b.z, b.x, c.y, c.z, c.x, Dot(a, c), Dot(a, b), Cross(b, c).x, Cross(b, c).z);
  }

  lemma BacCabZ(a: Vec3, b: Vec3, c: Vec3)
    ensures Cross(a, Cross(b, c)).z == Dot(a, c) * b.z - Dot(a, b) * c.z
  {
    BacCabFirst(a.z, a.x, a.y, b.z, b.x, b.y, c.z, c.x, c.y, Dot(a, c), Dot(a, b), Cross(b, c).y, Cross(b, c).x);
  }

  /** `(a × b) × a = b (a·a) - a (a·b)`. */
  lemma CrossCrossBack(a: Vec3, b: Vec3)
    ensures Cross(Cross(a, b), a) == Sub(Scale(Dot(a, a), b), Scale(Dot(a, b), a))
  {
    CrossAntiSymmetric(Cross(a, b), a);
    BacCab(a, a, b);
  }

  // ---------------------------------------------------------------------
  // Sums

  /** Crossing a fixed vector with a weighted sum distributes over the terms. */
  lemma {:induction false} CrossWeightedSum(a: Vec3, ws: seq<real>, vs: seq<Vec3>, cs: seq<Vec3>)
    requires |ws| == |vs| == |cs|
    requires forall i :: 0 <= i < |vs| ==> cs[i] == Cross(a, vs[i])
    ensures Cross(a, WeightedSum(ws, vs)) == WeightedSum(ws, cs)
  {
    if |vs| > 0 {
      CrossWeightedSum(a, ws[1..], vs[1..], cs[1..]);
      CrossAddRight(a, Scale(ws[0], vs[0]), WeightedSum(ws[1..], vs[1..]));
      CrossScaleRight(ws[0], a, vs[0]);
    }
  }

  /** Weighted sums are additive in the vectors. */
  lemma {:induction false} WeightedSumSub(ws: seq<real>, us: seq<Vec3>, vs: seq<Vec3>, ds: seq<Vec3>)
    requires |ws| == |us| == |vs| == |ds|
    requires forall i :: 0 <= i < |ds| ==> ds[i] == Sub(us[i], vs[i])
    ensures WeightedSum(ws, ds) == Sub(WeightedSum(ws, us), WeightedSum(ws, vs))
  {
    if |ds| > 0 {
      WeightedSumSub(ws[1..], us[1..], vs[1..], ds[1..]);
      ScaleSub(ws[0], us[0], vs[0]);
      AddSub(Scale(ws[0], us[0]), Scale(ws[0], vs[0]), WeightedSum(ws[1..], us[1..]), WeightedSum(ws[1..], vs[1..]));
    }
  }

  lemma AddComm(a: Vec3, b: Vec3)
    ensures Add(a, b) == Add(b, a)
  {
  }

  lemma NegSub(a: Vec3, b: Vec3)
    ensures Neg(Sub(a, b)) == Sub(b, a)
  {
  }

  lemma SubSelf(a: Vec3)
    ensures Sub(a, a) == Zero
  {
  }

  lemma DistSelf(p: Vec3)
    ensures Dist2(p, p) == 0.0
  {
    SubSelf(p);
  }

  /** `n * (1/n) = 1` for a non-zero `n`. */
  lemma MulInverse(n: real)
    requires n != 0.0
    ensures n * (1.0 / n) == 1.0
  {
  }

  lemma AddSub(a: Vec3, b: Vec3, c: Vec3, d: Vec3)
    ensures Add(Sub(a, b), Sub(c, d)) == Sub(Add(a, c), Add(b, d))
  {
  }

  /** The consecutive differences `ps[i+1] - ps[i]` of a polyline. */
  function Differences(ps: seq<Vec3>): (ds: seq<Vec3>)
    ensures |ds| == if |ps| == 0 then 0 else |ps| - 1
    ensures forall i :: 0 <= i < |ds| ==> ds[i] == Sub(ps[i + 1], ps[i])
  {
    if |ps| <= 1 then [] else [Sub(ps[1], ps[0])] + Differences(ps[1..])
  }

  /** A sum of consecutive differences collapses to last minus first. */
  lemma {:induction false} SumOfDifferences(ps: seq<Vec3>)
    requires |ps| >= 1
    ensures Sum(Differences(ps)) == Sub(ps[|ps| - 1], ps[0])
  {
    if |ps| > 1 {
      var ds := Differences(ps);
      SumOfDifferences(ps[1..]);
      assert ds[1..] == Differences(ps[1..]);
    }
  }
}
