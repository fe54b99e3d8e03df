/** A single filament (`COIL`): its segment arrays, the closed-form
    straight-segment kernel for the vector potential and the magnetic field,
    its geometric centre and its distance to a cloud of surface points.

    The Euclidean length `rw = sqrt(x1² + y1² + z1²)` is a parameter
    `norm`; nothing below depends on which function it is, so every
    property holds for the real square root in particular. */
module Coils {
  import opened Vectors
  import opened Results

  /** One filament: its points in file order (the `x`, `y`, `z` arrays). */
  datatype Coil = Coil(pts: seq<Vec3>)

  /** `mu0 / (4 pi)` in SI units: the factor `fac` of `bfield`. */
  const BiotSavartFactor: real := 0.0000001

  /** The moment arrays `vx`, `vy`, `vz`: `v[i] = p[i] × d[i]`, where the
      segment arrays `dx`, `dy`, `dz` are `d = Differences(p)`. */
  function Moments(pts: seq<Vec3>): (v: seq<Vec3>)
    ensures |v| == |Differences(pts)|
  {
    var d := Differences(pts);
    seq(|d|, i requires 0 <= i < |d| => Cross(pts[i], d[i]))
  }

  /** The arrays built by the constructor have one entry per segment, pair
      each segment with its moment, and the segments of a polyline add up
      to the chord from its first point to its last (zero for a closed coil). */
  lemma SegmentArrays(pts: seq<Vec3>)
    requires |pts| >= 1
    ensures |Differences(pts)| == |Moments(pts)| == |pts| - 1
    ensures forall i :: 0 <= i < |pts| - 1 ==>
              Differences(pts)[i] == Sub(pts[i + 1], pts[i]) && Moments(pts)[i] == Cross(pts[i], Sub(pts[i + 1], pts[i]))
    ensures Sum(Differences(pts)) == Sub(pts[|pts| - 1], pts[0])
  {
    SumOfDifferences(pts);
  }

  // ---------------------------------------------------------------------
  // Field kernel

  /** Denominator of the factor `fa[i]` of segment `i` seen from `probe`:
      `rw[i+1] * rw[i] * (rw[i+1] * rw[i] + x1[i+1]·x1[i])`. */
  function Denominator(pts: seq<Vec3>, probe: Vec3, norm: Vec3 -> real, i: nat): real
    requires i + 1 < |pts|
  {
    var r0 := Sub(probe, pts[i]);
    var r1 := Sub(probe, pts[i + 1]);
    var w0 := norm(r0);
    var w1 := norm(r1);
    w1 * w0 * (w1 * w0 + Dot(r1, r0))
  }

  /** Every segment factor is a finite number. When this fails numpy divides
      by zero and the field comes out as inf or nan. */
  predicate Regular(pts: seq<Vec3>, probe: Vec3, norm: Vec3 -> real) {
    forall i: nat :: i + 1 < |pts| ==> Denominator(pts, probe, norm, i) != 0.0
  }

  /** The factors `fa[i] = (rw[i+1] + rw[i]) / Denominator(i)`. */
  function Factors(pts: seq<Vec3>, probe: Vec3, norm: Vec3 -> real): (fa: seq<real>)
    requires Regular(pts, probe, norm)
    ensures |fa| == |Differences(pts)|
  {
    if |pts| == 0 then []
    else
      seq(|pts| - 1, i requires 0 <= i < |pts| - 1 =>
        (norm(Sub(probe, pts[i + 1])) + norm(Sub(probe, pts[i]))) / Denominator(pts, probe, norm, i))
  }

  /** `COIL.vecpot`: `current * sum(fa * d)`, or `NonFinite` when some
      factor divides by zero. The potential is zero for a zero current. */
  function VecPot(c: Coil, probe: Vec3, current: real, norm: Vec3 -> real): (r: Result<Vec3>)
    ensures r.Ok? <==> Regular(c.pts, probe, norm)
    ensures r.Ok? && current == 0.0 ==> r.value == Zero
  {
    if !Regular(c.pts, probe, norm) then Err(NonFinite)
    else Ok(Scale(current, WeightedSum(Factors(c.pts, probe, norm), Differences(c.pts))))
  }

  /** `COIL.bfield`: it recomputes the potential `A` of `vecpot` and returns
      `1e-7 * (current * sum(fa * v) - probe × A)`. */
  function BField(c: Coil, probe: Vec3, current: real, norm: Vec3 -> real): (r: Result<Vec3>)
    ensures r.Ok? <==> VecPot(c, probe, current, norm).Ok?
    ensures r.Ok? ==>
      r.value == Scale(BiotSavartFactor,
                       Sub(Scale(current, WeightedSum(Factors(c.pts, probe, norm), Moments(c.pts))),
                           Cross(probe, VecPot(c, probe, current, norm).value)))
  {
    if !Regular(c.pts, probe, norm) then Err(NonFinite)
    else
      var fa := Factors(c.pts, probe, norm);
      var a := Scale(current, WeightedSum(fa, Differences(c.pts)));
      Ok(Scale(BiotSavartFactor, Sub(Scale(current, WeightedSum(fa, Moments(c.pts))), Cross(probe, a))))
  }

  /** The Biot–Savart terms `d[i] × (probe - p[i])`, one per segment. */
  function SegmentFields(pts: seq<Vec3>, probe: Vec3): (t: seq<Vec3>)
    ensures |t| == |Differences(pts)|
  {
    var d := Differences(pts);
    seq(|d|, i requires 0 <= i < |d| => Cross(d[i], Sub(probe, pts[i])))
  }

  /** The terms `probe × d[i]` that `probe × A` distributes into. */
  function ProbeMoments(pts: seq<Vec3>, probe: Vec3): (u: seq<Vec3>)
    ensures |u| == |Differences(pts)|
  {
    var d := Differences(pts);
    seq(|d|, i requires 0 <= i < |d| => Cross(probe, d[i]))
  }

  /** The moment trick of `bfield` is the textbook sum: the field equals
      `1e-7 * current * sum(fa[i] * (d[i] × (probe - p[i])))`. */
  lemma BFieldBiotSavart(c: Coil, probe: Vec3, current: real, norm: Vec3 -> real)
    requires Regular(c.pts, probe, norm)
    ensures BField(c, probe, current, norm) ==
            Ok(Scale(BiotSavartFactor * current, WeightedSum(Factors(c.pts, probe, norm), SegmentFields(c.pts, probe))))
  {
    BFieldMoments(c, probe, current, norm);
  }

  /** `MomentIdentity` at the factors of one coil. */
  lemma BFieldMoments(c: Coil, probe: Vec3, current: real, norm: Vec3 -> real)
    requires Regular(c.pts, probe, norm)
    ensures var fa := Factors(c.pts, probe, norm);
            Scale(BiotSavartFactor, Sub(Scale(current, WeightedSum(fa, Moments(c.pts))),
                                        Cross(probe, Scale(current, WeightedSum(fa, Differences(c.pts))))))
            == Scale(BiotSavartFactor * current, WeightedSum(fa, SegmentFields(c.pts, probe)))
  {
    MomentIdentity(c.pts, probe, Factors(c.pts, probe, norm), BiotSavartFactor, current);
  }

  /** The algebra behind `BFieldBiotSavart`, for any segment weights `fa`. */
  lemma MomentIdentity(pts: seq<Vec3>, probe: Vec3, fa: seq<real>, f: real, current: real)
    requires |fa| == |Differences(pts)|
    ensures Scale(f, Sub(Scale(current, WeightedSum(fa, Moments(pts))),
                         Cross(probe, Scale(current, WeightedSum(fa, Differences(pts))))))
         == Scale(f * current, WeightedSum(fa, SegmentFields(pts, probe)))
  {
    MomentSums(pts, probe, fa);
    KernelAlgebra(f, current, probe, WeightedSum(fa, Moments(pts)), WeightedSum(fa, Differences(pts)));
  }

  /** The two sums `MomentIdentity` substitutes: `probe × sum(fa d)` and
      `sum(fa (d × (probe - p)))`. */
  lemma MomentSums(pts: seq<Vec3>, probe: Vec3, fa: seq<real>)
    requires |fa| == |Differences(pts)|
    ensures WeightedSum(fa, SegmentFields(pts, probe))
         == Sub(WeightedSum(fa, Moments(pts)), Cross(probe, WeightedSum(fa, Differences(pts))))
  {
    var d, v, t, u := Differences(pts), Moments(pts), SegmentFields(pts, probe), ProbeMoments(pts, probe);
    ProbeMomentsEntries(pts, probe);
    CrossWeightedSum(probe, fa, d, u);
    SegmentFieldsSplit(pts, probe);
    WeightedSumSub(fa, v, u, t);
  }

  lemma ProbeMomentsEntries(pts: seq<Vec3>, probe: Vec3)
    ensures forall i :: 0 <= i < |Differences(pts)| ==> ProbeMoments(pts, probe)[i] == Cross(probe, Differences(pts)[i])
  {
  }

  /** Term by term, `d[i] × (probe - p[i]) = v[i] - probe × d[i]`. */
  lemma SegmentFieldsSplit(pts: seq<Vec3>, probe: Vec3)
    ensures forall i :: 0 <= i < |Differences(pts)| ==>
              SegmentFields(pts, probe)[i] == Sub(Moments(pts)[i], ProbeMoments(pts, probe)[i])
  {
    var d := Differences(pts);
    forall i | 0 <= i < |d|
      ensures SegmentFields(pts, probe)[i] == Sub(Moments(pts)[i], ProbeMoments(pts, probe)[i])
    {
      SegmentFieldTerm(pts[i], probe, d[i]);
    }
  }

  /** One term: `d × (probe - p) = p × d - probe × d`. */
  lemma SegmentFieldTerm(p: Vec3, probe: Vec3, d: Vec3)
    ensures Cross(d, Sub(probe, p)) == Sub(Cross(p, d), Cross(probe, d))
  {
    CrossAntiSymmetric(Sub(probe, p), d);
    CrossSubLeft(probe, p, d);
    NegSub(Cross(probe, d), Cross(p, d));
  }

  /** `f (I m - probe × (I w)) = (f I)(m - probe × w)`. */
  lemma KernelAlgebra(f: real, current: real, probe: Vec3, m: Vec3, w: Vec3)
    ensures Scale(f, Sub(Scale(current, m), Cross(probe, Scale(current, w))))
         == Scale(f * current, Sub(m, Cross(probe, w)))
  {
    CrossScaleRight(current, probe, w);
    ScaleSub(current, m, Cross(probe, w));
    ScaleScale(f, current, Sub(m, Cross(probe, w)));
  }

  /** Scaling the current scales the potential. */
  lemma VecPotScales(c: Coil, probe: Vec3, k: real, current: real, norm: Vec3 -> real)
    requires Regular(c.pts, probe, norm)
    ensures VecPot(c, probe, k * current, norm).value == Scale(k, VecPot(c, probe, current, norm).value)
  {
    ScaleScale(k, current, WeightedSum(Factors(c.pts, probe, norm), Differences(c.pts)));
  }

  /** Scaling the current scales the field. */
  lemma BFieldScales(c: Coil, probe: Vec3, k: real, current: real, norm: Vec3 -> real)
    requires Regular(c.pts, probe, norm)
    ensures BField(c, probe, k * current, norm).value == Scale(k, BField(c, probe, current, norm).value)
  {
    var fa := Factors(c.pts, probe, norm);
    KernelScales(BiotSavartFactor, k, current, k * current, probe,
                 WeightedSum(fa, Moments(c.pts)), WeightedSum(fa, Differences(c.pts)));
  }

  /** The kernel `f (I m - probe × (I w))` of `bfield` is linear in `I`. */
  lemma KernelScales(f: real, k: real, current: real, kc: real, probe: Vec3, m: Vec3, w: Vec3)
    requires kc == k * current
    ensures Scale(f, Sub(Scale(kc, m), Cross(probe, Scale(kc, w))))
         == Scale(k, Scale(f, Sub(Scale(current, m), Cross(probe, Scale(current, w)))))
  {
    KernelAlgebra(f, kc, probe, m, w);
    KernelAlgebra(f, current, probe, m, w);
    ScaleFactors(k, f, current, kc, Sub(m, Cross(probe, w)));
  }

  /** `(f (k I)) w = k ((f I) w)`. */
  lemma ScaleFactors(k: real, f: real, current: real, kc: real, w: Vec3)
    requires kc == k * current
    ensures Scale(f * kc, w) == Scale(k, Scale(f * current, w))
  {
    assert f * kc == k * (f * current);
    ScaleScale(k, f * current, w);
  }

  // ---------------------------------------------------------------------
  // Geometry of one coil

  /** `geomCenter`: the mean of the points; numpy's mean of no points is nan. */
  function GeomCenter(pts: seq<Vec3>): (r: Result<Vec3>)
    ensures r.Ok? <==> |pts| > 0
  {
    if |pts| == 0 then Err(NonFinite) else Ok(Scale(1.0 / (|pts| as real), Sum(pts)))
  }

  /** The deviations of the points from their centre. */
  function Deviations(pts: seq<Vec3>, center: Vec3): (ds: seq<Vec3>)
    ensures |ds| == |pts|
  {
    seq(|pts|, i requires 0 <= i < |pts| => Sub(pts[i], center))
  }

  /** The centre is the balance point: the deviations from it cancel. */
  lemma CenterBalances(pts: seq<Vec3>)
    requires |pts| > 0
    ensures Sum(Deviations(pts, GeomCenter(pts).value)) == Zero
  {
    var n := |pts| as real;
    var s := Sum(pts);
    var c := GeomCenter(pts).value;
    assert c == Scale(1.0 / n, s);
    SumDeviations(pts, c);
    InverseScale(n, s);
    SubSelf(s);
  }

  /** Summing deviations from any point `c` subtracts `c` once per point. */
  lemma {:induction false} SumDeviations(pts: seq<Vec3>, c: Vec3)
    ensures Sum(Deviations(pts, c)) == Sub(Sum(pts), Scale(|pts| as real, c))
  {
    if |pts| == 0 {
      ScaleByZero(c);
    } else {
      var n := |pts| - 1;
      SumDeviations(pts[1..], c);
      assert Deviations(pts, c)[1..] == Deviations(pts[1..], c);
      ScaleSucc(n as real, c);
      AddComm(Scale(n as real, c), c);
      AddSub(pts[0], c, Sum(pts[1..]), Scale(n as real, c));
    }
  }

  /** `d` is the distance from `p` to the nearest of the surface points:
      its square bounds every squared distance from below and equals one. */
  ghost predicate NearestDistance(p: Vec3, surf: seq<Vec3>, d: real) {
    && d >= 0.0
    && (forall j :: 0 <= j < |surf| ==> d * d <= Dist2(p, surf[j]))
    && (exists j :: 0 <= j < |surf| && d * d == Dist2(p, surf[j]))
  }

  /** `d` is the row of `surfDist` for the coil point `p`: the nearest
      distance, and 0 when `p` is itself a surface point. */
  ghost predicate SurfRow(p: Vec3, surf: seq<Vec3>, d: real) {
    NearestDistance(p, surf, d) && (p in surf ==> d == 0.0)
  }

  /** `surfDist`: for every coil point the distance to the nearest surface
      point, through the brute-force minimum of the squared distances; a coil
      point lying on the surface gets distance 0. numpy refuses the minimum
      along an axis of length zero, even when there are no rows to reduce,
      so an empty surface fails whatever the coil. */
  method SurfDist(pts: seq<Vec3>, surf: seq<Vec3>, sqrt: real -> real) returns (r: Result<seq<real>>)
    requires IsSqrt(sqrt)
    ensures r.Err? <==> |surf| == 0
    ensures r.Err? ==> r.fault == EmptyReduction
    ensures r.Ok? ==> |r.value| == |pts|
    ensures r.Ok? ==> forall i :: 0 <= i < |pts| ==> SurfRow(pts[i], surf, r.value[i])
  {
    if |surf| == 0 {
      return Err(EmptyReduction);
    }
    var dist := SurfRows(pts, surf, sqrt);
    return Ok(dist);
  }

  /** The rows of `surfDist` for a non-empty surface. */
  method SurfRows(pts: seq<Vec3>, surf: seq<Vec3>, sqrt: real -> real) returns (dist: seq<real>)
    requires IsSqrt(sqrt)
    requires |surf| > 0
    ensures |dist| == |pts|
    ensures forall i :: 0 <= i < |pts| ==> SurfRow(pts[i], surf, dist[i])
  {
    dist := [];
    var i := 0;
    while i < |pts|
      invariant 0 <= i <= |pts|
      invariant |dist| == i
      invariant forall a :: 0 <= a < i ==> SurfRow(pts[a], surf, dist[a])
    {
      var root := NearestDist(pts[i], surf, sqrt);
      dist := dist + [root];
      i := i + 1;
    }
  }

  /** One row of `surfDist`: `sqrt(min(dl2))` for the coil point `p`. */
  method NearestDist(p: Vec3, surf: seq<Vec3>, sqrt: real -> real) returns (d: real)
    requires IsSqrt(sqrt)
    requires |surf| > 0
    ensures NearestDistance(p, surf, d)
    ensures p in surf ==> d == 0.0
  {
    var m := MinDist2(p, surf);
    var dl2 := Dist2(p, surf[m]);
    NormNonNegative(Sub(p, surf[m]));
    d := sqrt(dl2);
    NearestFromMin(p, surf, m, d);
    if p in surf {
      OnSurface(p, surf, m);
    }
  }

  /** Index of a surface point nearest to `p` (`np.min(dl2, axis=1)`). */
  method MinDist2(p: Vec3, surf: seq<Vec3>) returns (m: nat)
    requires |surf| > 0
    ensures m < |surf|
    ensures forall j :: 0 <= j < |surf| ==> Dist2(p, surf[m]) <= Dist2(p, surf[j])
  {
    m := 0;
    var j := 1;
    while j < |surf|
      invariant 1 <= j <= |surf|
      invariant m < j
      invariant forall k :: 0 <= k < j ==> Dist2(p, surf[m]) <= Dist2(p, surf[k])
    {
      if Dist2(p, surf[j]) < Dist2(p, surf[m]) {
        m := j;
      }
      j := j + 1;
    }
  }

  /** A nearest surface point to a point of the surface is at distance 0. */
  lemma OnSurface(p: Vec3, surf: seq<Vec3>, m: nat)
    requires m < |surf| && p in surf
    requires forall j :: 0 <= j < |surf| ==> Dist2(p, surf[m]) <= Dist2(p, surf[j])
    ensures Dist2(p, surf[m]) == 0.0
  {
    var j :| 0 <= j < |surf| && surf[j] == p;
    assert Dist2(p, surf[m]) <= Dist2(p, p);
    SelfNearest(p, surf[m]);
  }

  lemma SelfNearest(p: Vec3, q: Vec3)
    requires Dist2(p, q) <= Dist2(p, p)
    ensures Dist2(p, q) == 0.0
  {
    AtMostSelf(p, q);
    NonPositiveDist(p, q);
  }

  lemma AtMostSelf(p: Vec3, q: Vec3)
    requires Dist2(p, q) <= Dist2(p, p)
    ensures Dist2(p, q) <= 0.0
  {
    DistSelf(p);
  }

  /** A squared distance is never negative, so one at most zero is zero. */
  lemma NonPositiveDist(p: Vec3, q: Vec3)
    requires Dist2(p, q) <= 0.0
    ensures Dist2(p, q) == 0.0
  {
    NormNonNegative(Sub(p, q));
  }

  lemma NearestFromMin(p: Vec3, surf: seq<Vec3>, m: nat, d: real)
    requires m < |surf|
    requires forall j :: 0 <= j < |surf| ==> Dist2(p, surf[m]) <= Dist2(p, surf[j])
    requires d >= 0.0 && d * d == Dist2(p, surf[m])
    ensures NearestDistance(p, surf, d)
  {
    assert 0 <= m < |surf| && d * d == Dist2(p, surf[m]);
  }
}
