/** `COILSET.blenderCoil`: every coil of every group is swept with
    `finiteBuildCoil(width=dist, height=dist)` in its default centroid
    frame, and the sweeps are laid out as the vertex and face lists Blender
    renders. `spline_tangent` is modelled by where it fails; the derivatives
    it returns otherwise, and the numerical functions, are parameters, as in
    `FiniteBuild`. */
module Blender {
  import opened Vectors
  import opened Results
  import opened Coils
  import opened CoilGroups
  import opened CoilSets
  import FiniteBuild
  import opened BlenderMesh

  /** The spline tangent and second derivative of a coil at its points. */
  datatype Derivs = Derivs(tangent: seq<Vec3>, accel: seq<Vec3>)

  /** The spline gives one derivative per filament point. */
  predicate Fits(spline: Coil -> Derivs, c: Coil) {
    |spline(c).tangent| == |c.pts| && |spline(c).accel| == |c.pts|
  }

  /** The default order of `spline_tangent`'s spline. */
  const SplineOrder := 3

  /** Too few points for a spline of that order. */
  predicate Short(c: Coil) {
    |c.pts| <= SplineOrder
  }

  /** `spline_tangent()` as `finiteBuildCoil` calls it: `2*pi/(len(x) - 1)`
      divides by zero for a single point, and `splrep` refuses a cubic
      through three points or fewer. */
  function SplineTangent(c: Coil, spline: Coil -> Derivs): (r: Result<Derivs>)
    ensures r.Ok? <==> !Short(c)
    ensures |c.pts| == 1 ==> r == Err(ZeroDivision)
    ensures r.Err? && |c.pts| != 1 ==> r == Err(TooFewPoints)
    ensures r.Ok? ==> r.value == spline(c)
  {
    if |c.pts| == 1 then Err(ZeroDivision)
    else if Short(c) then Err(TooFewPoints)
    else Ok(spline(c))
  }

  /** The coils of the first `n` groups, group by group and within a group
      in order: the order of the loops over `i` and `j`. */
  function SetCoils(groups: seq<CoilGroup>, n: nat): (coils: seq<Coil>)
    requires n <= |groups|
    ensures forall c :: c in coils <==> exists i :: 0 <= i < n && c in groups[i].coils
  {
    if n == 0 then [] else SetCoils(groups, n - 1) + groups[n - 1].coils
  }

  /** All coils of the set, in the order `blenderCoil` visits them. */
  function AllCoils(cs: CoilSet): seq<Coil> {
    SetCoils(cs.groups, |cs.groups|)
  }

  /** Some coil of some group is too short for the spline. */
  predicate HasShortCoil(cs: CoilSet) {
    exists i, j :: 0 <= i < |cs.groups| && 0 <= j < |cs.groups[i].coils| && Short(cs.groups[i].coils[j])
  }

  /** Some coil of the list is too short for the spline. */
  predicate AnyShort(coils: seq<Coil>) {
    exists k :: 0 <= k < |coils| && Short(coils[k])
  }

  /** The first coil from `i` on that is too short for the spline: the one
      whose exception ends the loop. */
  function FirstShort(coils: seq<Coil>, i: nat): (k: nat)
    requires i <= |coils| && exists j :: i <= j < |coils| && Short(coils[j])
    ensures i <= k < |coils| && Short(coils[k])
    ensures forall j :: i <= j < k ==> !Short(coils[j])
    decreases |coils| - i
  {
    if Short(coils[i]) then i else FirstShort(coils, i + 1)
  }

  /** `finiteBuildCoil(width=dist, height=dist)` of one coil. */
  function Build(c: Coil, dist: real, spline: Coil -> Derivs, m: FiniteBuild.Math): (r: Result<seq<seq<Vec3>>>)
    requires !Short(c) ==> Fits(spline, c)
    ensures Short(c) ==> r == Err(SplineTangent(c, spline).fault)
  {
    var d :- SplineTangent(c, spline);
    FiniteBuild.FiniteBuildCoil(c.pts, d.tangent, d.accel, dist, dist, "centroid",
                                FiniteBuild.Default, FiniteBuild.Default, m)
  }

  /** The sweep of one coil as corner columns: column `k` holds
      `xx[0..3][:, k]`. Past the spline the centroid frame raises nothing,
      so a coil long enough for the spline fails only by a non-finite
      frame. */
  function Sweep(c: Coil, dist: real, spline: Coil -> Derivs, m: FiniteBuild.Math): (r: Result<seq<Corners<Vec3>>>)
    requires !Short(c) ==> Fits(spline, c)
    ensures r.Ok? <==> Build(c, dist, spline, m).Ok?
    ensures Short(c) ==> r == Err(SplineTangent(c, spline).fault)
    ensures !Short(c) && r.Err? ==> r == Err(NonFinite)
    ensures r.Ok? ==> |r.value| == |c.pts|
    ensures r.Ok? ==> forall k, q :: 0 <= k < |c.pts| && 0 <= q < 4 ==> Corner(r.value[k], q) == Build(c, dist, spline, m).value[q][k]
  {
    var rows :- Build(c, dist, spline, m);
    Ok(seq(|c.pts|, k requires 0 <= k < |c.pts| => Corners(rows[0][k], rows[1][k], rows[2][k], rows[3][k])))
  }

  /** The sweeps of a list of coils, one after the other. The first coil too
      short for the spline raises, whatever came before it; without one, any
      non-finite sweep spoils them all. */
  function Sweeps(coils: seq<Coil>, dist: real, spline: Coil -> Derivs, m: FiniteBuild.Math)
    : (r: Result<seq<seq<Corners<Vec3>>>>)
    requires forall i :: 0 <= i < |coils| ==> !Short(coils[i]) ==> Fits(spline, coils[i])
    ensures r.Ok? <==> forall i :: 0 <= i < |coils| ==> Sweep(coils[i], dist, spline, m).Ok?
    ensures AnyShort(coils) ==> r == Err(SplineTangent(coils[FirstShort(coils, 0)], spline).fault)
    ensures !AnyShort(coils) && r.Err? ==> r == Err(NonFinite)
    ensures r.Ok? ==> |r.value| == |coils|
    ensures r.Ok? ==> forall i :: 0 <= i < |coils| ==> Ok(r.value[i]) == Sweep(coils[i], dist, spline, m)
  {
    if AnyShort(coils) then
      var k := FirstShort(coils, 0);
      assert Sweep(coils[k], dist, spline, m).Err?;
      Err(SplineTangent(coils[k], spline).fault)
    else if forall i :: 0 <= i < |coils| ==> Sweep(coils[i], dist, spline, m).Ok? then
      Ok(seq(|coils|, i requires 0 <= i < |coils| && Sweep(coils[i], dist, spline, m).Ok? =>
        Sweep(coils[i], dist, spline, m).value))
    else Err(NonFinite)
  }

  /** `blenderCoil(dist)`. The first coil, in visiting order, with too few
      points for the spline raises from `spline_tangent`; a coil of no points
      is one of them, so the `IndexError` at `xx[0, -1]` is never reached.
      Otherwise a non-finite sweep makes the result non-finite, and else the
      lists are the mesh of the sweeps, four vertices per point and eight
      faces per point short of one per coil. */
  method BlenderCoil(cs: CoilSet, dist: real, spline: Coil -> Derivs, m: FiniteBuild.Math)
    returns (r: Result<Mesh<Vec3>>)
    requires forall c :: !Short(c) ==> Fits(spline, c)
    ensures r == Err(ZeroDivision) || r == Err(TooFewPoints) <==> HasShortCoil(cs)
    ensures AnyShort(AllCoils(cs)) ==> r == Err(SplineTangent(AllCoils(cs)[FirstShort(AllCoils(cs), 0)], spline).fault)
    ensures r.Ok? <==> !HasShortCoil(cs) && Sweeps(AllCoils(cs), dist, spline, m).Ok?
    ensures !HasShortCoil(cs) && r.Err? ==> r == Err(NonFinite)
    ensures r.Ok? ==> Meshes(Sweeps(AllCoils(cs), dist, spline, m).value, r.value)
    ensures r.Ok? ==> FacesInBlock(Sweeps(AllCoils(cs), dist, spline, m).value, r.value.faces)
    ensures r.Ok? ==> |r.value.vertices| == 4 * TotalPoints(AllCoils(cs))
    ensures r.Ok? ==> |r.value.faces| == 8 * (TotalPoints(AllCoils(cs)) - |AllCoils(cs)|)
  {
    var coils := AllCoils(cs);
    ShortCoilListed(cs);
    var sweeps := Sweeps(coils, dist, spline, m);
    if sweeps.Err? {
      return sweeps.PropagateFailure();
    }
    SweptPoints(coils, sweeps.value, dist, spline, m);
    r := MeshCoils(sweeps.value);
    MeshSize(sweeps.value, r.value);
  }

  /** A coil too short for the spline is in some group exactly when it is in
      the list. */
  lemma ShortCoilListed(cs: CoilSet)
    ensures HasShortCoil(cs) <==> AnyShort(AllCoils(cs))
  {
    var coils := AllCoils(cs);
    if HasShortCoil(cs) {
      var i, j :| 0 <= i < |cs.groups| && 0 <= j < |cs.groups[i].coils| && Short(cs.groups[i].coils[j]);
      assert cs.groups[i].coils[j] in coils;
    }
    if k :| 0 <= k < |coils| && Short(coils[k]) {
      assert coils[k] in coils;
      var i :| 0 <= i < |cs.groups| && coils[k] in cs.groups[i].coils;
      var j :| 0 <= j < |cs.groups[i].coils| && cs.groups[i].coils[j] == coils[k];
    }
  }

  /** The sweeps of non-empty coils have one column per point, so there
      are as many columns as filament points. */
  lemma SweptPoints(coils: seq<Coil>, sweeps: seq<seq<Corners<Vec3>>>, dist: real, spline: Coil -> Derivs, m: FiniteBuild.Math)
    requires forall i :: 0 <= i < |coils| ==> !Short(coils[i]) && Fits(spline, coils[i])
    requires Sweeps(coils, dist, spline, m) == Ok(sweeps)
    ensures forall i :: 0 <= i < |sweeps| ==> |sweeps[i]| > 0
    ensures Points(sweeps) == TotalPoints(coils)
  {
    SameCounts(coils, sweeps);
  }

  lemma {:induction false} SameCounts(coils: seq<Coil>, sweeps: seq<seq<Corners<Vec3>>>)
    requires |sweeps| == |coils| && forall i :: 0 <= i < |coils| ==> |sweeps[i]| == |coils[i].pts|
    ensures Points(sweeps) == TotalPoints(coils)
  {
    if |coils| > 0 {
      SameCounts(coils[1..], sweeps[1..]);
    }
  }
}
