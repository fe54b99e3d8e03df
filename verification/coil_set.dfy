/** A coil set (`COILSET`): its coil groups, and the superposition of the
    coil fields at a probe point (`coilbiot`, `coilvecpot`).

    The set has `ngroups == |groups|` groups; group `i` carries the id
    `i + 1`. The optional current list `extcur` replaces the group currents
    when it is non-empty (Python's truthiness of a list); an index beyond it
    is an IndexError as soon as a group with coils reaches it. A coil whose
    kernel divides by zero makes the sum non-finite. */
module CoilSets {
  import opened Vectors
  import opened Results
  import opened Coils
  import opened CoilGroups

  datatype CoilSet = CoilSet(nfp: int, groups: seq<CoilGroup>)

  /** Which of the two per-coil kernels is summed. */
  datatype Kernel = MagneticField | VectorPotential

  function CoilField(kernel: Kernel, c: Coil, probe: Vec3, current: real, norm: Vec3 -> real): (r: Result<Vec3>)
    ensures r.Ok? <==> Regular(c.pts, probe, norm)
    ensures r.Err? ==> r == Err(NonFinite)
  {
    match kernel
    case MagneticField => BField(c, probe, current, norm)
    case VectorPotential => VecPot(c, probe, current, norm)
  }

  /** Both kernels are linear in the current. */
  lemma KernelScales(kernel: Kernel, c: Coil, probe: Vec3, k: real, current: real, norm: Vec3 -> real)
    requires Regular(c.pts, probe, norm)
    ensures CoilField(kernel, c, probe, k * current, norm).value == Scale(k, CoilField(kernel, c, probe, current, norm).value)
  {
    match kernel
    case MagneticField => BFieldScales(c, probe, k, current, norm);
    case VectorPotential => VecPotScales(c, probe, k, current, norm);
  }

  /** The per-coil kernel at one probe point, as a function of the coil and
      its current. The sums below are stated over any such function. */
  function FieldOf(kernel: Kernel, probe: Vec3, norm: Vec3 -> real): (Coil, real) -> Result<Vec3> {
    (c: Coil, current: real) => CoilField(kernel, c, probe, current, norm)
  }

  /** `bx = bx + bxt`: a non-finite term makes the sum non-finite. */
  function Plus(a: Result<Vec3>, b: Result<Vec3>): (r: Result<Vec3>)
    ensures r.Ok? <==> a.Ok? && b.Ok?
  {
    if a.Err? then a else if b.Err? then b else Ok(Add(a.value, b.value))
  }

  /** The current used for group `i`: `extcur[i]` when `extcur` is given,
      else the group's own. Past the end of `extcur` the value is never
      used: reaching such a group with coils is an IndexError. */
  function CurrentFor(cs: CoilSet, extcur: seq<real>, i: nat): real
    requires i < |cs.groups|
  {
    if |extcur| == 0 then cs.groups[i].current
    else if i < |extcur| then extcur[i]
    else 0.0
  }

  /** `extcur[i]` is evaluated for group `i` and lies out of range. */
  predicate FaultAt(cs: CoilSet, extcur: seq<real>, i: nat)
    requires i < |cs.groups|
  {
    |extcur| > 0 && i >= |extcur| && |cs.groups[i].coils| > 0
  }

  predicate IndexFault(cs: CoilSet, extcur: seq<real>) {
    exists i :: 0 <= i < |cs.groups| && FaultAt(cs, extcur, i)
  }

  /** The running sum after the first `m` coils of a group were added to `start`. */
  function CoilsAfter(f: (Coil, real) -> Result<Vec3>, start: Result<Vec3>, coils: seq<Coil>, m: nat, current: real): Result<Vec3>
    requires m <= |coils|
  {
    if m == 0 then start
    else Plus(CoilsAfter(f, start, coils, m - 1, current), f(coils[m - 1], current))
  }

  /** The running sum after the first `n` groups. */
  function GroupsTo(f: (Coil, real) -> Result<Vec3>, cs: CoilSet, extcur: seq<real>, n: nat): Result<Vec3>
    requires n <= |cs.groups|
  {
    if n == 0 then Ok(Zero)
    else
      var g := cs.groups[n - 1];
      CoilsAfter(f, GroupsTo(f, cs, extcur, n - 1), g.coils, |g.coils|, CurrentFor(cs, extcur, n - 1))
  }

  /** What the double loop returns for the per-coil kernel `f`. */
  function Superpose(f: (Coil, real) -> Result<Vec3>, cs: CoilSet, extcur: seq<real>): Result<Vec3> {
    if IndexFault(cs, extcur) then Err(IndexOutOfRange) else GroupsTo(f, cs, extcur, |cs.groups|)
  }

  /** The double loop of `coilbiot` / `coilvecpot`. */
  method SumOverCoils(f: (Coil, real) -> Result<Vec3>, cs: CoilSet, extcur: seq<real>) returns (r: Result<Vec3>)
    ensures r == Superpose(f, cs, extcur)
  {
    var acc: Result<Vec3> := Ok(Zero);
    var i := 0;
    while i < |cs.groups|
      invariant 0 <= i <= |cs.groups|
      invariant forall a :: 0 <= a < i ==> !FaultAt(cs, extcur, a)
      invariant acc == GroupsTo(f, cs, extcur, i)
    {
      var g := cs.groups[i];
      if |g.coils| > 0 {
        // the source reads `extcur[i]` inside the loop over the coils
        var current := g.current;
        if |extcur| > 0 {
          if i >= |extcur| {
            assert FaultAt(cs, extcur, i);
            return Err(IndexOutOfRange);
          }
          current := extcur[i];
        }
        acc := AddCoils(f, acc, g.coils, current);
      }
      i := i + 1;
    }
    return acc;
  }

  /** The inner loop: add every coil of one group at one current. */
  method AddCoils(f: (Coil, real) -> Result<Vec3>, start: Result<Vec3>, coils: seq<Coil>, current: real)
    returns (acc: Result<Vec3>)
    ensures acc == CoilsAfter(f, start, coils, |coils|, current)
  {
    acc := start;
    var j := 0;
    while j < |coils|
      invariant 0 <= j <= |coils|
      invariant acc == CoilsAfter(f, start, coils, j, current)
    {
      acc := Plus(acc, f(coils[j], current));
      j := j + 1;
    }
  }

  /** `coilbiot(x, y, z, extcur)`. */
  method CoilBiot(cs: CoilSet, probe: Vec3, extcur: seq<real>, norm: Vec3 -> real) returns (r: Result<Vec3>)
    ensures r == Superpose(FieldOf(MagneticField, probe, norm), cs, extcur)
  {
    r := SumOverCoils(FieldOf(MagneticField, probe, norm), cs, extcur);
  }

  /** `coilvecpot(x, y, z, extcur)`. */
  method CoilVecPot(cs: CoilSet, probe: Vec3, extcur: seq<real>, norm: Vec3 -> real) returns (r: Result<Vec3>)
    ensures r == Superpose(FieldOf(VectorPotential, probe, norm), cs, extcur)
  {
    r := SumOverCoils(FieldOf(VectorPotential, probe, norm), cs, extcur);
  }

  // ---------------------------------------------------------------------
  // Properties of the superposition

  /** Every coil of every group sees finite factors at the probe. */
  predicate AllRegular(cs: CoilSet, probe: Vec3, norm: Vec3 -> real) {
    forall i, j :: 0 <= i < |cs.groups| && 0 <= j < |cs.groups[i].coils| ==>
      Regular(cs.groups[i].coils[j].pts, probe, norm)
  }

  /** A per-coil kernel that fails, always as non-finite, exactly on the
      coils with a zero denominator. */
  ghost predicate FailsOnIrregular(f: (Coil, real) -> Result<Vec3>, probe: Vec3, norm: Vec3 -> real) {
    forall c: Coil, current: real ::
      (f(c, current).Ok? <==> Regular(c.pts, probe, norm)) && (f(c, current).Err? ==> f(c, current) == Err(NonFinite))
  }

  lemma KernelFails(kernel: Kernel, probe: Vec3, norm: Vec3 -> real)
    ensures FailsOnIrregular(FieldOf(kernel, probe, norm), probe, norm)
  {
  }

  /** The sum fails with an IndexError exactly when some group with coils
      lies past a given `extcur`; otherwise it is finite exactly when every
      coil is regular, and non-finite when not. */
  lemma SuperposeOutcome(kernel: Kernel, cs: CoilSet, extcur: seq<real>, probe: Vec3, norm: Vec3 -> real)
    ensures Superpose(FieldOf(kernel, probe, norm), cs, extcur) == Err(IndexOutOfRange) <==> IndexFault(cs, extcur)
    ensures Superpose(FieldOf(kernel, probe, norm), cs, extcur).Ok? <==> !IndexFault(cs, extcur) && AllRegular(cs, probe, norm)
    ensures !IndexFault(cs, extcur) && !AllRegular(cs, probe, norm) ==> Superpose(FieldOf(kernel, probe, norm), cs, extcur) == Err(NonFinite)
  {
    KernelFails(kernel, probe, norm);
    GroupsToOutcome(FieldOf(kernel, probe, norm), cs, extcur, |cs.groups|, probe, norm);
  }

  lemma {:induction false} GroupsToOutcome(f: (Coil, real) -> Result<Vec3>, cs: CoilSet, extcur: seq<real>, n: nat, probe: Vec3, norm: Vec3 -> real)
    requires FailsOnIrregular(f, probe, norm)
    requires n <= |cs.groups|
    ensures GroupsTo(f, cs, extcur, n).Err? ==> GroupsTo(f, cs, extcur, n) == Err(NonFinite)
    ensures GroupsTo(f, cs, extcur, n).Ok? <==>
            forall i, j :: 0 <= i < n && 0 <= j < |cs.groups[i].coils| ==> Regular(cs.groups[i].coils[j].pts, probe, norm)
  {
    if n > 0 {
      var g := cs.groups[n - 1];
      GroupsToOutcome(f, cs, extcur, n - 1, probe, norm);
      CoilsAfterOutcome(f, probe, norm, GroupsTo(f, cs, extcur, n - 1), g.coils, |g.coils|, CurrentFor(cs, extcur, n - 1));
    }
  }

  lemma {:induction false} CoilsAfterOutcome(f: (Coil, real) -> Result<Vec3>, probe: Vec3, norm: Vec3 -> real, start: Result<Vec3>,
                                             coils: seq<Coil>, m: nat, current: real)
    requires FailsOnIrregular(f, probe, norm)
    requires m <= |coils|
    ensures CoilsAfter(f, start, coils, m, current).Err? ==>
            CoilsAfter(f, start, coils, m, current) == start || CoilsAfter(f, start, coils, m, current) == Err(NonFinite)
    ensures CoilsAfter(f, start, coils, m, current).Ok? <==> start.Ok? && forall j :: 0 <= j < m ==> Regular(coils[j].pts, probe, norm)
  {
    if m > 0 {
      CoilsAfterOutcome(f, probe, norm, start, coils, m - 1, current);
    }
  }

  /** The group currents, as an explicit `extcur`. */
  function GroupCurrents(cs: CoilSet): (e: seq<real>)
    ensures |e| == |cs.groups|
    ensures forall i :: 0 <= i < |e| ==> e[i] == cs.groups[i].current
  {
    seq(|cs.groups|, i requires 0 <= i < |cs.groups| => cs.groups[i].current)
  }

  /** Leaving `extcur` out is the same as passing the group currents. */
  lemma DefaultCurrents(f: (Coil, real) -> Result<Vec3>, cs: CoilSet)
    ensures Superpose(f, cs, []) == Superpose(f, cs, GroupCurrents(cs))
  {
    var e := GroupCurrents(cs);
    assert !IndexFault(cs, e);
    assert !IndexFault(cs, []);
    GroupsToCurrents(f, cs, [], e, |cs.groups|);
  }

  /** The sum depends on `extcur` only through the currents it assigns. */
  lemma {:induction false} GroupsToCurrents(f: (Coil, real) -> Result<Vec3>, cs: CoilSet, e1: seq<real>, e2: seq<real>, n: nat)
    requires n <= |cs.groups|
    requires forall i :: 0 <= i < n ==> CurrentFor(cs, e1, i) == CurrentFor(cs, e2, i)
    ensures GroupsTo(f, cs, e1, n) == GroupsTo(f, cs, e2, n)
  {
    if n > 0 {
      GroupsToCurrents(f, cs, e1, e2, n - 1);
    }
  }

  function ScaleResult(k: real, r: Result<Vec3>): Result<Vec3> {
    if r.Ok? then Ok(Scale(k, r.value)) else r
  }

  function ScaleCurrents(k: real, extcur: seq<real>): (e: seq<real>)
    ensures |e| == |extcur|
    ensures forall i :: 0 <= i < |e| ==> e[i] == k * extcur[i]
  {
    seq(|extcur|, i requires 0 <= i < |extcur| => k * extcur[i])
  }

  /** A per-coil kernel that is linear in the current, for the factor `k`. */
  ghost predicate ScalesWith(f: (Coil, real) -> Result<Vec3>, k: real) {
    forall c: Coil, current: real :: f(c, k * current) == ScaleResult(k, f(c, current))
  }

  lemma KernelLinear(kernel: Kernel, probe: Vec3, norm: Vec3 -> real, k: real)
    ensures ScalesWith(FieldOf(kernel, probe, norm), k)
  {
    forall c: Coil, current: real
      ensures CoilField(kernel, c, probe, k * current, norm) == ScaleResult(k, CoilField(kernel, c, probe, current, norm))
    {
      CoilScales(kernel, c, probe, k, current, norm);
    }
  }

  lemma CoilScales(kernel: Kernel, c: Coil, probe: Vec3, k: real, current: real, norm: Vec3 -> real)
    ensures CoilField(kernel, c, probe, k * current, norm) == ScaleResult(k, CoilField(kernel, c, probe, current, norm))
  {
    if Regular(c.pts, probe, norm) {
      KernelScales(kernel, c, probe, k, current, norm);
    }
  }

  /** Scaling every entry of a given `extcur` by `k` scales the total
      field and potential by `k`. */
  lemma SuperposeScales(kernel: Kernel, cs: CoilSet, extcur: seq<real>, k: real, probe: Vec3, norm: Vec3 -> real)
    requires |extcur| > 0
    ensures Superpose(FieldOf(kernel, probe, norm), cs, ScaleCurrents(k, extcur))
         == ScaleResult(k, Superpose(FieldOf(kernel, probe, norm), cs, extcur))
  {
    var e := ScaleCurrents(k, extcur);
    assert IndexFault(cs, e) <==> IndexFault(cs, extcur) by {
      assert forall i :: 0 <= i < |cs.groups| ==> (FaultAt(cs, e, i) <==> FaultAt(cs, extcur, i));
    }
    KernelLinear(kernel, probe, norm, k);
    GroupsToScales(FieldOf(kernel, probe, norm), cs, extcur, k, |cs.groups|);
  }

  lemma {:induction false} GroupsToScales(f: (Coil, real) -> Result<Vec3>, cs: CoilSet, extcur: seq<real>, k: real, n: nat)
    requires ScalesWith(f, k)
    requires |extcur| > 0 && n <= |cs.groups|
    ensures GroupsTo(f, cs, ScaleCurrents(k, extcur), n) == ScaleResult(k, GroupsTo(f, cs, extcur, n))
  {
    if n == 0 {
      ScaleZero(k);
    } else {
      var g := cs.groups[n - 1];
      var e := ScaleCurrents(k, extcur);
      GroupsToScales(f, cs, extcur, k, n - 1);
      var current := CurrentFor(cs, extcur, n - 1);
      assert CurrentFor(cs, e, n - 1) == k * current;
      CoilsAfterScales(f, GroupsTo(f, cs, extcur, n - 1), g.coils, |g.coils|, k, current);
    }
  }

  lemma {:induction false} CoilsAfterScales(f: (Coil, real) -> Result<Vec3>, start: Result<Vec3>, coils: seq<Coil>, m: nat, k: real, current: real)
    requires ScalesWith(f, k)
    requires m <= |coils|
    ensures CoilsAfter(f, ScaleResult(k, start), coils, m, k * current) == ScaleResult(k, CoilsAfter(f, start, coils, m, current))
  {
    if m > 0 {
      var c := coils[m - 1];
      var prev := CoilsAfter(f, start, coils, m - 1, current);
      CoilsAfterScales(f, start, coils, m - 1, k, current);
      assert f(c, k * current) == ScaleResult(k, f(c, current));
      if prev.Ok? && f(c, current).Ok? {
        ScaleAdd(k, prev.value, f(c, current).value);
      }
    }
  }
}
