/** The coils file (`read_coils_file`, `write_coils_file`), over token
    records rather than text.

    After the three header lines every line of the file is one record: a
    line of fewer than four tokens leaves its slot at zero, a line of four,
    five or more than six tokens gives a point and its current, and a line
    of exactly six tokens also carries a group id and a group name. */
module CoilsFiles {
  import opened Vectors
  import opened Results
  import opened Coils
  import opened CoilGroups
  import opened CoilSets

  datatype Record =
    | Short
    | Point(p: Vec3, current: real)
    | Tagged(p: Vec3, current: real, id: int, name: string)

  /** The slot of a record in the coordinate and current arrays. */
  function SampleOf(r: Record): Sample {
    if r.Short? then Sample(Zero, 0.0) else Sample(r.p, r.current)
  }

  // ---------------------------------------------------------------------
  // Group ids, names and the group count

  /** The group id a point ends up with: the id of the first annotated
      record at or after it, or 0 when none follows. */
  function NextTag(recs: seq<Record>, i: nat): int
    requires i <= |recs|
    decreases |recs| - i
  {
    if i == |recs| then 0
    else if recs[i].Tagged? then recs[i].id
    else NextTag(recs, i + 1)
  }

  /** Some annotated record before index `k` carries `id`. */
  predicate SeenBefore(recs: seq<Record>, k: nat, id: int)
    requires k <= |recs|
  {
    exists j :: 0 <= j < k && recs[j].Tagged? && recs[j].id == id
  }

  /** A record whose name is kept: annotated, with a non-zero id that no
      earlier annotated record carried. */
  predicate NewName(recs: seq<Record>, k: nat)
    requires k < |recs|
  {
    recs[k].Tagged? && recs[k].id != 0 && !SeenBefore(recs, k, recs[k].id)
  }

  /** The names kept from the first `n` records, in file order. */
  function NewNames(recs: seq<Record>, n: nat): seq<string>
    requires n <= |recs|
  {
    if n == 0 then []
    else NewNames(recs, n - 1) + (if NewName(recs, n - 1) then [recs[n - 1].name] else [])
  }

  /** `max([0] + ids)` over the annotated records among the first `n`. */
  function MaxId(recs: seq<Record>, n: nat): (m: nat)
    requires n <= |recs|
  {
    if n == 0 then 0
    else
      var m := MaxId(recs, n - 1);
      if recs[n - 1].Tagged? && recs[n - 1].id > m then recs[n - 1].id else m
  }

  /** The loop over the records: the back-filled `group` array, the names
      appended when `int(line[4]) not in group`, and `ngroups`. */
  method ScanRecords(recs: seq<Record>) returns (group: seq<int>, names: seq<string>, ngroups: int)
    ensures |group| == |recs|
    ensures forall j :: 0 <= j < |recs| ==> group[j] == NextTag(recs, j)
    ensures names == NewNames(recs, |recs|)
    ensures ngroups == MaxId(recs, |recs|)
  {
    var n := |recs|;
    group := seq(n, j => 0);
    names := [];
    ngroups := 0;
    var last := 0;
    var i := 0;
    while i < n
      invariant 0 <= last <= i <= n && |group| == n
      invariant last > 0 ==> recs[last - 1].Tagged?
      invariant forall j :: 0 <= j < last ==> group[j] == NextTag(recs, j)
      invariant forall j :: last <= j < n ==> group[j] == 0
      invariant forall j :: last <= j < i ==> !recs[j].Tagged?
      invariant names == NewNames(recs, i)
      invariant ngroups == MaxId(recs, i)
    {
      if recs[i].Tagged? {
        var id := recs[i].id;
        NameCheck(recs, group, last, i);
        if id !in group {
          names := names + [recs[i].name];
        }
        ngroups := if ngroups > id then ngroups else id;
        BackFill(recs, group, last, i);
        group := seq(n, j requires 0 <= j < n => if last <= j <= i then id else group[j]);
        last := i + 1;
      }
      i := i + 1;
    }
    forall j | last <= j < n
      ensures NextTag(recs, j) == 0
    {
      NextTagSkip(recs, j, n);
    }
  }

  /** The test `id not in group` of the loop keeps exactly the new non-zero
      ids: the slot of the current record still holds 0, and every earlier
      annotated id has been written into the array. */
  lemma NameCheck(recs: seq<Record>, group: seq<int>, last: nat, i: nat)
    requires last <= i < |recs| == |group| && recs[i].Tagged?
    requires last > 0 ==> recs[last - 1].Tagged?
    requires forall j :: 0 <= j < last ==> group[j] == NextTag(recs, j)
    requires forall j :: last <= j < |recs| ==> group[j] == 0
    requires forall j :: last <= j < i ==> !recs[j].Tagged?
    ensures recs[i].id !in group <==> NewName(recs, i)
  {
    var id := recs[i].id;
    if id in group {
      var k :| 0 <= k < |group| && group[k] == id;
      if k < last {
        NextTagSource(recs, k, last);
      }
    }
    if SeenBefore(recs, i, id) {
      var j :| 0 <= j < i && recs[j].Tagged? && recs[j].id == id;
      assert group[j] == id;
    }
    assert group[i] == 0;
  }

  /** After `group[last:i+1] = id` every slot up to `i` holds its next tag. */
  lemma BackFill(recs: seq<Record>, group: seq<int>, last: nat, i: nat)
    requires last <= i < |recs| && recs[i].Tagged?
    requires forall j :: last <= j < i ==> !recs[j].Tagged?
    ensures forall j :: last <= j <= i ==> NextTag(recs, j) == recs[i].id
  {
    forall j | last <= j <= i
      ensures NextTag(recs, j) == recs[i].id
    {
      NextTagSkip(recs, j, i);
    }
  }

  /** Records without annotation pass the next tag through. */
  lemma {:induction false} NextTagSkip(recs: seq<Record>, j: nat, i: nat)
    requires j <= i <= |recs|
    requires forall t :: j <= t < i ==> !recs[t].Tagged?
    ensures NextTag(recs, j) == NextTag(recs, i)
    decreases i - j
  {
    if j < i {
      NextTagSkip(recs, j + 1, i);
    }
  }

  /** A non-default tag comes from an annotated record at or after `k`,
      before the next annotated record `m - 1`. */
  lemma {:induction false} NextTagSource(recs: seq<Record>, k: nat, m: nat)
    requires k < m <= |recs| && recs[m - 1].Tagged?
    ensures exists j :: k <= j < m && recs[j].Tagged? && recs[j].id == NextTag(recs, k)
    decreases m - k
  {
    if !recs[k].Tagged? {
      NextTagSource(recs, k + 1, m);
    }
  }

  // ---------------------------------------------------------------------
  // Extents, groups and the whole read

  /** Index `k` of `xs` holds its least value. */
  function ArgMin(xs: seq<real>, k: nat): (m: nat)
    requires k < |xs|
    ensures k <= m < |xs|
    ensures forall i :: k <= i < |xs| ==> xs[m] <= xs[i]
    decreases |xs| - k
  {
    if k == |xs| - 1 then k
    else
      var m := ArgMin(xs, k + 1);
      if xs[k] <= xs[m] then k else m
  }

  function ArgMax(xs: seq<real>, k: nat): (m: nat)
    requires k < |xs|
    ensures k <= m < |xs|
    ensures forall i :: k <= i < |xs| ==> xs[i] <= xs[m]
    decreases |xs| - k
  {
    if k == |xs| - 1 then k
    else
      var m := ArgMax(xs, k + 1);
      if xs[m] <= xs[k] then k else m
  }

  /** `min(coords[c])` and `max(coords[c])` for the coordinate `c`. */
  datatype Box = Box(lo: Vec3, hi: Vec3)

  function Xs(ps: seq<Vec3>): (xs: seq<real>)
    ensures |xs| == |ps| && forall i :: 0 <= i < |ps| ==> xs[i] == ps[i].x
  {
    seq(|ps|, i requires 0 <= i < |ps| => ps[i].x)
  }

  function Ys(ps: seq<Vec3>): (ys: seq<real>)
    ensures |ys| == |ps| && forall i :: 0 <= i < |ps| ==> ys[i] == ps[i].y
  {
    seq(|ps|, i requires 0 <= i < |ps| => ps[i].y)
  }

  function Zs(ps: seq<Vec3>): (zs: seq<real>)
    ensures |zs| == |ps| && forall i :: 0 <= i < |ps| ==> zs[i] == ps[i].z
  {
    seq(|ps|, i requires 0 <= i < |ps| => ps[i].z)
  }

  /** Every coordinate of every point lies in the box, and every face of
      the box touches some point. */
  predicate Encloses(b: Box, ps: seq<Vec3>) {
    (forall i :: 0 <= i < |ps| ==> b.lo.x <= ps[i].x <= b.hi.x && b.lo.y <= ps[i].y <= b.hi.y && b.lo.z <= ps[i].z <= b.hi.z) &&
    (exists i :: 0 <= i < |ps| && ps[i].x == b.lo.x) && (exists i :: 0 <= i < |ps| && ps[i].x == b.hi.x) &&
    (exists i :: 0 <= i < |ps| && ps[i].y == b.lo.y) && (exists i :: 0 <= i < |ps| && ps[i].y == b.hi.y) &&
    (exists i :: 0 <= i < |ps| && ps[i].z == b.lo.z) && (exists i :: 0 <= i < |ps| && ps[i].z == b.hi.z)
  }

  /** The extents of the points: numpy's `min` of no values is an error. */
  function Extents(ps: seq<Vec3>): (r: Result<Box>)
    ensures r.Err? <==> |ps| == 0
    ensures r.Err? ==> r.fault == EmptyReduction
    ensures r.Ok? ==> Encloses(r.value, ps)
  {
    if |ps| == 0 then Err(EmptyReduction)
    else
      var xs, ys, zs := Xs(ps), Ys(ps), Zs(ps);
      var lx, hx, ly, hy, lz, hz := ArgMin(xs, 0), ArgMax(xs, 0), ArgMin(ys, 0), ArgMax(ys, 0), ArgMin(zs, 0), ArgMax(zs, 0);
      Ok(Box(Vec3(xs[lx], ys[ly], zs[lz]), Vec3(xs[hx], ys[hy], zs[hz])))
  }

  /** `x[group == id]`: the slots among the first `n` whose tag is `id`,
      in file order. */
  function Select(samples: seq<Sample>, tags: seq<int>, id: int, n: nat): seq<Sample>
    requires n <= |samples| == |tags|
  {
    if n == 0 then []
    else Select(samples, tags, id, n - 1) + (if tags[n - 1] == id then [samples[n - 1]] else [])
  }

  /** Group `i + 1` is read from its selected slots and the `i`-th kept name. */
  predicate GroupReadAs(samples: seq<Sample>, tags: seq<int>, names: seq<string>, i: nat, g: CoilGroup)
    requires |samples| == |tags|
  {
    i < |names| && MakeGroup(names[i], Select(samples, tags, i + 1, |samples|)) == Ok(g)
  }

  /** Group `i + 1` has a name and at least one point. */
  predicate Readable(samples: seq<Sample>, tags: seq<int>, names: seq<string>, i: nat)
    requires |samples| == |tags|
  {
    i < |names| && |Select(samples, tags, i + 1, |samples|)| > 0
  }

  /** The loop `for i in range(ngroups)` building `COILGROUP`s: a missing
      name or a group without points raises an IndexError. */
  function GroupsUpTo(samples: seq<Sample>, tags: seq<int>, names: seq<string>, m: nat): (r: Result<seq<CoilGroup>>)
    requires |samples| == |tags|
    ensures r.Ok? <==> forall i :: 0 <= i < m ==> Readable(samples, tags, names, i)
    ensures r.Err? ==> r.fault == IndexOutOfRange
    ensures r.Ok? ==> |r.value| == m && forall i :: 0 <= i < m ==> GroupReadAs(samples, tags, names, i, r.value[i])
  {
    if m == 0 then Ok([])
    else
      var prev := GroupsUpTo(samples, tags, names, m - 1);
      if prev.Err? then prev
      else if m - 1 >= |names| then assert !Readable(samples, tags, names, m - 1); Err(IndexOutOfRange)
      else
        var g := MakeGroup(names[m - 1], Select(samples, tags, m, |samples|));
        if g.Err? then assert !Readable(samples, tags, names, m - 1); Err(g.fault)
        else Ok(prev.value + [g.value])
  }

  function Samples(recs: seq<Record>): (s: seq<Sample>)
    ensures |s| == |recs| && forall j :: 0 <= j < |recs| ==> s[j] == SampleOf(recs[j])
  {
    seq(|recs|, j requires 0 <= j < |recs| => SampleOf(recs[j]))
  }

  function Tags(recs: seq<Record>): (tags: seq<int>)
    ensures |tags| == |recs| && forall j :: 0 <= j < |recs| ==> tags[j] == NextTag(recs, j)
  {
    seq(|recs|, j requires 0 <= j < |recs| => NextTag(recs, j))
  }

  function Points(s: seq<Sample>): (ps: seq<Vec3>)
    ensures |ps| == |s| && forall j :: 0 <= j < |s| ==> ps[j] == s[j].pt
  {
    seq(|s|, j requires 0 <= j < |s| => s[j].pt)
  }

  datatype Loaded = Loaded(coilset: CoilSet, box: Box)

  /** The read after the record loop: the extents, then the groups. */
  function Assemble(nfp: int, samples: seq<Sample>, tags: seq<int>, names: seq<string>, ngroups: nat): (r: Result<Loaded>)
    requires |samples| == |tags|
    ensures r == Err(EmptyReduction) <==> |samples| == 0
    ensures r.Err? ==> |samples| == 0 || r.fault == IndexOutOfRange
    ensures r.Ok? ==> r.value.coilset.nfp == nfp && |r.value.coilset.groups| == ngroups
    ensures r.Ok? ==> Encloses(r.value.box, Points(samples))
    ensures r.Ok? ==> forall i :: 0 <= i < ngroups ==> GroupReadAs(samples, tags, names, i, r.value.coilset.groups[i])
  {
    var box := Extents(Points(samples));
    if box.Err? then Err(box.fault)
    else
      var groups := GroupsUpTo(samples, tags, names, ngroups);
      if groups.Err? then Err(groups.fault)
      else Ok(Loaded(CoilSet(nfp, groups.value), box.value))
  }

  /** What reading the records yields, stated through the reference
      definitions of the tags, the names and the group count. */
  function Decode(nfp: int, recs: seq<Record>): (r: Result<Loaded>)
    ensures r == Err(EmptyReduction) <==> |recs| == 0
    ensures r.Err? ==> |recs| == 0 || r.fault == IndexOutOfRange
    ensures r.Ok? ==> r.value.coilset.nfp == nfp && |r.value.coilset.groups| == MaxId(recs, |recs|)
    ensures r.Ok? ==> Encloses(r.value.box, Points(Samples(recs)))
    ensures r.Ok? ==> forall i :: 0 <= i < |r.value.coilset.groups| ==>
              GroupReadAs(Samples(recs), Tags(recs), NewNames(recs, |recs|), i, r.value.coilset.groups[i])
  {
    Assemble(nfp, Samples(recs), Tags(recs), NewNames(recs, |recs|), MaxId(recs, |recs|))
  }

  /** `read_coils_file` after the header: the record loop, the extents and
      the groups. */
  method ReadCoils(nfp: int, recs: seq<Record>) returns (r: Result<Loaded>)
    ensures r == Decode(nfp, recs)
  {
    var group, names, ngroups := ScanRecords(recs);
    assert group == Tags(recs);
    r := Assemble(nfp, Samples(recs), group, names, ngroups);
  }

  // ---------------------------------------------------------------------
  // Writing, as the source does it

  /** No coil of the group is empty (`current[-1] = 0` fails on one). */
  predicate NoEmptyCoil(g: CoilGroup) {
    forall j :: 0 <= j < |g.coils| ==> |g.coils[j].pts| > 0
  }

  /** The lines of one coil: every point, the last one with current 0; the
      last coil of a group (`offset = 1`) loses its last point. */
  function CoilLines(current: real, c: Coil, dropLast: bool): (lines: seq<Record>)
    requires |c.pts| > 0
    ensures |lines| == if dropLast then |c.pts| - 1 else |c.pts|
    ensures forall k :: 0 <= k < |lines| ==> lines[k].Point? && lines[k].p == c.pts[k]
  {
    seq(|c.pts| - (if dropLast then 1 else 0), k requires 0 <= k < |c.pts| =>
      Point(c.pts[k], if k == |c.pts| - 1 then 0.0 else current))
  }

  /** The lines of the coils `j..` of a group. */
  function CoilsLines(g: CoilGroup, j: nat): seq<Record>
    requires j <= |g.coils| && NoEmptyCoil(g)
    decreases |g.coils| - j
  {
    if j == |g.coils| then []
    else CoilLines(g.current, g.coils[j], j == |g.coils| - 1) + CoilsLines(g, j + 1)
  }

  /** The annotated line written after the coil loop: index
      `k = npts - offset - 1` of the last coil, that is its point `npts - 2`
      at the group current, or, for a one-point coil, `k = -1`: its only
      point at current 0. */
  function TagLine(i: nat, g: CoilGroup): (r: Record)
    requires |g.coils| > 0 && NoEmptyCoil(g)
    ensures r.Tagged? && r.id == i + 1 && r.name == g.name
  {
    var c := g.coils[|g.coils| - 1];
    var n := |c.pts|;
    if n >= 2 then Tagged(c.pts[n - 2], g.current, i + 1, g.name)
    else Tagged(c.pts[0], 0.0, i + 1, g.name)
  }

  /** The lines of group `i`. A group without coils reaches the annotated
      line with `j` unbound when no coil was written before it, and with a
      stale `j` indexing its empty coil list otherwise. */
  function GroupLines(i: nat, g: CoilGroup, bound: bool): (r: Result<seq<Record>>)
    ensures r.Ok? <==> NoEmptyCoil(g) && |g.coils| > 0
    ensures r.Err? ==> r.fault == (if NoEmptyCoil(g) && !bound then UnboundName else IndexOutOfRange)
  {
    if !NoEmptyCoil(g) then Err(IndexOutOfRange)
    else if |g.coils| == 0 then Err(if bound then IndexOutOfRange else UnboundName)
    else Ok(CoilsLines(g, 0) + [TagLine(i, g)])
  }

  /** Every group can be written: it has coils, and none of them is empty. */
  predicate WritableSet(cs: CoilSet, i: nat)
    requires i <= |cs.groups|
  {
    forall a :: i <= a < |cs.groups| ==> NoEmptyCoil(cs.groups[a]) && |cs.groups[a].coils| > 0
  }

  function WriteFrom(cs: CoilSet, i: nat, bound: bool): (r: Result<seq<Record>>)
    requires i <= |cs.groups|
    ensures r.Ok? <==> WritableSet(cs, i)
    decreases |cs.groups| - i
  {
    if i == |cs.groups| then Ok([])
    else
      var lines := GroupLines(i, cs.groups[i], bound);
      if lines.Err? then lines
      else
        var rest := WriteFrom(cs, i + 1, true);
        if rest.Err? then rest else Ok(lines.value + rest.value)
  }

  /** `write_coils_file` after the header, as written. */
  function WriteRecords(cs: CoilSet): (r: Result<seq<Record>>)
    ensures r.Ok? <==> WritableSet(cs, 0)
  {
    WriteFrom(cs, 0, false)
  }

  /** One group of current 1 with one two-point coil. */
  function LoneCoil(): CoilSet {
    CoilSet(1, [CoilGroup("c", 1.0, [Coil([Zero, Vec3(1.0, 0.0, 0.0)])])])
  }

  /** The written file does not read back: for `LoneCoil` the annotated
      line repeats the first point at current 1, the zero-current terminator
      is never written, and the group comes back without coils. */
  lemma WriteLosesLastCoil()
    ensures WriteRecords(LoneCoil()) == Ok([Point(Zero, 1.0), Tagged(Zero, 1.0, 1, "c")])
    ensures Decode(1, WriteRecords(LoneCoil()).value) == Ok(Loaded(CoilSet(1, [CoilGroup("c", 1.0, [])]), Box(Zero, Zero)))
    ensures Decode(1, WriteRecords(LoneCoil()).value).value.coilset != LoneCoil()
  {
    LoneCoilWritten();
    LoneCoilRead();
    assert LoneCoil().groups[0].coils != [];
  }

  lemma LoneCoilWritten()
    ensures WriteRecords(LoneCoil()) == Ok([Point(Zero, 1.0), Tagged(Zero, 1.0, 1, "c")])
  {
    var cs := LoneCoil();
    var g := cs.groups[0];
    var recs := [Point(Zero, 1.0), Tagged(Zero, 1.0, 1, "c")];
    assert CoilsLines(g, 1) == [];
    assert CoilsLines(g, 0) == [Point(Zero, 1.0)];
    assert TagLine(0, g) == Tagged(Zero, 1.0, 1, "c");
    assert NoEmptyCoil(g);
    assert [Point(Zero, 1.0)] + [Tagged(Zero, 1.0, 1, "c")] == recs;
    assert GroupLines(0, g, false) == Ok(recs);
    assert recs + [] == recs;
    assert WriteFrom(cs, 1, true) == Ok([]);
  }

  lemma LoneCoilRead()
    ensures Decode(1, [Point(Zero, 1.0), Tagged(Zero, 1.0, 1, "c")]) == Ok(Loaded(CoilSet(1, [CoilGroup("c", 1.0, [])]), Box(Zero, Zero)))
  {
    var recs := [Point(Zero, 1.0), Tagged(Zero, 1.0, 1, "c")];
    var samples := [Sample(Zero, 1.0), Sample(Zero, 1.0)];
    LoneCoilScan();
    LoneCoilSamples();
    LoneCoilAssembled();
  }

  lemma LoneCoilSamples()
    ensures Samples([Point(Zero, 1.0), Tagged(Zero, 1.0, 1, "c")]) == [Sample(Zero, 1.0), Sample(Zero, 1.0)]
  {
  }

  lemma LoneCoilAssembled()
    ensures Assemble(1, [Sample(Zero, 1.0), Sample(Zero, 1.0)], [1, 1], ["c"], 1)
         == Ok(Loaded(CoilSet(1, [CoilGroup("c", 1.0, [])]), Box(Zero, Zero)))
  {
    LoneCoilGroups();
    LoneCoilBox();
  }

  lemma LoneCoilGroups()
    ensures GroupsUpTo([Sample(Zero, 1.0), Sample(Zero, 1.0)], [1, 1], ["c"], 1) == Ok([CoilGroup("c", 1.0, [])])
  {
    var samples := [Sample(Zero, 1.0), Sample(Zero, 1.0)];
    assert Select(samples, [1, 1], 1, 1) == [samples[0]];
    assert Select(samples, [1, 1], 1, 2) == samples;
    assert ZerosFrom(samples, 0) == [];
    assert MakeGroup("c", samples) == Ok(CoilGroup("c", 1.0, []));
    assert GroupsUpTo(samples, [1, 1], ["c"], 0) == Ok([]);
    assert [] + [CoilGroup("c", 1.0, [])] == [CoilGroup("c", 1.0, [])];
  }

  lemma LoneCoilBox()
    ensures Extents(Points([Sample(Zero, 1.0), Sample(Zero, 1.0)])) == Ok(Box(Zero, Zero))
  {
    assert Points([Sample(Zero, 1.0), Sample(Zero, 1.0)]) == [Zero, Zero];
  }

  lemma LoneCoilScan()
    ensures var recs := [Point(Zero, 1.0), Tagged(Zero, 1.0, 1, "c")];
            Tags(recs) == [1, 1] && NewNames(recs, 2) == ["c"] && MaxId(recs, 2) == 1
  {
    var recs := [Point(Zero, 1.0), Tagged(Zero, 1.0, 1, "c")];
    assert NextTag(recs, 1) == 1;
    assert NextTag(recs, 0) == 1;
    assert !NewName(recs, 0);
    assert NewNames(recs, 1) == [];
    assert !SeenBefore(recs, 1, 1);
    assert NewName(recs, 1);
    assert MaxId(recs, 1) == 0;
  }

  // ---------------------------------------------------------------------
  // Writing so that the file reads back

  /** The rows of one group as records, the last one (the zero-current end
      of the group's last coil) carrying the annotation. */
  function Annotate(id: int, name: string, rows: seq<Sample>): (b: seq<Record>)
    ensures |b| == |rows|
    ensures forall t :: 0 <= t < |b| ==> SampleOf(b[t]) == rows[t]
    ensures forall t :: 0 <= t < |b| ==> (b[t].Tagged? <==> t == |b| - 1)
    ensures forall t :: 0 <= t < |b| && b[t].Tagged? ==> b[t].id == id && b[t].name == name
  {
    seq(|rows|, t requires 0 <= t < |rows| =>
      if t == |rows| - 1 then Tagged(rows[t].pt, rows[t].current, id, name) else Point(rows[t].pt, rows[t].current))
  }

  /** Where the records of group `m` start. */
  function Offset(rows: seq<seq<Sample>>, m: nat): nat
    requires m <= |rows|
  {
    if m == 0 then 0 else Offset(rows, m - 1) + |rows[m - 1]|
  }

  /** The records of the first `m` groups, one after the other. */
  function Emit(names: seq<string>, rows: seq<seq<Sample>>, m: nat): (recs: seq<Record>)
    requires m <= |names| == |rows|
    ensures |recs| == Offset(rows, m)
  {
    if m == 0 then [] else Emit(names, rows, m - 1) + Annotate(m, names[m - 1], rows[m - 1])
  }

  function NamesOf(cs: CoilSet): (names: seq<string>)
    ensures |names| == |cs.groups| && forall i :: 0 <= i < |cs.groups| ==> names[i] == cs.groups[i].name
  {
    seq(|cs.groups|, i requires 0 <= i < |cs.groups| => cs.groups[i].name)
  }

  function RowsOf(cs: CoilSet): (rows: seq<seq<Sample>>)
    ensures |rows| == |cs.groups|
    ensures forall i :: 0 <= i < |cs.groups| ==> rows[i] == GroupRows(cs.groups[i].current, cs.groups[i].coils)
  {
    seq(|cs.groups|, i requires 0 <= i < |cs.groups| => GroupRows(cs.groups[i].current, cs.groups[i].coils))
  }

  /** The corrected `write_coils_file`: every coil in full, and the group
      annotation on the zero-current end of its last coil. */
  function WriteFixed(cs: CoilSet): seq<Record> {
    Emit(NamesOf(cs), RowsOf(cs), |cs.groups|)
  }

  /** Sets the corrected writer round-trips: at least one group, and every
      group with a non-zero current and coils, none empty and the first of
      two points or more. */
  predicate Rewritable(cs: CoilSet) {
    |cs.groups| > 0 &&
    forall i :: 0 <= i < |cs.groups| ==> cs.groups[i].current != 0.0 && |cs.groups[i].coils| > 0 && Writable(cs.groups[i].coils)
  }

  /** Reading what the corrected writer wrote gives the coil set back. This
      is a round trip of records: as text it also needs every group name to
      be one non-empty token, and the last one not to contain `end`. */
  lemma ReadAfterWrite(cs: CoilSet)
    requires Rewritable(cs)
    ensures Decode(cs.nfp, WriteFixed(cs)).Ok?
    ensures Decode(cs.nfp, WriteFixed(cs)).value.coilset == cs
  {
    var rows := RowsOf(cs);
    forall i | 0 <= i < |cs.groups|
      ensures |rows[i]| > 0 && MakeGroup(NamesOf(cs)[i], rows[i]) == Ok(cs.groups[i])
    {
      var g := cs.groups[i];
      assert |g.coils[0].pts| >= 2;
      GroupRoundTrip(g.name, g.current, g.coils);
    }
    DecodeEmitted(cs.nfp, NamesOf(cs), rows, cs.groups);
  }

  /** Records laid out group by group decode to the groups their rows
      make. */
  lemma DecodeEmitted(nfp: int, names: seq<string>, rows: seq<seq<Sample>>, groups: seq<CoilGroup>)
    requires |names| == |rows| == |groups| > 0
    requires forall i :: 0 <= i < |rows| ==> |rows[i]| > 0 && MakeGroup(names[i], rows[i]) == Ok(groups[i])
    ensures Decode(nfp, Emit(names, rows, |rows|)).Ok?
    ensures Decode(nfp, Emit(names, rows, |rows|)).value.coilset == CoilSet(nfp, groups)
  {
    var n := |rows|;
    var recs := Emit(names, rows, n);
    EmitLaidOut(names, rows);
    var samples, tags := Samples(recs), Tags(recs);
    ScanLaidOut(names, rows, recs);
    forall i | 0 <= i < n
      ensures GroupReadAs(samples, tags, names, i, groups[i])
    {
      SelectLaidOut(names, rows, recs, i);
    }
    var r := GroupsUpTo(samples, tags, names, n);
    assert r.Ok? by {
      forall i | 0 <= i < n
        ensures Readable(samples, tags, names, i)
      {
        assert GroupReadAs(samples, tags, names, i, groups[i]);
      }
    }
    assert r.value == groups;
    assert Offset(rows, 1) > 0;
  }

  /** `recs` holds the annotated rows of every group, one group after the
      other. */
  ghost predicate LaidOut(names: seq<string>, rows: seq<seq<Sample>>, recs: seq<Record>)
    requires |names| == |rows|
  {
    && |recs| == Offset(rows, |rows|)
    && forall i, u :: 0 <= i < |rows| && 0 <= u < |rows[i]| ==> Slot(names, rows, recs, i, u)
  }

  /** Record `u` of group `i` is in place: its sample, and the annotation
      on the group's last row only. */
  ghost predicate Slot(names: seq<string>, rows: seq<seq<Sample>>, recs: seq<Record>, i: nat, u: nat)
    requires |names| == |rows| && i < |rows| && u < |rows[i]|
  {
    && Offset(rows, i) + u < |recs|
    && SampleOf(recs[Offset(rows, i) + u]) == rows[i][u]
    && (recs[Offset(rows, i) + u].Tagged? <==> u == |rows[i]| - 1)
    && (recs[Offset(rows, i) + u].Tagged? ==> recs[Offset(rows, i) + u].id == i + 1 && recs[Offset(rows, i) + u].name == names[i])
  }

  lemma EmitLaidOut(names: seq<string>, rows: seq<seq<Sample>>)
    requires |names| == |rows|
    ensures LaidOut(names, rows, Emit(names, rows, |rows|))
  {
    var recs := Emit(names, rows, |rows|);
    forall i, u | 0 <= i < |rows| && 0 <= u < |rows[i]|
      ensures Slot(names, rows, recs, i, u)
    {
      EmitAt(names, rows, recs, i, u);
    }
  }

  /** Record `u` of group `i` as the corrected writer lays it out. */
  lemma EmitAt(names: seq<string>, rows: seq<seq<Sample>>, recs: seq<Record>, i: nat, u: nat)
    requires |names| == |rows| && i < |rows| && u < |rows[i]|
    requires recs == Emit(names, rows, |rows|)
    ensures Slot(names, rows, recs, i, u)
  {
    Layout(names, rows, |rows|, i, u);
    var b := Annotate(i + 1, names[i], rows[i]);
    assert SampleOf(b[u]) == rows[i][u];
  }

  lemma {:induction false} OffsetMono(rows: seq<seq<Sample>>, a: nat, b: nat)
    requires a <= b <= |rows|
    ensures Offset(rows, a) <= Offset(rows, b)
    decreases b - a
  {
    if a < b {
      OffsetMono(rows, a, b - 1);
    }
  }

  /** Record `u` of group `i` sits at `Offset(i) + u`. */
  lemma {:induction false} Layout(names: seq<string>, rows: seq<seq<Sample>>, m: nat, i: nat, u: nat)
    requires i < m <= |names| == |rows| && u < |rows[i]|
    ensures Offset(rows, i) + u < Offset(rows, m)
    ensures Emit(names, rows, m)[Offset(rows, i) + u] == Annotate(i + 1, names[i], rows[i])[u]
  {
    var pre := Emit(names, rows, m - 1);
    var b := Annotate(m, names[m - 1], rows[m - 1]);
    assert Emit(names, rows, m) == pre + b;
    if i < m - 1 {
      Layout(names, rows, m - 1, i, u);
      assert (pre + b)[Offset(rows, i) + u] == pre[Offset(rows, i) + u];
    } else {
      assert (pre + b)[|pre| + u] == b[u];
    }
  }

  /** Only the last record of group `i` is annotated, with id `i + 1`. */
  lemma RecordAt(names: seq<string>, rows: seq<seq<Sample>>, recs: seq<Record>, i: nat, t: nat)
    requires |names| == |rows| && LaidOut(names, rows, recs)
    requires i < |rows| && Offset(rows, i) <= t < Offset(rows, i + 1)
    ensures t < |recs| && SampleOf(recs[t]) == rows[i][t - Offset(rows, i)]
    ensures recs[t].Tagged? <==> t == Offset(rows, i + 1) - 1
    ensures recs[t].Tagged? ==> recs[t].id == i + 1 && recs[t].name == names[i]
  {
    var u := t - Offset(rows, i);
    assert Slot(names, rows, recs, i, u);
  }

  /** Every record of group `i` gets the tag `i + 1`. */
  lemma TagsRead(names: seq<string>, rows: seq<seq<Sample>>, recs: seq<Record>, i: nat, t: nat)
    requires |names| == |rows| && LaidOut(names, rows, recs)
    requires i < |rows| && Offset(rows, i) <= t < Offset(rows, i + 1)
    ensures t < |recs| && NextTag(recs, t) == i + 1
  {
    var e := Offset(rows, i + 1) - 1;
    OffsetMono(rows, i + 1, |rows|);
    forall t' | t <= t' < e
      ensures !recs[t'].Tagged?
    {
      RecordAt(names, rows, recs, i, t');
    }
    RecordAt(names, rows, recs, i, e);
    NextTagSkip(recs, t, e);
  }

  /** Before group `i` every annotation carries an id between 1 and `i`. */
  lemma {:induction false} IdsBefore(names: seq<string>, rows: seq<seq<Sample>>, recs: seq<Record>, i: nat, j: nat)
    requires |names| == |rows| && LaidOut(names, rows, recs)
    requires i <= |rows| && j < Offset(rows, i)
    ensures j < |recs|
    ensures recs[j].Tagged? ==> 1 <= recs[j].id <= i
  {
    OffsetMono(rows, i, |rows|);
    if j < Offset(rows, i - 1) {
      IdsBefore(names, rows, recs, i - 1, j);
    } else {
      RecordAt(names, rows, recs, i - 1, j);
    }
  }

  /** The records of group `i` before its last add nothing to the names;
      its last adds the group's name. */
  lemma GroupNames(names: seq<string>, rows: seq<seq<Sample>>, recs: seq<Record>, i: nat)
    requires |names| == |rows| && LaidOut(names, rows, recs)
    requires i < |rows| && |rows[i]| > 0
    ensures Offset(rows, i + 1) <= |recs|
    ensures NewNames(recs, Offset(rows, i + 1)) == NewNames(recs, Offset(rows, i)) + [names[i]]
  {
    GroupInterior(names, rows, recs, i);
    GroupLast(names, rows, recs, i);
    NamesBlock(recs, Offset(rows, i), Offset(rows, i + 1) - 1);
  }

  /** The records of group `i` raise the maximum id from at most `i` to
      `i + 1`. */
  lemma GroupMax(names: seq<string>, rows: seq<seq<Sample>>, recs: seq<Record>, i: nat)
    requires |names| == |rows| && LaidOut(names, rows, recs)
    requires i < |rows| && |rows[i]| > 0
    requires Offset(rows, i) <= |recs| && MaxId(recs, Offset(rows, i)) <= i
    ensures Offset(rows, i + 1) <= |recs|
    ensures MaxId(recs, Offset(rows, i + 1)) == i + 1
  {
    GroupInterior(names, rows, recs, i);
    RecordAt(names, rows, recs, i, Offset(rows, i + 1) - 1);
    MaxIdBlock(recs, Offset(rows, i), Offset(rows, i + 1) - 1);
  }

  /** A run of plain records closed by a new name adds just that name. */
  lemma NamesBlock(recs: seq<Record>, a: nat, e: nat)
    requires a <= e < |recs|
    requires forall t :: a <= t < e ==> !recs[t].Tagged?
    requires NewName(recs, e)
    ensures NewNames(recs, e + 1) == NewNames(recs, a) + [recs[e].name]
  {
    NamesSkip(recs, a, e);
  }

  /** A run of plain records closed by an id above the maximum so far makes
      that id the maximum. */
  lemma MaxIdBlock(recs: seq<Record>, a: nat, e: nat)
    requires a <= e < |recs|
    requires forall t :: a <= t < e ==> !recs[t].Tagged?
    requires recs[e].Tagged? && recs[e].id > MaxId(recs, a)
    ensures MaxId(recs, e + 1) == recs[e].id
  {
    MaxIdSkip(recs, a, e);
  }

  /** Only the last record of group `i` is annotated. */
  lemma GroupInterior(names: seq<string>, rows: seq<seq<Sample>>, recs: seq<Record>, i: nat)
    requires |names| == |rows| && LaidOut(names, rows, recs)
    requires i < |rows| && |rows[i]| > 0
    ensures Offset(rows, i) < Offset(rows, i + 1) <= |recs|
    ensures forall t :: Offset(rows, i) <= t < Offset(rows, i + 1) - 1 ==> !recs[t].Tagged?
  {
    OffsetMono(rows, i + 1, |rows|);
    forall t | Offset(rows, i) <= t < Offset(rows, i + 1) - 1
      ensures !recs[t].Tagged?
    {
      RecordAt(names, rows, recs, i, t);
    }
  }

  /** The last record of group `i` is the first to carry the id `i + 1`. */
  lemma GroupLast(names: seq<string>, rows: seq<seq<Sample>>, recs: seq<Record>, i: nat)
    requires |names| == |rows| && LaidOut(names, rows, recs)
    requires i < |rows| && |rows[i]| > 0
    ensures 0 < Offset(rows, i + 1) <= |recs|
    ensures var e := Offset(rows, i + 1) - 1;
      NewName(recs, e) && recs[e].name == names[i] && recs[e].id == i + 1
  {
    var e := Offset(rows, i + 1) - 1;
    OffsetMono(rows, i + 1, |rows|);
    RecordAt(names, rows, recs, i, e);
    if SeenBefore(recs, e, i + 1) {
      var j :| 0 <= j < e && recs[j].Tagged? && recs[j].id == i + 1;
      if j < Offset(rows, i) {
        IdsBefore(names, rows, recs, i, j);
      } else {
        RecordAt(names, rows, recs, i, j);
      }
    }
  }

  lemma {:induction false} NamesSkip(recs: seq<Record>, a: nat, b: nat)
    requires a <= b <= |recs|
    requires forall t :: a <= t < b ==> !recs[t].Tagged?
    ensures NewNames(recs, b) == NewNames(recs, a)
    decreases b - a
  {
    if a < b {
      NamesSkip(recs, a, b - 1);
      assert !NewName(recs, b - 1);
    }
  }

  lemma {:induction false} MaxIdSkip(recs: seq<Record>, a: nat, b: nat)
    requires a <= b <= |recs|
    requires forall t :: a <= t < b ==> !recs[t].Tagged?
    ensures MaxId(recs, b) == MaxId(recs, a)
    decreases b - a
  {
    if a < b {
      MaxIdSkip(recs, a, b - 1);
    }
  }

  /** The names and the group count read back from laid-out records. */
  lemma ScanLaidOut(names: seq<string>, rows: seq<seq<Sample>>, recs: seq<Record>)
    requires |names| == |rows| && LaidOut(names, rows, recs)
    requires forall i :: 0 <= i < |rows| ==> |rows[i]| > 0
    ensures NewNames(recs, |recs|) == names
    ensures MaxId(recs, |recs|) == |rows|
  {
    ScanUpTo(names, rows, recs, |rows|);
  }

  lemma {:induction false} ScanUpTo(names: seq<string>, rows: seq<seq<Sample>>, recs: seq<Record>, m: nat)
    requires |names| == |rows| && LaidOut(names, rows, recs)
    requires forall i :: 0 <= i < |rows| ==> |rows[i]| > 0
    requires m <= |rows|
    ensures Offset(rows, m) <= |recs|
    ensures NewNames(recs, Offset(rows, m)) == names[..m]
    ensures MaxId(recs, Offset(rows, m)) == m
  {
    OffsetMono(rows, m, |rows|);
    if m > 0 {
      ScanUpTo(names, rows, recs, m - 1);
      GroupNames(names, rows, recs, m - 1);
      GroupMax(names, rows, recs, m - 1);
      assert names[..m - 1] + [names[m - 1]] == names[..m];
    }
  }

  /** The records tagged `i + 1` are the rows of group `i`. */
  lemma SelectLaidOut(names: seq<string>, rows: seq<seq<Sample>>, recs: seq<Record>, i: nat)
    requires |names| == |rows| && LaidOut(names, rows, recs) && i < |rows|
    ensures Select(Samples(recs), Tags(recs), i + 1, |recs|) == rows[i]
  {
    TagsLaidOut(names, rows, recs);
    SamplesLaidOut(names, rows, recs, i);
    SelectUpTo(Samples(recs), Tags(recs), rows, i, |rows|);
  }

  lemma TagsLaidOut(names: seq<string>, rows: seq<seq<Sample>>, recs: seq<Record>)
    requires |names| == |rows| && LaidOut(names, rows, recs)
    ensures forall j :: 0 <= j < |rows| ==> BlockTagged(rows, Tags(recs), j)
  {
    var tags := Tags(recs);
    forall j | 0 <= j < |rows|
      ensures BlockTagged(rows, tags, j)
    {
      OffsetMono(rows, j + 1, |rows|);
      forall t | Offset(rows, j) <= t < Offset(rows, j + 1)
        ensures tags[t] == j + 1
      {
        TagsRead(names, rows, recs, j, t);
      }
    }
  }

  lemma SamplesLaidOut(names: seq<string>, rows: seq<seq<Sample>>, recs: seq<Record>, i: nat)
    requires |names| == |rows| && LaidOut(names, rows, recs) && i < |rows|
    ensures Offset(rows, i + 1) <= |recs|
    ensures Run(Samples(recs), Offset(rows, i), Offset(rows, i + 1)) == rows[i]
  {
    var samples := Samples(recs);
    var a := Offset(rows, i);
    OffsetMono(rows, i + 1, |rows|);
    forall u | 0 <= u < |rows[i]|
      ensures samples[a + u] == rows[i][u]
    {
      RecordAt(names, rows, recs, i, a + u);
    }
    assert Run(samples, a, Offset(rows, i + 1)) == rows[i];
  }

  /** The slots of group `j` all carry the tag `j + 1`. */
  ghost predicate BlockTagged(rows: seq<seq<Sample>>, tags: seq<int>, j: nat)
    requires j < |rows|
  {
    Offset(rows, j + 1) <= |tags| &&
    forall t :: Offset(rows, j) <= t < Offset(rows, j + 1) ==> tags[t] == j + 1
  }

  lemma {:induction false} SelectUpTo(samples: seq<Sample>, tags: seq<int>, rows: seq<seq<Sample>>, i: nat, m: nat)
    requires |samples| == |tags| && i < |rows| && m <= |rows|
    requires forall j :: 0 <= j < |rows| ==> BlockTagged(rows, tags, j)
    requires Offset(rows, i + 1) <= |samples| && Run(samples, Offset(rows, i), Offset(rows, i + 1)) == rows[i]
    ensures Offset(rows, m) <= |samples|
    ensures m <= i ==> Select(samples, tags, i + 1, Offset(rows, m)) == []
    ensures i < m ==> Select(samples, tags, i + 1, Offset(rows, m)) == rows[i]
  {
    if m > 0 {
      SelectUpTo(samples, tags, rows, i, m - 1);
      SelectGroup(samples, tags, rows, i, m - 1);
      if m - 1 == i {
        assert [] + rows[i] == rows[i];
      } else if i < m - 1 {
        assert rows[i] + [] == rows[i];
      }
    }
  }

  /** Group `j` adds its rows to the slots tagged `i + 1` when `j == i`,
      and nothing otherwise. */
  lemma SelectGroup(samples: seq<Sample>, tags: seq<int>, rows: seq<seq<Sample>>, i: nat, j: nat)
    requires |samples| == |tags| && i < |rows| && j < |rows|
    requires BlockTagged(rows, tags, j)
    requires Offset(rows, i + 1) <= |samples| && Run(samples, Offset(rows, i), Offset(rows, i + 1)) == rows[i]
    ensures Select(samples, tags, i + 1, Offset(rows, j + 1))
         == Select(samples, tags, i + 1, Offset(rows, j)) + (if j == i then rows[i] else [])
  {
    if j != i {
      SelectSkip(samples, tags, i + 1, Offset(rows, j), Offset(rows, j + 1));
    } else {
      SelectTake(samples, tags, i + 1, Offset(rows, j), Offset(rows, j + 1));
    }
  }

  /** The slots `a` to `b - 1`. */
  function Run(samples: seq<Sample>, a: nat, b: nat): (r: seq<Sample>)
    requires a <= b <= |samples|
    ensures |r| == b - a && forall u :: 0 <= u < b - a ==> r[u] == samples[a + u]
  {
    seq(b - a, u requires 0 <= u < b - a => samples[a + u])
  }

  lemma {:induction false} SelectSkip(samples: seq<Sample>, tags: seq<int>, id: int, a: nat, b: nat)
    requires a <= b <= |samples| == |tags|
    requires forall t :: a <= t < b ==> tags[t] != id
    ensures Select(samples, tags, id, b) == Select(samples, tags, id, a)
    decreases b - a
  {
    if a < b {
      SelectSkip(samples, tags, id, a, b - 1);
    }
  }

  lemma {:induction false} SelectTake(samples: seq<Sample>, tags: seq<int>, id: int, a: nat, b: nat)
    requires a <= b <= |samples| == |tags|
    requires forall t :: a <= t < b ==> tags[t] == id
    ensures Select(samples, tags, id, b) == Select(samples, tags, id, a) + Run(samples, a, b)
    decreases b - a
  {
    if a < b {
      SelectTake(samples, tags, id, a, b - 1);
      assert Run(samples, a, b - 1) + [samples[b - 1]] == Run(samples, a, b);
    } else {
      assert Run(samples, a, b) == [];
    }
  }

  // ---------------------------------------------------------------------
  // The writer as written, against the corrected one

  /** The rows the source writes for group `i`: those of the corrected
      writer, except that the last one, the zero-current end of the last
      coil, is replaced by the point and current of the annotated line. */
  function WrittenRows(i: nat, g: CoilGroup): seq<Sample>
    requires |g.coils| > 0 && NoEmptyCoil(g)
  {
    var fixed := GroupRows(g.current, g.coils);
    var tag := TagLine(i, g);
    fixed[..|fixed| - 1] + [Sample(tag.p, tag.current)]
  }

  function WrittenRowsOf(cs: CoilSet): (rows: seq<seq<Sample>>)
    requires WritableSet(cs, 0)
    ensures |rows| == |cs.groups|
    ensures forall i :: 0 <= i < |cs.groups| ==> rows[i] == WrittenRows(i, cs.groups[i])
  {
    seq(|cs.groups|, i requires 0 <= i < |cs.groups| => WrittenRows(i, cs.groups[i]))
  }

  /** What `write_coils_file` writes is the corrected writer's layout with,
      in every group, the closing row of the last coil (its last point at
      current 0) replaced by point `npts - 2` of that coil at the group
      current; a one-point last coil keeps its row. */
  lemma WrittenIsPatched(cs: CoilSet)
    requires WritableSet(cs, 0)
    ensures WriteRecords(cs) == Ok(Emit(NamesOf(cs), WrittenRowsOf(cs), |cs.groups|))
    ensures forall i :: 0 <= i < |cs.groups| ==> Patched(cs.groups[i], RowsOf(cs)[i], WrittenRowsOf(cs)[i])
  {
    WrittenRecords(cs);
    forall i | 0 <= i < |cs.groups|
      ensures Patched(cs.groups[i], RowsOf(cs)[i], WrittenRowsOf(cs)[i])
    {
      GroupPatched(i, cs.groups[i]);
    }
  }

  lemma WrittenRecords(cs: CoilSet)
    requires WritableSet(cs, 0)
    ensures WriteRecords(cs) == Ok(Emit(NamesOf(cs), WrittenRowsOf(cs), |cs.groups|))
  {
    var names, rows := NamesOf(cs), WrittenRowsOf(cs);
    WriteFromEmits(cs, 0, false);
    EmitSplit(names, rows, 0);
    assert Emit(names, rows, 0) + EmitFrom(names, rows, 0) == EmitFrom(names, rows, 0);
  }

  /** `written` is `fixed` but for its last row: in `fixed` it closes the
      last coil of `g` at current 0; in `written` it is the point before,
      at the group current, unless that coil has one point only. */
  predicate Patched(g: CoilGroup, fixed: seq<Sample>, written: seq<Sample>)
    requires |g.coils| > 0 && NoEmptyCoil(g)
  {
    var c := g.coils[|g.coils| - 1];
    var n := |c.pts|;
    && |fixed| == |written| > 0
    && (forall u :: 0 <= u < |fixed| - 1 ==> written[u] == fixed[u])
    && fixed[|fixed| - 1] == Sample(c.pts[n - 1], 0.0)
    && written[|written| - 1] == (if n >= 2 then Sample(c.pts[n - 2], g.current) else Sample(c.pts[0], 0.0))
  }

  lemma GroupPatched(i: nat, g: CoilGroup)
    requires |g.coils| > 0 && NoEmptyCoil(g)
    ensures Patched(g, GroupRows(g.current, g.coils), WrittenRows(i, g))
  {
    GroupRowsSnoc(g.current, g.coils);
  }

  /** The groups from `i` on are written as the patched rows of the
      corrected layout. */
  lemma {:induction false} WriteFromEmits(cs: CoilSet, i: nat, bound: bool)
    requires i <= |cs.groups| && WritableSet(cs, 0)
    ensures WriteFrom(cs, i, bound) == Ok(EmitFrom(NamesOf(cs), WrittenRowsOf(cs), i))
    decreases |cs.groups| - i
  {
    if i == |cs.groups| {
      WriteFromEnd(cs, bound);
    } else {
      WriteFromEmits(cs, i + 1, true);
      WriteFromStep(cs, i, bound);
    }
  }

  lemma WriteFromEnd(cs: CoilSet, bound: bool)
    requires WritableSet(cs, 0)
    ensures WriteFrom(cs, |cs.groups|, bound) == Ok(EmitFrom(NamesOf(cs), WrittenRowsOf(cs), |cs.groups|))
  {
  }

  /** Group `i` is written as its annotated patched rows, before the rest. */
  lemma WriteFromStep(cs: CoilSet, i: nat, bound: bool)
    requires i < |cs.groups| && WritableSet(cs, 0)
    requires WriteFrom(cs, i + 1, true) == Ok(EmitFrom(NamesOf(cs), WrittenRowsOf(cs), i + 1))
    ensures WriteFrom(cs, i, bound) == Ok(EmitFrom(NamesOf(cs), WrittenRowsOf(cs), i))
  {
    GroupWritten(i, cs.groups[i], bound);
  }

  /** The records of groups `i..`, one after the other. */
  function EmitFrom(names: seq<string>, rows: seq<seq<Sample>>, i: nat): seq<Record>
    requires i <= |names| == |rows|
    decreases |rows| - i
  {
    if i == |rows| then [] else Annotate(i + 1, names[i], rows[i]) + EmitFrom(names, rows, i + 1)
  }

  /** The groups before `i` followed by those from `i` on are all groups. */
  lemma {:induction false} EmitSplit(names: seq<string>, rows: seq<seq<Sample>>, i: nat)
    requires i <= |names| == |rows|
    ensures Emit(names, rows, i) + EmitFrom(names, rows, i) == Emit(names, rows, |rows|)
    decreases |rows| - i
  {
    if i == |rows| {
      assert Emit(names, rows, i) + [] == Emit(names, rows, i);
    } else {
      EmitSplit(names, rows, i + 1);
      Regroup(Emit(names, rows, i), Annotate(i + 1, names[i], rows[i]), EmitFrom(names, rows, i + 1), Emit(names, rows, i + 1));
    }
  }

  lemma Regroup<T>(a: seq<T>, b: seq<T>, c: seq<T>, d: seq<T>)
    requires d == a + b
    ensures a + (b + c) == d + c
  {
  }

  /** The lines of one group are its patched rows, annotated. */
  lemma GroupWritten(i: nat, g: CoilGroup, bound: bool)
    requires |g.coils| > 0 && NoEmptyCoil(g)
    ensures GroupLines(i, g, bound) == Ok(Annotate(i + 1, g.name, WrittenRows(i, g)))
  {
    var fixed := GroupRows(g.current, g.coils);
    var c := g.coils[|g.coils| - 1];
    var closing := Point(c.pts[|c.pts| - 1], 0.0);
    CoilsLinesRows(g, 0);
    assert g.coils[0..] == g.coils;
    assert CoilsLines(g, 0) + [closing] == AsPoints(fixed);
    var tag := TagLine(i, g);
    var lines := CoilsLines(g, 0) + [tag];
    var b := Annotate(i + 1, g.name, WrittenRows(i, g));
    assert |b| == |fixed| == |lines|;
    forall t | 0 <= t < |b|
      ensures b[t] == lines[t]
    {
      if t < |b| - 1 {
        assert lines[t] == (CoilsLines(g, 0) + [closing])[t] == AsPoints(fixed)[t];
        assert WrittenRows(i, g)[t] == fixed[t];
      } else {
        assert WrittenRows(i, g)[t] == Sample(tag.p, tag.current);
        assert lines[t] == tag == Tagged(tag.p, tag.current, i + 1, g.name);
      }
    }
    assert b == lines;
  }

  /** The rows as unannotated records. */
  function AsPoints(rows: seq<Sample>): (recs: seq<Record>)
    ensures |recs| == |rows|
    ensures forall t :: 0 <= t < |rows| ==> recs[t] == Point(rows[t].pt, rows[t].current)
  {
    seq(|rows|, t requires 0 <= t < |rows| => Point(rows[t].pt, rows[t].current))
  }

  /** The lines of coils `j..` of a group, with the closing row the source
      leaves out put back, are the rows of those coils. */
  lemma {:induction false} CoilsLinesRows(g: CoilGroup, j: nat)
    requires j < |g.coils| && NoEmptyCoil(g)
    ensures var c := g.coils[|g.coils| - 1];
            CoilsLines(g, j) + [Point(c.pts[|c.pts| - 1], 0.0)] == AsPoints(GroupRows(g.current, g.coils[j..]))
    decreases |g.coils| - j
  {
    var c := g.coils[j];
    var own := CoilRows(g.current, c);
    assert g.coils[j..][0] == c && g.coils[j..][1..] == g.coils[j + 1..];
    if j == |g.coils| - 1 {
      assert g.coils[j + 1..] == [];
      assert GroupRows(g.current, g.coils[j..]) == own;
    } else {
      CoilsLinesRows(g, j + 1);
      assert CoilLines(g.current, c, false) == AsPoints(own);
      var rest := GroupRows(g.current, g.coils[j + 1..]);
      assert AsPoints(own + rest) == AsPoints(own) + AsPoints(rest);
    }
  }

  /** Each group without its last coil. */
  function DropLastCoils(cs: CoilSet): (d: CoilSet)
    ensures d.nfp == cs.nfp && |d.groups| == |cs.groups|
    ensures forall i :: 0 <= i < |cs.groups| ==> d.groups[i].name == cs.groups[i].name && d.groups[i].current == cs.groups[i].current
    ensures forall i :: 0 <= i < |cs.groups| && |cs.groups[i].coils| > 0 ==>
              d.groups[i].coils + [cs.groups[i].coils[|cs.groups[i].coils| - 1]] == cs.groups[i].coils
  {
    CoilSet(cs.nfp, seq(|cs.groups|, i requires 0 <= i < |cs.groups| =>
      var g := cs.groups[i];
      CoilGroup(g.name, g.current, if |g.coils| == 0 then [] else g.coils[..|g.coils| - 1])))
  }

  /** Every group's last coil has two points or more, so that the source's
      writer leaves out its closing zero. */
  predicate LongLastCoils(cs: CoilSet) {
    forall i :: 0 <= i < |cs.groups| && |cs.groups[i].coils| > 0 ==>
      |cs.groups[i].coils[|cs.groups[i].coils| - 1].pts| >= 2
  }

  /** Reading back what the source writes loses the last coil of every
      group, for every set the corrected writer round-trips whose last coils
      have two points or more: without its closing zero, the last coil's
      rows are dropped by the group constructor. */
  lemma WriteLosesLastCoils(cs: CoilSet)
    requires Rewritable(cs) && LongLastCoils(cs)
    ensures WriteRecords(cs).Ok?
    ensures Decode(cs.nfp, WriteRecords(cs).value).Ok?
    ensures Decode(cs.nfp, WriteRecords(cs).value).value.coilset == DropLastCoils(cs)
    ensures Decode(cs.nfp, WriteRecords(cs).value).value.coilset != cs
  {
    WrittenIsPatched(cs);
    var rows, d := WrittenRowsOf(cs), DropLastCoils(cs);
    forall i | 0 <= i < |cs.groups|
      ensures |rows[i]| > 0 && MakeGroup(NamesOf(cs)[i], rows[i]) == Ok(d.groups[i])
    {
      var g := cs.groups[i];
      assert Writable(g.coils) && |g.coils[|g.coils| - 1].pts| >= 2;
      LastCoilLost(i, g);
    }
    DecodeEmitted(cs.nfp, NamesOf(cs), rows, d.groups);
    assert |d.groups[0].coils| < |cs.groups[0].coils|;
  }

  /** The patched rows of a group read back as its coils but the last. */
  lemma LastCoilLost(i: nat, g: CoilGroup)
    requires g.current != 0.0 && |g.coils| > 0 && Writable(g.coils) && |g.coils[|g.coils| - 1].pts| >= 2
    ensures MakeGroup(g.name, WrittenRows(i, g)) == Ok(CoilGroup(g.name, g.current, g.coils[..|g.coils| - 1]))
  {
    var m := |g.coils|;
    var c := g.coils[m - 1];
    var n := |c.pts|;
    var before := g.coils[..m - 1];
    var own := CoilRows(g.current, c);
    GroupRowsSnoc(g.current, g.coils);
    var tail := own[..n - 1] + [Sample(c.pts[n - 2], g.current)];
    assert WrittenRows(i, g) == GroupRows(g.current, before) + tail;
    GroupThenTail(g.name, g.current, before, tail);
  }
}
