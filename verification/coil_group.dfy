/** A coil group (`COILGROUP`): the samples of one group id, in file order,
    cut into coils at every zero-current sample.

    A sample whose current is zero closes the coil that runs from the sample
    after the previous zero up to and including it. A coil is stored
    reversed when the sample just before its terminator (cyclically, so the
    last sample of the group for a terminator at index 0) carries a current
    different from the group's first current. Samples after the last zero
    belong to no coil. */
module CoilGroups {
  import opened Vectors
  import opened Results
  import opened Coils

  /** One row of a group: a point and the current written next to it. */
  datatype Sample = Sample(pt: Vec3, current: real)

  /** A coil group: its name, its current (`current[0]`) and its coils. */
  datatype CoilGroup = CoilGroup(name: string, current: real, coils: seq<Coil>)

  /** The points of the samples `i` to `j`, inclusive (`x[i:j+1]`). */
  function Span(s: seq<Sample>, i: nat, j: nat): (ps: seq<Vec3>)
    requires i <= j < |s|
    ensures |ps| == j + 1 - i
    ensures forall t :: 0 <= t < |ps| ==> ps[t] == s[i + t].pt
  {
    seq(j + 1 - i, t requires 0 <= t < j + 1 - i => s[i + t].pt)
  }

  function Reverse(ps: seq<Vec3>): (rs: seq<Vec3>)
    ensures |rs| == |ps|
    ensures forall i :: 0 <= i < |ps| ==> rs[i] == ps[|ps| - 1 - i]
  {
    seq(|ps|, i requires 0 <= i < |ps| => ps[|ps| - 1 - i])
  }

  predicate IsZero(s: Sample) {
    s.current == 0.0
  }

  /** `idex` is strictly increasing, with every entry in `[lo, hi)`. */
  predicate Ascending(idex: seq<nat>, lo: nat, hi: nat)
    decreases |idex|
  {
    |idex| == 0 || (lo <= idex[0] < hi && Ascending(idex[1..], idex[0] + 1, hi))
  }

  /** `idex` restricted to the indices from `k` on. */
  function ZerosFrom(s: seq<Sample>, k: nat): (idex: seq<nat>)
    requires k <= |s|
    ensures Ascending(idex, k, |s|)
    decreases |s| - k
  {
    if k == |s| then []
    else if IsZero(s[k]) then
      var rest := ZerosFrom(s, k + 1);
      assert ([k] + rest)[1..] == rest;
      [k] + rest
    else ZerosFrom(s, k + 1)
  }

  /** Every entry of an ascending sequence lies in range, and the entries
      are strictly increasing. */
  lemma {:induction false} AscendingBounds(idex: seq<nat>, lo: nat, hi: nat)
    requires Ascending(idex, lo, hi)
    ensures forall m :: 0 <= m < |idex| ==> lo <= idex[m] < hi
    ensures forall m, n :: 0 <= m < n < |idex| ==> idex[m] < idex[n]
    decreases |idex|
  {
    if |idex| > 0 {
      AscendingBounds(idex[1..], idex[0] + 1, hi);
      assert forall m :: 0 < m < |idex| ==> idex[m] == idex[1..][m - 1];
    }
  }

  /** `idex` lists exactly the zero-current samples from `k` on. */
  lemma {:induction false} ZerosFromExact(s: seq<Sample>, k: nat)
    requires k <= |s|
    ensures forall m :: 0 <= m < |ZerosFrom(s, k)| ==> ZerosFrom(s, k)[m] < |s| && IsZero(s[ZerosFrom(s, k)[m]])
    ensures forall j :: k <= j < |s| ==> (IsZero(s[j]) <==> j in ZerosFrom(s, k))
    decreases |s| - k
  {
    AscendingBounds(ZerosFrom(s, k), k, |s|);
    if k < |s| {
      ZerosFromExact(s, k + 1);
    }
  }

  /** `idex`: every index whose current is zero, in increasing order. */
  function ZeroIndices(s: seq<Sample>): seq<nat> {
    ZerosFrom(s, 0)
  }

  /** Index of the sample the reversal test of terminator `j` looks at:
      `current[j-1]`, which Python reads cyclically. */
  function Before(n: nat, j: nat): nat
    requires j < n
  {
    if j == 0 then n - 1 else j - 1
  }

  /** The coil closed by the terminator at `j`, starting at `i`. */
  function Piece(s: seq<Sample>, i: nat, j: nat): Coil
    requires i <= j < |s|
  {
    var span := Span(s, i, j);
    if s[Before(|s|, j)].current != s[0].current then Coil(Reverse(span)) else Coil(span)
  }

  /** The body of the constructor's loop over `idex`, from position `i`. */
  function Pieces(s: seq<Sample>, idex: seq<nat>, i: nat): (coils: seq<Coil>)
    requires Ascending(idex, i, |s|)
    ensures |coils| == |idex|
  {
    if |idex| == 0 then []
    else [Piece(s, i, idex[0])] + Pieces(s, idex[1..], idex[0] + 1)
  }

  /** `COILGROUP(x, y, z, current, name)`; `current[0]` of no samples is an
      IndexError. */
  function MakeGroup(name: string, s: seq<Sample>): (r: Result<CoilGroup>)
    ensures r.Err? <==> |s| == 0
    ensures r.Ok? ==> r.value.name == name && r.value.current == s[0].current
    ensures r.Ok? ==> |r.value.coils| == |ZeroIndices(s)|
  {
    if |s| == 0 then Err(IndexOutOfRange)
    else Ok(CoilGroup(name, s[0].current, Pieces(s, ZeroIndices(s), 0)))
  }

  // ---------------------------------------------------------------------
  // What the constructor promises

  /** Where coil `k` starts: at 0, or just after the previous terminator. */
  function Start(idex: seq<nat>, k: nat, i: nat): nat
    requires k < |idex|
  {
    if k == 0 then i else idex[k - 1] + 1
  }

  /** Coil `k` is the piece from `Start(k)` to the `k`-th zero. */
  lemma {:induction false} PiecesSpans(s: seq<Sample>, idex: seq<nat>, i: nat, k: nat)
    requires Ascending(idex, i, |s|)
    requires k < |idex|
    ensures Start(idex, k, i) <= idex[k] < |s|
    ensures Pieces(s, idex, i)[k] == Piece(s, Start(idex, k, i), idex[k])
  {
    PiecesUnfold(s, idex, i);
    if k > 0 {
      PiecesSpans(s, idex[1..], idex[0] + 1, k - 1);
      assert Start(idex[1..], k - 1, idex[0] + 1) == Start(idex, k, i);
      assert idex[1..][k - 1] == idex[k];
      ConsIndex(Piece(s, i, idex[0]), Pieces(s, idex[1..], idex[0] + 1), k);
    }
  }

  lemma PiecesUnfold(s: seq<Sample>, idex: seq<nat>, i: nat)
    requires Ascending(idex, i, |s|) && |idex| > 0
    ensures Pieces(s, idex, i) == [Piece(s, i, idex[0])] + Pieces(s, idex[1..], idex[0] + 1)
  {
  }

  lemma ConsIndex(x: Coil, xs: seq<Coil>, k: nat)
    requires 0 < k <= |xs|
    ensures ([x] + xs)[k] == xs[k - 1]
  {
  }

  /** Every coil of a group: the span between consecutive zeros, oriented
      by the reversal test, and closed by a zero-current sample. */
  lemma CoilSpans(name: string, s: seq<Sample>, k: nat)
    requires MakeGroup(name, s).Ok? && k < |MakeGroup(name, s).value.coils|
    ensures Start(ZeroIndices(s), k, 0) <= ZeroIndices(s)[k] < |s|
    ensures var idex := ZeroIndices(s);
            var span := Span(s, Start(idex, k, 0), idex[k]);
            && IsZero(s[idex[k]])
            && MakeGroup(name, s).value.coils[k].pts ==
                 if s[Before(|s|, idex[k])].current != s[0].current then Reverse(span) else span
  {
    PiecesSpans(s, ZeroIndices(s), 0, k);
    ZerosFromExact(s, 0);
  }

  function TotalPoints(coils: seq<Coil>): nat {
    if |coils| == 0 then 0 else |coils[0].pts| + TotalPoints(coils[1..])
  }

  /** The coils hold the samples up to the last zero and nothing after it. */
  lemma {:induction false} PiecesKeep(s: seq<Sample>, idex: seq<nat>, i: nat)
    requires Ascending(idex, i, |s|)
    ensures TotalPoints(Pieces(s, idex, i)) == if |idex| == 0 then 0 else idex[|idex| - 1] + 1 - i
  {
    if |idex| > 0 {
      PiecesKeep(s, idex[1..], idex[0] + 1);
    }
  }

  /** A group keeps exactly the samples up to its last zero-current sample:
      the rows after it, and all rows of a group without one, are dropped. */
  lemma PointsKept(name: string, s: seq<Sample>)
    requires |s| > 0
    ensures var idex := ZeroIndices(s);
            TotalPoints(MakeGroup(name, s).value.coils) == if |idex| == 0 then 0 else idex[|idex| - 1] + 1
  {
    PiecesKeep(s, ZeroIndices(s), 0);
  }

  // ---------------------------------------------------------------------
  // Writing a group back as rows

  /** The rows a coil is written as: its points with current `current`,
      the last one with current 0 to close it. */
  function CoilRows(current: real, c: Coil): (rows: seq<Sample>)
    ensures |rows| == |c.pts|
  {
    seq(|c.pts|, t requires 0 <= t < |c.pts| => Sample(c.pts[t], if t == |c.pts| - 1 then 0.0 else current))
  }

  /** The rows of all coils of a group, one after the other. */
  function GroupRows(current: real, coils: seq<Coil>): seq<Sample> {
    if |coils| == 0 then [] else CoilRows(current, coils[0]) + GroupRows(current, coils[1..])
  }

  /** The rows of a group end with those of its last coil. */
  lemma {:induction false} GroupRowsSnoc(current: real, coils: seq<Coil>)
    requires |coils| > 0
    ensures GroupRows(current, coils) == GroupRows(current, coils[..|coils| - 1]) + CoilRows(current, coils[|coils| - 1])
    decreases |coils|
  {
    var m := |coils|;
    if m == 1 {
      assert coils[..0] == [] && coils[1..] == [];
    } else {
      GroupRowsSnoc(current, coils[1..]);
      assert coils[1..][..m - 2] == coils[..m - 1][1..];
      assert coils[1..][m - 2] == coils[m - 1];
      assert coils[..m - 1][0] == coils[0];
    }
  }

  /** No coil is empty: each is closed by a zero row of its own. */
  predicate NonEmptyCoils(coils: seq<Coil>) {
    forall k :: 0 <= k < |coils| ==> |coils[k].pts| >= 1
  }

  /** Coils that read back as themselves: none empty, and the first of at
      least two points, so that the group's first row carries its current.
      A later coil of one point is reversed on reading, which leaves it as
      it is. */
  predicate Writable(coils: seq<Coil>) {
    NonEmptyCoils(coils) && (|coils| > 0 ==> |coils[0].pts| >= 2)
  }

  /** The rows of coil `c` sit in `s` from index `k` on. */
  predicate CoilAt(s: seq<Sample>, k: nat, current: real, c: Coil) {
    && k + |c.pts| <= |s|
    && forall t :: 0 <= t < |c.pts| ==> s[k + t] == CoilRows(current, c)[t]
  }

  /** The rows of `coils` make up `s` from index `k` on, and only rows of
      non-zero current follow them. */
  predicate RowsAt(s: seq<Sample>, k: nat, current: real, coils: seq<Coil>)
    decreases |coils|
  {
    if |coils| == 0 then k <= |s| && forall t :: k <= t < |s| ==> !IsZero(s[t])
    else CoilAt(s, k, current, coils[0]) && RowsAt(s, k + |coils[0].pts|, current, coils[1..])
  }

  /** Reading the rows of a group back gives the group: each coil is closed
      by its own zero, and is either not reversed or a single point. */
  lemma GroupRoundTrip(name: string, current: real, coils: seq<Coil>)
    requires current != 0.0 && |coils| > 0 && Writable(coils)
    ensures MakeGroup(name, GroupRows(current, coils)) == Ok(CoilGroup(name, current, coils))
  {
    assert GroupRows(current, coils) + [] == GroupRows(current, coils);
    GroupThenTail(name, current, coils, []);
  }

  /** Rows of the group current after the rows of the coils hold no zero,
      so they are dropped: the group reads back as those coils. */
  lemma GroupThenTail(name: string, current: real, coils: seq<Coil>, tail: seq<Sample>)
    requires current != 0.0 && Writable(coils)
    requires |coils| > 0 || |tail| > 0
    requires forall t :: 0 <= t < |tail| ==> tail[t].current == current
    ensures MakeGroup(name, GroupRows(current, coils) + tail) == Ok(CoilGroup(name, current, coils))
  {
    var s := GroupRows(current, coils) + tail;
    assert s == [] + GroupRows(current, coils) + tail;
    GroupRowsAt(s, [], current, coils, tail);
    if |coils| > 0 {
      assert s[0] == CoilRows(current, coils[0])[0];
    } else {
      assert s[0] == tail[0];
    }
    RowsSplit(s, 0, current, coils);
  }

  /** `GroupRows` lays the rows out one coil after the other. */
  lemma {:induction false} GroupRowsAt(s: seq<Sample>, prefix: seq<Sample>, current: real, coils: seq<Coil>, tail: seq<Sample>)
    requires s == prefix + GroupRows(current, coils) + tail
    requires forall t :: 0 <= t < |tail| ==> !IsZero(tail[t])
    ensures RowsAt(s, |prefix|, current, coils)
    decreases |coils|
  {
    if |coils| == 0 {
      forall t | |prefix| <= t < |s|
        ensures !IsZero(s[t])
      {
        assert s[t] == tail[t - |prefix|];
      }
    } else {
      var rows := CoilRows(current, coils[0]);
      assert s == (prefix + rows) + GroupRows(current, coils[1..]) + tail;
      GroupRowsAt(s, prefix + rows, current, coils[1..], tail);
      forall t | 0 <= t < |rows|
        ensures s[|prefix| + t] == rows[t]
      {
        assert s[|prefix| + t] == (prefix + rows)[|prefix| + t];
      }
    }
  }

  /** The loop of the constructor, from index `k` where the rows of `coils`
      begin, rebuilds those coils. */
  lemma {:induction false} RowsSplit(s: seq<Sample>, k: nat, current: real, coils: seq<Coil>)
    requires current != 0.0 && NonEmptyCoils(coils)
    requires RowsAt(s, k, current, coils)
    requires |s| > 0 && s[0].current == current
    ensures Pieces(s, ZerosFrom(s, k), k) == coils
    decreases |coils|
  {
    if |coils| == 0 {
      NoZerosFrom(s, k);
    } else {
      var c, rest := coils[0], coils[1..];
      var z := k + |c.pts| - 1;
      RowsOfCoil(s, k, current, c);
      SkipNonZeros(s, k, z);
      if |c.pts| == 1 {
        PieceOfPoint(s, k, c);
      } else {
        PieceOfRows(s, k, z, c, current);
      }
      RowsSplit(s, z + 1, current, rest);
      PiecesCons(s, z, ZerosFrom(s, z + 1), k);
      ConsChain(Pieces(s, ZerosFrom(s, k), k), Pieces(s, [z] + ZerosFrom(s, z + 1), k),
                Piece(s, k, z), c, Pieces(s, ZerosFrom(s, z + 1), z + 1), rest);
      HeadTail(coils);
    }
  }

  /** Without a zero-current row from `k` on there is no terminator. */
  lemma NoZerosFrom(s: seq<Sample>, k: nat)
    requires k <= |s| && forall t :: k <= t < |s| ==> !IsZero(s[t])
    ensures ZerosFrom(s, k) == []
  {
    ZerosFromExact(s, k);
    AscendingBounds(ZerosFrom(s, k), k, |s|);
  }

  /** The rows of one coil: non-zero currents up to its last point, which
      carries the zero. */
  lemma RowsOfCoil(s: seq<Sample>, k: nat, current: real, c: Coil)
    requires current != 0.0 && |c.pts| >= 1
    requires CoilAt(s, k, current, c)
    ensures forall t :: k <= t < k + |c.pts| ==> s[t].pt == c.pts[t - k]
    ensures forall t :: k <= t < k + |c.pts| - 1 ==> s[t].current == current
    ensures IsZero(s[k + |c.pts| - 1])
  {
    forall t | k <= t < k + |c.pts|
      ensures s[t] == CoilRows(current, c)[t - k]
    {
      assert s[k + (t - k)] == CoilRows(current, c)[t - k];
    }
  }

  /** A span of rows carrying a coil's points, unreversed because the row
      before its zero carries the group's current, is that coil. */
  lemma PieceOfRows(s: seq<Sample>, i: nat, j: nat, c: Coil, current: real)
    requires i < j < |s| && |c.pts| == j + 1 - i
    requires forall t :: i <= t <= j ==> s[t].pt == c.pts[t - i]
    requires s[j - 1].current == current && s[0].current == current
    ensures Piece(s, i, j) == c
  {
    assert Span(s, i, j) == c.pts;
  }

  /** A one-row span is its coil whether or not it is reversed. */
  lemma PieceOfPoint(s: seq<Sample>, i: nat, c: Coil)
    requires i < |s| && |c.pts| == 1 && s[i].pt == c.pts[0]
    ensures Piece(s, i, i) == c
  {
    assert Span(s, i, i) == c.pts;
    assert Reverse(c.pts) == c.pts;
  }

  lemma HeadTail(xs: seq<Coil>)
    requires |xs| > 0
    ensures xs == [xs[0]] + xs[1..]
  {
  }

  lemma ConsChain(p: seq<Coil>, q: seq<Coil>, x: Coil, y: Coil, xs: seq<Coil>, ys: seq<Coil>)
    requires p == q && q == [x] + xs && x == y && xs == ys
    ensures p == [y] + ys
  {
  }

  /** One turn of the constructor's loop. */
  lemma PiecesCons(s: seq<Sample>, x: nat, rest: seq<nat>, i: nat)
    requires i <= x < |s|
    requires Ascending(rest, x + 1, |s|)
    ensures Pieces(s, [x] + rest, i) == [Piece(s, i, x)] + Pieces(s, rest, x + 1)
  {
    var idex := [x] + rest;
    assert idex[0] == x && idex[1..] == rest;
    assert Ascending(idex, i, |s|);
  }

  /** A run of non-zero currents contributes nothing to `idex`. */
  lemma {:induction false} SkipNonZeros(s: seq<Sample>, k: nat, z: nat)
    requires k <= z < |s|
    requires forall t :: k <= t < z ==> !IsZero(s[t])
    requires IsZero(s[z])
    ensures ZerosFrom(s, k) == [z] + ZerosFrom(s, z + 1)
    decreases z - k
  {
    if k < z {
      SkipNonZeros(s, k + 1, z);
    }
  }
}
