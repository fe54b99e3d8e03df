/** The layout of `coilset.blenderCoil`'s render mesh. Each coil arrives as
    the boundary lines of its swept cross-section; the four corners at every
    filament point become four vertices, and each pair of neighbouring
    cross-sections is joined by eight triangles, two per side of the
    rectangle. The layout does not depend on what a point is, so the
    points are a type parameter. */
module BlenderMesh {
  import opened Results

  /** A triangle of the mesh: three indices into the vertex list. */
  datatype Face = Face(a: int, b: int, c: int)

  /** The vertex and face lists handed to Blender. */
  datatype Mesh<P> = Mesh(vertices: seq<P>, faces: seq<Face>)

  // ---------------------------------------------------------------------
  // Sweeps and where their vertices and faces go

  /** The four corners of the cross-section at one filament point, in the
      order of the rows `xx[0..3]` of `finiteBuildCoil`'s boundary lines. */
  datatype Corners<P> = Corners(c0: P, c1: P, c2: P, c3: P)

  /** Corner `r` of a cross-section. */
  function Corner<P>(c: Corners<P>, r: nat): P
    requires r < 4
  {
    if r == 0 then c.c0 else if r == 1 then c.c1 else if r == 2 then c.c2 else c.c3
  }

  /** `range(xx.shape[1] - 1)` is empty for a sweep of no points. */
  function Bands<P>(sweep: seq<Corners<P>>): nat
  {
    if |sweep| == 0 then 0 else |sweep| - 1
  }

  /** The index of coil `j`'s first vertex: four per point of every earlier coil. */
  function VertexStart<P>(sweeps: seq<seq<Corners<P>>>, j: nat): nat
    requires j <= |sweeps|
  {
    if j == 0 then 0 else var n := |sweeps[j - 1]|; VertexStart(sweeps, j - 1) + n + n + n + n
  }

  /** The index of coil `j`'s first face: eight per band of every earlier coil. */
  function FaceStart<P>(sweeps: seq<seq<Corners<P>>>, j: nat): nat
    requires j <= |sweeps|
  {
    if j == 0 then 0 else var b := Bands(sweeps[j - 1]); FaceStart(sweeps, j - 1) + b + b + b + b + b + b + b + b
  }

  /** The eight triangles joining the cross-section whose corners are
      vertices `l .. l+3` to the next one at `l+4 .. l+7`. */
  function Band(l: int): (fs: seq<Face>)
    ensures |fs| == 8
  {
    [Face(l, l + 1, l + 5), Face(l, l + 5, l + 4),
     Face(l + 1, l + 2, l + 6), Face(l + 1, l + 6, l + 5),
     Face(l + 2, l + 3, l + 7), Face(l + 2, l + 7, l + 6),
     Face(l + 3, l, l + 4), Face(l + 3, l + 4, l + 7)]
  }

  /** Corner `r` of column `k` of coil `j` is vertex `VertexStart(j) + 4k + r`,
      for the first `n` columns. Here and below `4k` is written `k + k + k + k`
      and `8k` as eight `k`s, which keeps all index arithmetic linear. */
  ghost predicate VerticesOf<P>(sweeps: seq<seq<Corners<P>>>, j: nat, n: nat, vertices: seq<P>)
    requires j < |sweeps| && n <= |sweeps[j]|
  {
    VertexStart(sweeps, j) + n + n + n + n <= |vertices| &&
    forall k, r :: 0 <= k < n && 0 <= r < 4 ==> vertices[VertexStart(sweeps, j) + k + k + k + k + r] == Corner(sweeps[j][k], r)
  }

  /** Triangle `e` of band `k` of coil `j`. */
  function BandFace<P>(sweeps: seq<seq<Corners<P>>>, j: nat, k: nat, e: nat): Face
    requires j < |sweeps| && e < 8
  {
    Band(VertexStart(sweeps, j) + k + k + k + k)[e]
  }

  /** Band `k` of coil `j` is faces `FaceStart(j) + 8k ..`, for the first `n` bands. */
  ghost predicate FacesOf<P>(sweeps: seq<seq<Corners<P>>>, j: nat, n: nat, faces: seq<Face>)
    requires j < |sweeps|
  {
    FaceStart(sweeps, j) + n + n + n + n + n + n + n + n <= |faces| &&
    forall k, e :: 0 <= k < n && 0 <= e < 8 ==>
      faces[FaceStart(sweeps, j) + k + k + k + k + k + k + k + k + e] == BandFace(sweeps, j, k, e)
  }

  /** The mesh of a list of sweeps: every coil has points, and its corners
      and bands sit where `VertexStart` and `FaceStart` say; nothing else. */
  ghost predicate Meshes<P>(sweeps: seq<seq<Corners<P>>>, mesh: Mesh<P>)
  {
    |mesh.vertices| == VertexStart(sweeps, |sweeps|) && |mesh.faces| == FaceStart(sweeps, |sweeps|) &&
    forall j :: 0 <= j < |sweeps| ==>
      |sweeps[j]| > 0 && VerticesOf(sweeps, j, |sweeps[j]|, mesh.vertices) && FacesOf(sweeps, j, Bands(sweeps[j]), mesh.faces)
  }

  predicate Distinct(f: Face) {
    f.a != f.b && f.b != f.c && f.a != f.c
  }

  predicate Within(f: Face, lo: int, hi: int) {
    lo <= f.a < hi && lo <= f.b < hi && lo <= f.c < hi
  }

  /** Every face of coil `j` has three distinct corners, all vertices of
      coil `j` itself. */
  predicate FacesInBlock<P>(sweeps: seq<seq<Corners<P>>>, faces: seq<Face>)
  {
    forall j, f :: 0 <= j < |sweeps| && FaceStart(sweeps, j) <= f < FaceStart(sweeps, j + 1) && f < |faces| ==>
      Distinct(faces[f]) && Within(faces[f], VertexStart(sweeps, j), VertexStart(sweeps, j + 1))
  }

  // ---------------------------------------------------------------------
  // The lists as sequences

  /** The corners of the first `n` columns of a sweep, column by column. */
  function Rings<P>(sweep: seq<Corners<P>>, n: nat): (vs: seq<P>)
    requires n <= |sweep|
    ensures |vs| == n + n + n + n
  {
    if n == 0 then [] else Rings(sweep, n - 1) + [sweep[n - 1].c0, sweep[n - 1].c1, sweep[n - 1].c2, sweep[n - 1].c3]
  }

  /** `n` bands, the first joining the cross-sections at `l` and `l + 4`. */
  function BandsFrom(l: int, n: nat): (fs: seq<Face>)
    ensures |fs| == n + n + n + n + n + n + n + n
  {
    if n == 0 then [] else var p := n - 1; BandsFrom(l, p) + Band(l + p + p + p + p)
  }

  /** The vertex list after the first `j` coils. */
  function VertexList<P>(sweeps: seq<seq<Corners<P>>>, j: nat): (vs: seq<P>)
    requires j <= |sweeps|
    ensures |vs| == VertexStart(sweeps, j)
  {
    if j == 0 then [] else VertexList(sweeps, j - 1) + Rings(sweeps[j - 1], |sweeps[j - 1]|)
  }

  /** The face list after the first `j` coils. */
  function FaceList<P>(sweeps: seq<seq<Corners<P>>>, j: nat): (fs: seq<Face>)
    requires j <= |sweeps|
    ensures |fs| == FaceStart(sweeps, j)
  {
    if j == 0 then [] else FaceList(sweeps, j - 1) + BandsFrom(VertexStart(sweeps, j - 1), Bands(sweeps[j - 1]))
  }

  // ---------------------------------------------------------------------
  // The mesh loop

  /** The two loops of `blenderCoil` over the sweeps of the coils, in
      order. A sweep of no points has no last column `xx[:, -1]` and
      raises an IndexError. */
  method MeshCoils<P>(sweeps: seq<seq<Corners<P>>>) returns (r: Result<Mesh<P>>)
    ensures r.Ok? <==> forall j :: 0 <= j < |sweeps| ==> |sweeps[j]| > 0
    ensures r.Err? ==> r == Err(IndexOutOfRange)
    ensures r.Ok? ==> Meshes(sweeps, r.value)
    ensures r.Ok? ==> FacesInBlock(sweeps, r.value.faces)
  {
    // The IndexError discards the lists built so far, so looking for the
    // empty sweep before the loop has the same outcome.
    if !(forall j | 0 <= j < |sweeps| :: |sweeps[j]| > 0) {
      return Err(IndexOutOfRange);
    }
    var vertices: seq<P> := [];
    var faces: seq<Face> := [];
    var l := 0;
    for j := 0 to |sweeps|
      invariant vertices == VertexList(sweeps, j) && faces == FaceList(sweeps, j)
      invariant l == |vertices|
    {
      vertices, faces, l := MeshCoil(sweeps, j, vertices, faces, l);
    }
    r := Ok(Mesh(vertices, faces));
    ListsMesh(sweeps);
    ListsInBlock(sweeps);
  }

  /** The body of the coil loop: coil `j`'s vertices and faces appended.
      The index `l` is carried over from the previous coil, and it again
      counts the vertices when the coil is done. */
  method MeshCoil<P>(sweeps: seq<seq<Corners<P>>>, j: nat, vertices: seq<P>, faces: seq<Face>, l0: int)
    returns (vs: seq<P>, fs: seq<Face>, l: int)
    requires j < |sweeps| && |sweeps[j]| > 0
    requires vertices == VertexList(sweeps, j) && faces == FaceList(sweeps, j)
    requires l0 == |vertices|
    ensures vs == VertexList(sweeps, j + 1) && fs == FaceList(sweeps, j + 1)
    ensures l == |vs|
    ensures |vs| == |vertices| + 4 * |sweeps[j]| && |fs| == |faces| + 8 * (|sweeps[j]| - 1)
  {
    var sweep := sweeps[j];
    var n := |sweep|;
    l := l0;
    vs, fs := vertices, faces;
    for k := 0 to n - 1
      invariant l == |vs| == |vertices| + k + k + k + k
      invariant vs == vertices + Rings(sweep, k) && fs == faces + BandsFrom(|vertices|, k)
    {
      vs, fs, l := MeshColumn(sweep, k, vertices, faces, vs, fs, l);
    }
    ghost var v1 := vs;
    vs := vs + [sweep[n - 1].c0, sweep[n - 1].c1, sweep[n - 1].c2, sweep[n - 1].c3];
    l := l + 4;
    RingStep(sweep, n - 1, vertices, v1, vs);
    CoilStep(sweeps, j, vertices, faces, vs, fs);
  }

  /** The body of the column loop: the four corners of column `k` and the
      band joining them to column `k + 1`, `l` advancing once per side. */
  method MeshColumn<P>(sweep: seq<Corners<P>>, k: nat, vertices: seq<P>, faces: seq<Face>, v: seq<P>, f: seq<Face>, l: int)
    returns (vs: seq<P>, fs: seq<Face>, l': int)
    requires k + 1 < |sweep|
    requires l == |v| == |vertices| + k + k + k + k
    requires v == vertices + Rings(sweep, k) && f == faces + BandsFrom(|vertices|, k)
    ensures l' == |vs| == |vertices| + k + k + k + k + 4
    ensures vs == vertices + Rings(sweep, k + 1) && fs == faces + BandsFrom(|vertices|, k + 1)
  {
    vs, fs, l' := v + [sweep[k].c0, sweep[k].c1, sweep[k].c2, sweep[k].c3], f, l;
    fs := fs + [Face(l', l' + 1, l' + 5), Face(l', l' + 5, l' + 4)];
    l' := l' + 1;
    ghost var l1 := l';
    fs := fs + [Face(l', l' + 1, l' + 5), Face(l', l' + 5, l' + 4)];
    l' := l' + 1;
    ghost var l2 := l';
    fs := fs + [Face(l', l' + 1, l' + 5), Face(l', l' + 5, l' + 4)];
    l' := l' + 1;
    ghost var l3 := l';
    fs := fs + [Face(l', l' - 3, l' + 1), Face(l', l' + 1, l' + 4)];
    l' := l' + 1;
    RingStep(sweep, k, vertices, v, vs);
    BandStep(|vertices|, k, faces, f, fs, l, l1, l2, l3);
  }

  /** A whole coil more. */
  lemma CoilStep<P>(sweeps: seq<seq<Corners<P>>>, j: nat, vertices: seq<P>, faces: seq<Face>, vs: seq<P>, fs: seq<Face>)
    requires j < |sweeps| && |sweeps[j]| > 0
    requires vertices == VertexList(sweeps, j) && faces == FaceList(sweeps, j)
    requires vs == vertices + Rings(sweeps[j], |sweeps[j]|) && fs == faces + BandsFrom(|vertices|, |sweeps[j]| - 1)
    ensures vs == VertexList(sweeps, j + 1) && fs == FaceList(sweeps, j + 1)
  {
  }

  /** One more column of corners. */
  lemma RingStep<P>(sweep: seq<Corners<P>>, k: nat, vertices: seq<P>, v: seq<P>, v': seq<P>)
    requires k < |sweep|
    requires v == vertices + Rings(sweep, k)
    requires v' == v + [sweep[k].c0, sweep[k].c1, sweep[k].c2, sweep[k].c3]
    ensures v' == vertices + Rings(sweep, k + 1)
  {
  }

  /** One more band, appended two triangles at a time as `l` advances
      through `l0 .. l3`. */
  lemma BandStep(start: int, k: nat, faces: seq<Face>, f: seq<Face>, f': seq<Face>, l0: int, l1: int, l2: int, l3: int)
    requires f == faces + BandsFrom(start, k)
    requires l0 == start + k + k + k + k && l1 == l0 + 1 && l2 == l1 + 1 && l3 == l2 + 1
    requires f' == f + [Face(l0, l0 + 1, l0 + 5), Face(l0, l0 + 5, l0 + 4)] + [Face(l1, l1 + 1, l1 + 5), Face(l1, l1 + 5, l1 + 4)]
                     + [Face(l2, l2 + 1, l2 + 5), Face(l2, l2 + 5, l2 + 4)] + [Face(l3, l3 - 3, l3 + 1), Face(l3, l3 + 1, l3 + 4)]
    ensures f' == faces + BandsFrom(start, k + 1)
  {
  }

  // ---------------------------------------------------------------------
  // Where the lists put things

  /** The vertices after `i` coils begin those after `m >= i` coils. */
  lemma {:induction false} VerticesPrefix<P>(sweeps: seq<seq<Corners<P>>>, i: nat, m: nat)
    requires i <= m <= |sweeps|
    ensures VertexList(sweeps, i) <= VertexList(sweeps, m)
  {
    if i < m {
      VerticesPrefix(sweeps, i, m - 1);
      PrefixAppend(VertexList(sweeps, i), VertexList(sweeps, m - 1), Rings(sweeps[m - 1], |sweeps[m - 1]|));
    }
  }

  /** The faces after `i` coils begin those after `m >= i` coils. */
  lemma {:induction false} FacesPrefix<P>(sweeps: seq<seq<Corners<P>>>, i: nat, m: nat)
    requires i <= m <= |sweeps|
    ensures FaceList(sweeps, i) <= FaceList(sweeps, m)
  {
    if i < m {
      FacesPrefix(sweeps, i, m - 1);
      PrefixAppend(FaceList(sweeps, i), FaceList(sweeps, m - 1), BandsFrom(VertexStart(sweeps, m - 1), Bands(sweeps[m - 1])));
    }
  }

  lemma PrefixAppend<P>(a: seq<P>, b: seq<P>, c: seq<P>)
    requires a <= b
    ensures a <= b + c
  {
    assert (b + c)[..|a|] == b[..|a|];
  }

  /** Coil `j`'s corners sit in the vertex list from `VertexStart(j)` on. */
  lemma CoilVertices<P>(sweeps: seq<seq<Corners<P>>>, m: nat, j: nat, i: nat)
    requires j < m <= |sweeps| && i < |Rings(sweeps[j], |sweeps[j]|)|
    ensures VertexStart(sweeps, j) + i < VertexStart(sweeps, m)
    ensures VertexList(sweeps, m)[VertexStart(sweeps, j) + i] == Rings(sweeps[j], |sweeps[j]|)[i]
  {
    VerticesPrefix(sweeps, j + 1, m);
  }

  /** Coil `j`'s bands sit in the face list from `FaceStart(j)` on. */
  lemma CoilFaces<P>(sweeps: seq<seq<Corners<P>>>, m: nat, j: nat, i: nat)
    requires j < m <= |sweeps| && i < |BandsFrom(VertexStart(sweeps, j), Bands(sweeps[j]))|
    ensures FaceStart(sweeps, j) + i < FaceStart(sweeps, m)
    ensures FaceList(sweeps, m)[FaceStart(sweeps, j) + i] == BandsFrom(VertexStart(sweeps, j), Bands(sweeps[j]))[i]
  {
    FacesPrefix(sweeps, j + 1, m);
  }

  /** Entries of the rings before the last column are those of the shorter rings. */
  lemma RingsInit<P>(sweep: seq<Corners<P>>, n: nat, i: nat)
    requires 0 < n <= |sweep| && i < |Rings(sweep, n - 1)|
    ensures Rings(sweep, n)[i] == Rings(sweep, n - 1)[i]
  {
  }

  /** The last four entries of the rings are the corners of the last column. */
  lemma RingsLast<P>(sweep: seq<Corners<P>>, n: nat, r: nat)
    requires 0 < n <= |sweep| && r < 4
    ensures Rings(sweep, n)[|Rings(sweep, n - 1)| + r] == Corner(sweep[n - 1], r)
  {
  }

  /** Corner `r` of column `k` is entry `4k + r` of the rings. */
  lemma {:induction false} RingsAt<P>(sweep: seq<Corners<P>>, n: nat, k: nat, r: nat)
    requires k < n <= |sweep| && r < 4
    ensures Rings(sweep, n)[k + k + k + k + r] == Corner(sweep[k], r)
  {
    if k < n - 1 {
      RingsInit(sweep, n, k + k + k + k + r);
      RingsAt(sweep, n - 1, k, r);
    } else {
      RingsLast(sweep, n, r);
    }
  }

  /** Entries of the bands before the last band are those of the shorter bands. */
  lemma BandsInit(l: int, n: nat, i: nat)
    requires 0 < n && i < |BandsFrom(l, n - 1)|
    ensures BandsFrom(l, n)[i] == BandsFrom(l, n - 1)[i]
  {
  }

  /** The last eight entries of the bands are the last band. */
  lemma BandsLast(l: int, n: nat, e: nat)
    requires 0 < n && e < 8
    ensures BandsFrom(l, n)[|BandsFrom(l, n - 1)| + e] == Band(l + (n - 1) + (n - 1) + (n - 1) + (n - 1))[e]
  {
  }

  /** Triangle `e` of band `k` is entry `8k + e` of the bands. */
  lemma {:induction false} BandsAt(l: int, n: nat, k: nat, e: nat)
    requires k < n && e < 8
    ensures BandsFrom(l, n)[k + k + k + k + k + k + k + k + e] == Band(l + k + k + k + k)[e]
  {
    if k < n - 1 {
      BandsInit(l, n, k + k + k + k + k + k + k + k + e);
      BandsAt(l, n - 1, k, e);
    } else {
      BandsLast(l, n, e);
    }
  }

  /** The triangles of a band have distinct corners among its eight vertices. */
  lemma BandCorners(l: int, e: nat)
    requires e < 8
    ensures Distinct(Band(l)[e]) && Within(Band(l)[e], l, l + 8)
  {
  }

  /** Every triangle of `n` bands from `l` has distinct corners among the
      vertices `l .. l + 4n + 3`. */
  lemma {:induction false} BandsWithin(l: int, n: nat, i: nat)
    requires i < |BandsFrom(l, n)|
    ensures Distinct(BandsFrom(l, n)[i]) && Within(BandsFrom(l, n)[i], l, l + n + n + n + n + 4)
  {
    var p := n - 1;
    if i < |BandsFrom(l, p)| {
      BandsInit(l, n, i);
      BandsWithin(l, p, i);
    } else {
      BandsLast(l, n, i - |BandsFrom(l, p)|);
      BandCorners(l + p + p + p + p, i - |BandsFrom(l, p)|);
    }
  }

  /** The vertex list puts corner `r` of column `k` of coil `j` at
      `VertexStart(j) + 4k + r`. */
  lemma VertexListAt<P>(sweeps: seq<seq<Corners<P>>>, m: nat, j: nat, k: nat, r: nat)
    requires j < m <= |sweeps| && k < |sweeps[j]| && r < 4
    ensures VertexStart(sweeps, j) + k + k + k + k + r < VertexStart(sweeps, m)
    ensures VertexList(sweeps, m)[VertexStart(sweeps, j) + k + k + k + k + r] == Corner(sweeps[j][k], r)
  {
    CoilVertices(sweeps, m, j, k + k + k + k + r);
    RingsAt(sweeps[j], |sweeps[j]|, k, r);
  }

  /** The face list puts triangle `e` of band `k` of coil `j` at
      `FaceStart(j) + 8k + e`. */
  lemma FaceListAt<P>(sweeps: seq<seq<Corners<P>>>, m: nat, j: nat, k: nat, e: nat)
    requires j < m <= |sweeps| && k < Bands(sweeps[j]) && e < 8
    ensures FaceStart(sweeps, j) + k + k + k + k + k + k + k + k + e < FaceStart(sweeps, m)
    ensures FaceList(sweeps, m)[FaceStart(sweeps, j) + k + k + k + k + k + k + k + k + e] == BandFace(sweeps, j, k, e)
  {
    CoilFaces(sweeps, m, j, k + k + k + k + k + k + k + k + e);
    BandsAt(VertexStart(sweeps, j), Bands(sweeps[j]), k, e);
  }

  /** A face of coil `j` has distinct corners among coil `j`'s vertices. */
  lemma FaceInCoil<P>(sweeps: seq<seq<Corners<P>>>, m: nat, j: nat, f: nat)
    requires j < m <= |sweeps|
    requires FaceStart(sweeps, j) <= f < FaceStart(sweeps, j + 1)
    ensures f < FaceStart(sweeps, m)
    ensures Distinct(FaceList(sweeps, m)[f]) && Within(FaceList(sweeps, m)[f], VertexStart(sweeps, j), VertexStart(sweeps, j + 1))
  {
    CoilFaces(sweeps, m, j, f - FaceStart(sweeps, j));
    BandsWithin(VertexStart(sweeps, j), Bands(sweeps[j]), f - FaceStart(sweeps, j));
  }

  /** When every sweep has points, the lists are the mesh of the sweeps. */
  lemma ListsMesh<P>(sweeps: seq<seq<Corners<P>>>)
    requires forall j :: 0 <= j < |sweeps| ==> |sweeps[j]| > 0
    ensures Meshes(sweeps, Mesh(VertexList(sweeps, |sweeps|), FaceList(sweeps, |sweeps|)))
  {
    var m := |sweeps|;
    forall j | 0 <= j < m
      ensures VerticesOf(sweeps, j, |sweeps[j]|, VertexList(sweeps, m))
      ensures FacesOf(sweeps, j, Bands(sweeps[j]), FaceList(sweeps, m))
    {
      CoilInLists(sweeps, m, j);
    }
  }

  /** Coil `j`'s corners and bands, read back from the lists after `m` coils. */
  lemma CoilInLists<P>(sweeps: seq<seq<Corners<P>>>, m: nat, j: nat)
    requires j < m <= |sweeps|
    ensures VerticesOf(sweeps, j, |sweeps[j]|, VertexList(sweeps, m))
    ensures FacesOf(sweeps, j, Bands(sweeps[j]), FaceList(sweeps, m))
  {
    VerticesPrefix(sweeps, j + 1, m);
    forall k, r | 0 <= k < |sweeps[j]| && 0 <= r < 4
      ensures VertexList(sweeps, m)[VertexStart(sweeps, j) + k + k + k + k + r] == Corner(sweeps[j][k], r)
    {
      VertexListAt(sweeps, m, j, k, r);
    }
    FacesPrefix(sweeps, j + 1, m);
    forall k, e | 0 <= k < Bands(sweeps[j]) && 0 <= e < 8
      ensures FaceList(sweeps, m)[FaceStart(sweeps, j) + k + k + k + k + k + k + k + k + e] == BandFace(sweeps, j, k, e)
    {
      FaceListAt(sweeps, m, j, k, e);
    }
  }

  /** Every face of the list has distinct corners, all in its own coil. */
  lemma ListsInBlock<P>(sweeps: seq<seq<Corners<P>>>)
    ensures FacesInBlock(sweeps, FaceList(sweeps, |sweeps|))
  {
    forall j, f | 0 <= j < |sweeps| && FaceStart(sweeps, j) <= f < FaceStart(sweeps, j + 1) && f < FaceStart(sweeps, |sweeps|)
      ensures Distinct(FaceList(sweeps, |sweeps|)[f])
      ensures Within(FaceList(sweeps, |sweeps|)[f], VertexStart(sweeps, j), VertexStart(sweeps, j + 1))
    {
      FaceInCoil(sweeps, |sweeps|, j, f);
    }
  }

  // ---------------------------------------------------------------------
  // Sizes

  /** The number of filament points over all sweeps. */
  function Points<P>(sweeps: seq<seq<Corners<P>>>): nat {
    if |sweeps| == 0 then 0 else |sweeps[0]| + Points(sweeps[1..])
  }

  /** The mesh has four vertices per filament point, and eight faces per
      point short of one point per coil. */
  lemma MeshSize<P>(sweeps: seq<seq<Corners<P>>>, mesh: Mesh<P>)
    requires Meshes(sweeps, mesh)
    ensures |mesh.vertices| == 4 * Points(sweeps)
    ensures |mesh.faces| == 8 * (Points(sweeps) - |sweeps|)
  {
    StartsFrom(sweeps, 0);
  }

  /** The coils from `j` on add four vertices per point and eight faces per
      point short of one per coil. */
  lemma {:induction false} StartsFrom<P>(sweeps: seq<seq<Corners<P>>>, j: nat)
    requires j <= |sweeps| && forall i :: 0 <= i < |sweeps| ==> |sweeps[i]| > 0
    ensures VertexStart(sweeps, |sweeps|) == VertexStart(sweeps, j) + 4 * Points(sweeps[j..])
    ensures FaceStart(sweeps, |sweeps|) == FaceStart(sweeps, j) + 8 * (Points(sweeps[j..]) - (|sweeps| - j))
    decreases |sweeps| - j
  {
    if j < |sweeps| {
      StartsFrom(sweeps, j + 1);
      assert sweeps[j..][1..] == sweeps[j + 1..];
    } else {
      assert sweeps[j..] == [];
    }
  }
}
