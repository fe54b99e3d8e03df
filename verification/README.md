# Coils of pySTEL's `libstell/coils.py`, modelled in Dafny

This project models the coil-set core of pySTEL's `coils.py`. A `COILSET`
holds a field-period count (`nfp`) and a list of `COILGROUP`s. Each group has
a name, a current and a list of `COIL` filaments, and each filament is a
polyline of points. The model covers:

- the coils file: reading its records into groups, extents and names, and
  writing a set back out, both as written and as evidently intended;
- the split of a group's current column into coils at the zero-current rows
  (`COILGROUP.__init__`);
- a filament's segment arrays, vector potential, magnetic field (the
  Biot–Savart sum), geometric centre and distance to a surface;
- the superposition of all coils' fields or potentials (`coilbiot`,
  `coilvecpot`), with an optional per-group current list `extcur`;
- `finiteBuildCoil`: the centroid, Frenet and parallel-transport frames, the
  Rodrigues rotation and the rectangular cross-section swept along the coil;
- `blenderCoil`: the vertex and face lists built from the swept sections.

Modules, one per file:

| module | file | what |
|---|---|---|
| `Results` | results.dfy | `Result<T>` and the Python faults the model reports (`IndexError`, `ValueError` on an empty reduction, an unbound name, a non-finite value, a `ZeroDivisionError` from `2*pi/(len(x)-1)`, and scipy's `splrep` refusing a cubic through three points or fewer) |
| `Vectors` | vectors.dfy | 3-vectors, dot and cross products, sums, and the algebra lemmas the proofs use |
| `Coils` | coil.dfy | `COIL`: segments, `vecpot`, `bfield`, `geomCenter`, `surfDist` |
| `CoilGroups` | coil_group.dfy | `COILGROUP.__init__` and its inverse |
| `CoilSets` | coil_set.dfy | `coilbiot`, `coilvecpot` |
| `CoilsFiles` | coils_file.dfy | `read_coils_file` and `write_coils_file` after the header lines |
| `FiniteBuild` | finite_build.dfy | `finiteBuildCoil` |
| `BlenderMesh` | blender_mesh.dfy | the vertex and face loops of `blenderCoil` over given sweeps |
| `Blender` | blender.dfy | `blenderCoil` itself: each coil swept with `finiteBuildCoil(width=dist, height=dist)`, then meshed |

Floating-point numbers are modelled as `real`. numpy's square root, `cos`,
`sin`, `arccos`, the spline derivatives and the vector norm used by the field
kernels are parameters. Where a proof needs them to behave, the lemma asks
for it in a predicate (`IsSqrt`, `FiniteBuild.Exact`). A computation that
numpy would carry on with as `inf` or `nan` returns `Err(NonFinite)`. A
Python exception returns the matching `Err`.

## Model

| member | source | states |
|---|---|---|
| Coils.SegmentArrays | pySTEL/libstell/coils.py:492-497 | `dx` and `v` have one entry per segment, holding `p[i+1]-p[i]` and `p[i] × (p[i+1]-p[i])`; the segments telescope to last point minus first |
| Coils.VecPot | pySTEL/libstell/coils.py:528-540 | the potential exists exactly when no segment's denominator `rw[i+1]·rw[i]·(rw[i+1]·rw[i] + r[i+1]·r[i])` vanishes; it is zero at zero current |
| Coils.BField | pySTEL/libstell/coils.py:567-583 | it exists exactly when the potential does, and equals `1e-7·(current·Σ fa·v − probe × A)` |
| Coils.BFieldBiotSavart | pySTEL/libstell/coils.py:567-583 | the field equals `1e-7·current·Σ fa·((p_i − probe) × d_i)`, the Biot–Savart sum of straight segments, independent of how the source arranges it |
| Coils.VecPotScales | pySTEL/libstell/coils.py:537-539 | scaling the current scales the potential by the same factor |
| Coils.BFieldScales | pySTEL/libstell/coils.py:577-583 | scaling the current scales the field by the same factor |
| Coils.GeomCenter | pySTEL/libstell/coils.py:602 | the centre exists exactly for a non-empty coil (numpy's mean of nothing is nan) |
| Coils.CenterBalances | pySTEL/libstell/coils.py:602 | the deviations of the points from the centre sum to zero, which characterises the mean |
| Coils.SurfDist | pySTEL/libstell/coils.py:619-631 | it fails exactly when the surface is empty (`np.min` along a zero-length axis raises, even for a coil of no points); otherwise it gives one distance per point, each the distance to a nearest surface point |
| Coils.NearestDist | pySTEL/libstell/coils.py:630-631 | the distance is that of a nearest surface point, and zero for a point on the surface |
| Coils.MinDist2 | pySTEL/libstell/coils.py:630-631 | the chosen surface point is no farther, squared, than any other |
| CoilGroups.MakeGroup | pySTEL/libstell/coils.py:465-481 | an empty column fails (`current[0]`); otherwise the group keeps the name and the first current and has one coil per zero-current row |
| CoilGroups.CoilSpans | pySTEL/libstell/coils.py:469-481 | coil `k` is the span from after the previous zero row to zero row `k`, reversed exactly when the row before that zero row (cyclically, for the first) has a current other than the first one |
| CoilGroups.PointsKept | pySTEL/libstell/coils.py:469-481 | the coils hold exactly the rows up to the last zero row; rows after it are dropped |
| CoilGroups.GroupRoundTrip | pySTEL/libstell/coils.py:465-481 | writing a group's coils as rows (the current on every point, 0 on each coil's last) and splitting them gives the group back, for a non-zero current and coils none of which is empty, the first of two points or more (a later one-point coil is reversed on reading, which leaves it as it is) |
| CoilSets.CoilBiot | pySTEL/libstell/coils.py:270-280 | the field is the sum over every group and coil of the coil's field at `extcur[i]`, or at the group current when `extcur` is empty |
| CoilSets.CoilVecPot | pySTEL/libstell/coils.py:308-318 | the same sum with the vector-potential kernel |
| CoilSets.SuperposeOutcome | pySTEL/libstell/coils.py:270-318 | the sum raises `IndexError` exactly when `extcur` is non-empty and too short for a group with coils; otherwise it exists exactly when every coil's kernel is finite, and else it is non-finite |
| CoilSets.DefaultCurrents | pySTEL/libstell/coils.py:273-276 | an empty `extcur` gives the same sum as passing the groups' own currents |
| CoilSets.SuperposeScales | pySTEL/libstell/coils.py:270-318 | scaling every entry of `extcur` scales the sum |
| CoilsFiles.ScanRecords | pySTEL/libstell/coils.py:57-72 | each record's group id is that of the first annotated record at or after it (0 when none follows); the names are those of annotated records whose id is non-zero and not seen before, in file order; `ngroups` is the largest id, or 0 |
| CoilsFiles.Extents | pySTEL/libstell/coils.py:74-76 | the box exists exactly for a non-empty file (`min` of nothing raises); it encloses every point and each of its faces touches one |
| CoilsFiles.GroupsUpTo | pySTEL/libstell/coils.py:78-83 | group `i` is built from the records with id `i+1`, in file order, and takes the `i`-th kept name; a missing name or a group without points raises `IndexError` |
| CoilsFiles.Decode | pySTEL/libstell/coils.py:51-83 | an empty file fails on the extents; otherwise the set has `ngroups` groups, each read from the records of its id, within a box that encloses every point |
| CoilsFiles.ReadCoils | pySTEL/libstell/coils.py:51-83 | the record loop with its back-filled group array computes the same as the reference reading above |
| CoilsFiles.GroupLines | pySTEL/libstell/coils.py:232-241 | a group is written exactly when it has coils and none of them is empty; otherwise `current[-1] = 0` on an empty coil, or `j` left unbound or stale by a group without coils, raises |
| CoilsFiles.WriteRecords | pySTEL/libstell/coils.py:228-241 | the writer succeeds exactly when every group has coils and no coil is empty |
| CoilsFiles.WrittenIsPatched | pySTEL/libstell/coils.py:232-241 | for every writable set, the records written are the corrected writer's rows with each group's last row replaced: the zero-current end of its last coil becomes point `npts-2` of that coil at the group current (its only point at current 0 for a one-point coil) |
| CoilsFiles.WriteLosesLastCoil | pySTEL/libstell/coils.py:232-241 | for one group of current 1 with one two-point coil, the written file reads back as a group without coils |
| CoilsFiles.WriteLosesLastCoils | pySTEL/libstell/coils.py:232-241 | for every set the corrected writer round-trips whose groups' last coils have two points or more, reading back what the source writes gives the same set with the last coil of every group missing |
| CoilsFiles.ReadAfterWrite | pySTEL/libstell/coils.py:51-83 | the corrected writer (not in the source): reading back the records it writes gives the set back, for sets of non-zero group currents and non-empty coils, each group's first coil of two points or more |
| FiniteBuild.NormalizeUnit | pySTEL/libstell/coils.py:695-698 | a normalised vector has unit length |
| FiniteBuild.NormalizeAll | pySTEL/libstell/coils.py:762-765 | a list normalises exactly when each of its vectors does, and then entry by entry |
| FiniteBuild.NormalizeAllUnit | pySTEL/libstell/coils.py:762-765 | every vector of a normalised list has unit length |
| FiniteBuild.RotateIsRodrigues | pySTEL/libstell/coils.py:719-738 | the matrix of `rotate` applied to `v` is Rodrigues' rotation `c v + s (a × v) + (1 − c)(a·v) a` |
| FiniteBuild.RotatePreservesDot | pySTEL/libstell/coils.py:719-738 | about a unit axis with `c² + s² = 1` the rotation preserves dot products |
| FiniteBuild.CentroidNormalPerp | pySTEL/libstell/coils.py:701-710 | the centroid frame's normal is perpendicular to the unit tangent |
| FiniteBuild.ParallelSeed | pySTEL/libstell/coils.py:746-752 | the first parallel normal keeps `vx` and `vy` and solves `vz` so that it is perpendicular to the first tangent; a zero `T[0,2]` makes it non-finite |
| FiniteBuild.ParallelNormals | pySTEL/libstell/coils.py:716-758 | a coil of no points raises `IndexError`; otherwise there is one normal per point |
| FiniteBuild.StepKeepsNormal | pySTEL/libstell/coils.py:754-755 | one transport step rotates a unit normal of one unit tangent into a unit normal of the next |
| FiniteBuild.TransportAt | pySTEL/libstell/coils.py:754-755 | every transported normal is a unit vector perpendicular to its tangent |
| FiniteBuild.ParallelNormalsFrame | pySTEL/libstell/coils.py:716-758 | for unit tangents, every parallel-transport normal is a unit vector perpendicular to its tangent |
| FiniteBuild.RawNormals | pySTEL/libstell/coils.py:700-760 | an unknown frame name fails with the unbound `xn`; the Frenet normal is the second derivative; otherwise one normal per point |
| FiniteBuild.BuildFrame | pySTEL/libstell/coils.py:690-773 | an unknown frame fails unbound, an empty parallel coil raises `IndexError`, any other failure is non-finite; on success `T`, `N`, `B` have one row per point |
| FiniteBuild.FrameUnitBinormal | pySTEL/libstell/coils.py:766-773 | every binormal is a unit vector perpendicular to its tangent and its normal |
| FiniteBuild.FrameNormalPerp | pySTEL/libstell/coils.py:700-765 | in the centroid and parallel frames every normal is perpendicular to its tangent |
| FiniteBuild.FiniteBuildCoil | pySTEL/libstell/coils.py:774-791 | the result exists exactly when the frame does and carries its fault otherwise; it has five rows of one entry per point, the fifth repeating the first to close the section |
| FiniteBuild.FiniteBuildCorners | pySTEL/libstell/coils.py:774-786 | at every point opposite corners average to the point, and the edges are `width·b` and `height·n` |
| FiniteBuild.FiniteBuildRectangle | pySTEL/libstell/coils.py:774-786 | at every point the section is a `width × height` rectangle: its sides have those lengths and meet at right angles |
| FiniteBuild.FiniteBuildNormalPlane | pySTEL/libstell/coils.py:774-786 | in the centroid and parallel frames both edges of every section are perpendicular to the tangent, so the section lies in the plane normal to the coil |
| BlenderMesh.MeshCoils | pySTEL/libstell/coils.py:421-448 | the lists exist exactly when no sweep is empty (`xx[0,-1]`); the vertices are each sweep's four corners column by column, and each coil's faces are its bands, indexing only that coil's vertices |
| BlenderMesh.MeshCoil | pySTEL/libstell/coils.py:425-448 | one coil appends four vertices per point and eight faces per point but one, and leaves the running index `l` equal to the number of vertices |
| BlenderMesh.MeshSize | pySTEL/libstell/coils.py:427-448 | the mesh has four vertices per point and eight faces per point short of one per coil |
| Blender.SplineTangent | pySTEL/libstell/coils.py:649-651 | the spline exists exactly for coils of four points or more; one point divides by zero in `2*pi/(len(x)-1)`, and zero, two or three points are too few for the cubic `splrep` |
| Blender.Sweep | pySTEL/libstell/coils.py:426 | a coil's sweep is `finiteBuildCoil(width=dist, height=dist)` in the centroid frame, column by column, and fails exactly when that does: with the spline's fault for a short coil, and otherwise only non-finite |
| Blender.Sweeps | pySTEL/libstell/coils.py:424-426 | the sweeps of the coils in order: the first short coil's spline fault wins over everything before it; without a short coil any non-finite sweep makes the whole non-finite |
| Blender.ShortCoilListed | pySTEL/libstell/coils.py:424-425 | a coil of some group is too short exactly when the list of coils in visiting order holds one |
| Blender.BlenderCoil | pySTEL/libstell/coils.py:406-448 | it raises a spline fault exactly when some coil has fewer than four points, and then the fault of the first such coil in visiting order (an empty coil fails in the spline before `xx[0,-1]`); otherwise the lists exist exactly when every sweep does, and are the mesh of the sweeps, with four vertices per point and eight faces per point short of one per coil |

## Findings

| source | as written | input that shows it | evidently intended | confidence | as-written member | corrected member |
|---|---|---|---|---|---|---|
| pySTEL/libstell/coils.py:235-241 | the last coil of each group, when it has two points or more, is written without its last point (`offset = 1`), and the annotated line after the loop repeats point `npts-2` at the group current, so the zero-current row that closes the coil is never written and the file reads back without that coil | one group of current 1 with one coil of two points: the file holds one plain line and one annotated line, both at current 1, and reads back as a group with no coils | every coil written in full, with the group id and name on the zero-current row that closes the group's last coil, so that reading the file gives the set back whenever each group name is one non-empty token without whitespace and the last group's name does not contain `end` | not executed | CoilsFiles.WriteLosesLastCoils | CoilsFiles.ReadAfterWrite |

The as-written side is `CoilsFiles.WriteRecords`. `CoilsFiles.WrittenIsPatched`
states for all inputs what it emits. `CoilsFiles.WriteLosesLastCoils` shows
that reading it back drops each group's last coil, and
`CoilsFiles.WriteLosesLastCoil` gives the smallest instance. The corrected
side is `CoilsFiles.WriteFixed`, a writer that is not in the source.
`CoilsFiles.ReadAfterWrite` proves that it round-trips at the level of token
records; the conditions on group names that the text file adds are listed
under "Left out".

## Left out

- Floating point: every `float` and numpy array entry is a `real`, so rounding, overflow and the `.10E` formatting of the written file are not modelled.
- numpy `inf`/`nan`: a division by zero becomes a whole-result `Err(NonFinite)` rather than values that carry on. In `finiteBuildCoil` (coils.py:695, 741-743, 762, 770), a zero-length tangent, normal or binormal makes only the affected rows nan. For the parallel frame it is every row from that point on. The model fails the whole call instead.
- FiniteBuild.NormalizeAll: reports any zero vector as `Err(NonFinite)` for the whole list, where numpy gives nan only in that row, because the model has no nan.
- FiniteBuild.BuildFrame: a zero length anywhere in the frame fails the whole frame with `Err(NonFinite)`, for the same reason.
- FiniteBuild.FiniteBuildCoil: inherits the whole-result `Err(NonFinite)` from the frame; numpy would return rows with nan entries only at the affected points.
- Blender.BlenderCoil: a non-finite sweep fails the whole call, where Blender would receive nan vertices.
- FiniteBuild.RawNormals: the Frenet normal is the spline's second derivative as given. Nothing is promised about it being perpendicular to the tangent, because that depends on the spline.
- `spline_tangent` (coils.py:634-661) is modelled only by where it fails (`Blender.SplineTangent`: one point, or fewer than four). The tangent and second derivative it returns otherwise are parameters (`Blender.Derivs`), and so are `sqrt`, `cos`, `sin`, `arccos` and the norm in the field kernels; they are numpy and scipy routines whose bodies are outside this file.
- FiniteBuild.FiniteBuildCoil: takes the spline derivatives as arguments, so the call to `spline_tangent` at coils.py:690-691 and its failures are modelled one level up, in `Blender.Build`; the cache `self.xt` is not modelled, which changes nothing because only a successful spline sets it.
- The header lines of the coils file: the `periods` parse (coils.py:43-44) becomes the `nfp` parameter, and the "Bad Synatx" prints (coils.py:46-50) are console output only.
- The trim of a trailing `end` line (coils.py:52) is not modelled: the model reads a list of records that already excludes the header and the `end` line.
- CoilsFiles.ReadAfterWrite: the round trip is proved over token records, not over the text. In the file it also needs every group name to be exactly one non-empty token: an empty name gives a five-token line and a name with whitespace one of seven or more, and neither is read as annotated (coils.py:60, 67), while leading or trailing blanks are lost by `split()`. Neither writer writes an `end` line, so a last group whose name contains `end` has its annotated line dropped by `if 'end' in lines[-1]` (coils.py:52), so `ngroups` stops one short and that group is not read back at all.
- CoilsFiles.WriteLosesLastCoils: proved over token records under the same name conditions as `CoilsFiles.ReadAfterWrite`; a name that breaks them changes what the file reads back as, on top of the lost coils.
- Text parsing: records arrive already split into tokens and numbers, so the `float`/`int` conversions of coils.py:62-69 and their `ValueError`s are not modelled.
- CoilSets.CoilBiot: `extcur` is a list, where `if extcur:` (coils.py:273) raises `ValueError` on a numpy array of more than one entry.
- CoilSets.CoilVecPot: the same for `if extcur:` at coils.py:311.
- The `print(np.dot(V[0,:],T[0,:]))` of the parallel frame (coils.py:753) is console output only.
- File I/O: `write_coils_file` opens the file and writes the header before any exception, so a failing write leaves a partial file (coils.py:228-241). The model returns the records of a successful write, or the fault alone.
- `range(self.ngroups)`: the writer (coils.py:232), `coilbiot` (coils.py:271), `coilvecpot` (coils.py:309) and `blenderCoil` (coils.py:424) loop over it. The model's `CoilsFiles.WriteRecords`, `CoilSets` and `Blender` loop over all groups instead, which is the same for a set read from a file, where `ngroups` is the number of groups.
- `coiloffset` (coils.py:320-384) is not part of this model. It is an interpolation built on scipy splines and `arctan2` over every coil.
- `coilSurfDist` (coils.py:386-404) only stores `Coils.SurfDist` on every coil, and the model keeps no per-coil state.
- Plotting and the other methods of `COILSET` and `COIL` outside the coils file, the fields, `finiteBuildCoil` and `blenderCoil` are not part of this model.
- Blender.BlenderCoil: it computes every sweep before meshing any, where the source meshes each coil as soon as it is swept. The outcome is the same, because the mesh loops raise nothing for a coil long enough for the spline, a non-finite sweep raises nothing in numpy, and the lists built before an exception are discarded.
