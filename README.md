# shapes-unity: mesh buffers, line ribbons and point symbols

This project models the mesh-building core of the Unity package shapes-unity and proves properties of the model in Dafny.

Every shape fills four append-only buffers, which `AbstractShape` holds:
- `Vertices`
- `Tris`, a flat index list of which each consecutive triple is one triangle
- `Normals`
- `Uvs`

`Refresh` clears the four buffers and then runs the shape's `GenerateMesh`.

**`LineShape`** strokes a polyline into a ribbon of triangles.
- It first sets every anchor's height to 0, in place.
- It does nothing for fewer than two anchors.
- It then walks the anchors, `n` iterations for an open path and `n + 1` for a closed one.
- Each iteration builds one piece:
  - a start cap or an end cap (`MakeCap`, with `MakeRoundedCap` for the round style), at the two ends of an open path;
  - a join (`MakeCorner`) at every other anchor.
- A join is built from:
  - a rail quad to the previous piece's two rail vertices;
  - a wedge start;
  - a style filling: a round arc, a sharp miter or a bevel;
  - a wedge end.
- Each piece leaves its own rail, its last two vertices, for the next piece.
- The walk ends by adding one up-normal and one placeholder uv per vertex.

**`PointShape`** emits one marker:
- a square of 4 corners and 2 triangles;
- or a regular polygon (3 corners for the triangle symbol, 20 for the circle) triangulated as a fan from corner 0.

## How the model is organised

- `vectors.dfy` (`Vectors`): vector and engine value types.
  - Unity's floating-point vector arithmetic is not computed. A computed value is the *term* that names the engine operations producing it (`Add(anchor, Scale(length, miter))`). Equal terms therefore denote equal engine values.
  - The two comparisons the code branches on are decided by an `Engine` value fixed when the shape is built: `Vector3 ==` in the miter choice, and `> 0` in the turn-side test.
- `buffers.dfy` (`Buffers`): the buffers.
  - A `Mesh` datatype is the snapshot of the four lists.
  - `Append` and `WithPlaceholders` are the two ways generation changes them.
  - The class `MeshBuffers` holds `AddVertex`, `AddVertices`, `AddTri`, the clearing half of `Refresh`, and the placeholder loop as methods over `seq` fields.
- `line_pieces.dfy` (`LinePieces`): one piece at a time.
  - Each piece is specified as a function of the vertex count `c` found on entry: what it appends to `Vertices` (`CornerVerts`, `CapVerts`) and to `Tris` (`CornerTris`, `CapTris`).
  - The file also holds the counting, index-range and rail hand-off lemmas.
- `line_path.dfy` (`LinePath`): the walk.
  - `Pass(m0, a, loop, pen, k)` is the buffers after `k` iterations.
  - `Generate` is the whole `GenerateMesh`.
  - The file holds the dispatch rule, well-formedness, the append-only property and the closed-form triangle counts.
- `line_shape.dfy` (`Lines`): the class `LineShape`.
  - Its fields are the staged state and a mutable `anchors` array.
  - Its methods do what the C# methods do, step by step, and each one is proved against the specification function from `LinePieces` / `LinePath`.
- `points.dfy` (`Points`): `PointShape` as a class, and its specification functions and lemmas.

### Behaviour of the code worth knowing

- **Closed paths.** A closed path of `n` anchors builds `n + 1` joins, with anchor 0 joined twice. It builds only `n` rail quads, because the first join finds fewer than two vertices. `LoopTriangleCount` states the total.
- **Join filling on closed paths.** A closed path has no caps, but the cap style still selects the join filling, so it changes the triangle count.
- **Width.** The width is not checked: a width of 0 or less still generates the full mesh.
- **Two-anchor straight line with flat caps.** It has 4 vertices and 2 triangles in total (`TwoAnchorFlatLine`).
- **Triangle symbol.** The triangle symbol emits two triples, the first of them the degenerate `(0, 0, 1)`, because the polygon fan loop starts at `i = 1` (`FanFirstDegenerate`, `TriangleSymbolTris`).
- **`PointShape`'s triangle indices** count from 0, not from the vertices the buffers already hold. This matters only when `GenerateMesh` runs on buffers that are not empty, which `Refresh` never does.

## Model

| member | source | states |
|---|---|---|
| `Buffers.MeshBuffers.constructor` | Assets/Shapes/AbstractShape.cs:12-15 | the four lists start empty |
| `Buffers.MeshBuffers.Clear` | Assets/Shapes/AbstractShape.cs:26-29 | all four buffers become empty |
| `Buffers.MeshBuffers.AddVertex` | Assets/Shapes/AbstractShape.cs:57-60 | `v` is appended; the result is the old vertex count, now the index of `v`; the other buffers are unchanged |
| `Buffers.MeshBuffers.AddVertices` | Assets/Shapes/AbstractShape.cs:62-64 | every element of the array is appended in order; the other buffers are unchanged |
| `Buffers.MeshBuffers.AddTri` | Assets/Shapes/AbstractShape.cs:66-70 | `Tris` grows by exactly `[v1, v2, v3]`; nothing else changes |
| `Buffers.MeshBuffers.AddPlaceholders` | Assets/Shapes/LineShape.cs:48-51 | the buffers become `WithPlaceholders` of their old value |
| `Buffers.WithPlaceholders` | Assets/Shapes/PointShape.cs:33-36 | vertices and triangles are kept; one up-normal and one `(0.5, 0.5)` uv is added per vertex, after the normals and uvs already present |
| `Buffers.PlaceholdersMakeWellFormed` | Assets/Shapes/LineShape.cs:48-51 | with no normals or uvs before, and whole triangles over existing vertices, the result is well formed: normals, uvs and vertices have one length |
| `LinePieces.JoinArcStep` | Assets/Shapes/LineShape.cs:87-91 | one turn of the round-join arc loop appends the point rotated by `(i + 1) * step` |
| `LinePieces.FanRightStep` | Assets/Shapes/LineShape.cs:87-92 | one turn on a right turn appends `(lIdx, idx, anchorIdx)`; `lIdx` is the rail vertex first and the previous arc vertex after that |
| `LinePieces.FanLeftStep` | Assets/Shapes/LineShape.cs:95-100 | one turn on a left turn appends `(idx, rIdx, anchorIdx)`, with `rIdx` following the arc |
| `LinePieces.FanRightInRange` | Assets/Shapes/LineShape.cs:86-92 | every index of the right-turn arc fan lies between the older vertices used and the newest arc vertex |
| `LinePieces.FanLeftInRange` | Assets/Shapes/LineShape.cs:94-100 | the same for the left-turn arc fan |
| `LinePieces.CapArcStep` | Assets/Shapes/LineShape.cs:167-169 | one turn of the rounded-cap loop appends the mirrored pair rotated by `i * step` about up and about down |
| `LinePieces.CapFanStep` | Assets/Shapes/LineShape.cs:167-174 | one turn appends `(anchor, l_prev, l)` and `(anchor, r, r_prev)`, the rail pair moving to the new pair |
| `LinePieces.CapFanInRange` | Assets/Shapes/LineShape.cs:163-175 | every index of the rounded fan lies between its starting rail and its newest vertex |
| `LinePieces.CornerCounts` | Assets/Shapes/LineShape.cs:54-137 | a join appends exactly 4+r / 7+r (round), 6 / 7 (sharp), 5 / 6 (bevel) vertices on a right / left turn; its first vertex is the anchor; it appends `2·[rail exists] + 1 + fill + 1` triangles, where fill is r, 2 or 1 |
| `LinePieces.CornerTrisInRange` | Assets/Shapes/LineShape.cs:55-136 | for any entry count `c`, every join index lies in `[c - 2, c + added)` when a rail exists and in `[c, c + added)` when none does |
| `LinePieces.QuadStartInRange` | Assets/Shapes/LineShape.cs:76-82 | the rail quad (emitted only when `c - 2` and `c - 1` are both non-negative) and the wedge start `(c + 1, c, c + 2)` have all their indices in `[c - 2, c + 3)`, or in `[c, c + 3)` when there is no rail |
| `LinePieces.FillTrisInRange` | Assets/Shapes/LineShape.cs:84-126 | the style filling names only the anchor and the join's own vertices |
| `LinePieces.CloseTrisInRange` | Assets/Shapes/LineShape.cs:128-136 | the wedge end names only the anchor and the join's own vertices |
| `LinePieces.CornerRailHandOff` | Assets/Shapes/LineShape.cs:55-136 | a join's quad reads the old rail `(c - 2, c - 1)`; its final triangle is `(anchorIdx, C - 2, C - 1)` for the new count `C`, so the next piece's `prevl`, `prevr` are this join's rail |
| `LinePieces.LeftTurnRepeatsRail` | Assets/Shapes/LineShape.cs:128-133 | on a left turn the last vertex of a join (the new right rail) is a copy of the third-from-last vertex, two places before it |
| `LinePieces.CapCounts` | Assets/Shapes/LineShape.cs:139-175 | a cap appends 2 vertices (flat), `2 + 2(r+1)` (round start) or `3 + 2(r+1)` (round end); its triangles are `2·[end cap] + 2(r+1)·[round]` |
| `LinePieces.CapTrisInRange` | Assets/Shapes/LineShape.cs:140-174 | entered with 0 vertices or with a rail, every cap index lies in `[c - 2, c + added)` |
| `LinePieces.FlatPairInRange` | Assets/Shapes/LineShape.cs:148-151 | the two end-cap triangles name only the old rail and the flat pair |
| `LinePieces.RoundEndCapInRange` | Assets/Shapes/LineShape.cs:145-175 | a round end cap names only the old rail and its own vertices |
| `LinePieces.CornerWellFormed` | Assets/Shapes/LineShape.cs:54-137 | a join entered with any count adds at least two vertices and whole triangles over existing vertices |
| `LinePieces.CapWellFormed` | Assets/Shapes/LineShape.cs:139-175 | the same for a cap entered with no vertices or with a rail |
| `LinePieces.EndCapNeedsRail` | Assets/Shapes/LineShape.cs:140-150 | the end cap's rail indices are unguarded: entered with one vertex, its first index is -1 |
| `LinePieces.StartCapRail` | Assets/Shapes/LineShape.cs:145-174 | a flat start cap has no triangles; a round start cap's last two triangles end on its last two vertices, which are the rail it hands on |
| `LinePath.WrapIndex` | Assets/Shapes/LineShape.cs:177-181 | on `[-n, 2n)` the result is a valid index: `index + n` below 0, `index` in range, `index - n` from `n` up |
| `LinePath.ZeroY` | Assets/Shapes/LineShape.cs:24 | every anchor's y becomes 0, with x, z and the length unchanged |
| `LinePath.ZeroYIdempotent` | Assets/Shapes/LineShape.cs:24 | flattening twice is flattening once |
| `LinePath.PieceAt` | Assets/Shapes/LineShape.cs:39-45 | start cap exactly at `i == 0` of an open path, end cap exactly at `i == n - 1` of an open path, join otherwise (every iteration of a closed path) |
| `LinePath.StepIsPiece` | Assets/Shapes/LineShape.cs:28-46 | iteration `i` appends `MakeCap(anchor, -t2)`, `MakeCap(anchor, t1)` or `MakeCorner(anchor, t1, t2)` as the dispatch names, at anchor `i` wrapped, from the buffers the earlier iterations left |
| `LinePath.PieceInvariant` | Assets/Shapes/LineShape.cs:28-46 | an iteration entered with no vertices (the first) or with a rail adds at least two vertices and whole triangles over existing vertices |
| `LinePath.StepWellFormed` | Assets/Shapes/LineShape.cs:28-46 | each iteration keeps the buffers built so far consistent and leaves at least two vertices |
| `LinePath.PassInvariant` | Assets/Shapes/LineShape.cs:28-46 | after any number of iterations from empty buffers, the triangles are whole and name existing vertices |
| `LinePath.PassExtends` | Assets/Shapes/LineShape.cs:28-46 | the walk only appends vertices and triangles, and leaves normals and uvs untouched, whatever the buffers held before |
| `LinePath.GenerateExtends` | Assets/Shapes/LineShape.cs:23-52 | GenerateMesh only appends to every buffer |
| `LinePath.GenerateWellFormed` | Assets/Shapes/LineShape.cs:23-52 | from empty buffers the result is well formed (normals, uvs and vertices have one length; every index names a vertex); with fewer than two anchors it is empty |
| `LinePath.StepTriangles` | Assets/Shapes/LineShape.cs:39-45 | an iteration adds the triangle count of the piece the dispatch names, given the vertex count on entry |
| `LinePath.LoopTriangleCount` | Assets/Shapes/LineShape.cs:27-46 | a closed path of `n` anchors yields `3·(2n + (n+1)(2 + fill))` indices: `n + 1` joins, `n` rail quads |
| `LinePath.OpenTriangleCount` | Assets/Shapes/LineShape.cs:27-46 | an open path yields a start cap, `n - 2` joins each with a rail quad, and an end cap |
| `LinePath.TwoAnchorFlatLine` | Assets/Shapes/LineShape.cs:139-152 | two anchors with sharp or bevel caps give 4 vertices and the triangles `(0,2,1)`, `(2,3,1)` |
| `Lines.LineShape.constructor` | Assets/Shapes/LineShape.cs:9-10 | no anchors, cap resolution 5, empty buffers |
| `Lines.LineShape.SetPoints` | Assets/Shapes/LineShape.cs:12-14 | the caller's array itself is stored; the style is unchanged |
| `Lines.LineShape.SetStyle` | Assets/Shapes/LineShape.cs:16-21 | width, colour, cap style and loop flag are stored; the anchors are unchanged |
| `Lines.LineShape.GetAnchor` | Assets/Shapes/LineShape.cs:177-181 | the anchor at the index wrapped once in either direction |
| `Lines.LineShape.Refresh` | Assets/Shapes/AbstractShape.cs:23-31 | the anchors are flattened and the buffers equal `Generate` from empty buffers, a value of the staged state alone, and are well formed |
| `Lines.LineShape.GenerateMesh` | Assets/Shapes/LineShape.cs:23-52 | the anchor array is flattened in place, and the buffers become `Generate` of their old value and the flattened anchors |
| `Lines.LineShape.MakePiece` | Assets/Shapes/LineShape.cs:29-45 | the tangents and the dispatch of iteration `i` take the buffers from `Pass(i)` to `Pass(i + 1)` |
| `Lines.LineShape.MakeCorner` | Assets/Shapes/LineShape.cs:54-137 | the buffers become `CornerStep` of their old value |
| `Lines.LineShape.MakeRails` | Assets/Shapes/LineShape.cs:63-82 | appends the two rail points, the quad when both old rail indices are non-negative, and the wedge start |
| `Lines.LineShape.MakeFill` | Assets/Shapes/LineShape.cs:84-126 | appends the style filling and returns the rail indices it leaves behind |
| `Lines.LineShape.MakeRoundFill` | Assets/Shapes/LineShape.cs:84-103 | the round arc, plus on a left turn the miter point and a copy of the last arc vertex |
| `Lines.LineShape.MakeSharpFill` | Assets/Shapes/LineShape.cs:104-115 | the far miter point and the second rail point, with their two triangles |
| `Lines.LineShape.MakeBevelFill` | Assets/Shapes/LineShape.cs:116-126 | the second rail point and one triangle |
| `Lines.LineShape.MakeRoundRight` | Assets/Shapes/LineShape.cs:86-92 | appends the `r` arc points and the right-turn fan; returns the last arc index |
| `Lines.LineShape.MakeRoundLeft` | Assets/Shapes/LineShape.cs:94-100 | appends the `r` arc points swept by `-step` and the left-turn fan |
| `Lines.LineShape.MakeClose` | Assets/Shapes/LineShape.cs:128-136 | appends the closing rail (a copy of the newest vertex on a left turn) and the wedge end |
| `Lines.LineShape.MakeCap` | Assets/Shapes/LineShape.cs:139-161 | the buffers become `CapStep` of their old value: end cap exactly when the buffers are not empty |
| `Lines.LineShape.MakeRoundedCap` | Assets/Shapes/LineShape.cs:163-175 | appends the anchor and `r + 1` mirrored arc pairs, each fanned to the previous pair |
| `Points.PolygonPoints` | Assets/Shapes/PointShape.cs:49-53 | exactly `corners` points; point `i` is the radius along forward turned about up by `i·360/corners` |
| `Points.Fan` | Assets/Shapes/PointShape.cs:28-30 | the fan loop with `c` corners emits `c - 1` triples |
| `Points.FanTriangles` | Assets/Shapes/PointShape.cs:28-30 | triple `j` is `(0, j, j + 1)` |
| `Points.FanInRange` | Assets/Shapes/PointShape.cs:27-30 | every fan index names one of the `c` corners |
| `Points.FanFirstDegenerate` | Assets/Shapes/PointShape.cs:28-30 | the first triple is the degenerate `(0, 0, 1)`; `c - 2` triples follow it |
| `Points.SquareCover` | Assets/Shapes/PointShape.cs:22-24 | the two square triangles share the diagonal 0-2, use all four corners and only those |
| `Points.SymbolCounts` | Assets/Shapes/PointShape.cs:20-31 | square: 4 vertices, 2 triangles; triangle: 3 and 2; circle: 20 and 19 |
| `Points.TriangleSymbolTris` | Assets/Shapes/PointShape.cs:25-30 | the triangle symbol's indices are `[0,0,1, 0,1,2]` |
| `Points.PointWellFormed` | Assets/Shapes/PointShape.cs:20-37 | from empty buffers, every symbol and width gives a well-formed mesh |
| `Points.PointShape.constructor` | Assets/Shapes/PointShape.cs:10-12 | twenty corners in a circle, square symbol, empty buffers |
| `Points.PointShape.SetStyle` | Assets/Shapes/PointShape.cs:14-18 | width, colour and symbol are stored |
| `Points.PointShape.GenerateSquare` | Assets/Shapes/PointShape.cs:39-47 | a fresh array `(-r,0,-r)`, `(-r,0,r)`, `(r,0,r)`, `(r,0,-r)`, with `r = 0.5·width` |
| `Points.PointShape.GeneratePolygon` | Assets/Shapes/PointShape.cs:49-54 | a fresh array equal to `PolygonPoints(width, corners)` |
| `Points.PointShape.GenerateMesh` | Assets/Shapes/PointShape.cs:20-37 | the buffers become `PointGenerate` of their old value; the colour is not read |
| `Points.PointShape.Refresh` | Assets/Shapes/AbstractShape.cs:23-31 | the buffers equal `PointGenerate` from empty buffers and are well formed |

## Left out

- Rendering-resource plumbing is not modelled: `Start`, `InitMesh`, the material and colour binding, and the copy of the buffers into the engine `Mesh` (Assets/Shapes/AbstractShape.cs:19-21, 33-55). These are engine calls with no logic to verify.
- Editor visualisation is not modelled: `DrawGizmos`, `OnDrawGizmos`, `DrawLines`, `DrawLabel` and `TransformPointArray` (Assets/Shapes/AbstractShape.cs:72-103, Assets/Shapes/LineShape.cs:183-196, Assets/Shapes/PointShape.cs:56-67).
- Floating-point values are not computed. They are terms, so positions, winding direction, arc angles and the unbounded miter length near a reversal are not reasoned about.
- The engine's two comparisons are not modelled. `Vector3 ==` (with its tolerance) and the sign of `Cross(miter, t1).y` are a fixed `Engine` value given to the constructor.
- `Assets/TestDriver.cs` is not part of this model. It only calls the setters and `Refresh` each frame.
- Inheritance is not modelled. `AbstractShape`'s lists are a `MeshBuffers` object that each shape holds.
- MakeCorner and GenerateMesh are split into helper methods (`MakePiece`, `MakeRails`, `MakeFill`, `MakeClose`, …). They make the same calls in the same order as the single C# method bodies.
- The cap resolution is the constructor's constant 5, as in the source. The piece functions accept any resolution of at least 1.
- Lines.LineShape.GetAnchor: requires an index in `[-n, 2n)`, where the C# would raise an out-of-range exception. GenerateMesh only calls it with `-1 ≤ index ≤ n + 1` (`n + 1` in the last iteration of a closed path), which lies in `[-n, 2n)` because `n ≥ 2`.
- Points.PointShape.GeneratePolygon: takes a non-negative corner count, where a negative count would raise in C#. It is only called with 3 or 20.
