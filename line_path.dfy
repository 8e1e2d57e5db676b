/** The walk of LineShape.GenerateMesh over the anchor list, as a function
    of the buffers it starts from, and what it guarantees. */
module LinePath {
  import opened Vectors
  import opened Buffers
  import opened LinePieces

  /** Number of loop iterations: a closed path revisits anchor 0. */
  function Iterations(n: nat, loop: bool): nat {
    n + (if loop then 1 else 0)
  }

  /** GetAnchor's index wrap: one step back from 0 or forward from n - 1.
      The result is the valid index that differs from `index` by a multiple
      of `n`. */
  function WrapIndex(index: int, n: nat): (k: nat)
    requires -(n as int) <= index < 2 * n
    ensures k < n
    ensures index < 0 ==> k == index + n
    ensures 0 <= index < n ==> k == index
    ensures n <= index ==> k == index - n
  {
    var i := if index < 0 then index + n else index;
    if i >= n then i - n else i
  }

  /** The plane normalisation: every anchor's height set to 0. */
  function ZeroY(a: seq<Vec3>): (r: seq<Vec3>)
    ensures |r| == |a|
    ensures forall k :: 0 <= k < |a| ==> r[k].y == 0.0 && r[k].x == a[k].x && r[k].z == a[k].z
  {
    seq(|a|, k requires 0 <= k < |a| => a[k].(y := 0.0))
  }

  /** Normalising twice is normalising once. */
  lemma ZeroYIdempotent(a: seq<Vec3>)
    ensures ZeroY(ZeroY(a)) == ZeroY(a)
  {
    var z := ZeroY(a);
    assert forall k :: 0 <= k < |a| ==> ZeroY(z)[k] == z[k];
  }

  datatype Piece = StartCap | EndCap | Join

  /** Which piece iteration `i` builds. */
  function PieceAt(i: nat, n: nat, loop: bool): (p: Piece)
    requires n >= 2 && i < Iterations(n, loop)
    ensures p == StartCap <==> !loop && i == 0
    ensures p == EndCap <==> !loop && i == n - 1
    ensures p == Join <==> loop || 0 < i < n - 1
  {
    if i == 0 && !loop then StartCap
    else if i == n - 1 && !loop then EndCap
    else Join
  }

  /** Unit tangent towards the previous anchor, or `Up` when there is none. */
  function Incoming(a: seq<Vec3>, loop: bool, i: nat): Vec
    requires |a| >= 2 && i < Iterations(|a|, loop)
  {
    if i > 0 || loop then Normalized(Sub(Lit(a[WrapIndex(i - 1, |a|)]), Lit(a[WrapIndex(i, |a|)]))) else Up
  }

  /** Unit tangent towards the next anchor, or `Up` when there is none. */
  function Outgoing(a: seq<Vec3>, loop: bool, i: nat): Vec
    requires |a| >= 2 && i < Iterations(|a|, loop)
  {
    if i < |a| - 1 || loop then Normalized(Sub(Lit(a[WrapIndex(i + 1, |a|)]), Lit(a[WrapIndex(i, |a|)]))) else Up
  }

  // Pass, Step and the two piece functions form one recursive family: a
  // piece depends on the vertex count the buffers hold when it starts, which
  // is what the earlier iterations left.

  /** The vertices iteration `i` appends. */
  function PieceVerts(m0: Mesh, a: seq<Vec3>, loop: bool, pen: Pen, i: nat): seq<Vec>
    requires |a| >= 2 && i < Iterations(|a|, loop)
    decreases i, 1
  {
    var c := |Pass(m0, a, loop, pen, i).vertices|;
    var anchor := Lit(a[WrapIndex(i, |a|)]);
    var t1, t2 := Incoming(a, loop, i), Outgoing(a, loop, i);
    match PieceAt(i, |a|, loop)
    case StartCap => CapVerts(anchor, Neg(t2), c != 0, pen)
    case EndCap => CapVerts(anchor, t1, c != 0, pen)
    case Join => CornerVerts(anchor, t1, t2, pen)
  }

  /** The triangle indices iteration `i` appends. */
  function PieceTris(m0: Mesh, a: seq<Vec3>, loop: bool, pen: Pen, i: nat): seq<int>
    requires |a| >= 2 && i < Iterations(|a|, loop)
    decreases i, 1
  {
    var c := |Pass(m0, a, loop, pen, i).vertices|;
    match PieceAt(i, |a|, loop)
    case StartCap => CapTris(c, c != 0, pen.caps, pen.res)
    case EndCap => CapTris(c, c != 0, pen.caps, pen.res)
    case Join =>
      CornerTris(c, CornerFrame(Incoming(a, loop, i), Outgoing(a, loop, i), pen).right, pen.caps, pen.res)
  }

  /** The buffers after iteration `i` of the main loop: a cap or a join at
      anchor `i mod n` appended to what the earlier iterations built. */
  function Step(m0: Mesh, a: seq<Vec3>, loop: bool, pen: Pen, i: nat): Mesh
    requires |a| >= 2 && i < Iterations(|a|, loop)
    decreases i, 2
  {
    Append(Pass(m0, a, loop, pen, i), PieceVerts(m0, a, loop, pen, i), PieceTris(m0, a, loop, pen, i))
  }

  /** The buffers after the first `k` iterations. */
  function Pass(m0: Mesh, a: seq<Vec3>, loop: bool, pen: Pen, k: nat): Mesh
    requires |a| >= 2 && k <= Iterations(|a|, loop)
    decreases k, 0
  {
    if k == 0 then m0 else Step(m0, a, loop, pen, k - 1)
  }

  /** Each iteration builds the piece the dispatch rule names, from the
      buffers the earlier iterations left. */
  lemma StepIsPiece(m0: Mesh, a: seq<Vec3>, loop: bool, pen: Pen, i: nat)
    requires |a| >= 2 && i < Iterations(|a|, loop)
    ensures var m := Pass(m0, a, loop, pen, i);
            var anchor := Lit(a[WrapIndex(i, |a|)]);
            var t1, t2 := Incoming(a, loop, i), Outgoing(a, loop, i);
            Pass(m0, a, loop, pen, i + 1) ==
              match PieceAt(i, |a|, loop)
              case StartCap => CapStep(m, anchor, Neg(t2), pen)
              case EndCap => CapStep(m, anchor, t1, pen)
              case Join => CornerStep(m, anchor, t1, t2, pen)
  {
    var m := Pass(m0, a, loop, pen, i);
    var anchor := Lit(a[WrapIndex(i, |a|)]);
    var t1, t2 := Incoming(a, loop, i), Outgoing(a, loop, i);
    assert Pass(m0, a, loop, pen, i + 1) == Append(m, PieceVerts(m0, a, loop, pen, i), PieceTris(m0, a, loop, pen, i));
    match PieceAt(i, |a|, loop)
    case StartCap =>
      assert PieceVerts(m0, a, loop, pen, i) == CapVerts(anchor, Neg(t2), |m.vertices| != 0, pen);
      assert PieceTris(m0, a, loop, pen, i) == CapTris(|m.vertices|, |m.vertices| != 0, pen.caps, pen.res);
    case EndCap =>
      assert PieceVerts(m0, a, loop, pen, i) == CapVerts(anchor, t1, |m.vertices| != 0, pen);
      assert PieceTris(m0, a, loop, pen, i) == CapTris(|m.vertices|, |m.vertices| != 0, pen.caps, pen.res);
    case Join =>
      assert PieceVerts(m0, a, loop, pen, i) == CornerVerts(anchor, t1, t2, pen);
      assert PieceTris(m0, a, loop, pen, i) == CornerTris(|m.vertices|, CornerFrame(t1, t2, pen).right, pen.caps, pen.res);
  }

  /** One iteration entered with no vertices or with a rail: at least two
      vertices added, a whole number of triangles, all over existing vertices. */
  lemma PieceInvariant(m0: Mesh, a: seq<Vec3>, loop: bool, pen: Pen, i: nat)
    requires |a| >= 2 && i < Iterations(|a|, loop)
    requires var c := |Pass(m0, a, loop, pen, i).vertices|; (c == 0 || c >= 2) && (c == 0 <==> i == 0)
    ensures var c := |Pass(m0, a, loop, pen, i).vertices|;
            var v, t := PieceVerts(m0, a, loop, pen, i), PieceTris(m0, a, loop, pen, i);
            |v| >= 2 && |t| % 3 == 0 && InRange(t, 0, c + |v|)
  {
    var c := |Pass(m0, a, loop, pen, i).vertices|;
    var anchor := Lit(a[WrapIndex(i, |a|)]);
    var t1, t2 := Incoming(a, loop, i), Outgoing(a, loop, i);
    match PieceAt(i, |a|, loop)
    case StartCap => CapWellFormed(anchor, Neg(t2), pen, c);
    case EndCap => CapWellFormed(anchor, t1, pen, c);
    case Join => CornerWellFormed(anchor, t1, t2, pen, c);
  }

  /** GenerateMesh on already normalised anchors `a`, from buffers `m0`. */
  function Generate(m0: Mesh, a: seq<Vec3>, loop: bool, pen: Pen): Mesh {
    if |a| < 2 then m0 else WithPlaceholders(Pass(m0, a, loop, pen, Iterations(|a|, loop)))
  }

  lemma GenerateIsPass(m0: Mesh, a: seq<Vec3>, loop: bool, pen: Pen)
    requires |a| >= 2
    ensures Generate(m0, a, loop, pen).vertices == Pass(m0, a, loop, pen, Iterations(|a|, loop)).vertices
    ensures Generate(m0, a, loop, pen).tris == Pass(m0, a, loop, pen, Iterations(|a|, loop)).tris
  {
  }

  /** Generation only appends, whatever the buffers held before. */
  lemma {:induction false} PassExtends(m0: Mesh, a: seq<Vec3>, loop: bool, pen: Pen, k: nat)
    requires |a| >= 2 && k <= Iterations(|a|, loop)
    ensures Extends(m0, Pass(m0, a, loop, pen, k))
    ensures Pass(m0, a, loop, pen, k).normals == m0.normals && Pass(m0, a, loop, pen, k).uvs == m0.uvs
  {
    if k > 0 {
      PassExtends(m0, a, loop, pen, k - 1);
      StepExtends(m0, a, loop, pen, k - 1);
      ExtendsTransitive(m0, Pass(m0, a, loop, pen, k - 1), Pass(m0, a, loop, pen, k));
    }
  }

  lemma StepExtends(m0: Mesh, a: seq<Vec3>, loop: bool, pen: Pen, i: nat)
    requires |a| >= 2 && i < Iterations(|a|, loop)
    ensures Extends(Pass(m0, a, loop, pen, i), Pass(m0, a, loop, pen, i + 1))
    ensures Pass(m0, a, loop, pen, i + 1).normals == Pass(m0, a, loop, pen, i).normals
    ensures Pass(m0, a, loop, pen, i + 1).uvs == Pass(m0, a, loop, pen, i).uvs
  {
    assert Pass(m0, a, loop, pen, i + 1) == Append(Pass(m0, a, loop, pen, i), PieceVerts(m0, a, loop, pen, i), PieceTris(m0, a, loop, pen, i));
  }

  lemma GenerateExtends(m0: Mesh, a: seq<Vec3>, loop: bool, pen: Pen)
    ensures Extends(m0, Generate(m0, a, loop, pen))
  {
    if |a| >= 2 { PassExtends(m0, a, loop, pen, Iterations(|a|, loop)); }
  }

  /** What holds of the buffers after `k` iterations from empty buffers:
      no placeholders yet, at least two vertices once a piece was built, and
      a whole number of triangles that all name existing vertices. */
  ghost predicate Built(m: Mesh, k: nat) {
    m.normals == [] && m.uvs == [] &&
    (k == 0 <==> m.vertices == []) && (k > 0 ==> |m.vertices| >= 2) &&
    |m.tris| % 3 == 0 && InRange(m.tris, 0, |m.vertices|)
  }

  /** One iteration preserves `Built`: it is entered with no vertex
      (iteration 0) or with a rail (every later iteration). */
  lemma StepWellFormed(m0: Mesh, a: seq<Vec3>, loop: bool, pen: Pen, i: nat)
    requires |a| >= 2 && i < Iterations(|a|, loop)
    requires Built(Pass(m0, a, loop, pen, i), i)
    ensures Built(Pass(m0, a, loop, pen, i + 1), i + 1)
  {
    var m := Pass(m0, a, loop, pen, i);
    var v, t := PieceVerts(m0, a, loop, pen, i), PieceTris(m0, a, loop, pen, i);
    PieceInvariant(m0, a, loop, pen, i);
    AppendWellFormed(m, v, t);
    assert Pass(m0, a, loop, pen, i + 1) == Append(m, v, t);
  }

  lemma AppendWellFormed(m: Mesh, v: seq<Vec>, t: seq<int>)
    requires |m.tris| % 3 == 0 && InRange(m.tris, 0, |m.vertices|)
    requires |v| >= 2 && |t| % 3 == 0 && InRange(t, 0, |m.vertices| + |v|)
    ensures var m' := Append(m, v, t);
            m'.normals == m.normals && m'.uvs == m.uvs && |m'.vertices| >= 2 &&
            |m'.tris| % 3 == 0 && InRange(m'.tris, 0, |m'.vertices|)
  {
    InRangeWiden(m.tris, 0, |m.vertices|, 0, |m.vertices| + |v|);
    InRangeConcat(m.tris, t, 0, |m.vertices| + |v|);
    WholeTriangles(|m.tris|, |t|);
  }

  lemma {:induction false} PassInvariant(a: seq<Vec3>, loop: bool, pen: Pen, k: nat)
    requires |a| >= 2 && k <= Iterations(|a|, loop)
    ensures Built(Pass(Empty, a, loop, pen, k), k)
  {
    if k > 0 {
      PassInvariant(a, loop, pen, k - 1);
      StepWellFormed(Empty, a, loop, pen, k - 1);
    }
  }

  /** Buffer consistency: from empty buffers, GenerateMesh yields parallel
      normals and uvs and triangles over existing vertices only; with fewer
      than two anchors it yields nothing at all. */
  lemma GenerateWellFormed(a: seq<Vec3>, loop: bool, pen: Pen)
    ensures WellFormed(Generate(Empty, a, loop, pen))
    ensures |a| < 2 ==> Generate(Empty, a, loop, pen) == Empty
  {
    if |a| >= 2 {
      var m := Pass(Empty, a, loop, pen, Iterations(|a|, loop));
      PassInvariant(a, loop, pen, Iterations(|a|, loop));
      PlaceholdersMakeWellFormed(m);
    }
  }

  /** Triangles iteration `i` adds when entered with `c` vertices. */
  function PieceTriangleCount(n: nat, loop: bool, pen: Pen, i: nat, c: int): nat
    requires n >= 2 && i < Iterations(n, loop)
  {
    match PieceAt(i, n, loop)
    case StartCap => CapTriangleCount(c != 0, pen.caps, pen.res)
    case EndCap => CapTriangleCount(c != 0, pen.caps, pen.res)
    case Join => JoinTriangleCount(c >= 2, pen.caps, pen.res)
  }

  /** Iteration `i` adds the triangles its piece counts for, given the
      vertices present when it starts. */
  lemma StepTriangles(m0: Mesh, a: seq<Vec3>, loop: bool, pen: Pen, i: nat)
    requires |a| >= 2 && i < Iterations(|a|, loop)
    ensures |Pass(m0, a, loop, pen, i + 1).tris|
            == |Pass(m0, a, loop, pen, i).tris| + 3 * PieceTriangleCount(|a|, loop, pen, i, |Pass(m0, a, loop, pen, i).vertices|)
  {
    var c := |Pass(m0, a, loop, pen, i).vertices|;
    var anchor := Lit(a[WrapIndex(i, |a|)]);
    var t1, t2 := Incoming(a, loop, i), Outgoing(a, loop, i);
    assert |Pass(m0, a, loop, pen, i + 1).tris| == |Pass(m0, a, loop, pen, i).tris| + |PieceTris(m0, a, loop, pen, i)|;
    match PieceAt(i, |a|, loop)
    case StartCap => CapCounts(anchor, Neg(t2), c != 0, pen, c);
    case EndCap => CapCounts(anchor, t1, c != 0, pen, c);
    case Join => CornerCounts(anchor, t1, t2, pen, c);
  }

  /** The arithmetic step of LoopPassTriangles: one more join with its quad. */
  lemma LoopCountStep(t: int, k: int, f: int)
    requires t == 3 * (2 * (k - 1 - 1) + (k - 1) * (2 + f))
    ensures t + 3 * (2 + 2 + f) == 3 * (2 * (k - 1) + k * (2 + f))
  {
    assert k * (2 + f) == (k - 1) * (2 + f) + (2 + f);
  }

  /** The arithmetic step of OpenPassTriangles: one more join with its quad. */
  lemma OpenCountStep(t: int, c: int, k: int, f: int)
    requires t == 3 * (c + (k - 1 - 1) * (4 + f))
    ensures t + 3 * (4 + f) == 3 * (c + (k - 1) * (4 + f))
  {
    assert (k - 1) * (4 + f) == (k - 1 - 1) * (4 + f) + (4 + f);
  }

  /** Iteration k - 1 of a closed path is a join, with a rail quad unless
      it is the first. */
  lemma LoopStepTriangles(a: seq<Vec3>, pen: Pen, k: nat)
    requires |a| >= 2 && 1 <= k <= Iterations(|a|, true)
    ensures |Pass(Empty, a, true, pen, k).tris|
            == |Pass(Empty, a, true, pen, k - 1).tris| + 3 * ((if k > 1 then 2 else 0) + 2 + FillTriangleCount(pen.caps, pen.res))
  {
    PassInvariant(a, true, pen, k - 1);
    StepTriangles(Empty, a, true, pen, k - 1);
    assert PieceAt(k - 1, |a|, true) == Join;
  }

  /** Triangles after `k` iterations of a closed path, counted join by join:
      every join but the first also builds the rail quad. */
  function LoopTriangles(k: nat, f: nat): nat {
    if k == 0 then 0 else LoopTriangles(k - 1, f) + 3 * ((if k > 1 then 2 else 0) + 2 + f)
  }

  lemma {:induction false} LoopTrianglesClosed(k: nat, f: nat)
    requires k >= 1
    ensures LoopTriangles(k, f) == 3 * (2 * (k - 1) + k * (2 + f))
  {
    if k > 1 {
      LoopTrianglesClosed(k - 1, f);
      LoopCountStep(LoopTriangles(k - 1, f), k, f);
    }
  }

  lemma {:induction false} LoopPassTriangles(a: seq<Vec3>, pen: Pen, k: nat)
    requires |a| >= 2 && k <= Iterations(|a|, true)
    ensures |Pass(Empty, a, true, pen, k).tris| == LoopTriangles(k, FillTriangleCount(pen.caps, pen.res))
  {
    if k == 0 {
      assert Pass(Empty, a, true, pen, 0) == Empty;
    } else {
      LoopPassTriangles(a, pen, k - 1);
      LoopStepTriangles(a, pen, k);
    }
  }

  /** Triangle count of a closed path of n anchors: n + 1 joins, n rail quads. */
  lemma LoopTriangleCount(a: seq<Vec3>, pen: Pen)
    requires |a| >= 2
    ensures |Generate(Empty, a, true, pen).tris|
            == 3 * (2 * |a| + (|a| + 1) * (2 + FillTriangleCount(pen.caps, pen.res)))
  {
    LoopPassTriangles(a, pen, |a| + 1);
    LoopTrianglesClosed(|a| + 1, FillTriangleCount(pen.caps, pen.res));
    GenerateIsPass(Empty, a, true, pen);
  }

  /** Iteration k - 1 < n - 1 of an open path is the start cap or a join
      with a rail quad. */
  lemma OpenStepTriangles(a: seq<Vec3>, pen: Pen, k: nat)
    requires |a| >= 2 && 1 <= k <= |a| - 1
    ensures |Pass(Empty, a, false, pen, k).tris|
            == |Pass(Empty, a, false, pen, k - 1).tris|
               + 3 * (if k == 1 then CapTriangleCount(false, pen.caps, pen.res) else 4 + FillTriangleCount(pen.caps, pen.res))
  {
    PassInvariant(a, false, pen, k - 1);
    StepTriangles(Empty, a, false, pen, k - 1);
    if k == 1 {
      assert PieceTriangleCount(|a|, false, pen, 0, 0) == CapTriangleCount(false, pen.caps, pen.res);
    } else {
      assert PieceAt(k - 1, |a|, false) == Join;
    }
  }

  /** Triangles after `k` iterations of an open path, counted piece by
      piece: the start cap `c`, then joins that each build a rail quad. */
  function OpenTriangles(k: nat, c: nat, f: nat): nat {
    if k == 0 then 0 else OpenTriangles(k - 1, c, f) + 3 * (if k == 1 then c else 4 + f)
  }

  lemma {:induction false} OpenTrianglesClosed(k: nat, c: nat, f: nat)
    requires k >= 1
    ensures OpenTriangles(k, c, f) == 3 * (c + (k - 1) * (4 + f))
  {
    if k > 1 {
      OpenTrianglesClosed(k - 1, c, f);
      OpenCountStep(OpenTriangles(k - 1, c, f), c, k, f);
    }
  }

  lemma OpenTrianglesStep(t: int, t0: int, k: nat, c: nat, f: nat)
    requires k >= 1 && t0 == OpenTriangles(k - 1, c, f)
    requires t == t0 + 3 * (if k == 1 then c else 4 + f)
    ensures t == OpenTriangles(k, c, f)
  {
  }

  lemma {:induction false} OpenPassTriangles(a: seq<Vec3>, pen: Pen, k: nat)
    requires |a| >= 2 && k <= |a| - 1
    ensures |Pass(Empty, a, false, pen, k).tris|
            == OpenTriangles(k, CapTriangleCount(false, pen.caps, pen.res), FillTriangleCount(pen.caps, pen.res))
  {
    if k == 0 {
      assert Pass(Empty, a, false, pen, 0) == Empty;
    } else {
      var c, f := CapTriangleCount(false, pen.caps, pen.res), FillTriangleCount(pen.caps, pen.res);
      OpenPassTriangles(a, pen, k - 1);
      OpenStepTriangles(a, pen, k);
      OpenTrianglesStep(|Pass(Empty, a, false, pen, k).tris|, |Pass(Empty, a, false, pen, k - 1).tris|, k, c, f);
    }
  }

  /** Triangle count of an open path of n anchors: a start cap, n - 2 joins
      that each build a rail quad, and an end cap. */
  lemma OpenTriangleCount(a: seq<Vec3>, pen: Pen)
    requires |a| >= 2
    ensures |Generate(Empty, a, false, pen).tris|
            == 3 * (CapTriangleCount(false, pen.caps, pen.res)
                    + (|a| - 2) * (4 + FillTriangleCount(pen.caps, pen.res))
                    + CapTriangleCount(true, pen.caps, pen.res))
  {
    var n := |a|;
    var c, f, e := CapTriangleCount(false, pen.caps, pen.res), FillTriangleCount(pen.caps, pen.res), CapTriangleCount(true, pen.caps, pen.res);
    OpenPassTriangles(a, pen, n - 1);
    OpenTrianglesClosed(n - 1, c, f);
    OpenLastStep(a, pen);
    GenerateIsPass(Empty, a, false, pen);
    OpenTotal(|Pass(Empty, a, false, pen, n).tris|, |Pass(Empty, a, false, pen, n - 1).tris|, n, c, f, e);
  }

  /** The last iteration of an open path is the end cap, entered on a rail. */
  lemma OpenLastStep(a: seq<Vec3>, pen: Pen)
    requires |a| >= 2
    ensures |Pass(Empty, a, false, pen, |a|).tris|
            == |Pass(Empty, a, false, pen, |a| - 1).tris| + 3 * CapTriangleCount(true, pen.caps, pen.res)
  {
    var n := |a|;
    PassInvariant(a, false, pen, n - 1);
    StepTriangles(Empty, a, false, pen, n - 1);
    assert PieceTriangleCount(n, false, pen, n - 1, |Pass(Empty, a, false, pen, n - 1).vertices|) == CapTriangleCount(true, pen.caps, pen.res);
  }

  lemma OpenTotal(t: int, t0: int, n: int, c: int, f: int, e: int)
    requires t0 == 3 * (c + (n - 1 - 1) * (4 + f)) && t == t0 + 3 * e
    ensures t == 3 * (c + (n - 2) * (4 + f) + e)
  {
  }

  /** A two-anchor open path with flat caps is exactly two flat pairs joined
      by two triangles, whichever non-round style is chosen. */
  lemma TwoAnchorFlatLine(a: seq<Vec3>, pen: Pen)
    requires |a| == 2 && pen.caps != Round
    ensures |Generate(Empty, a, false, pen).vertices| == 4
    ensures Generate(Empty, a, false, pen).tris == [0, 2, 1, 2, 3, 1]
  {
    var m1 := Pass(Empty, a, false, pen, 1);
    assert Pass(Empty, a, false, pen, 0) == Empty;
    StepIsPiece(Empty, a, false, pen, 0);
    assert m1.vertices == CapVerts(Lit(a[0]), Neg(Outgoing(a, false, 0)), false, pen);
    assert |m1.vertices| == 2 && m1.tris == [];
    StepIsPiece(Empty, a, false, pen, 1);
    var m2 := Pass(Empty, a, false, pen, 2);
    assert m2.tris == CapTris(2, true, pen.caps, pen.res);
    GenerateIsPass(Empty, a, false, pen);
  }
}
