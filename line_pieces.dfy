/** What one join (MakeCorner) and one cap (MakeCap, MakeRoundedCap) of the
    line ribbon append to the buffers, as functions of the vertex count `c`
    found on entry. A piece's own vertices are numbered from `c`; the only
    older vertices it names are `c - 2` and `c - 1`, the left and right rail
    left behind by the piece before it. */
module LinePieces {
  import opened Vectors
  import opened Buffers

  datatype LineCaps = Sharp | Round | Bevel

  /** Number of arc steps in a round join or cap (`_capresolution`). */
  type Resolution = r: nat | r >= 1 witness 1

  /** The shape state a piece reads. */
  datatype Pen = Pen(width: real, caps: LineCaps, res: Resolution, engine: Engine)

  /** The join's geometry, computed from the two unit tangents as MakeCorner
      does before it emits anything. */
  datatype Frame = Frame(n1: Vec, n2: Vec, step: Num, miter: Vec, length: Num, right: bool)

  function CornerFrame(t1: Vec, t2: Vec, pen: Pen): Frame {
    var n1 := Normalized(Cross(Up, t1));
    var n2 := Normalized(Cross(Up, t2));
    var angle := FSub(Real(180.0), Angle(n1, n2));
    var miter := if (t1, t2) !in pen.engine.same then Normalized(Add(t1, t2)) else Neg(n2);
    Frame(n1, n2, FDiv(angle, Real(pen.res as real)), miter,
          FDiv(Half(pen), Dot(miter, n2)), Y(Cross(miter, t1)) in pen.engine.positive)
  }

  /** Half the stroke width, `0.5f * Width`. */
  function Half(pen: Pen): Num {
    FMul(Real(0.5), Real(pen.width))
  }

  /** True when every entry of `s` lies in [lo, hi). */
  ghost predicate InRange(s: seq<int>, lo: int, hi: int) {
    forall k :: 0 <= k < |s| ==> lo <= s[k] < hi
  }

  lemma InRangeConcat(s: seq<int>, t: seq<int>, lo: int, hi: int)
    ensures InRange(s + t, lo, hi) <==> InRange(s, lo, hi) && InRange(t, lo, hi)
  {
    if InRange(s, lo, hi) && InRange(t, lo, hi) {
      forall k | 0 <= k < |s + t| ensures lo <= (s + t)[k] < hi {
        if k >= |s| { assert (s + t)[k] == t[k - |s|]; } else { assert (s + t)[k] == s[k]; }
      }
    }
    if InRange(s + t, lo, hi) {
      forall k | 0 <= k < |s| ensures lo <= s[k] < hi {
        assert (s + t)[k] == s[k];
      }
      forall k | 0 <= k < |t| ensures lo <= t[k] < hi {
        assert (s + t)[|s| + k] == t[k];
      }
    }
  }

  lemma InRangeWiden(s: seq<int>, lo: int, hi: int, lo': int, hi': int)
    requires InRange(s, lo, hi) && lo' <= lo && hi <= hi'
    ensures InRange(s, lo', hi')
  {
  }

  // ---------------------------------------------------------------------
  // Round join: the arc loop of MakeCorner

  /** The arc points `anchor + rotate(i * step, up, rad)` for i = 1..k. */
  function JoinArc(anchor: Vec, rad: Vec, step: Num, k: nat): (r: seq<Vec>)
    ensures |r| == k
  {
    if k == 0 then [] else JoinArc(anchor, rad, step, k - 1) + [Add(anchor, Rotate(FMul(Real(k as real), step), Up, rad))]
  }

  /** Arc fan on a right turn: triangle (lIdx, idx, anchor) with lIdx moving
      along the arc; the first new index is `first`. */
  function FanRight(l0: int, first: int, a: int, k: nat): (r: seq<int>)
    ensures |r| == 3 * k
  {
    if k == 0 then [] else FanRight(l0, first, a, k - 1) + [if k == 1 then l0 else first + k - 2, first + k - 1, a]
  }

  /** Arc fan on a left turn: triangle (idx, rIdx, anchor). */
  function FanLeft(r0: int, first: int, a: int, k: nat): (r: seq<int>)
    ensures |r| == 3 * k
  {
    if k == 0 then [] else FanLeft(r0, first, a, k - 1) + [first + k - 1, if k == 1 then r0 else first + k - 2, a]
  }

  /** The loop steps of MakeCorner's arc: one more vertex or triangle
      appended behind whatever precedes the arc (`base`). */
  lemma JoinArcStep(base: seq<Vec>, anchor: Vec, rad: Vec, step: Num, k: nat, v: Vec, s: seq<Vec>, s': seq<Vec>)
    requires v == Add(anchor, Rotate(FMul(Real((k + 1) as real), step), Up, rad))
    requires s == base + JoinArc(anchor, rad, step, k) && s' == s + [v]
    ensures s' == base + JoinArc(anchor, rad, step, k + 1)
  {
    assert JoinArc(anchor, rad, step, k + 1) == JoinArc(anchor, rad, step, k) + [v];
  }

  lemma FanRightStep(base: seq<int>, l0: int, first: int, a: int, k: nat, prev: int, s: seq<int>, s': seq<int>)
    requires prev == if k == 0 then l0 else first + k - 1
    requires s == base + FanRight(l0, first, a, k) && s' == s + [prev, first + k, a]
    ensures s' == base + FanRight(l0, first, a, k + 1)
  {
    assert FanRight(l0, first, a, k + 1) == FanRight(l0, first, a, k) + [prev, first + k, a];
  }

  lemma FanLeftStep(base: seq<int>, r0: int, first: int, a: int, k: nat, prev: int, s: seq<int>, s': seq<int>)
    requires prev == if k == 0 then r0 else first + k - 1
    requires s == base + FanLeft(r0, first, a, k) && s' == s + [first + k, prev, a]
    ensures s' == base + FanLeft(r0, first, a, k + 1)
  {
    assert FanLeft(r0, first, a, k + 1) == FanLeft(r0, first, a, k) + [first + k, prev, a];
  }

  lemma {:induction false} FanRightInRange(l0: int, first: int, a: int, k: nat, lo: int)
    requires lo <= l0 < first && lo <= a < first
    ensures InRange(FanRight(l0, first, a, k), lo, first + k)
  {
    if k > 0 {
      FanRightInRange(l0, first, a, k - 1, lo);
      InRangeWiden(FanRight(l0, first, a, k - 1), lo, first + k - 1, lo, first + k);
      InRangeConcat(FanRight(l0, first, a, k - 1), [if k == 1 then l0 else first + k - 2, first + k - 1, a], lo, first + k);
    }
  }

  lemma {:induction false} FanLeftInRange(r0: int, first: int, a: int, k: nat, lo: int)
    requires lo <= r0 < first && lo <= a < first
    ensures InRange(FanLeft(r0, first, a, k), lo, first + k)
  {
    if k > 0 {
      FanLeftInRange(r0, first, a, k - 1, lo);
      InRangeWiden(FanLeft(r0, first, a, k - 1), lo, first + k - 1, lo, first + k);
      InRangeConcat(FanLeft(r0, first, a, k - 1), [first + k - 1, if k == 1 then r0 else first + k - 2, a], lo, first + k);
    }
  }

  // ---------------------------------------------------------------------
  // Join (MakeCorner)

  /** The two rail points emitted right after the anchor. */
  function RailPoints(anchor: Vec, f: Frame, pen: Pen): seq<Vec> {
    if f.right then [Add(anchor, Scale(Half(pen), f.n1)), Add(anchor, Scale(f.length, f.miter))]
    else [Sub(anchor, Scale(f.length, f.miter)), Sub(anchor, Scale(Half(pen), f.n1))]
  }

  /** The style-specific wedge filling; `rails` are the two rail points. */
  function FillPoints(anchor: Vec, f: Frame, pen: Pen, rails: seq<Vec>): seq<Vec>
    requires |rails| == 2
  {
    match pen.caps
    case Round =>
      if f.right then JoinArc(anchor, Sub(rails[0], anchor), f.step, pen.res)
      else
        var arc := JoinArc(anchor, Sub(rails[1], anchor), FNeg(f.step), pen.res);
        arc + [Sub(anchor, Scale(f.length, f.miter)), arc[|arc| - 1]]
    case Sharp =>
      if f.right then [Sub(anchor, Scale(f.length, f.miter)), Sub(anchor, Scale(Half(pen), f.n2))]
      else [Add(anchor, Scale(f.length, f.miter)), Add(anchor, Scale(Half(pen), f.n2))]
    case Bevel =>
      if f.right then [Sub(anchor, Scale(Half(pen), f.n2))]
      else [Add(anchor, Scale(Half(pen), f.n2))]
  }

  /** The closing rail; on a left turn the right rail vertex `last` (the
      newest one) is emitted again. */
  function ClosePoints(anchor: Vec, f: Frame, last: Vec): seq<Vec> {
    if f.right then [Add(anchor, Scale(f.length, f.miter))]
    else [Sub(anchor, Scale(f.length, f.miter)), last]
  }

  /** Every vertex MakeCorner appends, in order. */
  function CornerVerts(anchor: Vec, t1: Vec, t2: Vec, pen: Pen): seq<Vec> {
    var f := CornerFrame(t1, t2, pen);
    var rails := RailPoints(anchor, f, pen);
    var body := [anchor] + rails + FillPoints(anchor, f, pen, rails);
    body + ClosePoints(anchor, f, body[|body| - 1])
  }

  /** Rail indices after the filling, and the next fresh index. */
  datatype Rails = Rails(l: int, r: int, next: int)

  /** The rail quad to the previous piece's rail, emitted only when both of
      its indices `c - 2`, `c - 1` are non-negative. */
  function QuadTris(c: int): seq<int> {
    if c - 2 >= 0 && c - 1 >= 0 then [c - 2, c + 1, c - 1, c - 1, c + 1, c + 2] else []
  }

  function FillTris(c: int, right: bool, caps: LineCaps, res: Resolution): seq<int> {
    match caps
    case Round => if right then FanRight(c + 1, c + 3, c, res) else FanLeft(c + 2, c + 3, c, res)
    case Sharp => if right then [c + 1, c + 3, c, c + 3, c + 4, c] else [c + 2, c, c + 3, c + 4, c + 3, c]
    case Bevel => if right then [c + 1, c + 3, c] else [c + 3, c + 2, c]
  }

  function FillRails(c: int, right: bool, caps: LineCaps, res: Resolution): Rails {
    match caps
    case Round => if right then Rails(c + 2 + res, c + 2, c + 3 + res) else Rails(c + 3 + res, c + 4 + res, c + 5 + res)
    case Sharp => if right then Rails(c + 4, c + 2, c + 5) else Rails(c + 1, c + 4, c + 5)
    case Bevel => if right then Rails(c + 3, c + 2, c + 4) else Rails(c + 1, c + 3, c + 4)
  }

  /** The wedge-end triangle (anchor, lIdx, rIdx) after the closing rail. */
  function CloseTris(c: int, right: bool, rails: Rails): seq<int> {
    if right then [c, rails.l, rails.next] else [c, rails.next, rails.next + 1]
  }

  /** Every index MakeCorner appends to `Tris`. */
  function CornerTris(c: int, right: bool, caps: LineCaps, res: Resolution): seq<int> {
    QuadTris(c) + [c + 1, c, c + 2] + FillTris(c, right, caps, res) + CloseTris(c, right, FillRails(c, right, caps, res))
  }

  /** CornerStep in the order MakeCorner builds it: the anchor (`m1`), the
      rail with the quad and the wedge start (`m2`), the filling (`m3`) and
      the closing rail (`m4`). */
  lemma CornerSplit(m: Mesh, anchor: Vec, t1: Vec, t2: Vec, pen: Pen, f: Frame,
                    m1: Mesh, m2: Mesh, m3: Mesh, m4: Mesh)
    requires f == CornerFrame(t1, t2, pen)
    requires m1 == Append(m, [anchor], [])
    requires m2 == Append(m1, RailPoints(anchor, f, pen), QuadTris(|m.vertices|) + [|m.vertices| + 1, |m.vertices|, |m.vertices| + 2])
    requires m3 == Append(m2, FillPoints(anchor, f, pen, RailPoints(anchor, f, pen)),
                          FillTris(|m.vertices|, f.right, pen.caps, pen.res))
    requires m4 == Append(m3, ClosePoints(anchor, f, m3.vertices[|m3.vertices| - 1]),
                          CloseTris(|m.vertices|, f.right, FillRails(|m.vertices|, f.right, pen.caps, pen.res)))
    ensures CornerStep(m, anchor, t1, t2, pen) == m4
  {
    var c, rails := |m.vertices|, RailPoints(anchor, f, pen);
    CornerVertsChain(m.vertices, anchor, t1, t2, pen, f, m3.vertices, m4.vertices);
    CornerTrisChain(m.tris, c, f.right, pen.caps, pen.res, m4.tris);
  }

  lemma CornerVertsChain(v0: seq<Vec>, anchor: Vec, t1: Vec, t2: Vec, pen: Pen, f: Frame, v3: seq<Vec>, v4: seq<Vec>)
    requires f == CornerFrame(t1, t2, pen)
    requires v3 == v0 + [anchor] + RailPoints(anchor, f, pen) + FillPoints(anchor, f, pen, RailPoints(anchor, f, pen))
    requires v4 == v3 + ClosePoints(anchor, f, v3[|v3| - 1])
    ensures v4 == v0 + CornerVerts(anchor, t1, t2, pen)
  {
    var rails := RailPoints(anchor, f, pen);
    var body := [anchor] + rails + FillPoints(anchor, f, pen, rails);
    assert v3 == v0 + body;
    assert v3[|v3| - 1] == body[|body| - 1];
    assert CornerVerts(anchor, t1, t2, pen) == body + ClosePoints(anchor, f, body[|body| - 1]);
  }

  lemma CornerTrisChain(t0: seq<int>, c: int, right: bool, caps: LineCaps, res: Resolution, t4: seq<int>)
    requires t4 == t0 + (QuadTris(c) + [c + 1, c, c + 2]) + FillTris(c, right, caps, res)
                  + CloseTris(c, right, FillRails(c, right, caps, res))
    ensures t4 == t0 + CornerTris(c, right, caps, res)
  {
    var quad, fill, close := QuadTris(c), FillTris(c, right, caps, res), CloseTris(c, right, FillRails(c, right, caps, res));
    assert t4 == t0 + (quad + [c + 1, c, c + 2] + fill + close);
  }

  /** The rail MakeCorner's filling starts from. */
  lemma RailsAfterAnchor(m: Mesh, anchor: Vec, rails: seq<Vec>, t: seq<int>)
    ensures Append(Append(m, [anchor], []), rails, t).vertices[|m.vertices| + 1..] == rails
  {
    assert Append(Append(m, [anchor], []), rails, t).vertices == m.vertices + [anchor] + rails;
  }

  /** The buffers after MakeCorner(anchor, t1, t2). */
  function CornerStep(m: Mesh, anchor: Vec, t1: Vec, t2: Vec, pen: Pen): Mesh {
    Append(m, CornerVerts(anchor, t1, t2, pen),
           CornerTris(|m.vertices|, CornerFrame(t1, t2, pen).right, pen.caps, pen.res))
  }

  // ---------------------------------------------------------------------
  // Caps (MakeCap, MakeRoundedCap)

  /** The mirrored arc pairs of MakeRoundedCap, for i = 0..k-1. */
  function CapArc(anchor: Vec, lRad: Vec, rRad: Vec, step: Num, k: nat): (r: seq<Vec>)
    ensures |r| == 2 * k
  {
    if k == 0 then []
    else CapArc(anchor, lRad, rRad, step, k - 1) +
         [Add(anchor, Rotate(FMul(Real((k - 1) as real), step), Up, lRad)),
          Add(anchor, Rotate(FMul(Real((k - 1) as real), step), Down, rRad))]
  }

  /** The triangles of MakeRoundedCap: anchor index `a`, starting rail `l0`, `r0`. */
  function CapFan(a: int, l0: int, r0: int, k: nat): (r: seq<int>)
    ensures |r| == 6 * k
  {
    if k == 0 then []
    else CapFan(a, l0, r0, k - 1) +
         [a, if k == 1 then l0 else a + 2 * k - 3, a + 2 * k - 1,
          a, a + 2 * k, if k == 1 then r0 else a + 2 * k - 2]
  }

  /** The loop steps of MakeRoundedCap: one more pair of arc vertices and
      of fan triangles, appended behind whatever precedes them (`base`). */
  lemma CapArcStep(base: seq<Vec>, anchor: Vec, lRad: Vec, rRad: Vec, step: Num, k: nat,
                   lv: Vec, rv: Vec, s: seq<Vec>, s': seq<Vec>)
    requires lv == Add(anchor, Rotate(FMul(Real(k as real), step), Up, lRad))
    requires rv == Add(anchor, Rotate(FMul(Real(k as real), step), Down, rRad))
    requires s == base + CapArc(anchor, lRad, rRad, step, k) && s' == s + [lv] + [rv]
    ensures s' == base + CapArc(anchor, lRad, rRad, step, k + 1)
  {
    assert CapArc(anchor, lRad, rRad, step, k + 1) == CapArc(anchor, lRad, rRad, step, k) + [lv, rv];
  }

  lemma CapFanStep(base: seq<int>, a: int, l0: int, r0: int, k: nat, pl: int, pr: int, s: seq<int>, s': seq<int>)
    requires pl == (if k == 0 then l0 else a + 2 * k - 1)
    requires pr == (if k == 0 then r0 else a + 2 * k)
    requires s == base + CapFan(a, l0, r0, k) && s' == s + [a, pl, a + 2 * k + 1] + [a, a + 2 * k + 2, pr]
    ensures s' == base + CapFan(a, l0, r0, k + 1)
  {
    assert CapFan(a, l0, r0, k + 1) == CapFan(a, l0, r0, k) + [a, pl, a + 2 * k + 1, a, a + 2 * k + 2, pr];
  }

  lemma {:induction false} CapFanInRange(a: int, l0: int, r0: int, k: nat, lo: int)
    requires lo <= l0 <= a && lo <= r0 <= a
    ensures InRange(CapFan(a, l0, r0, k), lo, a + 2 * k + 1)
  {
    if k > 0 {
      CapFanInRange(a, l0, r0, k - 1, lo);
      InRangeWiden(CapFan(a, l0, r0, k - 1), lo, a + 2 * (k - 1) + 1, lo, a + 2 * k + 1);
      InRangeConcat(CapFan(a, l0, r0, k - 1),
        [a, if k == 1 then l0 else a + 2 * k - 3, a + 2 * k - 1, a, a + 2 * k, if k == 1 then r0 else a + 2 * k - 2],
        lo, a + 2 * k + 1);
    }
  }

  /** What MakeRoundedCap appends, given the two rail points it starts from. */
  function RoundedCapVerts(anchor: Vec, lv: Vec, rv: Vec, step: Num, pen: Pen): seq<Vec> {
    [anchor] + CapArc(anchor, Sub(lv, anchor), Sub(rv, anchor), step, pen.res + 1)
  }

  function RoundedCapTris(c: int, l0: int, r0: int, res: Resolution): seq<int> {
    CapFan(c, l0, r0, res + 1)
  }

  /** Every vertex MakeCap appends; `endcap` is "the buffers are not empty". */
  function CapVerts(anchor: Vec, tangent: Vec, endcap: bool, pen: Pen): seq<Vec> {
    var normal := Normalized(Cross(Up, tangent));
    var step := FDiv(Real(90.0), Real(pen.res as real));
    var flat := [Add(anchor, Scale(Half(pen), normal)), Sub(anchor, Scale(Half(pen), normal))];
    if pen.caps != Round then flat
    else if endcap then flat + RoundedCapVerts(anchor, flat[0], flat[1], step, pen)
    else
      var tip := Add(anchor, Scale(Half(pen), tangent));
      [tip] + RoundedCapVerts(anchor, tip, tip, step, pen)
  }

  /** Every index MakeCap appends, `c` being the vertex count on entry. */
  function CapTris(c: int, endcap: bool, caps: LineCaps, res: Resolution): seq<int> {
    var flat := if endcap then [c - 2, c, c - 1, c, c + 1, c - 1] else [];
    if caps != Round then flat
    else if endcap then flat + RoundedCapTris(c + 2, c, c + 1, res)
    else RoundedCapTris(c + 1, c, c, res)
  }

  /** The buffers after MakeCap(anchor, tangent). */
  function CapStep(m: Mesh, anchor: Vec, tangent: Vec, pen: Pen): Mesh {
    Append(m, CapVerts(anchor, tangent, |m.vertices| != 0, pen),
           CapTris(|m.vertices|, |m.vertices| != 0, pen.caps, pen.res))
  }

  // ---------------------------------------------------------------------
  // Counts per piece

  /** Triangles of the wedge filling alone. */
  function FillTriangleCount(caps: LineCaps, res: Resolution): nat {
    match caps
    case Round => res
    case Sharp => 2
    case Bevel => 1
  }

  /** Vertices a join adds, by style and turn side. */
  function JoinVertexCount(caps: LineCaps, right: bool, res: Resolution): nat {
    match caps
    case Round => if right then 4 + res else 7 + res
    case Sharp => if right then 6 else 7
    case Bevel => if right then 5 else 6
  }

  /** Triangles a join adds: rail quad (when a previous rail exists), wedge
      start, filling, wedge end. */
  function JoinTriangleCount(hasRail: bool, caps: LineCaps, res: Resolution): nat {
    (if hasRail then 2 else 0) + 1 + FillTriangleCount(caps, res) + 1
  }

  /** Vertices a cap adds. A round start cap is a tip vertex plus the rounded
      cap; a round end cap is the flat pair plus the rounded cap. */
  function CapVertexCount(endcap: bool, caps: LineCaps, res: Resolution): nat {
    if caps != Round then 2
    else if endcap then 2 + 1 + 2 * (res + 1)
    else 1 + 1 + 2 * (res + 1)
  }

  function CapTriangleCount(endcap: bool, caps: LineCaps, res: Resolution): nat {
    (if endcap then 2 else 0) + (if caps == Round then 2 * (res + 1) else 0)
  }

  /** A join emits the tabulated number of vertices and triangles, and its
      first vertex is the anchor itself. */
  lemma CornerCounts(anchor: Vec, t1: Vec, t2: Vec, pen: Pen, c: int)
    ensures |CornerVerts(anchor, t1, t2, pen)| == JoinVertexCount(pen.caps, CornerFrame(t1, t2, pen).right, pen.res)
    ensures CornerVerts(anchor, t1, t2, pen)[0] == anchor
    ensures |CornerTris(c, CornerFrame(t1, t2, pen).right, pen.caps, pen.res)|
            == 3 * JoinTriangleCount(c >= 2, pen.caps, pen.res)
  {
  }

  /** A join names only its own vertices and, when there is one, the previous
      rail `c - 2`, `c - 1`; so for any `c >= 0` every index is below the new
      vertex count and none is negative. */
  lemma CornerTrisInRange(c: int, right: bool, caps: LineCaps, res: Resolution)
    requires c >= 0
    ensures InRange(CornerTris(c, right, caps, res), if c >= 2 then c - 2 else c, c + JoinVertexCount(caps, right, res))
  {
    var lo, hi := if c >= 2 then c - 2 else c, c + JoinVertexCount(caps, right, res);
    var quad, start := QuadTris(c), [c + 1, c, c + 2];
    var fill := FillTris(c, right, caps, res);
    var close := CloseTris(c, right, FillRails(c, right, caps, res));
    QuadStartInRange(c, lo, hi);
    FillTrisInRange(c, right, caps, res, lo);
    CloseTrisInRange(c, right, caps, res, lo);
    InRangeConcat(quad + start, fill, lo, hi);
    InRangeConcat(quad + start + fill, close, lo, hi);
  }

  lemma QuadStartInRange(c: int, lo: int, hi: int)
    requires c >= 0 && lo == (if c >= 2 then c - 2 else c) && hi >= c + 3
    ensures InRange(QuadTris(c) + [c + 1, c, c + 2], lo, hi)
  {
    assert InRange(QuadTris(c), lo, hi);
    InRangeConcat(QuadTris(c), [c + 1, c, c + 2], lo, hi);
  }

  lemma FillTrisInRange(c: int, right: bool, caps: LineCaps, res: Resolution, lo: int)
    requires lo <= c
    ensures InRange(FillTris(c, right, caps, res), lo, c + JoinVertexCount(caps, right, res))
  {
    var hi := c + JoinVertexCount(caps, right, res);
    match caps
    case Round =>
      if right { FanRightInRange(c + 1, c + 3, c, res, lo); } else { FanLeftInRange(c + 2, c + 3, c, res, lo); }
      InRangeWiden(FillTris(c, right, caps, res), lo, c + 3 + res, lo, hi);
    case Sharp =>
    case Bevel =>
  }

  lemma CloseTrisInRange(c: int, right: bool, caps: LineCaps, res: Resolution, lo: int)
    requires lo <= c
    ensures InRange(CloseTris(c, right, FillRails(c, right, caps, res)), lo, c + JoinVertexCount(caps, right, res))
  {
    match caps
    case Round =>
    case Sharp =>
    case Bevel =>
  }

  /** Rail hand-off: a join reads the previous rail as (c - 2, c - 1) in its
      quad, and its last triangle is (anchor, C - 2, C - 1) for the new count
      C, so the next piece finds its rail in the last two vertices. */
  lemma CornerRailHandOff(c: int, right: bool, caps: LineCaps, res: Resolution)
    ensures var t := CornerTris(c, right, caps, res);
            var k := JoinVertexCount(caps, right, res);
            |t| >= 3 && t[|t| - 3..] == [c, c + k - 2, c + k - 1] &&
            (c >= 2 ==> t[..6] == [c - 2, c + 1, c - 1, c - 1, c + 1, c + 2])
  {
    var t := CornerTris(c, right, caps, res);
    var close := CloseTris(c, right, FillRails(c, right, caps, res));
    assert t[|t| - 3..] == close;
    if c >= 2 { assert t[..6] == QuadTris(c); }
  }

  /** On a left turn the new right rail vertex repeats the newest vertex of
      the filling, so the next quad does not share the wedge's fan vertex. */
  lemma LeftTurnRepeatsRail(anchor: Vec, t1: Vec, t2: Vec, pen: Pen)
    requires !CornerFrame(t1, t2, pen).right
    ensures var v := CornerVerts(anchor, t1, t2, pen);
            |v| >= 3 && v[|v| - 1] == v[|v| - 3]
  {
  }

  /** A cap emits the tabulated number of vertices and triangles. */
  lemma CapCounts(anchor: Vec, tangent: Vec, endcap: bool, pen: Pen, c: int)
    ensures |CapVerts(anchor, tangent, endcap, pen)| == CapVertexCount(endcap, pen.caps, pen.res)
    ensures |CapTris(c, endcap, pen.caps, pen.res)| == 3 * CapTriangleCount(endcap, pen.caps, pen.res)
  {
  }

  /** A start cap names only its own vertices; an end cap also the rail
      (c - 2, c - 1), which exists because c >= 2. */
  lemma CapTrisInRange(c: int, caps: LineCaps, res: Resolution)
    requires c == 0 || c >= 2
    ensures InRange(CapTris(c, c != 0, caps, res), if c >= 2 then c - 2 else 0,
                    c + CapVertexCount(c != 0, caps, res))
  {
    if caps == Round && c != 0 {
      RoundEndCapInRange(c, res);
    } else if caps == Round {
      CapFanInRange(1, 0, 0, res + 1, 0);
    } else if c != 0 {
      FlatPairInRange(c);
    }
  }

  /** The two triangles over the rail pair and the flat pair of an end cap. */
  lemma FlatPairInRange(c: int)
    requires c >= 2
    ensures InRange([c - 2, c, c - 1, c, c + 1, c - 1], c - 2, c + 2)
  {
  }

  lemma RoundEndCapInRange(c: int, res: Resolution)
    requires c >= 2
    ensures InRange(CapTris(c, true, Round, res), c - 2, c + 2 + 1 + 2 * (res + 1))
  {
    var flat := [c - 2, c, c - 1, c, c + 1, c - 1];
    var hi := c + 2 + 1 + 2 * (res + 1);
    CapFanInRange(c + 2, c, c + 1, res + 1, c - 2);
    FlatPairInRange(c);
    InRangeWiden(flat, c - 2, c + 2, c - 2, hi);
    InRangeConcat(flat, RoundedCapTris(c + 2, c, c + 1, res), c - 2, hi);
  }

  /** A join entered with any vertex count leaves a whole number of
      triangles over existing vertices. */
  lemma CornerWellFormed(anchor: Vec, t1: Vec, t2: Vec, pen: Pen, c: int)
    requires c >= 0
    ensures var v := CornerVerts(anchor, t1, t2, pen);
            var t := CornerTris(c, CornerFrame(t1, t2, pen).right, pen.caps, pen.res);
            |v| >= 2 && |t| % 3 == 0 && InRange(t, 0, c + |v|)
  {
    var right := CornerFrame(t1, t2, pen).right;
    CornerCounts(anchor, t1, t2, pen, c);
    CornerTrisInRange(c, right, pen.caps, pen.res);
    InRangeWiden(CornerTris(c, right, pen.caps, pen.res), if c >= 2 then c - 2 else c,
                 c + JoinVertexCount(pen.caps, right, pen.res), 0, c + JoinVertexCount(pen.caps, right, pen.res));
  }

  /** A cap entered with no vertex (start) or with a rail (end) leaves a
      whole number of triangles over existing vertices. */
  lemma CapWellFormed(anchor: Vec, tangent: Vec, pen: Pen, c: int)
    requires c == 0 || c >= 2
    ensures var v := CapVerts(anchor, tangent, c != 0, pen);
            var t := CapTris(c, c != 0, pen.caps, pen.res);
            |v| >= 2 && |t| % 3 == 0 && InRange(t, 0, c + |v|)
  {
    CapCounts(anchor, tangent, c != 0, pen, c);
    CapTrisInRange(c, pen.caps, pen.res);
    InRangeWiden(CapTris(c, c != 0, pen.caps, pen.res), if c >= 2 then c - 2 else 0,
                 c + CapVertexCount(c != 0, pen.caps, pen.res), 0, c + CapVertexCount(c != 0, pen.caps, pen.res));
  }

  /** The end cap's rail indices are not guarded: entered with a single
      vertex it would name index -1. GenerateMesh never does this, because
      the start cap always leaves at least two vertices. */
  lemma EndCapNeedsRail(caps: LineCaps, res: Resolution)
    ensures CapTris(1, true, caps, res)[0] == -1
  {
  }

  /** The last two vertices of a start cap are its rail: the flat pair, or
      the last mirrored arc pair, which its final two triangles end on. */
  lemma StartCapRail(anchor: Vec, tangent: Vec, pen: Pen)
    ensures var k := |CapVerts(anchor, tangent, false, pen)|;
            var t := CapTris(0, false, pen.caps, pen.res);
            k >= 2 &&
            (pen.caps != Round ==> t == []) &&
            (pen.caps == Round ==> |t| >= 6 && t[|t| - 6..] == [1, k - 4, k - 2, 1, k - 1, k - 3])
  {
    var k := |CapVerts(anchor, tangent, false, pen)|;
    if pen.caps == Round {
      var n := pen.res + 1;
      var t := CapFan(1, 0, 0, n);
      assert t == CapFan(1, 0, 0, n - 1) + [1, 1 + 2 * n - 3, 1 + 2 * n - 1, 1, 1 + 2 * n, 1 + 2 * n - 2];
      assert t[|t| - 6..] == [1, 1 + 2 * n - 3, 1 + 2 * n - 1, 1, 1 + 2 * n, 1 + 2 * n - 2];
    }
  }
}
