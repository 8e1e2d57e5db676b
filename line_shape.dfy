/** LineShape: a polyline stroked into a ribbon of triangles, with a choice
    of join and cap style and an open or closed path. */
module Lines {
  import opened Vectors
  import opened Buffers
  import opened LinePieces
  import opened LinePath

  class LineShape {
    var color: Color
    var width: real
    var caps: LineCaps
    var loop: bool
    var anchors: array<Vec3>
    const capResolution: Resolution
    const mesh: MeshBuffers
    /** The engine's verdict on the comparisons the shape makes. */
    const engine: Engine

    /** Field initialisers of the C# class: no anchors, resolution 5, and
        the default width, colour, cap style and loop flag. */
    constructor (engine: Engine)
      ensures anchors.Length == 0 && capResolution == 5 && this.engine == engine
      ensures width == 0.0 && color == Color(0.0, 0.0, 0.0, 0.0) && caps == Sharp && !loop
      ensures fresh(mesh) && mesh.Value() == Empty
    {
      color, width, caps, loop := Color(0.0, 0.0, 0.0, 0.0), 0.0, Sharp, false;
      anchors := new Vec3[0];
      capResolution := 5;
      this.engine := engine;
      mesh := new MeshBuffers();
    }

    /** The state the pieces read. */
    function Style(): Pen
      reads this
    {
      Pen(width, caps, capResolution, engine)
    }

    /** Stages the anchors: the caller's array itself is kept, so the plane
        normalisation of the next Refresh writes into it. */
    method SetPoints(points: array<Vec3>)
      modifies this
      ensures anchors == points
      ensures color == old(color) && width == old(width) && caps == old(caps) && loop == old(loop)
    {
      anchors := points;
    }

    /** Stages the style; nothing is generated until Refresh. */
    method SetStyle(width: real, color: Color, caps: LineCaps, loop: bool)
      modifies this
      ensures this.width == width && this.color == color && this.caps == caps && this.loop == loop
      ensures anchors == old(anchors)
    {
      this.width, this.color, this.caps, this.loop := width, color, caps, loop;
    }

    /** Anchor `index`, wrapped once in either direction. */
    function GetAnchor(index: int): (v: Vec3)
      reads this, anchors
      requires -anchors.Length <= index < 2 * anchors.Length
      ensures 0 <= index < anchors.Length ==> v == anchors[index]
      ensures index < 0 ==> v == anchors[index + anchors.Length]
      ensures index >= anchors.Length ==> v == anchors[index - anchors.Length]
    {
      anchors[WrapIndex(index, anchors.Length)]
    }

    /** Clears the buffers, then regenerates them: the result depends only
        on the staged state, not on any earlier Refresh. */
    method Refresh()
      modifies mesh, anchors
      ensures anchors[..] == ZeroY(old(anchors[..]))
      ensures mesh.Value() == Generate(Empty, anchors[..], loop, Style())
      ensures WellFormed(mesh.Value())
    {
      mesh.Clear();
      GenerateMesh();
      GenerateWellFormed(anchors[..], loop, Style());
    }

    /** The whole walk: flatten the anchors onto the plane, then one cap or
        join per iteration, then the per-vertex placeholders. Nothing is
        generated for fewer than two anchors. */
    method GenerateMesh()
      modifies mesh, anchors
      ensures anchors[..] == ZeroY(old(anchors[..]))
      ensures mesh.Value() == Generate(old(mesh.Value()), anchors[..], loop, Style())
    {
      for i := 0 to anchors.Length
        invariant forall j :: 0 <= j < i ==> anchors[j] == old(anchors[j]).(y := 0.0)
        invariant forall j :: i <= j < anchors.Length ==> anchors[j] == old(anchors[j])
        invariant mesh.Value() == old(mesh.Value())
      {
        anchors[i] := anchors[i].(y := 0.0);
      }
      assert anchors[..] == ZeroY(old(anchors[..]));
      if anchors.Length < 2 {
        return;
      }

      var n := anchors.Length;
      var iterations := n + (if loop then 1 else 0);
      ghost var a, m0 := anchors[..], mesh.Value();
      for i := 0 to iterations
        invariant anchors[..] == a
        invariant mesh.Value() == Pass(m0, a, loop, Style(), i)
      {
        MakePiece(i, m0);
      }

      mesh.AddPlaceholders();
    }

    /** Iteration `i` of the walk: the tangents to the neighbouring anchors
        (`Up` where there is none), then the start cap, the end cap or a
        join. */
    method MakePiece(i: int, ghost m0: Mesh)
      requires anchors.Length >= 2 && 0 <= i < Iterations(anchors.Length, loop)
      requires mesh.Value() == Pass(m0, anchors[..], loop, Style(), i)
      modifies mesh
      ensures mesh.Value() == Pass(m0, anchors[..], loop, Style(), i + 1)
    {
      ghost var a := anchors[..];
      var n := anchors.Length;
      var t1, t2 := Up, Up;
      var anchor := Lit(GetAnchor(i));
      if i > 0 || loop {
        t1 := Normalized(Sub(Lit(GetAnchor(i - 1)), anchor));
      }
      if i < n - 1 || loop {
        t2 := Normalized(Sub(Lit(GetAnchor(i + 1)), anchor));
      }
      assert anchor == Lit(a[WrapIndex(i, n)]);
      assert t1 == Incoming(a, loop, i) && t2 == Outgoing(a, loop, i);
      StepIsPiece(m0, a, loop, Style(), i);
      if i == 0 && !loop {
        MakeCap(anchor, Neg(t2));
      } else if i == n - 1 && !loop {
        MakeCap(anchor, t1);
      } else {
        MakeCorner(anchor, t1, t2);
      }
    }

    /** One join: the rail quad to the previous rail (when there is one),
        the wedge start, the style's filling and the wedge end. */
    method MakeCorner(anchor: Vec, t1: Vec, t2: Vec)
      modifies mesh
      ensures mesh.Value() == CornerStep(old(mesh.Value()), anchor, t1, t2, Style())
    {
      ghost var m0, pen := mesh.Value(), Style();
      ghost var c := |mesh.vertices|;
      var prevl, prevr := |mesh.vertices| - 2, |mesh.vertices| - 1;
      var n1 := Normalized(Cross(Up, t1));
      var n2 := Normalized(Cross(Up, t2));
      var angle := FSub(Real(180.0), Angle(n1, n2));
      var step := FDiv(angle, Real(capResolution as real));

      var anchorIdx := mesh.AddVertex(anchor);
      assert mesh.Value() == Append(m0, [anchor], []);

      // straight bit
      var miter := if (t1, t2) !in engine.same then Normalized(Add(t1, t2)) else Neg(n2);
      var length := FDiv(FMul(Real(0.5), Real(width)), Dot(miter, n2));
      var right := Y(Cross(miter, t1)) in engine.positive;
      var f := Frame(n1, n2, step, miter, length, right);
      assert f == CornerFrame(t1, t2, pen);
      ghost var m1, rails := mesh.Value(), RailPoints(anchor, f, pen);
      var lIdx, rIdx := MakeRails(anchor, f, prevl, prevr, anchorIdx);
      ghost var m2 := mesh.Value();
      RailsAfterAnchor(m0, anchor, rails, QuadTris(c) + [c + 1, c, c + 2]);
      lIdx, rIdx := MakeFill(anchor, f, anchorIdx, lIdx, rIdx);
      ghost var m3 := mesh.Value();
      MakeClose(anchor, f, anchorIdx, lIdx, rIdx);
      CornerSplit(m0, anchor, t1, t2, pen, f, m1, m2, m3, mesh.Value());
    }

    /** The straight bit of MakeCorner: the two rail vertices, the quad to
        the previous rail `prevl`, `prevr` when both exist, and the wedge
        start. The results are the new rail indices. */
    method MakeRails(anchor: Vec, f: Frame, prevl: int, prevr: int, anchorIdx: int) returns (lIdx: int, rIdx: int)
      requires |mesh.vertices| == anchorIdx + 1 && prevl == anchorIdx - 2 && prevr == anchorIdx - 1
      modifies mesh
      ensures mesh.Value() == Append(old(mesh.Value()), RailPoints(anchor, f, Style()),
                                     QuadTris(anchorIdx) + [anchorIdx + 1, anchorIdx, anchorIdx + 2])
      ensures lIdx == anchorIdx + 1 && rIdx == anchorIdx + 2
    {
      if f.right {
        lIdx := mesh.AddVertex(Add(anchor, Scale(FMul(Real(0.5), Real(width)), f.n1)));
        rIdx := mesh.AddVertex(Add(anchor, Scale(f.length, f.miter)));
      } else {
        lIdx := mesh.AddVertex(Sub(anchor, Scale(f.length, f.miter)));
        rIdx := mesh.AddVertex(Sub(anchor, Scale(FMul(Real(0.5), Real(width)), f.n1)));
      }
      assert mesh.vertices == old(mesh.vertices) + RailPoints(anchor, f, Style());

      if prevl >= 0 && prevr >= 0 {
        mesh.AddTri(prevl, lIdx, prevr);
        mesh.AddTri(prevr, lIdx, rIdx);
      }
      ghost var quad := mesh.tris;
      assert quad == old(mesh.tris) + QuadTris(anchorIdx);

      // start of curve
      mesh.AddTri(lIdx, anchorIdx, rIdx);
      ConcatAssoc(old(mesh.tris), QuadTris(anchorIdx), [anchorIdx + 1, anchorIdx, anchorIdx + 2], quad, mesh.tris);
    }

    /** The wedge end of MakeCorner: the closing rail (on a left turn the
        newest vertex is emitted again) and the triangle fanned to the
        anchor. */
    method MakeClose(anchor: Vec, f: Frame, anchorIdx: int, lIdx: int, rIdx: int)
      requires anchorIdx >= 0
      requires var fr := FillRails(anchorIdx, f.right, caps, capResolution);
               lIdx == fr.l && rIdx == fr.r && |mesh.vertices| == fr.next
      modifies mesh
      ensures mesh.Value() == Append(old(mesh.Value()),
                ClosePoints(anchor, f, old(mesh.vertices[|mesh.vertices| - 1])),
                CloseTris(anchorIdx, f.right, FillRails(anchorIdx, f.right, caps, capResolution)))
    {
      var l, r := lIdx, rIdx;
      if f.right {
        r := mesh.AddVertex(Add(anchor, Scale(f.length, f.miter)));
      } else {
        l := mesh.AddVertex(Sub(anchor, Scale(f.length, f.miter)));
        r := mesh.AddVertex(mesh.vertices[r]);
      }

      // end of curve
      mesh.AddTri(anchorIdx, l, r);
    }

    /** The style's wedge filling of MakeCorner, entered right after the
        anchor `anchorIdx` and its two rail vertices `lIdx`, `rIdx`; the
        results are the rail indices it leaves behind. */
    method MakeFill(anchor: Vec, f: Frame, anchorIdx: int, lIdx: int, rIdx: int) returns (l: int, r: int)
      requires anchorIdx >= 0 && |mesh.vertices| == anchorIdx + 3 && lIdx == anchorIdx + 1 && rIdx == anchorIdx + 2
      modifies mesh
      ensures mesh.Value() == Append(old(mesh.Value()),
                FillPoints(anchor, f, Style(), old(mesh.vertices[anchorIdx + 1..])),
                FillTris(anchorIdx, f.right, caps, capResolution))
      ensures l == FillRails(anchorIdx, f.right, caps, capResolution).l
      ensures r == FillRails(anchorIdx, f.right, caps, capResolution).r
      ensures |mesh.vertices| == FillRails(anchorIdx, f.right, caps, capResolution).next
    {
      if caps == Round {
        l, r := MakeRoundFill(anchor, f, anchorIdx, lIdx, rIdx);
      } else if caps == Sharp {
        l, r := MakeSharpFill(anchor, f, anchorIdx, lIdx, rIdx);
      } else if caps == Bevel {
        l, r := MakeBevelFill(anchor, f, anchorIdx, lIdx, rIdx);
      }
    }

    /** Round filling: the arc, and on a left turn the miter point and a
        copy of the last arc vertex as the new rail. */
    method MakeRoundFill(anchor: Vec, f: Frame, anchorIdx: int, lIdx: int, rIdx: int) returns (l: int, r: int)
      requires caps == Round
      requires anchorIdx >= 0 && |mesh.vertices| == anchorIdx + 3 && lIdx == anchorIdx + 1 && rIdx == anchorIdx + 2
      modifies mesh
      ensures mesh.Value() == Append(old(mesh.Value()),
                FillPoints(anchor, f, Style(), old(mesh.vertices[anchorIdx + 1..])),
                FillTris(anchorIdx, f.right, caps, capResolution))
      ensures l == FillRails(anchorIdx, f.right, caps, capResolution).l
      ensures r == FillRails(anchorIdx, f.right, caps, capResolution).r
      ensures |mesh.vertices| == FillRails(anchorIdx, f.right, caps, capResolution).next
    {
      ghost var v0, c := mesh.vertices, anchorIdx;
      ghost var pts := FillPoints(anchor, f, Style(), mesh.vertices[anchorIdx + 1..]);
      ghost var fr := FillRails(anchorIdx, f.right, caps, capResolution);
      ghost var ft := FillTris(anchorIdx, f.right, caps, capResolution);
      l, r := lIdx, rIdx;
      if f.right {
        assert pts == JoinArc(anchor, Sub(v0[lIdx], anchor), f.step, capResolution);
        assert ft == FanRight(c + 1, c + 3, c, capResolution);
        assert fr == Rails(c + 2 + capResolution, c + 2, c + 3 + capResolution);
        l := MakeRoundRight(anchor, f.step, anchorIdx, l);
      } else {
        ghost var arc := JoinArc(anchor, Sub(v0[rIdx], anchor), FNeg(f.step), capResolution);
        assert pts == arc + [Sub(anchor, Scale(f.length, f.miter)), arc[|arc| - 1]];
        assert ft == FanLeft(c + 2, c + 3, c, capResolution);
        assert fr == Rails(c + 3 + capResolution, c + 4 + capResolution, c + 5 + capResolution);
        r := MakeRoundLeft(anchor, f.step, anchorIdx, r);
        assert mesh.vertices == v0 + arc;
        l := mesh.AddVertex(Sub(anchor, Scale(f.length, f.miter)));
        r := mesh.AddVertex(mesh.vertices[r]);
        assert mesh.vertices == v0 + (arc + [Sub(anchor, Scale(f.length, f.miter)), arc[|arc| - 1]]);
      }
    }

    /** Sharp filling: the far miter point and the second rail point, with
        the two triangles between them and the anchor. */
    method MakeSharpFill(anchor: Vec, f: Frame, anchorIdx: int, lIdx: int, rIdx: int) returns (l: int, r: int)
      requires caps == Sharp
      requires anchorIdx >= 0 && |mesh.vertices| == anchorIdx + 3 && lIdx == anchorIdx + 1 && rIdx == anchorIdx + 2
      modifies mesh
      ensures mesh.Value() == Append(old(mesh.Value()),
                FillPoints(anchor, f, Style(), old(mesh.vertices[anchorIdx + 1..])),
                FillTris(anchorIdx, f.right, caps, capResolution))
      ensures l == FillRails(anchorIdx, f.right, caps, capResolution).l
      ensures r == FillRails(anchorIdx, f.right, caps, capResolution).r
      ensures |mesh.vertices| == FillRails(anchorIdx, f.right, caps, capResolution).next
    {
      ghost var v0, t0, c := mesh.vertices, mesh.tris, anchorIdx;
      ghost var pts := FillPoints(anchor, f, Style(), mesh.vertices[anchorIdx + 1..]);
      ghost var fr := FillRails(anchorIdx, f.right, caps, capResolution);
      ghost var ft := FillTris(anchorIdx, f.right, caps, capResolution);
      l, r := lIdx, rIdx;
      if f.right {
        assert pts == [Sub(anchor, Scale(f.length, f.miter)), Sub(anchor, Scale(FMul(Real(0.5), Real(width)), f.n2))];
        assert ft == [c + 1, c + 3, c, c + 3, c + 4, c] && fr == Rails(c + 4, c + 2, c + 5);
        var cornerIdx := mesh.AddVertex(Sub(anchor, Scale(f.length, f.miter)));
        mesh.AddTri(l, cornerIdx, anchorIdx);
        l := mesh.AddVertex(Sub(anchor, Scale(FMul(Real(0.5), Real(width)), f.n2)));
        mesh.AddTri(cornerIdx, l, anchorIdx);
        assert mesh.tris == t0 + ft;
      } else {
        assert pts == [Add(anchor, Scale(f.length, f.miter)), Add(anchor, Scale(FMul(Real(0.5), Real(width)), f.n2))];
        assert ft == [c + 2, c, c + 3, c + 4, c + 3, c] && fr == Rails(c + 1, c + 4, c + 5);
        var cornerIdx := mesh.AddVertex(Add(anchor, Scale(f.length, f.miter)));
        mesh.AddTri(r, anchorIdx, cornerIdx);
        r := mesh.AddVertex(Add(anchor, Scale(FMul(Real(0.5), Real(width)), f.n2)));
        mesh.AddTri(r, cornerIdx, anchorIdx);
        assert mesh.tris == t0 + ft;
      }
      assert mesh.vertices == v0 + pts;
    }

    /** Bevel filling: the second rail point and one triangle to it. */
    method MakeBevelFill(anchor: Vec, f: Frame, anchorIdx: int, lIdx: int, rIdx: int) returns (l: int, r: int)
      requires caps == Bevel
      requires anchorIdx >= 0 && |mesh.vertices| == anchorIdx + 3 && lIdx == anchorIdx + 1 && rIdx == anchorIdx + 2
      modifies mesh
      ensures mesh.Value() == Append(old(mesh.Value()),
                FillPoints(anchor, f, Style(), old(mesh.vertices[anchorIdx + 1..])),
                FillTris(anchorIdx, f.right, caps, capResolution))
      ensures l == FillRails(anchorIdx, f.right, caps, capResolution).l
      ensures r == FillRails(anchorIdx, f.right, caps, capResolution).r
      ensures |mesh.vertices| == FillRails(anchorIdx, f.right, caps, capResolution).next
    {
      ghost var v0, t0, c := mesh.vertices, mesh.tris, anchorIdx;
      ghost var pts := FillPoints(anchor, f, Style(), mesh.vertices[anchorIdx + 1..]);
      ghost var fr := FillRails(anchorIdx, f.right, caps, capResolution);
      ghost var ft := FillTris(anchorIdx, f.right, caps, capResolution);
      l, r := lIdx, rIdx;
      if f.right {
        assert pts == [Sub(anchor, Scale(FMul(Real(0.5), Real(width)), f.n2))];
        assert ft == [c + 1, c + 3, c] && fr == Rails(c + 3, c + 2, c + 4);
        var idx := mesh.AddVertex(Sub(anchor, Scale(FMul(Real(0.5), Real(width)), f.n2)));
        mesh.AddTri(l, idx, anchorIdx);
        l := idx;
      } else {
        assert pts == [Add(anchor, Scale(FMul(Real(0.5), Real(width)), f.n2))];
        assert ft == [c + 3, c + 2, c] && fr == Rails(c + 1, c + 3, c + 4);
        var idx := mesh.AddVertex(Add(anchor, Scale(FMul(Real(0.5), Real(width)), f.n2)));
        mesh.AddTri(idx, r, anchorIdx);
        r := idx;
      }
    }

    /** The arc of a round join turning right: `capResolution` points swept
        from the left rail vertex `lIdx` by `step` degrees at a time, each
        fanned to the anchor. The result is the last arc vertex. */
    method MakeRoundRight(anchor: Vec, step: Num, anchorIdx: int, lIdx: int) returns (l: int)
      requires anchorIdx >= 0 && |mesh.vertices| == anchorIdx + 3 && lIdx == anchorIdx + 1
      modifies mesh
      ensures mesh.vertices == old(mesh.vertices) + JoinArc(anchor, Sub(old(mesh.vertices[lIdx]), anchor), step, capResolution)
      ensures mesh.tris == old(mesh.tris) + FanRight(anchorIdx + 1, anchorIdx + 3, anchorIdx, capResolution)
      ensures mesh.normals == old(mesh.normals) && mesh.uvs == old(mesh.uvs)
      ensures l == anchorIdx + 2 + capResolution
    {
      ghost var vb, tb, c := mesh.vertices, mesh.tris, anchorIdx;
      l := lIdx;
      var rad := Sub(mesh.vertices[l], anchor);
      for i := 1 to capResolution + 1
        invariant mesh.vertices == vb + JoinArc(anchor, rad, step, i - 1)
        invariant mesh.tris == tb + FanRight(c + 1, c + 3, c, i - 1)
        invariant l == if i == 1 then c + 1 else c + 1 + i
        invariant mesh.normals == old(mesh.normals) && mesh.uvs == old(mesh.uvs)
      {
        var v := Rotate(FMul(Real(i as real), step), Up, rad);
        ghost var v0, t0, prev := mesh.vertices, mesh.tris, l;
        l := AddArcPoint(Add(anchor, v), true, l, anchorIdx);
        JoinArcStep(vb, anchor, rad, step, i - 1, Add(anchor, v), v0, mesh.vertices);
        FanRightStep(tb, c + 1, c + 3, c, i - 1, prev, t0, mesh.tris);
      }
    }

    /** The arc of a round join turning left: swept from the right rail
        vertex `rIdx` by `-step` degrees at a time. */
    method MakeRoundLeft(anchor: Vec, step: Num, anchorIdx: int, rIdx: int) returns (r: int)
      requires anchorIdx >= 0 && |mesh.vertices| == anchorIdx + 3 && rIdx == anchorIdx + 2
      modifies mesh
      ensures mesh.vertices == old(mesh.vertices) + JoinArc(anchor, Sub(old(mesh.vertices[rIdx]), anchor), FNeg(step), capResolution)
      ensures mesh.tris == old(mesh.tris) + FanLeft(anchorIdx + 2, anchorIdx + 3, anchorIdx, capResolution)
      ensures mesh.normals == old(mesh.normals) && mesh.uvs == old(mesh.uvs)
      ensures r == anchorIdx + 2 + capResolution
    {
      ghost var vb, tb, c := mesh.vertices, mesh.tris, anchorIdx;
      r := rIdx;
      var rad := Sub(mesh.vertices[r], anchor);
      for i := 1 to capResolution + 1
        invariant mesh.vertices == vb + JoinArc(anchor, rad, FNeg(step), i - 1)
        invariant mesh.tris == tb + FanLeft(c + 2, c + 3, c, i - 1)
        invariant r == if i == 1 then c + 2 else c + 1 + i
        invariant mesh.normals == old(mesh.normals) && mesh.uvs == old(mesh.uvs)
      {
        var v := Rotate(FMul(Real(i as real), FNeg(step)), Up, rad);
        ghost var v0, t0, prev := mesh.vertices, mesh.tris, r;
        r := AddArcPoint(Add(anchor, v), false, r, anchorIdx);
        JoinArcStep(vb, anchor, rad, FNeg(step), i - 1, Add(anchor, v), v0, mesh.vertices);
        FanLeftStep(tb, c + 2, c + 3, c, i - 1, prev, t0, mesh.tris);
      }
    }

    /** One turn of a round join's loop: the next arc vertex and its fan
        triangle, wound (prev, idx, anchor) on a right turn and (idx, prev,
        anchor) on a left turn. The result is the new vertex's index. */
    method AddArcPoint(v: Vec, right: bool, prev: int, anchorIdx: int) returns (idx: int)
      modifies mesh
      ensures mesh.vertices == old(mesh.vertices) + [v] && idx == |old(mesh.vertices)|
      ensures mesh.tris == old(mesh.tris) + (if right then [prev, idx, anchorIdx] else [idx, prev, anchorIdx])
      ensures mesh.normals == old(mesh.normals) && mesh.uvs == old(mesh.uvs)
    {
      idx := mesh.AddVertex(v);
      if right {
        mesh.AddTri(prev, idx, anchorIdx);
      } else {
        mesh.AddTri(idx, prev, anchorIdx);
      }
    }

    /** One cap: the flat pair (with the two closing triangles on an end
        cap), and for the round style a tip vertex on a start cap followed by
        the rounded fan. */
    method MakeCap(anchor: Vec, tangent: Vec)
      modifies mesh
      ensures mesh.Value() == CapStep(old(mesh.Value()), anchor, tangent, Style())
    {
      ghost var m0 := mesh.Value();
      ghost var c := |mesh.vertices|;
      var prevl, prevr := |mesh.vertices| - 2, |mesh.vertices| - 1;
      var endcap := |mesh.vertices| != 0;
      var normal := Normalized(Cross(Up, tangent));
      var lIdx, rIdx := 0, 0;
      ghost var flat := [Add(anchor, Scale(Half(Style()), normal)), Sub(anchor, Scale(Half(Style()), normal))];
      ghost var flatTris := if endcap then [c - 2, c, c - 1, c, c + 1, c - 1] else [];

      if endcap || caps != Round {
        lIdx := mesh.AddVertex(Add(anchor, Scale(FMul(Real(0.5), Real(width)), normal)));
        rIdx := mesh.AddVertex(Sub(anchor, Scale(FMul(Real(0.5), Real(width)), normal)));
        if endcap {
          mesh.AddTri(prevl, lIdx, prevr);
          mesh.AddTri(lIdx, rIdx, prevr);
        }
        assert mesh.Value() == Append(m0, flat, flatTris);
      }

      if caps != Round {
        return;
      }

      if !endcap {
        lIdx := mesh.AddVertex(Add(anchor, Scale(FMul(Real(0.5), Real(width)), tangent)));
        rIdx := lIdx;
      }
      ghost var pre := if endcap then flat else [Add(anchor, Scale(Half(Style()), tangent))];
      assert mesh.Value() == Append(m0, pre, flatTris);
      assert mesh.vertices[lIdx] == pre[0] && mesh.vertices[rIdx] == pre[|pre| - 1];
      var step := FDiv(Real(90.0), Real(capResolution as real));
      MakeRoundedCap(step, anchor, lIdx, rIdx);
      AppendAppend(m0, pre, flatTris, RoundedCapVerts(anchor, pre[0], pre[|pre| - 1], step, Style()),
                   RoundedCapTris(c + |pre|, lIdx, rIdx, capResolution));
    }

    /** The rounded fan: an anchor vertex, then `capResolution + 1` mirrored
        arc pairs swept from the rail vertices `lIdx` and `rIdx`. */
    method MakeRoundedCap(step: Num, anchor: Vec, lIdx: int, rIdx: int)
      requires 0 <= lIdx < |mesh.vertices| && 0 <= rIdx < |mesh.vertices|
      modifies mesh
      ensures mesh.Value() == Append(old(mesh.Value()),
                RoundedCapVerts(anchor, old(mesh.vertices[lIdx]), old(mesh.vertices[rIdx]), step, Style()),
                RoundedCapTris(old(|mesh.vertices|), lIdx, rIdx, capResolution))
    {
      ghost var m0 := mesh.Value();
      var lRad := Sub(mesh.vertices[lIdx], anchor);
      var rRad := Sub(mesh.vertices[rIdx], anchor);
      var anchorIdx := mesh.AddVertex(anchor);
      ghost var vb := mesh.vertices;
      var li, ri := lIdx, rIdx;
      for i := 0 to capResolution + 1
        invariant mesh.vertices == vb + CapArc(anchor, lRad, rRad, step, i)
        invariant mesh.tris == m0.tris + CapFan(anchorIdx, lIdx, rIdx, i)
        invariant li == (if i == 0 then lIdx else anchorIdx + 2 * i - 1)
        invariant ri == (if i == 0 then rIdx else anchorIdx + 2 * i)
        invariant anchorIdx == |m0.vertices| && mesh.normals == m0.normals && mesh.uvs == m0.uvs
      {
        var lv := Add(anchor, Rotate(FMul(Real(i as real), step), Up, lRad));
        var rv := Add(anchor, Rotate(FMul(Real(i as real), step), Down, rRad));
        ghost var v0, t0, pl, pr := mesh.vertices, mesh.tris, li, ri;
        li, ri := AddCapPair(anchorIdx, li, ri, lv, rv);
        CapArcStep(vb, anchor, lRad, rRad, step, i, lv, rv, v0, mesh.vertices);
        CapFanStep(m0.tris, anchorIdx, lIdx, rIdx, i, pl, pr, t0, mesh.tris);
      }
      assert mesh.vertices == m0.vertices + ([anchor] + CapArc(anchor, lRad, rRad, step, capResolution + 1));
    }

    /** One turn of MakeRoundedCap's loop: the two arc vertices and the two
        fan triangles that join them to the previous pair. */
    method AddCapPair(anchorIdx: int, li: int, ri: int, lv: Vec, rv: Vec) returns (l: int, r: int)
      modifies mesh
      ensures mesh.vertices == old(mesh.vertices) + [lv] + [rv]
      ensures mesh.tris == old(mesh.tris) + [anchorIdx, li, l] + [anchorIdx, r, ri]
      ensures l == |old(mesh.vertices)| && r == l + 1
      ensures mesh.normals == old(mesh.normals) && mesh.uvs == old(mesh.uvs)
    {
      l := mesh.AddVertex(lv);
      r := mesh.AddVertex(rv);
      mesh.AddTri(anchorIdx, li, l);
      mesh.AddTri(anchorIdx, r, ri);
    }
  }
}
