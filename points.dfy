/** PointShape: a single marker drawn as a filled square, triangle or
    twenty-sided circle of a given width, lying in the y = 0 plane. */
module Points {
  import opened Vectors
  import opened Buffers

  datatype PointSymbol = Square | Circle | Triangle

  /** Half the width: the distance from the centre to a square's side and
      to every polygon corner. */
  function Radius(width: real): Num {
    FMul(Real(0.5), Real(width))
  }

  /** GenerateSquare's four corners, in order: (-r, -r), (-r, r), (r, r),
      (r, -r) in the x-z plane. */
  function SquarePoints(width: real): seq<Vec> {
    var r := Radius(width);
    [Make(FNeg(r), Real(0.0), FNeg(r)), Make(FNeg(r), Real(0.0), r),
     Make(r, Real(0.0), r), Make(r, Real(0.0), FNeg(r))]
  }

  /** Corner `i` of GeneratePolygon: the radius along `Forward`, turned
      about `Up` by i * 360 / corners degrees (multiplied, then divided, in
      floats). */
  function PolygonPoint(width: real, corners: int, i: int): Vec {
    Rotate(FDiv(FMul(Real(i as real), Real(360.0)), Real(corners as real)), Up, Scale(Radius(width), Forward))
  }

  function PolygonPoints(width: real, corners: nat): (r: seq<Vec>)
    ensures |r| == corners
    ensures forall i :: 0 <= i < corners ==> r[i] == PolygonPoint(width, corners, i)
  {
    seq(corners, i requires 0 <= i < corners => PolygonPoint(width, corners, i))
  }

  /** The square's two triangles. */
  const SquareTris: seq<int> := [0, 1, 2, 0, 2, 3]

  /** The polygon fan loop after its turns i = 1 .. k - 1: one triple
      (0, i - 1, i) per turn. */
  function Fan(k: nat): (r: seq<int>)
    ensures |r| == if k == 0 then 0 else 3 * (k - 1)
  {
    if k <= 1 then [] else Fan(k - 1) + [0, k - 2, k - 1]
  }

  /** Corner count of a polygon symbol. */
  function Corners(symbol: PointSymbol, cornersInCircle: nat): nat {
    if symbol == Triangle then 3 else cornersInCircle
  }

  function SymbolVerts(symbol: PointSymbol, width: real, cornersInCircle: nat): seq<Vec> {
    if symbol == Square then SquarePoints(width) else PolygonPoints(width, Corners(symbol, cornersInCircle))
  }

  function SymbolTris(symbol: PointSymbol, cornersInCircle: nat): seq<int> {
    if symbol == Square then SquareTris else Fan(Corners(symbol, cornersInCircle))
  }

  /** PointShape.GenerateMesh from buffers `m0`: the symbol's vertices and
      triangles (indices counted from 0, not from what `m0` holds), then the
      per-vertex placeholders. */
  function PointGenerate(m0: Mesh, symbol: PointSymbol, width: real, cornersInCircle: nat): Mesh {
    WithPlaceholders(Append(m0, SymbolVerts(symbol, width, cornersInCircle), SymbolTris(symbol, cornersInCircle)))
  }

  /** The fan's contents: triangle `j` is (0, j, j + 1), so consecutive
      corners are joined through corner 0 and nothing else is emitted. */
  lemma {:induction false} FanTriangles(k: nat)
    requires k >= 1
    ensures forall j :: 0 <= j < k - 1 ==> Fan(k)[3 * j] == 0 && Fan(k)[3 * j + 1] == j && Fan(k)[3 * j + 2] == j + 1
  {
    if k > 1 {
      FanTriangles(k - 1);
      assert Fan(k) == Fan(k - 1) + [0, k - 2, k - 1];
    }
  }

  /** Every fan index names a corner. */
  lemma {:induction false} FanInRange(k: nat)
    ensures forall n :: 0 <= n < |Fan(k)| ==> 0 <= Fan(k)[n] < k
  {
    if k > 1 {
      FanInRange(k - 1);
      assert Fan(k) == Fan(k - 1) + [0, k - 2, k - 1];
    }
  }

  /** The loop starts at i = 1, so its first triple (0, 0, 1) repeats
      corner 0 and covers no area; the k - 2 triples after it are the
      proper fan of a convex k-gon. */
  lemma FanFirstDegenerate(k: nat)
    requires k >= 2
    ensures Fan(k)[..3] == [0, 0, 1]
    ensures |Fan(k)[3..]| == 3 * (k - 2)
  {
    FanTriangles(k);
  }

  /** The two square triangles share the diagonal 0-2 and together use all
      four corners. */
  lemma SquareCover()
    ensures SquareTris[0] == SquareTris[3] == 0 && SquareTris[2] == SquareTris[4] == 2
    ensures forall v :: 0 <= v < 4 ==> v in SquareTris
    ensures forall n :: 0 <= n < |SquareTris| ==> 0 <= SquareTris[n] < 4
  {
    assert SquareTris[0] == 0 && SquareTris[1] == 1 && SquareTris[5] == 3;
  }

  /** What GenerateMesh emits for each symbol: vertices and triangles. */
  lemma SymbolCounts(symbol: PointSymbol, width: real)
    ensures symbol == Square ==> |SymbolVerts(symbol, width, 20)| == 4 && |SymbolTris(symbol, 20)| == 3 * 2
    ensures symbol == Triangle ==> |SymbolVerts(symbol, width, 20)| == 3 && |SymbolTris(symbol, 20)| == 3 * 2
    ensures symbol == Circle ==> |SymbolVerts(symbol, width, 20)| == 20 && |SymbolTris(symbol, 20)| == 3 * 19
  {
  }

  /** A triangle marker is the degenerate triple followed by the single
      proper triangle. */
  lemma TriangleSymbolTris()
    ensures SymbolTris(Triangle, 20) == [0, 0, 1, 0, 1, 2]
  {
    assert Fan(2) == [0, 0, 1];
  }

  /** From empty buffers, the generated mesh is well formed for every
      symbol and width: parallel per-vertex buffers, whole triangles, every
      index naming an emitted vertex. */
  lemma PointWellFormed(symbol: PointSymbol, width: real, cornersInCircle: nat)
    ensures WellFormed(PointGenerate(Empty, symbol, width, cornersInCircle))
  {
    var m := Append(Empty, SymbolVerts(symbol, width, cornersInCircle), SymbolTris(symbol, cornersInCircle));
    if symbol == Square {
      SquareCover();
    } else {
      var c := Corners(symbol, cornersInCircle);
      FanInRange(c);
      assert m.tris == Fan(c);
    }
    PlaceholdersMakeWellFormed(m);
  }

  class PointShape {
    var color: Color
    var width: real
    var symbol: PointSymbol
    const cornersInCircle: nat := 20
    const mesh: MeshBuffers

    /** Field initialisers of the C# class: twenty corners in a circle, the
        first symbol, the default width and colour. */
    constructor ()
      ensures cornersInCircle == 20 && symbol == Square && width == 0.0 && color == Color(0.0, 0.0, 0.0, 0.0)
      ensures fresh(mesh) && mesh.Value() == Empty
    {
      color, width, symbol := Color(0.0, 0.0, 0.0, 0.0), 0.0, Square;
      mesh := new MeshBuffers();
    }

    /** Stages the style; nothing is generated until Refresh. */
    method SetStyle(width: real, color: Color, symbol: PointSymbol)
      modifies this
      ensures this.width == width && this.color == color && this.symbol == symbol
    {
      this.width, this.color, this.symbol := width, color, symbol;
    }

    method GenerateSquare() returns (points: array<Vec>)
      ensures fresh(points) && points[..] == SquarePoints(width)
    {
      points := new Vec[4](_ => Up);
      var radius := FMul(Real(0.5), Real(width));
      points[0] := Make(FNeg(radius), Real(0.0), FNeg(radius));
      points[1] := Make(FNeg(radius), Real(0.0), radius);
      points[2] := Make(radius, Real(0.0), radius);
      points[3] := Make(radius, Real(0.0), FNeg(radius));
    }

    method GeneratePolygon(corners: nat) returns (points: array<Vec>)
      ensures fresh(points) && points[..] == PolygonPoints(width, corners)
    {
      points := new Vec[corners](_ => Up);
      var radius := FMul(Real(0.5), Real(width));
      for i := 0 to corners
        invariant forall j :: 0 <= j < i ==> points[j] == PolygonPoint(width, corners, j)
      {
        points[i] := Rotate(FDiv(FMul(Real(i as real), Real(360.0)), Real(corners as real)), Up, Scale(radius, Forward));
      }
    }

    /** Appends the symbol and the placeholders to whatever the buffers
        hold. */
    method GenerateMesh()
      modifies mesh
      ensures mesh.Value() == PointGenerate(old(mesh.Value()), symbol, width, cornersInCircle)
    {
      ghost var m0 := mesh.Value();
      if symbol == Square {
        var points := GenerateSquare();
        mesh.AddVertices(points);
        mesh.AddTri(0, 1, 2);
        mesh.AddTri(0, 2, 3);
        assert mesh.tris == m0.tris + SquareTris;
        assert mesh.Value() == Append(m0, SymbolVerts(symbol, width, cornersInCircle), SymbolTris(symbol, cornersInCircle));
      } else if symbol == Triangle || symbol == Circle {
        var corners := if symbol == Triangle then 3 else cornersInCircle;
        var points := GeneratePolygon(corners);
        mesh.AddVertices(points);
        ghost var pts := points[..];
        for i := 1 to corners
          invariant mesh.vertices == m0.vertices + pts
          invariant mesh.tris == m0.tris + Fan(i)
          invariant mesh.normals == m0.normals && mesh.uvs == m0.uvs
        {
          ghost var t := mesh.tris;
          mesh.AddTri(0, i - 1, i);
          ConcatAssoc(m0.tris, Fan(i), [0, i - 1, i], t, mesh.tris);
        }
        assert corners == Corners(symbol, cornersInCircle);
        assert mesh.Value() == Append(m0, SymbolVerts(symbol, width, cornersInCircle), SymbolTris(symbol, cornersInCircle));
      }
      mesh.AddPlaceholders();
    }

    /** Clears the buffers, then regenerates them. */
    method Refresh()
      modifies mesh
      ensures mesh.Value() == PointGenerate(Empty, symbol, width, cornersInCircle)
      ensures WellFormed(mesh.Value())
    {
      mesh.Clear();
      GenerateMesh();
      PointWellFormed(symbol, width, cornersInCircle);
    }
  }
}
