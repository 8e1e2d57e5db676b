/** The four growable buffers every shape fills (AbstractShape's `Vertices`,
    `Tris`, `Normals` and `Uvs` lists) and the helpers that append to them. */
module Buffers {
  import opened Vectors

  /** A snapshot of the buffers. `tris` is the flat index list: each
      consecutive triple is one triangle. */
  datatype Mesh = Mesh(vertices: seq<Vec>, tris: seq<int>, normals: seq<Vec>, uvs: seq<Vec2>)

  const Empty := Mesh([], [], [], [])

  /** The placeholder texture coordinate every vertex receives. */
  const Center := Vec2(0.5, 0.5)

  /** What a finished mesh must satisfy to be handed to the renderer: the
      per-vertex buffers run parallel, and the index list is a whole number
      of triangles that all name existing vertices. */
  ghost predicate WellFormed(m: Mesh) {
    |m.normals| == |m.vertices| && |m.uvs| == |m.vertices| &&
    |m.tris| % 3 == 0 &&
    forall k :: 0 <= k < |m.tris| ==> 0 <= m.tris[k] < |m.vertices|
  }

  /** `m` was obtained from `m0` by appending only. */
  ghost predicate Extends(m0: Mesh, m: Mesh) {
    m0.vertices <= m.vertices && m0.tris <= m.tris &&
    m0.normals <= m.normals && m0.uvs <= m.uvs
  }

  lemma ExtendsTransitive(m0: Mesh, m1: Mesh, m2: Mesh)
    requires Extends(m0, m1) && Extends(m1, m2)
    ensures Extends(m0, m2)
  {
  }

  lemma ConcatAssoc<T>(a: seq<T>, b: seq<T>, c: seq<T>, s: seq<T>, s': seq<T>)
    requires s == a + b && s' == s + c
    ensures s' == a + (b + c)
  {
  }

  lemma WholeTriangles(x: nat, y: nat)
    requires x % 3 == 0 && y % 3 == 0
    ensures (x + y) % 3 == 0
  {
    assert x == 3 * (x / 3) && y == 3 * (y / 3);
    assert x + y == 3 * (x / 3 + y / 3);
  }

  /** `m` with vertices `v` and triangle indices `t` appended. */
  function Append(m: Mesh, v: seq<Vec>, t: seq<int>): Mesh {
    Mesh(m.vertices + v, m.tris + t, m.normals, m.uvs)
  }

  /** Two appends in a row are one append of both parts. */
  lemma AppendAppend(m: Mesh, v1: seq<Vec>, t1: seq<int>, v2: seq<Vec>, t2: seq<int>)
    ensures Append(Append(m, v1, t1), v2, t2) == Append(m, v1 + v2, t1 + t2)
  {
    assert m.vertices + v1 + v2 == m.vertices + (v1 + v2);
    assert m.tris + t1 + t2 == m.tris + (t1 + t2);
  }

  function Repeat<T>(x: T, n: nat): (r: seq<T>)
    ensures |r| == n
    ensures forall k :: 0 <= k < n ==> r[k] == x
  {
    if n == 0 then [] else Repeat(x, n - 1) + [x]
  }

  /** The closing loop of both generators: one up-normal and one placeholder
      uv per vertex present. */
  function WithPlaceholders(m: Mesh): (r: Mesh)
    ensures r.vertices == m.vertices && r.tris == m.tris
    ensures |r.normals| == |m.normals| + |m.vertices| && |r.uvs| == |m.uvs| + |m.vertices|
    ensures r.normals[..|m.normals|] == m.normals && r.uvs[..|m.uvs|] == m.uvs
    ensures forall k :: |m.normals| <= k < |r.normals| ==> r.normals[k] == Up
    ensures forall k :: |m.uvs| <= k < |r.uvs| ==> r.uvs[k] == Center
  {
    Mesh(m.vertices, m.tris, m.normals + Repeat(Up, |m.vertices|), m.uvs + Repeat(Center, |m.vertices|))
  }

  /** Filling the placeholders of a mesh that has none yet makes it well
      formed, provided its index list already is. */
  lemma PlaceholdersMakeWellFormed(m: Mesh)
    requires m.normals == [] && m.uvs == []
    requires |m.tris| % 3 == 0
    requires forall k :: 0 <= k < |m.tris| ==> 0 <= m.tris[k] < |m.vertices|
    ensures WellFormed(WithPlaceholders(m))
  {
  }

  class MeshBuffers {
    var vertices: seq<Vec>
    var tris: seq<int>
    var normals: seq<Vec>
    var uvs: seq<Vec2>

    function Value(): Mesh
      reads this
    {
      Mesh(vertices, tris, normals, uvs)
    }

    constructor ()
      ensures Value() == Empty
    {
      vertices, tris, normals, uvs := [], [], [], [];
    }

    /** The only place the buffers are emptied (the clearing half of Refresh). */
    method Clear()
      modifies this
      ensures Value() == Empty
    {
      vertices, tris, normals, uvs := [], [], [], [];
    }

    /** Appends `v`; the result is its index. */
    method AddVertex(v: Vec) returns (idx: int)
      modifies this
      ensures vertices == old(vertices) + [v]
      ensures idx == |old(vertices)| && 0 <= idx < |vertices| && vertices[idx] == v
      ensures tris == old(tris) && normals == old(normals) && uvs == old(uvs)
    {
      vertices := vertices + [v];
      idx := |vertices| - 1;
    }

    /** Appends every element of `v`, in order. */
    method AddVertices(v: array<Vec>)
      modifies this
      ensures vertices == old(vertices) + v[..]
      ensures tris == old(tris) && normals == old(normals) && uvs == old(uvs)
    {
      for i := 0 to v.Length
        invariant vertices == old(vertices) + v[..i]
        invariant tris == old(tris) && normals == old(normals) && uvs == old(uvs)
      {
        vertices := vertices + [v[i]];
        assert v[..i + 1] == v[..i] + [v[i]];
      }
      assert v[..v.Length] == v[..];
    }

    /** Appends the triangle (v1, v2, v3). */
    method AddTri(v1: int, v2: int, v3: int)
      modifies this
      ensures tris == old(tris) + [v1, v2, v3]
      ensures vertices == old(vertices) && normals == old(normals) && uvs == old(uvs)
    {
      tris := tris + [v1];
      tris := tris + [v2];
      tris := tris + [v3];
    }

    /** The closing loop of both GenerateMesh methods. */
    method AddPlaceholders()
      modifies this
      ensures Value() == WithPlaceholders(old(Value()))
    {
      ghost var n0, u0 := normals, uvs;
      for i := 0 to |vertices|
        invariant vertices == old(vertices) && tris == old(tris)
        invariant normals == n0 + Repeat(Up, i) && uvs == u0 + Repeat(Center, i)
      {
        normals := normals + [Up];
        uvs := uvs + [Center];
      }
    }
  }
}
