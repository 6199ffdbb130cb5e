/**
 * The geometry objects of engine.h:73-225, whose load operations update
 * their fields in place. `Mesh` and `Collider` extend `Geometry` in the
 * source; here each holds its `Geometry` part as a constant reference.
 */
module Geometries {
  import opened Types
  import opened Layout
  import opened Cursor

  /** No component of `t` exceeds `n`: the test `loadTriangles` makes of each record (engine.h:121-131). */
  predicate TriangleWithin(t: Vec3, n: u32) {
    t.x <= n as real && t.y <= n as real && t.z <= n as real
  }

  /** Every record of `ts` passes the test. */
  predicate TrianglesWithin(ts: seq<Vec3>, n: u32) {
    forall i :: 0 <= i < |ts| ==> TriangleWithin(ts[i], n)
  }

  /**
   * Every component of `t` is the index of one of `n` vertices, `0 .. n - 1`:
   * what the error of `loadTriangles` ("referencing to point that doesnt
   * exist") says the test guards against.
   */
  predicate TriangleIndexes(t: Vec3, n: u32) {
    0.0 <= t.x < n as real && 0.0 <= t.y < n as real && 0.0 <= t.z < n as real
  }

  /** Every record of `ts` references existing vertices only. */
  predicate TrianglesIndex(ts: seq<Vec3>, n: u32) {
    forall i :: 0 <= i < |ts| ==> TriangleIndexes(ts[i], n)
  }

  /**
   * The test as written lets through a triangle that references vertex `n`
   * of `n` vertices, and one with a negative index: neither exists.
   */
  lemma {:induction false} TriangleTestOffByOne(n: u32)
    ensures TrianglesWithin([Vec3(0.0, 0.0, n as real)], n) && !TrianglesIndex([Vec3(0.0, 0.0, n as real)], n)
    ensures TrianglesWithin([Vec3(-1.0, 0.0, 0.0)], n) && !TrianglesIndex([Vec3(-1.0, 0.0, 0.0)], n)
  {
    assert !TriangleIndexes([Vec3(0.0, 0.0, n as real)][0], n);
    assert !TriangleIndexes([Vec3(-1.0, 0.0, 0.0)][0], n);
  }

  /** The intended test is stricter: whatever it accepts, the test as written accepts too. */
  lemma IndexedTrianglesWithin(ts: seq<Vec3>, n: u32)
    requires TrianglesIndex(ts, n)
    ensures TrianglesWithin(ts, n)
  {
  }

  /** `Geometry` (engine.h:73-149): the vertex and triangle arrays with their counts and flags. */
  class Geometry {
    var vertices: seq<Vec3>
    var triangles: seq<Vec3>
    var verticesAmount: u32
    var trianglesAmount: u32
    var verticesInitialized: bool
    var trianglesInitialized: bool

    /** Each count is the length of its array. */
    predicate Consistent()
      reads this
    {
      |vertices| == verticesAmount && |triangles| == trianglesAmount
    }

    /** The arrays as the writer reads them. */
    function Data(): (g: GeometryData)
      reads this
      ensures Consistent() ==> Writable(g) && |g.vertices| == verticesAmount && |g.triangles| == trianglesAmount
    {
      GeometryData(vertices, triangles)
    }

    /** An empty geometry. The source leaves the counts and flags uninitialised; here they start at zero. */
    constructor ()
      ensures vertices == [] && triangles == [] && verticesAmount == 0 && trianglesAmount == 0
      ensures !verticesInitialized && !trianglesInitialized
    {
      vertices := [];
      triangles := [];
      verticesAmount := 0;
      trianglesAmount := 0;
      verticesInitialized := false;
      trianglesInitialized := false;
    }

    /**
     * The cursor `loadVertices(data, offset, size)` (engine.h:84-92): reads
     * `size` positions from `offset` and returns the advanced cursor. As in
     * the source, the count and the flag are left as they were.
     */
    method LoadVerticesAt(data: seq<Word>, offset: nat, size: nat) returns (next: nat)
      requires FloatsAt(data, offset, 3 * size)
      modifies this
      ensures vertices == ReadVec3s(data, offset, size) && next == offset + 3 * size
      ensures triangles == old(triangles)
      ensures verticesAmount == old(verticesAmount) && trianglesAmount == old(trianglesAmount)
      ensures verticesInitialized == old(verticesInitialized) && trianglesInitialized == old(trianglesInitialized)
    {
      vertices, next := ReadVec3sFrom(data, offset, size);
    }

    /** The cursor `loadTriangles(data, offset, size)` (engine.h:94-102), likewise leaving counts and flags alone. */
    method LoadTrianglesAt(data: seq<Word>, offset: nat, size: nat) returns (next: nat)
      requires FloatsAt(data, offset, 3 * size)
      modifies this
      ensures triangles == ReadVec3s(data, offset, size) && next == offset + 3 * size
      ensures vertices == old(vertices)
      ensures verticesAmount == old(verticesAmount) && trianglesAmount == old(trianglesAmount)
      ensures verticesInitialized == old(verticesInitialized) && trianglesInitialized == old(trianglesInitialized)
    {
      triangles, next := ReadVec3sFrom(data, offset, size);
    }

    /** `loadVertices(vertices, size)` (engine.h:112-116): attaches the array and records its count. */
    method LoadVertices(vs: seq<Vec3>, size: u32)
      requires |vs| == size
      modifies this
      ensures vertices == vs && verticesAmount == size && verticesInitialized
      ensures triangles == old(triangles) && trianglesAmount == old(trianglesAmount)
      ensures trianglesInitialized == old(trianglesInitialized)
      ensures old(|triangles| == trianglesAmount) ==> Consistent()
    {
      vertices := vs;
      verticesAmount := size;
      verticesInitialized := true;
    }

    /**
     * `loadTriangles(triangles, size)` (engine.h:118-139): checks every
     * component of every record against the vertex count and throws at the
     * first one that exceeds it, changing nothing; otherwise attaches the
     * array with its count. The test is `>`, so a component equal to the
     * vertex count, or a negative one, is accepted.
     */
    method LoadTriangles(ts: seq<Vec3>, size: u32) returns (st: Status)
      requires |ts| == size
      modifies this
      ensures st.Success? <==> TrianglesWithin(ts, verticesAmount)
      ensures st.Failure? ==> st.error == TriangleReferencesMissingVertex
      ensures st.Failure? ==>
        triangles == old(triangles) && trianglesAmount == old(trianglesAmount)
        && trianglesInitialized == old(trianglesInitialized)
      ensures st.Success? ==> triangles == ts && trianglesAmount == size && trianglesInitialized
      ensures vertices == old(vertices) && verticesAmount == old(verticesAmount)
      ensures verticesInitialized == old(verticesInitialized)
      ensures old(Consistent()) ==> Consistent()
    {
      var i: nat := 0;
      while i < size
        invariant i <= size
        invariant forall k :: 0 <= k < i ==> TriangleWithin(ts[k], verticesAmount)
      {
        if ts[i].x > verticesAmount as real || ts[i].y > verticesAmount as real || ts[i].z > verticesAmount as real {
          assert !TriangleWithin(ts[i], verticesAmount);
          return Failure(TriangleReferencesMissingVertex);
        }
        i := i + 1;
      }
      triangles := ts;
      trianglesAmount := size;
      trianglesInitialized := true;
      return Success;
    }

    /**
     * `loadTriangles(triangles, size)` with the test its error message
     * describes: a component is rejected unless it is the index of an
     * existing vertex, `0 <= c < verticesAmount`. Attached triangles then
     * reference existing vertices only.
     */
    method LoadIndexedTriangles(ts: seq<Vec3>, size: u32) returns (st: Status)
      requires |ts| == size
      modifies this
      ensures st.Success? <==> TrianglesIndex(ts, verticesAmount)
      ensures st.Failure? ==> st.error == TriangleReferencesMissingVertex
      ensures st.Failure? ==>
        triangles == old(triangles) && trianglesAmount == old(trianglesAmount)
        && trianglesInitialized == old(trianglesInitialized)
      ensures st.Success? ==> triangles == ts && trianglesAmount == size && trianglesInitialized
      ensures vertices == old(vertices) && verticesAmount == old(verticesAmount)
      ensures verticesInitialized == old(verticesInitialized)
      ensures old(Consistent()) ==> Consistent()
      ensures old(TrianglesIndex(triangles, verticesAmount)) ==> TrianglesIndex(triangles, verticesAmount)
    {
      var i: nat := 0;
      while i < size
        invariant i <= size
        invariant forall k :: 0 <= k < i ==> TriangleIndexes(ts[k], verticesAmount)
      {
        if !TriangleIndexes(ts[i], verticesAmount) {
          return Failure(TriangleReferencesMissingVertex);
        }
        i := i + 1;
      }
      triangles := ts;
      trianglesAmount := size;
      trianglesInitialized := true;
      return Success;
    }
  }

  /** `Mesh` (engine.h:151-214): a `Geometry` plus one normal and one UV per vertex. */
  class Mesh {
    const geometry: Geometry
    var normals: seq<Vec3>
    var uvs: seq<Vec2>

    /** The counts match the arrays, and there are as many normals and UVs as vertices. */
    predicate Consistent()
      reads this, geometry
    {
      geometry.Consistent() && |normals| == geometry.verticesAmount && |uvs| == geometry.verticesAmount
    }

    /** The mesh as the writer reads it. */
    function Data(): (m: MeshData)
      reads this, geometry
      ensures Consistent() ==> MeshWritable(m)
    {
      MeshData(geometry.Data(), normals, uvs)
    }

    constructor ()
      ensures fresh(geometry)
      ensures geometry.vertices == [] && geometry.triangles == []
      ensures geometry.verticesAmount == 0 && geometry.trianglesAmount == 0
      ensures normals == [] && uvs == []
    {
      geometry := new Geometry();
      normals := [];
      uvs := [];
    }

    /**
     * `Mesh::getSize` (engine.h:165-176): eight words per vertex (position,
     * normal, UV) and three per triangle, from the counts. On a consistent
     * mesh it is the size of the data, and the mesh block `writeMesh` emits
     * is these words plus the four header words.
     */
    function GetSize(): (r: nat)
      reads this, geometry
      ensures Consistent() ==> r == MeshSize(Data()) && 4 + r == |EncodeMesh(Data())|
    {
      geometry.verticesAmount * 3 * 2 + geometry.verticesAmount * 2 + geometry.trianglesAmount * 3
    }

    /** The cursor `loadNormals(data, offset, size)` (engine.h:178-186): three words per record. */
    method LoadNormalsAt(data: seq<Word>, offset: nat, size: nat) returns (next: nat)
      requires FloatsAt(data, offset, 3 * size)
      modifies this
      ensures normals == ReadVec3s(data, offset, size) && next == offset + 3 * size
      ensures uvs == old(uvs)
    {
      normals, next := ReadVec3sFrom(data, offset, size);
    }

    /**
     * The cursor `loadUVs(data, offset, size)` (engine.h:188-195): UV `i` is
     * words `offset + 3i` and `offset + 3i + 1`, and the cursor advances by
     * three words per UV (the size of a `Vector3`).
     */
    method LoadUVsAt(data: seq<Word>, offset: nat, size: nat) returns (next: nat)
      requires PairsAt(data, offset, size, 3)
      modifies this
      ensures uvs == ReadVec2s(data, offset, size, 3) && next == offset + 3 * size
      ensures normals == old(normals)
    {
      uvs, next := ReadVec2sFrom(data, offset, size, 3);
    }

    /** `loadNormals(normals, size)` (engine.h:197-204): rejected unless there is one normal per vertex. */
    method LoadNormals(ns: seq<Vec3>, size: u32) returns (st: Status)
      requires |ns| == size
      modifies this
      ensures st.Success? <==> size == geometry.verticesAmount
      ensures st.Failure? ==> st.error == NormalsCountMismatch && normals == old(normals)
      ensures st.Success? ==> normals == ns
      ensures uvs == old(uvs)
      ensures old(Consistent()) ==> Consistent()
    {
      if size != geometry.verticesAmount {
        return Failure(NormalsCountMismatch);
      }
      normals := ns;
      return Success;
    }

    /** `loadUVs(UVs, size)` (engine.h:206-213): rejected unless there is one UV per vertex. */
    method LoadUVs(us: seq<Vec2>, size: u32) returns (st: Status)
      requires |us| == size
      modifies this
      ensures st.Success? <==> size == geometry.verticesAmount
      ensures st.Failure? ==> st.error == UVsCountMismatch && uvs == old(uvs)
      ensures st.Success? ==> uvs == us
      ensures normals == old(normals)
      ensures old(Consistent()) ==> Consistent()
    {
      if size != geometry.verticesAmount {
        return Failure(UVsCountMismatch);
      }
      uvs := us;
      return Success;
    }
  }

  /** `Collider` (engine.h:216-225): a `Geometry`; its centre of mass is never used. */
  class Collider {
    const geometry: Geometry

    constructor ()
      ensures fresh(geometry)
      ensures geometry.vertices == [] && geometry.triangles == []
      ensures geometry.verticesAmount == 0 && geometry.trianglesAmount == 0
    {
      geometry := new Geometry();
    }

    /**
     * `Collider::getSize` (engine.h:219-224): three words per vertex and per
     * triangle. On a consistent collider the block `writeCollider` emits is
     * these words plus the two header words.
     */
    function GetSize(): (r: nat)
      reads this, geometry
      ensures geometry.Consistent() ==> r == ColliderSize(geometry.Data()) && 2 + r == |EncodeCollider(geometry.Data())|
    {
      geometry.verticesAmount * 3 + geometry.trianglesAmount * 3
    }
  }
}
