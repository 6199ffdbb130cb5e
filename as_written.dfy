/**
 * The three places where engine.h reads or writes a block differently from
 * the layout `writeMesh`/`writeCollider` produce, modelled as the code has
 * them, each beside a lemma that exhibits the discrepancy. The rest of the
 * model uses the corrected definitions in module Layout and the methods of
 * `Scene`.
 */
module AsWritten {
  import opened Types
  import opened Layout
  import opened Cursor
  import opened Geometries

  // ---------------------------------------------------------------------
  // loadMesh: UVs read with the stride of a Vector3.

  /**
   * `loadMesh` (engine.h:301-323) as written: the four header counts, then
   * positions, triangles and normals as float triples, then the UVs through
   * `Mesh::loadUVs` (engine.h:188-195), which reads two floats per UV but
   * advances the cursor by three words.
   */
  function DecodeMeshAsWritten(s: seq<Word>, off: nat): (r: Option<(MeshData, nat)>)
    ensures r.Some? ==> CountPairAt(s, off) && CountPairAt(s, off + 2) && r.value.1 <= |s| + 1
    ensures r.Some? ==>
      var m := r.value.0;
      |m.geometry.vertices| == s[off].n && |m.geometry.triangles| == s[off + 1].n &&
      |m.normals| == s[off + 2].n && |m.uvs| == s[off + 3].n &&
      r.value.1 == off + 4 + 3 * (s[off].n + s[off + 1].n + s[off + 2].n + s[off + 3].n)
  {
    if !(CountPairAt(s, off) && CountPairAt(s, off + 2)) then None
    else
      match DecodeVec3s(s, off + 4, s[off].n)
      case None => None
      case Some((vs, pt)) =>
        match DecodeVec3s(s, pt, s[off + 1].n)
        case None => None
        case Some((ts, pn)) =>
          match DecodeVec3s(s, pn, s[off + 2].n)
          case None => None
          case Some((ns, pu)) =>
            var n := s[off + 3].n;
            if !PairsAt(s, pu, n, 3) then None
            else
              assert n > 0 ==> pu + 3 * (n - 1) + 1 < |s|;
              Some((MeshData(GeometryData(vs, ts), ns, ReadVec2s(s, pu, n, 3)), pu + 3 * n))
  }

  /**
   * Reading back a written mesh with at least one vertex never ends where
   * the block ends: the cursor overshoots by one word per UV.
   */
  lemma {:induction false} MeshAsWrittenOvershoots(s: seq<Word>, off: nat, m: MeshData)
    requires MeshWritable(m) && At(s, off, EncodeMesh(m)) && |m.geometry.vertices| > 0
    ensures DecodeMeshAsWritten(s, off) != Some((m, off + 4 + MeshSize(m)))
  {
    HeaderWords(s, off, m);
  }

  /**
   * A buffer holding just one written mesh with two or more vertices cannot
   * be read back at all: the last UVs are looked for past its end.
   */
  lemma {:induction false} MeshAsWrittenOverruns(s: seq<Word>, off: nat, m: MeshData)
    requires MeshWritable(m) && At(s, off, EncodeMesh(m)) && |s| == off + 4 + MeshSize(m)
    requires |m.geometry.vertices| >= 2
    ensures DecodeMeshAsWritten(s, off) == None
  {
    HeaderWords(s, off, m);
  }

  /** The four header words of a written mesh block. */
  lemma {:induction false} HeaderWords(s: seq<Word>, off: nat, m: MeshData)
    requires MeshWritable(m) && At(s, off, EncodeMesh(m))
    ensures off + 3 < |s| && s[off] == U(|m.geometry.vertices|) && s[off + 1] == U(|m.geometry.triangles|)
    ensures s[off + 2] == U(|m.geometry.vertices|) && s[off + 3] == U(|m.geometry.vertices|)
  {
    var e := EncodeMesh(m);
    assert e[..4] == MeshHeader(m);
    AtIndex(s, off, e, 0);
    AtIndex(s, off, e, 1);
    AtIndex(s, off, e, 2);
    AtIndex(s, off, e, 3);
  }

  // ---------------------------------------------------------------------
  // loadCollider: the triangle run read with the vertex count.

  /**
   * `loadCollider` (engine.h:325-334) as written: both header counts are
   * read, but the triangle run is read with the vertex count (line 332).
   */
  function DecodeColliderAsWritten(s: seq<Word>, off: nat): (r: Option<(GeometryData, nat)>)
    ensures r.Some? ==> CountPairAt(s, off) && r.value.1 <= |s|
    ensures r.Some? ==>
      |r.value.0.vertices| == s[off].n && |r.value.0.triangles| == s[off].n &&
      r.value.1 == off + 2 + 6 * s[off].n
  {
    if !CountPairAt(s, off) then None
    else
      match DecodeVec3s(s, off + 2, s[off].n)
      case None => None
      case Some((vs, pt)) =>
        match DecodeVec3s(s, pt, s[off].n)
        case None => None
        case Some((ts, end)) => Some((GeometryData(vs, ts), end))
  }

  /** A written collider whose triangle count differs from its vertex count does not read back. */
  lemma {:induction false} ColliderAsWrittenMisreads(s: seq<Word>, off: nat, c: GeometryData)
    requires Writable(c) && At(s, off, EncodeCollider(c)) && |c.triangles| != |c.vertices|
    ensures DecodeColliderAsWritten(s, off) != Some((c, off + 2 + ColliderSize(c)))
  {
    var e := EncodeCollider(c);
    AtIndex(s, off, e, 0);
  }

  /** Where the two header counts agree, the code as written reads what the corrected reader reads. */
  lemma {:induction false} ColliderAsWrittenAgrees(s: seq<Word>, off: nat)
    requires CountPairAt(s, off) && s[off] == s[off + 1]
    ensures DecodeColliderAsWritten(s, off) == DecodeCollider(s, off)
  {
  }

  // ---------------------------------------------------------------------
  // writeObject: pivot and rotation stored through scaled pointers.

  /**
   * `writeObject` (engine.h:417-433) as written. The pivot is stored as
   * element `offset` of a `Vector3` array, i.e. at word `3 * offset`
   * (line 421); the cursor moves on by three words, and the rotation is
   * stored as element `offset` of a `Quaternion` array, at word
   * `4 * offset` (line 425). The mesh and collider blocks then go where
   * the cursor says, from `offset + 7` on. None when a store falls outside
   * the buffer (undefined behaviour in the source).
   */
  function WriteObjectAsWritten(buf: seq<Word>, off: nat, o: PhysicalObject): (r: Option<seq<Word>>)
    requires ObjectWritable(o)
    ensures r.Some? <==> 3 * off + 3 <= |buf| && 4 * (off + 3) + 4 <= |buf| && off + ObjectSize(o) <= |buf|
    ensures r.Some? ==> |r.value| == |buf|
  {
    var p, q := o.meshPivot, o.rotation;
    var meshAt := off + 7;
    var colliderAt := meshAt + 4 + MeshSize(o.mesh);
    if 3 * off + 3 <= |buf| && 4 * (off + 3) + 4 <= |buf| && off + ObjectSize(o) <= |buf| then
      var b1 := Splice(buf, 3 * off, [F(p.x), F(p.y), F(p.z)]);
      var b2 := Splice(b1, 4 * (off + 3), [F(q.a), F(q.i), F(q.j), F(q.k)]);
      var b3 := Splice(b2, meshAt, EncodeMesh(o.mesh));
      Some(Splice(b3, colliderAt, EncodeCollider(o.collider)))
    else
      None
  }

  /**
   * For the first object of a buffer (cursor 1) the pivot lands two words
   * late: word 3, where the reader expects the pivot's `z`, holds its `x`,
   * so the object does not read back unless those two components agree.
   */
  lemma {:induction false} PoseAsWrittenMisplaced(buf: seq<Word>, o: PhysicalObject)
    requires ObjectWritable(o) && 20 <= |buf| && 1 + ObjectSize(o) <= |buf|
    requires o.meshPivot.x != o.meshPivot.z
    ensures WriteObjectAsWritten(buf, 1, o).Some?
    ensures WriteObjectAsWritten(buf, 1, o).value[3] == F(o.meshPivot.x)
    ensures DecodeObject(WriteObjectAsWritten(buf, 1, o).value, 1) != Some((o, 1 + ObjectSize(o)))
  {
    PivotWord(buf, o);
  }

  /** Word 3 after the as-written store of the first object. */
  lemma {:induction false} PivotWord(buf: seq<Word>, o: PhysicalObject)
    requires ObjectWritable(o) && 20 <= |buf| && 1 + ObjectSize(o) <= |buf|
    ensures WriteObjectAsWritten(buf, 1, o).Some?
    ensures WriteObjectAsWritten(buf, 1, o).value[3] == F(o.meshPivot.x)
  {
    var p, q := o.meshPivot, o.rotation;
    var b1 := Splice(buf, 3, [F(p.x), F(p.y), F(p.z)]);
    assert b1[3] == F(p.x);
    var b2 := Splice(b1, 16, [F(q.a), F(q.i), F(q.j), F(q.k)]);
    assert b2[3] == b1[3];
    var b3 := Splice(b2, 8, EncodeMesh(o.mesh));
    assert b3[3] == b2[3];
    var b4 := Splice(b3, 8 + 4 + MeshSize(o.mesh), EncodeCollider(o.collider));
    assert b4[3] == b3[3];
  }

  // ---------------------------------------------------------------------
  // The object the test entry point builds (interface.h:16-67).

  /**
   * The object `tester` adds to the scene: a one-triangle mesh and collider
   * over three vertices, zero normals, pivot (1, 2, 3), rotation (0, 1, 0, 0).
   * It takes 52 words, and its triangles pass both the test `loadTriangles`
   * makes and the intended one (`TrianglesIndex`).
   */
  function Fixture(): (o: PhysicalObject)
    ensures ObjectWritable(o) && ObjectSize(o) == 52
    ensures |o.mesh.geometry.vertices| == 3 && |o.collider.vertices| == 3 && |o.collider.triangles| == 1
    ensures o.meshPivot.x != o.meshPivot.z
    ensures TrianglesWithin(o.mesh.geometry.triangles, 3) && TrianglesWithin(o.collider.triangles, 3)
    ensures TrianglesIndex(o.mesh.geometry.triangles, 3) && TrianglesIndex(o.collider.triangles, 3)
  {
    var vertices := [Vec3(0.0, 0.0, 0.0), Vec3(0.0, 1.0, 0.0), Vec3(1.0, 1.0, 0.0)];
    var triangles := [Vec3(0.0, 1.0, 2.0)];
    var uvs := [Vec2(0.0, 0.0), Vec2(0.0, 1.0), Vec2(1.0, 1.0)];
    var normals := [Vec3(0.0, 0.0, 0.0), Vec3(0.0, 0.0, 0.0), Vec3(0.0, 0.0, 0.0)];
    var g := GeometryData(vertices, triangles);
    PhysicalObject(MeshData(g, normals, uvs), g, Vec3(1.0, 2.0, 3.0), Quat(0.0, 1.0, 0.0, 0.0))
  }

  /** The one-object scene `tester` builds is 53 words long and reads back as written by the corrected codec. */
  lemma {:induction false} FixtureScene()
    ensures |EncodeScene([Fixture()])| == 53
    ensures DecodeScene(EncodeScene([Fixture()])) == Some([Fixture()])
  {
    var objs := [Fixture()];
    assert AllWritable(objs[1..]);
    SceneRoundTrip(objs);
    assert objs[..1] == objs;
    assert SumOf(ObjectSize, objs[1..]) == 0;
  }

  /** Written as the source writes it, the tester's object does not read back, and a second copy in the same buffer is stored out of bounds. */
  lemma {:induction false} FixtureAsWritten(buf: seq<Word>, twice: seq<Word>)
    requires |buf| == 53 && |twice| == 105
    ensures DecodeObject(WriteObjectAsWritten(buf, 1, Fixture()).value, 1) != Some((Fixture(), 53))
    ensures WriteObjectAsWritten(twice, 53, Fixture()) == None
  {
    PoseAsWrittenMisplaced(buf, Fixture());
  }
}
