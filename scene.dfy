/**
 * `Scene` (engine.h:297-487): the collection of physical objects, the writer
 * that flattens it into one word buffer (`dropAllData`) and the reader that
 * walks such a buffer (`setAllData`).
 *
 * The writer keeps the source's layout except where the source is
 * evidently wrong (see the `AsWritten` module): pivot and rotation sit
 * inline after the cursor. The reader mirrors the writer.
 */
module Scenes {
  import opened Types
  import opened Layout
  import opened Cursor

  class Scene {
    var objects: seq<PhysicalObject>

    constructor ()
      ensures objects == []
    {
      objects := [];
    }

    /** `addObject` (engine.h:437-439): appends a copy; earlier objects stay where they were. */
    method AddObject(o: PhysicalObject)
      modifies this
      ensures objects == old(objects) + [o]
      ensures |objects| == |old(objects)| + 1 && objects[..|old(objects)|] == old(objects)
    {
      objects := objects + [o];
    }

    /** `physicsTick` (engine.h:441-445): ticks each object once, in order; ticks change nothing. */
    method PhysicsTick(delta: real)
      modifies this
      ensures objects == old(objects)
    {
      var i := 0;
      while i < |objects|
        invariant 0 <= i <= |objects|
        invariant objects == old(objects)
      {
        objects := objects[i := objects[i].Tick(delta)];
        i := i + 1;
      }
    }

    // -------------------------------------------------------------------
    // The writer. Each block goes to `data` from the cursor on; the words
    // before it keep their values, and so do the words after the block.

    /**
     * `writeMesh` (engine.h:353-392): the header `[v, t, v, v]`, then
     * positions, triangles, normals and UVs, the cursor advanced by
     * `4 + getSize`; no other word changes.
     */
    method WriteMesh(data: array<Word>, offset: nat, m: MeshData) returns (next: nat)
      requires MeshWritable(m) && offset + 4 + MeshSize(m) <= data.Length
      modifies data
      ensures next == offset + 4 + MeshSize(m)
      ensures data[..] == Splice(old(data[..]), offset, EncodeMesh(m))
    {
      ghost var s := data[..];
      var g := m.geometry;
      var verticesAmount: u32 := |g.vertices|;
      var trianglesAmount: u32 := |g.triangles|;
      // Written so far: `h`, from `offset` up to the cursor `next`.
      PutCount(data, offset, verticesAmount);
      ghost var h := [U(verticesAmount)];
      next := offset + 1;
      PutCount(data, next, trianglesAmount);
      SpliceSplice(s, offset, h, next, [U(trianglesAmount)]);
      h := h + [U(trianglesAmount)];
      next := next + 1;
      PutCount(data, next, verticesAmount);
      SpliceSplice(s, offset, h, next, [U(verticesAmount)]);
      h := h + [U(verticesAmount)];
      next := next + 1;
      PutCount(data, next, verticesAmount);
      SpliceSplice(s, offset, h, next, [U(verticesAmount)]);
      h := h + [U(verticesAmount)];
      next := next + 1;
      FourWords(U(verticesAmount), U(trianglesAmount), U(verticesAmount), U(verticesAmount));
      var at := next;
      next := WriteVec3s(data, at, g.vertices);
      SpliceSplice(s, offset, h, at, EncodeVec3s(g.vertices));
      h := h + EncodeVec3s(g.vertices);
      at := next;
      next := WriteVec3s(data, at, g.triangles);
      SpliceSplice(s, offset, h, at, EncodeVec3s(g.triangles));
      h := h + EncodeVec3s(g.triangles);
      at := next;
      next := WriteVec3s(data, at, m.normals);
      SpliceSplice(s, offset, h, at, EncodeVec3s(m.normals));
      h := h + EncodeVec3s(m.normals);
      at := next;
      next := WriteVec2s(data, at, m.uvs);
      SpliceSplice(s, offset, h, at, EncodeVec2s(m.uvs));
      h := h + EncodeVec2s(m.uvs);
      assert h == EncodeMesh(m);
    }

    /**
     * `writeCollider` (engine.h:394-415): `[v, t]`, positions, triangles;
     * the cursor advanced by `2 + getSize`; no other word changes.
     */
    method WriteCollider(data: array<Word>, offset: nat, c: GeometryData) returns (next: nat)
      requires Writable(c) && offset + 2 + ColliderSize(c) <= data.Length
      modifies data
      ensures next == offset + 2 + ColliderSize(c)
      ensures data[..] == Splice(old(data[..]), offset, EncodeCollider(c))
    {
      ghost var s := data[..];
      var verticesAmount: u32 := |c.vertices|;
      var trianglesAmount: u32 := |c.triangles|;
      PutCount(data, offset, verticesAmount);
      ghost var h := [U(verticesAmount)];
      next := offset + 1;
      PutCount(data, next, trianglesAmount);
      SpliceSplice(s, offset, h, next, [U(trianglesAmount)]);
      h := h + [U(trianglesAmount)];
      next := next + 1;
      TwoWords(U(verticesAmount), U(trianglesAmount));
      var at := next;
      next := WriteVec3s(data, at, c.vertices);
      SpliceSplice(s, offset, h, at, EncodeVec3s(c.vertices));
      h := h + EncodeVec3s(c.vertices);
      at := next;
      next := WriteVec3s(data, at, c.triangles);
      SpliceSplice(s, offset, h, at, EncodeVec3s(c.triangles));
      h := h + EncodeVec3s(c.triangles);
      assert h == EncodeCollider(c);
    }

    /**
     * `writeObject` (engine.h:417-433): pivot and rotation inline, then the
     * mesh and collider blocks; the cursor advanced by `getSize`; no other
     * word changes.
     */
    method WriteObject(data: array<Word>, offset: nat, o: PhysicalObject) returns (next: nat)
      requires ObjectWritable(o) && offset + ObjectSize(o) <= data.Length
      modifies data
      ensures next == offset + ObjectSize(o)
      ensures data[..] == Splice(old(data[..]), offset, EncodeObject(o))
    {
      ghost var s := data[..];
      var meshPivot, objectRotation := o.meshPivot, o.rotation;
      PutVec3(data, offset, meshPivot);
      ghost var h := [F(meshPivot.x), F(meshPivot.y), F(meshPivot.z)];
      next := offset + 3;
      PutQuat(data, next, objectRotation);
      ghost var q := [F(objectRotation.a), F(objectRotation.i), F(objectRotation.j), F(objectRotation.k)];
      SpliceSplice(s, offset, h, next, q);
      h := h + q;
      assert h == EncodePose(meshPivot, objectRotation);
      var at := next + 4;
      next := WriteMesh(data, at, o.mesh);
      SpliceSplice(s, offset, h, at, EncodeMesh(o.mesh));
      h := h + EncodeMesh(o.mesh);
      at := next;
      next := WriteCollider(data, at, o.collider);
      SpliceSplice(s, offset, h, at, EncodeCollider(o.collider));
      h := h + EncodeCollider(o.collider);
      assert h == EncodeObject(o);
    }

    /**
     * The sizing loop of `dropAllData` (engine.h:449-454): one count word
     * plus the `getSize` of every object the count word covers.
     */
    method BufferSize() returns (bufferSize: nat)
      ensures bufferSize == 1 + SumOf(ObjectSize, objects[..WrittenCount(objects)])
    {
      var objs := objects;
      var size := WrittenCount(objs);
      bufferSize := 1;
      var i := 0;
      while i < size
        invariant 0 <= i <= size
        invariant bufferSize == 1 + SumOf(ObjectSize, objs[..i])
      {
        SumOfExtend(ObjectSize, objs, i);
        bufferSize := bufferSize + ObjectSize(objs[i]);
        i := i + 1;
      }
    }

    /**
     * The writing loop of `dropAllData` (engine.h:459-466): the cursor
     * starts at word 1, after the count, and the first `size` objects go
     * one after the other from there; no other word changes.
     */
    method WriteObjects(data: array<Word>, objs: seq<PhysicalObject>, size: nat) returns (offset: nat)
      requires AllWritable(objs) && size <= |objs|
      requires 1 + SumOf(ObjectSize, objs[..size]) <= data.Length
      modifies data
      ensures AllWritable(objs[..size])
      ensures offset == 1 + SumOf(ObjectSize, objs[..size])
      ensures data[..] == Splice(old(data[..]), 1, EncodeObjects(objs[..size]))
    {
      ghost var init := data[..];
      offset := 1;
      ghost var written: seq<Word> := [];
      var i := 0;
      AllWritablePrefix(objs, 0);
      assert init[..1] + [] + init[1..] == init;
      while i < size
        invariant 0 <= i <= size
        invariant AllWritable(objs[..i])
        invariant written == EncodeObjects(objs[..i])
        invariant offset == 1 + |written| <= data.Length
        invariant data[..] == Splice(init, 1, written)
      {
        WrittenStep(objs, size, i, written);
        ghost var e := EncodeObject(objs[i]);
        var at := offset;
        offset := WriteObject(data, at, objs[i]);
        SpliceSplice(init, 1, written, at, e);
        written := written + e;
        i := i + 1;
      }
      assert i == size;
    }

    /**
     * `dropAllData` (engine.h:447-471): sizes the buffer as one count word
     * plus every object's `getSize`, then writes the count and each object.
     * The buffer holds exactly the scene's encoding, and `dataSize` is its
     * length.
     */
    method DropAllData() returns (data: array<Word>, dataSize: nat)
      requires AllWritable(objects)
      ensures fresh(data)
      ensures data[..] == EncodeScene(objects)
      ensures dataSize == data.Length == 1 + SumOf(ObjectSize, objects[..WrittenCount(objects)])
    {
      var bufferSize := BufferSize();
      var objs := objects;
      var size := WrittenCount(objs);
      // The source leaves the new words uninitialised; every one of them is written below.
      data := new Word[bufferSize](_ => U(0));
      ghost var init := data[..];
      PutCount(data, 0, size);
      var offset := WriteObjects(data, objs, size);
      SpliceSplice(init, 0, [U(size)], 1, EncodeObjects(objs[..size]));
      SpliceWhole(init, EncodeScene(objs));
      dataSize := bufferSize;
    }

    // -------------------------------------------------------------------
    // The reader, mirroring the writer. The source checks no bounds; a read
    // here demands that the block is there.

    /**
     * `loadMesh` (engine.h:301-323) with UVs read packed, as `writeMesh`
     * writes them: the four header counts, then four record runs. The
     * source fills a fresh `Mesh` through its cursor loads, which never set
     * the vertex and triangle counts (engine.h:84-102), so its result keeps
     * uninitialised counts; here the result is a `MeshData`, whose counts
     * are the lengths of the arrays read. The record runs are read directly,
     * not through the `Mesh` methods `LoadVerticesAt` ... `LoadUVsAt`.
     */
    method LoadMesh(data: seq<Word>, offset: nat) returns (m: MeshData, next: nat)
      requires DecodeMesh(data, offset).Some?
      ensures DecodeMesh(data, offset) == Some((m, next))
    {
      var verticesSize := data[offset].n;
      var trianglesSize := data[offset + 1].n;
      var normalsSize := data[offset + 2].n;
      var uvsSize := data[offset + 3].n;
      var vs, p := ReadVec3sFrom(data, offset + 4, verticesSize);
      var ts, p2 := ReadVec3sFrom(data, p, trianglesSize);
      var ns, p3 := ReadVec3sFrom(data, p2, normalsSize);
      FloatsArePairs(data, p3, uvsSize);
      var us;
      us, next := ReadVec2sFrom(data, p3, uvsSize, 2);
      m := MeshData(GeometryData(vs, ts), ns, us);
    }

    /**
     * `loadCollider` (engine.h:325-334) with the triangle count taken from
     * its own header word. As with `LoadMesh`, the source's fresh `Collider`
     * keeps uninitialised counts after its cursor loads; the result here is
     * a `GeometryData`, whose counts are the lengths of its arrays.
     */
    method LoadCollider(data: seq<Word>, offset: nat) returns (c: GeometryData, next: nat)
      requires DecodeCollider(data, offset).Some?
      ensures DecodeCollider(data, offset) == Some((c, next))
    {
      var verticesSize := data[offset].n;
      var trianglesSize := data[offset + 1].n;
      var vs, p := ReadVec3sFrom(data, offset + 2, verticesSize);
      var ts;
      ts, next := ReadVec3sFrom(data, p, trianglesSize);
      c := GeometryData(vs, ts);
    }

    /** `loadObject` (engine.h:336-351) with pivot and rotation read inline, then the mesh and collider blocks. */
    method LoadObject(data: seq<Word>, offset: nat) returns (o: PhysicalObject, next: nat)
      requires DecodeObject(data, offset).Some?
      ensures DecodeObject(data, offset) == Some((o, next))
    {
      var pivot := Vec3(data[offset].v, data[offset + 1].v, data[offset + 2].v);
      var rotation := Quat(data[offset + 3].v, data[offset + 4].v, data[offset + 5].v, data[offset + 6].v);
      var newObject := NewObject().SetMeshPivot(pivot).SetRotation(rotation);
      var mesh, p := LoadMesh(data, offset + 7);
      newObject := newObject.SetMesh(mesh);
      var collider;
      collider, next := LoadCollider(data, p);
      o := newObject.SetCollider(collider);
    }

    /**
     * `setAllData` (engine.h:474-482): reads the count at word 0 and then
     * that many objects one after another, and discards each of them: the
     * scene's objects stay as they were.
     */
    method SetAllData(data: seq<Word>)
      requires DecodeScene(data).Some?
      ensures objects == old(objects)
    {
      var objectsAmount := data[0].n;
      var offset: nat := 1;
      var i := 0;
      ghost var left: nat := objectsAmount;
      while i < objectsAmount
        invariant 0 <= i <= objectsAmount && left == objectsAmount - i
        // Compared with `true` so that the verifier does not unfold the predicate's body.
        invariant ObjectsFrom(data, offset, left) == true
      {
        var at := offset;
        offset := DropNext(data, at, left);
        i, left := i + 1, left - 1;
      }
    }

    /**
     * One pass of the loop of `setAllData` (engine.h:480-481): the next of
     * `left` readable objects is read and dropped, and the cursor moves to
     * the first of the others.
     */
    method LoadNext(data: seq<Word>, offset: nat, ghost left: nat) returns (next: nat)
      requires left > 0 && ObjectsFrom(data, offset, left)
      ensures ReadsOne(data, offset, next)
      ensures ObjectsFrom(data, next, left - 1)
    {
      ObjectsHead(data, offset, left);
      var discarded;
      discarded, next := LoadObject(data, offset);
    }

    /**
     * One pass as the loop of `setAllData` makes it: the next object is read
     * and dropped, the cursor moves to where it ends, and the objects still
     * to come stay readable from there.
     */
    method DropNext(data: seq<Word>, offset: nat, ghost left: nat) returns (next: nat)
      requires left > 0 && ObjectsFrom(data, offset, left)
      ensures ReadsOne(data, offset, next)
      ensures ObjectsFrom(data, next, left - 1)
    {
      next := LoadNext(data, offset, left);
    }

    /** `initAllData` (engine.h:484-486): the same as `setAllData`. */
    method InitAllData(data: seq<Word>)
      requires DecodeScene(data).Some?
      ensures objects == old(objects)
    {
      SetAllData(data);
    }
  }

  /**
   * One step of the writer's object loop: the words written so far plus the
   * next object are the encoding of one more object, and they fit the buffer.
   */
  lemma {:induction false} WrittenStep(objs: seq<PhysicalObject>, size: nat, i: nat, written: seq<Word>)
    requires AllWritable(objs) && i < size <= |objs|
    requires AllWritable(objs[..i]) && written == EncodeObjects(objs[..i])
    ensures ObjectWritable(objs[i]) && AllWritable(objs[..i + 1])
    ensures written + EncodeObject(objs[i]) == EncodeObjects(objs[..i + 1])
    ensures |written| + ObjectSize(objs[i]) <= SumOf(ObjectSize, objs[..size])
  {
    EncodeObjectsExtend(objs, i);
    SumOfPrefixes(ObjectSize, objs, i + 1, size);
  }

  /** The `k` objects from word `off` on can all be read, one after another. */
  ghost predicate ObjectsFrom(s: seq<Word>, off: nat, k: nat) {
    DecodeMany(DecodeObject, s, off, k).Some?
  }

  /**
   * One object can be read at `off`, and the read ends at `next`. Stated as
   * a run of one object, which is the same as one `DecodeObject`, so that a
   * loop that only carries it along need not look inside the object.
   */
  ghost predicate ReadsOne(s: seq<Word>, off: nat, next: nat) {
    var r := DecodeMany(DecodeObject, s, off, 1);
    r.Some? && r.value.1 == next
  }

  /** `ReadsOne` says exactly that `DecodeObject` succeeds at `off` and ends at `next`. */
  lemma ReadsOneIsDecodeObject(s: seq<Word>, off: nat, next: nat)
    ensures ReadsOne(s, off, next) <==> DecodeObject(s, off).Some? && DecodeObject(s, off).value.1 == next
  {
  }

  /** The first of `k > 0` readable objects is readable, and so are the `k - 1` after it. */
  lemma {:induction false} ObjectsHead(s: seq<Word>, off: nat, k: nat)
    requires k > 0 && ObjectsFrom(s, off, k)
    ensures DecodeObject(s, off).Some?
    ensures ObjectsFrom(s, DecodeObject(s, off).value.1, k - 1)
  {
  }
}
