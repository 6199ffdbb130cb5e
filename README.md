# UnityConnect physics engine: the scene buffer codec

This project is a Dafny model of the core of `engine.h` in the UnityConnect
physics engine. The engine keeps a `Scene` of `PhysicalObject`s. Each object
holds:

- a render `Mesh`: vertex positions, triangles, per-vertex normals and UVs;
- a `Collider` geometry;
- a mesh pivot and a rotation.

The scene exchanges its contents with the host as one flat buffer of 32-bit
words:

- `dropAllData` sizes the buffer from the `getSize` word counts. It then
  writes an object count followed by each object through the `write*`
  methods, advancing an `int& offset` cursor.
- `setAllData` walks such a buffer with the `load*` methods.

## The model

- `types.dfy` (module `Types`):
  - the value records `Vector2`, `Vector3` and `Quaternion`;
  - a buffer `Word`, tagged with the view it was stored through: a
    `uint32_t` count (`U`) or a `float` component (`F`);
  - the exceptions of the attach operations, as a `Status`.
- `layout.dfy` (module `Layout`):
  - the object data as values (`GeometryData`, `MeshData`,
    `PhysicalObject`) and the `PhysicalObject` setters;
  - the `getSize` word counts;
  - the words each writer emits (`EncodeMesh`, `EncodeCollider`,
    `EncodeObject`, `EncodeScene`);
  - a decoder that mirrors the writer (`DecodeMesh`, `DecodeCollider`,
    `DecodeObject`, `DecodeScene`), with the round-trip lemmas that
    connect the two.
- `cursor.dfy` (module `Cursor`): the record loops every `load*` and
  `write*` repeats, as methods with loop invariants. Writers work on an
  `array<Word>` and are specified by `Splice`: the block is written at the
  cursor and every other word keeps its value.
- `geometry.dfy` (module `Geometries`): the classes `Geometry`, `Mesh` and
  `Collider`. Their fields are updated in place by the cursor loads and by
  the validating attach operations `loadVertices`, `loadTriangles`,
  `loadNormals` and `loadUVs`.
- `scene.dfy` (module `Scenes`): the class `Scene`, with:
  - `addObject` and `physicsTick`;
  - the writer (`writeMesh`, `writeCollider`, `writeObject`,
    `dropAllData`), each proved to produce exactly the encoding of its
    block and to advance the cursor by its size;
  - the reader (`loadMesh`, `loadCollider`, `loadObject`, `setAllData`),
    proved to read exactly what the mirrored decoder reads; each pass of
    the `setAllData` loop reads the next object and leaves the cursor
    where that object ends.
- `as_written.dfy` (module `AsWritten`): the reader and writer code that
  disagrees with the layout, modelled as it stands, with lemmas that
  exhibit each discrepancy (see "Findings"). It also holds the object that
  the test entry point of `interface.h` builds.

Notes on how the model reads the code:

- **The triangle check.** `loadTriangles` compares each triangle component
  with `>` against the vertex count. A component equal to the count, or a
  negative one, is therefore accepted, although neither is a vertex.
  `Geometry.LoadTriangles` keeps `>`; `Geometry.LoadIndexedTriangles` is
  the check its error message describes (see "Findings").
- **Cursor loads.** The cursor loads `loadVertices(data, offset, size)` and
  the like leave the count fields and the initialised flags as they were.
- **Counts start at 0.** The source leaves the counts and flags of a new
  `Geometry` uninitialised; here they start at zero and false.
- **The reader's buffer.** The readers take the buffer as an immutable word
  sequence, because they never write it. The writers take an `array<Word>`.
- **Collider.** A `Collider` is a `Geometry` whose centre of mass is never
  used. Its data is therefore a `GeometryData`.
- **The mirrored reader.** `Scene.LoadMesh`, `Scene.LoadCollider` and
  `Scene.LoadObject` read the layout the writer produces. They differ from
  the source in four ways:
  - UVs are read packed two words apart;
  - the collider's triangle count is taken from its own header word;
  - pivot and rotation are read inline;
  - the result carries counts. The source fills a fresh `Mesh` or
    `Collider` only through the cursor loads, which never set the vertex
    and triangle counts, so the object it decodes keeps uninitialised
    counts. Here the result is a `MeshData` or `GeometryData`, whose
    counts are the lengths of the arrays read.

  They read the record runs directly rather than through the cursor
  methods of the `Mesh` class (`LoadVerticesAt` ... `LoadUVsAt`), which
  model the source's loads as written. The as-written readers live in
  `AsWritten`.
- **Word 0 wraps.** `dropAllData` stores `objects.size()` in a `uint32_t`.
  The count word is therefore `|objects| mod 2^32` (`WrittenCount`), and
  only that many objects are sized and written.

## Model

| member | source | states |
|---|---|---|
| Layout.PhysicalObject.SetMesh | PhysicsEngine/PhysicsEngine/engine.h:259-261 | the object's mesh becomes the given one; collider, pivot and rotation are unchanged |
| Layout.PhysicalObject.SetCollider | PhysicsEngine/PhysicsEngine/engine.h:267-269 | the collider becomes the given one; every other part is unchanged |
| Layout.PhysicalObject.SetMeshPivot | PhysicsEngine/PhysicsEngine/engine.h:275-279 | the pivot becomes the given vector; every other part is unchanged |
| Layout.PhysicalObject.SetRotation | PhysicsEngine/PhysicsEngine/engine.h:285-290 | the rotation becomes the given quaternion; every other part is unchanged |
| Layout.PhysicalObject.Tick | PhysicsEngine/PhysicsEngine/engine.h:235-237 | a tick leaves the object exactly as it was, whatever the delta |
| Layout.EncodeMesh | PhysicsEngine/PhysicsEngine/engine.h:353-392 | the mesh block is 4 header words plus `Mesh::getSize` words |
| Layout.EncodeCollider | PhysicsEngine/PhysicsEngine/engine.h:394-415 | the collider block is 2 header words plus `Collider::getSize` words |
| Layout.EncodeObject | PhysicsEngine/PhysicsEngine/engine.h:417-433 | an object's block is exactly `PhysicalObject::getSize` words long |
| Layout.EncodePose | PhysicsEngine/PhysicsEngine/engine.h:419-426 | the pose is seven words, pivot then rotation, at the cursor the offset arithmetic of lines 422 and 426 assumes |
| Layout.NewObject | PhysicsEngine/PhysicsEngine/engine.h:227-232 | a default object can be written and takes just the 13 pose and header words |
| Layout.MeshSize | PhysicsEngine/PhysicsEngine/engine.h:165-176 | on a writable mesh, `getSize` counts exactly the words of the four record runs `writeMesh` emits |
| Layout.ColliderSize | PhysicsEngine/PhysicsEngine/engine.h:219-224 | `getSize` counts exactly the words of the two record runs `writeCollider` emits |
| Layout.ObjectSize | PhysicsEngine/PhysicsEngine/engine.h:239-249 | on a writable object, `getSize` counts exactly the pose words, the mesh block and the collider block `writeObject` emits |
| Layout.EncodeObjects | PhysicsEngine/PhysicsEngine/engine.h:459-466 | the objects written one after another take the sum of their sizes |
| Layout.EncodeScene | PhysicsEngine/PhysicsEngine/engine.h:447-471 | the buffer is one count word plus the sizes of the written objects; word 0 is the count, `objects.size()` truncated to 32 bits |
| Layout.WrittenCount | PhysicsEngine/PhysicsEngine/engine.h:450 | the count word is the number of objects when it fits 32 bits, and never more than it |
| Layout.EmptyScene | PhysicsEngine/PhysicsEngine/engine.h:447-471 | an empty scene yields the one-word buffer `[0]` |
| Layout.EncodeObjectsAppend | PhysicsEngine/PhysicsEngine/engine.h:459-466 | writing a split collection is writing its two parts back to back |
| Layout.EncodeObjectsExtend | PhysicsEngine/PhysicsEngine/engine.h:459-466 | one more object adds its own block and its own size after the prefix's |
| Layout.SumOfAppend | PhysicsEngine/PhysicsEngine/engine.h:449-454 | the sizes summed by the sizing loop add up over any split of the objects |
| Layout.AllWritableIff | PhysicsEngine/PhysicsEngine/engine.h:459-466 | the collection is writable exactly when each of its objects is |
| Layout.ReadVec3s | PhysicsEngine/PhysicsEngine/engine.h:84-102 | a cursor load of `count` triples yields exactly `count` records |
| Layout.ReadVec3sAt | PhysicsEngine/PhysicsEngine/engine.h:84-92 | record `i` of a triple load is words `start+3i` to `start+3i+2` |
| Layout.ReadVec2sAt | PhysicsEngine/PhysicsEngine/engine.h:188-195 | UV `i` of a load with stride `k` is words `start+k*i` and `start+k*i+1` |
| Layout.DecodePose | PhysicsEngine/PhysicsEngine/engine.h:336-345 | pivot and rotation, read inline where the writer's cursor puts them, are read exactly when those seven words are floats |
| Layout.DecodeMesh | PhysicsEngine/PhysicsEngine/engine.h:301-323 | a successful read has the array lengths its four header words give, and ends `4 + 3(v+t+n) + 2u` words on, inside the buffer |
| Layout.DecodeCollider | PhysicsEngine/PhysicsEngine/engine.h:325-334 | a successful read has the lengths its two header words give, and ends `2 + Collider::getSize` words on, inside the buffer |
| Layout.DecodeObject | PhysicsEngine/PhysicsEngine/engine.h:336-351 | a successful read takes at least the 13 pose and header words and stays inside the buffer |
| Layout.DecodeMany | PhysicsEngine/PhysicsEngine/engine.h:474-482 | reading `count` items in turn yields `count` items |
| Layout.DecodeScene | PhysicsEngine/PhysicsEngine/engine.h:474-482 | a readable buffer starts with a count word, and as many objects as it says are read |
| Layout.Vec3sRoundTrip | PhysicsEngine/PhysicsEngine/engine.h:365-385 | triples written by the writer's `Vector3` loops read back, and the cursor ends right after them |
| Layout.Vec2sRoundTrip | PhysicsEngine/PhysicsEngine/engine.h:386-391 | UVs written two words apart read back when read two words apart |
| Layout.MeshRoundTrip | PhysicsEngine/PhysicsEngine/engine.h:301-323 | reading a written mesh block gives the mesh back and ends right after the block |
| Layout.MeshWordsAt | PhysicsEngine/PhysicsEngine/engine.h:356-363 | the header words of a written mesh are `[v, t, v, v]`, in the order `loadMesh` reads them, and the four arrays follow in order |
| Layout.ColliderRoundTrip | PhysicsEngine/PhysicsEngine/engine.h:394-415 | reading a written collider block gives the collider back and ends right after the block |
| Layout.PoseRoundTrip | PhysicsEngine/PhysicsEngine/engine.h:417-426 | the seven inline pose words read back as the pivot and rotation |
| Layout.ObjectRoundTrip | PhysicsEngine/PhysicsEngine/engine.h:336-351 | reading a written object gives it back and consumes exactly `getSize` words |
| Layout.ObjectsRoundTrip | PhysicsEngine/PhysicsEngine/engine.h:474-482 | reading as many objects as were written gives them back in order and stops after the last |
| Layout.SceneRoundTrip | PhysicsEngine/PhysicsEngine/engine.h:447-482 | reading what `dropAllData` writes gives back every object, in order (the first `n mod 2^32` once the count wraps) |
| Geometries.Geometry.LoadVerticesAt | PhysicsEngine/PhysicsEngine/engine.h:84-92 | the positions become the `size` triples at the cursor, the cursor advances `3*size`, and counts and flags are unchanged |
| Geometries.Geometry.LoadTrianglesAt | PhysicsEngine/PhysicsEngine/engine.h:94-102 | the triangles become the `size` triples at the cursor, the cursor advances `3*size`, and counts and flags are unchanged |
| Geometries.Geometry.LoadVertices | PhysicsEngine/PhysicsEngine/engine.h:112-116 | the array is attached with its count and the flag is set; the triangle fields are untouched |
| Geometries.Geometry.LoadTriangles | PhysicsEngine/PhysicsEngine/engine.h:118-139 | it succeeds exactly when no component exceeds the vertex count; on failure nothing changes, on success array, count and flag are committed |
| Geometries.Geometry.Data | PhysicsEngine/PhysicsEngine/engine.h:141-148 | on a consistent geometry the arrays are as long as the counts kept beside them |
| Geometries.Geometry.constructor | PhysicsEngine/PhysicsEngine/engine.h:141-148 | a new geometry has no arrays, zero counts and cleared flags (the source leaves them uninitialised) |
| Geometries.Mesh.constructor | PhysicsEngine/PhysicsEngine/engine.h:151-153 | a new mesh has an empty geometry and no normals or UVs |
| Geometries.Collider.constructor | PhysicsEngine/PhysicsEngine/engine.h:216-217 | a new collider has an empty geometry |
| Geometries.TriangleWithin | PhysicsEngine/PhysicsEngine/engine.h:121-131 | the test `loadTriangles` makes of one record: no component exceeds the vertex count |
| Geometries.TrianglesWithin | PhysicsEngine/PhysicsEngine/engine.h:120-132 | every record passes that test |
| Geometries.TrianglesIndex | PhysicsEngine/PhysicsEngine/engine.h:123 | every component of every record is the index of an existing vertex, as the error message promises |
| Geometries.TriangleTestOffByOne | PhysicsEngine/PhysicsEngine/engine.h:121-131 | for any vertex count `n`, the test as written accepts a triangle referencing vertex `n`, and one with a negative index, though neither exists |
| Geometries.IndexedTrianglesWithin | PhysicsEngine/PhysicsEngine/engine.h:121-131 | the intended test is stricter: everything it accepts the written test accepts too |
| Geometries.Geometry.LoadIndexedTriangles | PhysicsEngine/PhysicsEngine/engine.h:118-139 | the check as intended: succeeds exactly when every component is an existing vertex index; failure changes nothing; attached triangles keep referencing existing vertices |
| Geometries.Mesh.GetSize | PhysicsEngine/PhysicsEngine/engine.h:165-176 | `8v + 3t` words, the size of the mesh data, and with the 4 header words the length of the block `writeMesh` emits |
| Geometries.Mesh.LoadNormalsAt | PhysicsEngine/PhysicsEngine/engine.h:178-186 | the normals become the `size` triples at the cursor, which advances `3*size`; the UVs are untouched |
| Geometries.Mesh.LoadUVsAt | PhysicsEngine/PhysicsEngine/engine.h:188-195 | UV `i` is read from words `offset+3i` and the next one, and the cursor advances `3*size` |
| Geometries.Mesh.LoadNormals | PhysicsEngine/PhysicsEngine/engine.h:197-204 | it succeeds exactly when the count equals the vertex count; on failure the normals are unchanged |
| Geometries.Mesh.LoadUVs | PhysicsEngine/PhysicsEngine/engine.h:206-213 | it succeeds exactly when the count equals the vertex count; on failure the UVs are unchanged |
| Geometries.Mesh.Data | PhysicsEngine/PhysicsEngine/engine.h:151-163 | a consistent mesh has one normal and one UV per vertex, so the writer can emit it |
| Geometries.Collider.GetSize | PhysicsEngine/PhysicsEngine/engine.h:219-224 | `3v + 3t` words, and with the 2 header words the length of the block `writeCollider` emits |
| Cursor.ReadVec3sFrom | PhysicsEngine/PhysicsEngine/engine.h:84-102 | the cursor loop reads exactly the `size` triples at the cursor and ends `3*size` words on |
| Cursor.ReadVec2sFrom | PhysicsEngine/PhysicsEngine/engine.h:188-195 | the UV loop reads the `size` pairs one stride apart and ends `stride*size` words on |
| Cursor.WriteVec3s | PhysicsEngine/PhysicsEngine/engine.h:365-385 | the triples are written at the cursor, which advances `3*|vs|`; no other word changes |
| Cursor.WriteVec2s | PhysicsEngine/PhysicsEngine/engine.h:386-391 | the UVs are written packed at the cursor, which advances `2*|uvs|`; no other word changes |
| Cursor.PutCount | PhysicsEngine/PhysicsEngine/engine.h:356-363 | one count word is stored at the cursor; no other word changes |
| Cursor.PutVec3 | PhysicsEngine/PhysicsEngine/engine.h:419-422 | the pivot is stored as three float words at the cursor, inline; no other word changes |
| Cursor.PutVec2 | PhysicsEngine/PhysicsEngine/engine.h:388-389 | one UV is stored as two float words at the cursor, packed; no other word changes |
| Cursor.PutQuat | PhysicsEngine/PhysicsEngine/engine.h:424-426 | the rotation is stored as four float words at the cursor, inline; no other word changes |
| Scenes.Scene.constructor | PhysicsEngine/PhysicsEngine/engine.h:296-298 | a new scene has no objects |
| Scenes.Scene.AddObject | PhysicsEngine/PhysicsEngine/engine.h:437-439 | the object is appended and the earlier objects stay where they were |
| Scenes.Scene.PhysicsTick | PhysicsEngine/PhysicsEngine/engine.h:441-445 | ticking every object once, in order, leaves the objects as they were |
| Scenes.Scene.WriteMesh | PhysicsEngine/PhysicsEngine/engine.h:353-392 | the buffer holds the mesh block at the cursor and is unchanged elsewhere; the cursor advances `4 + getSize` |
| Scenes.Scene.WriteCollider | PhysicsEngine/PhysicsEngine/engine.h:394-415 | the buffer holds the collider block at the cursor and is unchanged elsewhere; the cursor advances `2 + getSize` |
| Scenes.Scene.WriteObject | PhysicsEngine/PhysicsEngine/engine.h:417-433 | the buffer holds the object block, with the pose inline, and is unchanged elsewhere; the cursor advances `getSize` |
| Scenes.Scene.BufferSize | PhysicsEngine/PhysicsEngine/engine.h:449-454 | the sizing loop yields one word plus the `getSize` of every counted object |
| Scenes.Scene.WriteObjects | PhysicsEngine/PhysicsEngine/engine.h:459-466 | from word 1 on the buffer holds the counted objects one after another, and the cursor ends at the buffer size |
| Scenes.WrittenStep | PhysicsEngine/PhysicsEngine/engine.h:459-466 | one more object extends what has been written by its own block and still fits the allocation |
| Scenes.Scene.DropAllData | PhysicsEngine/PhysicsEngine/engine.h:447-471 | the fresh buffer holds exactly the scene's encoding, and `dataSize` is its length, `1 + Σ getSize` |
| Scenes.Scene.LoadMesh | PhysicsEngine/PhysicsEngine/engine.h:301-323 | reads the mesh the mirrored decoder reads and ends where it ends |
| Scenes.Scene.LoadCollider | PhysicsEngine/PhysicsEngine/engine.h:325-334 | reads the collider the mirrored decoder reads and ends where it ends |
| Scenes.Scene.LoadObject | PhysicsEngine/PhysicsEngine/engine.h:336-351 | reads the object the mirrored decoder reads and ends where it ends |
| Scenes.ObjectsHead | PhysicsEngine/PhysicsEngine/engine.h:479-481 | of `k > 0` readable objects the first is readable, and the other `k - 1` are readable after it |
| Scenes.Scene.LoadNext | PhysicsEngine/PhysicsEngine/engine.h:480-481 | one pass of the loop reads the next object and moves the cursor to where that object ends, from which the ones still to come stay readable |
| Scenes.Scene.DropNext | PhysicsEngine/PhysicsEngine/engine.h:480-481 | one pass as the loop calls it: the next object is read and dropped, the new cursor is where that object ends, and the objects still to come stay readable from there |
| Scenes.ReadsOneIsDecodeObject | PhysicsEngine/PhysicsEngine/engine.h:480-481 | the per-pass promise of `LoadNext` and `DropNext` is exactly one successful object read ending at the new cursor, in both directions |
| Scenes.Scene.SetAllData | PhysicsEngine/PhysicsEngine/engine.h:474-482 | every object the count word announces is read in turn, and the scene's objects stay as they were |
| Scenes.Scene.InitAllData | PhysicsEngine/PhysicsEngine/engine.h:484-486 | the same as `setAllData` |
| AsWritten.DecodeMeshAsWritten | PhysicsEngine/PhysicsEngine/engine.h:188-195 | the mesh read as the code has it: UV lengths from the header, and the cursor ends three words on per UV |
| AsWritten.MeshAsWrittenOvershoots | PhysicsEngine/PhysicsEngine/engine.h:193 | a written mesh with at least one vertex never reads back as itself, ending at the block's end |
| AsWritten.MeshAsWrittenOverruns | PhysicsEngine/PhysicsEngine/engine.h:188-195 | a buffer holding one mesh with two or more vertices cannot be read at all: the last UVs lie past its end |
| AsWritten.DecodeColliderAsWritten | PhysicsEngine/PhysicsEngine/engine.h:325-334 | a successful read has as many triangles as vertices, whatever the triangle header word says |
| AsWritten.ColliderAsWrittenMisreads | PhysicsEngine/PhysicsEngine/engine.h:332 | a written collider whose triangle and vertex counts differ does not read back |
| AsWritten.ColliderAsWrittenAgrees | PhysicsEngine/PhysicsEngine/engine.h:325-334 | where the two header counts agree, the code as written reads what the corrected reader reads |
| AsWritten.WriteObjectAsWritten | PhysicsEngine/PhysicsEngine/engine.h:417-433 | the object stored with the pivot at word `3*offset` and the rotation at `4*(offset+3)`: defined exactly when every store is inside the buffer, and the buffer keeps its length |
| AsWritten.PoseAsWrittenMisplaced | PhysicsEngine/PhysicsEngine/engine.h:421 | for the first object, word 3 holds the pivot's `x`, so the object does not read back unless `x == z` |
| AsWritten.Fixture | PhysicsEngine/PhysicsEngine/interface.h:20-59 | the tester's object is writable, takes 52 words, and its triangles pass both the written and the intended triangle test |
| AsWritten.FixtureScene | PhysicsEngine/PhysicsEngine/interface.h:16-62 | the tester's scene is 53 words long and reads back with the corrected codec |
| AsWritten.FixtureAsWritten | PhysicsEngine/PhysicsEngine/engine.h:421-425 | written as the code has it, the tester's object does not read back, and a second copy would be stored past the end of its 105-word buffer |

## Left out

- Fixed-width integers beyond the count word. The `int` cursor, `int` loop
  counters and `size_t` sizes are unbounded here. The model does not capture
  an `int` offset overflowing, or an `int dataSize` truncating a `size_t`
  buffer size. Every vertex and triangle count is below 2^32, as the
  `unsigned int` fields require.
- Float numerics. Components are `real` values that are only copied. NaN,
  infinities, rounding and the `float`-to-`unsigned` comparison in
  `loadTriangles` are not modelled. The comparison is taken on the values.
- Bit reinterpretation. The source reads every word through both a
  `uint32_t*` and a `float*` view. Here a word keeps the view it was
  stored through, and a read through the other view fails.
- The pivot and rotation reads of `loadObject` (engine.h:339-344). They
  treat a buffer word as an address and dereference it, which has no
  meaning in this model. The reader reads them inline instead, as the
  writer's cursor arithmetic implies.
- Out-of-bounds access. The source checks no bounds. The writers require
  the block to fit the buffer, and the readers return no result, or
  require that the block is there.
- Memory ownership. This covers the `new[]` arrays that are never freed,
  the arrays attached by pointer in `loadVertices`/`loadTriangles`, and
  the pointer-returning getters. Arrays are values here.
- Uninitialised memory. `dropAllData` leaves the new words uninitialised;
  the model fills them with a placeholder that is overwritten before the
  buffer is returned.
- `GameObject` identifiers and their static counter, the `Tickable`
  virtual dispatch, `Color`, and the collider's `centerOfMass`. None of
  them takes part in the codec.
- The C-linkage wrappers and the global scene of `interface.h`, and the
  static call counter of `tester`. Only the object `tester` builds is
  modelled, as `AsWritten.Fixture`.
- Scenes.Scene.SetAllData: the objects it reads are discarded, as in the
  source. Its contract states the objects are unchanged and requires that
  the whole buffer is readable; it does not return what was read.

## Findings

| source | as written | input that shows it | evidently intended | confidence | as-written member | corrected member |
|---|---|---|---|---|---|---|
| PhysicsEngine/PhysicsEngine/engine.h:193 | `loadUVs` advances the cursor by the size of a `Vector3` (3 words) per UV, while `writeMesh` packs UVs 2 words apart (engine.h:390) | the tester's mesh (3 vertices): the UVs are read from words 3 apart, and in a buffer holding just that mesh the last UV lies past its end | read UVs 2 words apart, advancing by the size of a `Vector2` | high; not executed | AsWritten.MeshAsWrittenOverruns | Layout.MeshRoundTrip |
| PhysicsEngine/PhysicsEngine/engine.h:332 | `loadCollider` loads the triangle run with `verticesSize` | the tester's collider (3 vertices, 1 triangle) is read back with 3 triangles instead of 1, the last two taken from the 6 words after its block | load the triangle run with `trianglesSize` | high; not executed | AsWritten.ColliderAsWrittenMisreads | Layout.ColliderRoundTrip |
| PhysicsEngine/PhysicsEngine/engine.h:421-425 | `writeObject` stores the pivot through a `Vector3*` and the rotation through a `Quaternion*` indexed by the word cursor, i.e. at words `3*offset` and `4*offset` | the tester's object at cursor 1: word 3 holds pivot `x = 1` where pivot `z = 3` belongs; a second object at cursor 53 of a 105-word buffer stores its rotation at word 224 | store the seven pose words inline at `offset`, as the cursor arithmetic on lines 422 and 426 assumes | high; not executed | AsWritten.FixtureAsWritten | Scenes.Scene.WriteObject |
| PhysicsEngine/PhysicsEngine/engine.h:121-131 | `loadTriangles` rejects a component only when it is `>` the vertex count | vertex count 3 and the triangle `(0, 1, 3)`: it is accepted, though vertex 3 does not exist; so is `(-1, 0, 0)` | reject a component unless `0 <= c < verticesAmount`, as the error message says | high; not executed | Geometries.TriangleTestOffByOne | Geometries.Geometry.LoadIndexedTriangles |
