/**
 * The scene wire format as values: the data each block carries, the
 * `getSize` word counts, the words the writer emits (engine.h:353-471) and a
 * decoder that reads exactly that layout back.
 *
 * A block here holds the arrays the writer reads from a `Geometry` or
 * `Mesh`; the length of each array stands for the count the object keeps
 * beside it. The writer emits `verticesAmount` normals and UVs, so a mesh
 * can be written only with one normal and one UV per vertex
 * (`MeshWritable`). `Data()` of a consistent `Geometry` or `Mesh` (module
 * Geometries), whose counts are the lengths of its arrays, is such a block.
 */
module Layout {
  import opened Types

  /** The vertex positions and triangle records the writer reads from a `Geometry` (a `Collider`). */
  datatype GeometryData = GeometryData(vertices: seq<Vec3>, triangles: seq<Vec3>)

  /** A `Mesh` as the writer reads it: its geometry plus per-vertex normals and UVs. */
  datatype MeshData = MeshData(geometry: GeometryData, normals: seq<Vec3>, uvs: seq<Vec2>)

  /** A `PhysicalObject` as stored (by value) in `Scene::objects`. */
  datatype PhysicalObject = PhysicalObject(mesh: MeshData, collider: GeometryData,
                                           meshPivot: Vec3, rotation: Quat)
  {
    /** `setMesh` (engine.h:259-261): replaces the mesh copy and nothing else. */
    function SetMesh(m: MeshData): (r: PhysicalObject)
      ensures r.mesh == m
      ensures r.collider == collider && r.meshPivot == meshPivot && r.rotation == rotation
    {
      this.(mesh := m)
    }

    /** `setCollider` (engine.h:267-269). */
    function SetCollider(c: GeometryData): (r: PhysicalObject)
      ensures r.collider == c
      ensures r.mesh == mesh && r.meshPivot == meshPivot && r.rotation == rotation
    {
      this.(collider := c)
    }

    /** `setMeshPivot` (engine.h:275-279): copies the three components. */
    function SetMeshPivot(p: Vec3): (r: PhysicalObject)
      ensures r.meshPivot == p
      ensures r.mesh == mesh && r.collider == collider && r.rotation == rotation
    {
      this.(meshPivot := Vec3(p.x, p.y, p.z))
    }

    /** `setRotation` (engine.h:285-290): copies the four components. */
    function SetRotation(q: Quat): (r: PhysicalObject)
      ensures r.rotation == q
      ensures r.mesh == mesh && r.collider == collider && r.meshPivot == meshPivot
    {
      this.(rotation := Quat(q.a, q.i, q.j, q.k))
    }

    /** `tick` (engine.h:235-237) is an empty hook: whatever `delta` is, the object stays as it is. */
    function Tick(delta: real): (r: PhysicalObject)
      ensures r == this
    {
      this
    }
  }

  /**
   * A default-constructed `PhysicalObject`: empty mesh and collider, zero
   * pivot and rotation. It can be written, and takes just the 13 pose and
   * header words.
   */
  function NewObject(): (r: PhysicalObject)
    ensures ObjectWritable(r) && ObjectSize(r) == 13
  {
    var empty := GeometryData([], []);
    PhysicalObject(MeshData(empty, [], []), empty, Vec3(0.0, 0.0, 0.0), Quat(0.0, 0.0, 0.0, 0.0))
  }

  // ---------------------------------------------------------------------
  // What the writer can emit. Counts go out as `uint32_t` words; the mesh
  // header announces as many normals and UVs as vertices (engine.h:360-363),
  // and the writer emits that many of each.

  predicate Writable(g: GeometryData) {
    |g.vertices| < U32_LIMIT && |g.triangles| < U32_LIMIT
  }

  predicate MeshWritable(m: MeshData) {
    Writable(m.geometry) &&
    |m.normals| == |m.geometry.vertices| && |m.uvs| == |m.geometry.vertices|
  }

  predicate ObjectWritable(o: PhysicalObject) {
    MeshWritable(o.mesh) && Writable(o.collider)
  }

  /** Every object of the collection is writable, checked front to back. */
  predicate AllWritable(objs: seq<PhysicalObject>)
    decreases |objs|
  {
    objs == [] || (ObjectWritable(objs[0]) && AllWritable(objs[1..]))
  }

  /** `AllWritable` says the same as asking each object in turn. */
  lemma {:induction false} AllWritableIff(objs: seq<PhysicalObject>)
    ensures AllWritable(objs) <==> forall i :: 0 <= i < |objs| ==> ObjectWritable(objs[i])
    decreases |objs|
  {
    if objs != [] {
      AllWritableIff(objs[1..]);
      assert forall i :: 0 < i < |objs| ==> objs[i] == objs[1..][i - 1];
    }
  }

  /** A prefix of writable objects is writable. */
  lemma {:induction false} AllWritablePrefix(objs: seq<PhysicalObject>, n: nat)
    requires AllWritable(objs) && n <= |objs|
    ensures AllWritable(objs[..n])
    decreases n
  {
    if n > 0 {
      AllWritablePrefix(objs[1..], n - 1);
      assert objs[..n][1..] == objs[1..][..n - 1];
    }
  }

  // ---------------------------------------------------------------------
  // Size arithmetic (`getSize`), in 32-bit words.

  // A `Vector3` is three 32-bit words, a `Vector2` two and a `Quaternion` four.

  /**
   * `Mesh::getSize` (engine.h:165-176): per vertex a position, a normal and
   * a UV; per triangle three indices. On a writable mesh these are exactly
   * the words of the four record runs `writeMesh` emits.
   */
  function MeshSize(m: MeshData): (r: nat)
    ensures MeshWritable(m) ==>
      r == |EncodeVec3s(m.geometry.vertices)| + |EncodeVec3s(m.geometry.triangles)|
           + |EncodeVec3s(m.normals)| + |EncodeVec2s(m.uvs)|
  {
    (3 + 3 + 2) * |m.geometry.vertices| + 3 * |m.geometry.triangles|
  }

  /** `Collider::getSize` (engine.h:219-224): exactly the words of the two record runs `writeCollider` emits. */
  function ColliderSize(c: GeometryData): (r: nat)
    ensures r == |EncodeVec3s(c.vertices)| + |EncodeVec3s(c.triangles)|
  {
    3 * |c.vertices| + 3 * |c.triangles|
  }

  /**
   * `PhysicalObject::getSize` (engine.h:239-249): both blocks, the pivot
   * (3 words), the rotation (4) and the six count words in front of the
   * mesh (4) and collider (2) arrays: on a writable object, the words of
   * the pose, mesh block and collider block `writeObject` emits.
   */
  function ObjectSize(o: PhysicalObject): (r: nat)
    ensures ObjectWritable(o) ==>
      r == |EncodePose(o.meshPivot, o.rotation)| + |EncodeMesh(o.mesh)| + |EncodeCollider(o.collider)|
  {
    MeshSize(o.mesh) + ColliderSize(o.collider) + 3 + 4 + 6
  }

  /** The words a run of items occupies, each taking `size` words. */
  function SumOf<T>(size: T -> nat, items: seq<T>): (r: nat) {
    if items == [] then 0 else size(items[0]) + SumOf(size, items[1..])
  }

  /** The head and tail of `a + b` when `a` is not empty. */
  lemma HeadTailAppend<T>(a: seq<T>, b: seq<T>)
    requires a != []
    ensures a + b != [] && (a + b)[0] == a[0] && (a + b)[1..] == a[1..] + b
  {
    assert (a + b)[1..] == a[1..] + b;
  }

  lemma AppendAssoc<T>(x: seq<T>, y: seq<T>, z: seq<T>)
    ensures x + (y + z) == (x + y) + z
  {
  }

  /** Sizes add up over a split of the run (what the size loop of `dropAllData` relies on). */
  lemma {:induction false} SumOfAppend<T>(size: T -> nat, a: seq<T>, b: seq<T>)
    ensures SumOf(size, a + b) == SumOf(size, a) + SumOf(size, b)
  {
    if a == [] {
      assert a + b == b;
    } else {
      HeadTailAppend(a, b);
      SumOfAppend(size, a[1..], b);
    }
  }

  // ---------------------------------------------------------------------
  // The words the writer emits.

  /** Records as consecutive float triples, in order (the writer's `Vector3` loops). */
  function EncodeVec3s(vs: seq<Vec3>): (r: seq<Word>)
    ensures |r| == 3 * |vs|
  {
    if vs == [] then []
    else
      var last := vs[|vs| - 1];
      EncodeVec3s(vs[..|vs| - 1]) + [F(last.x), F(last.y), F(last.z)]
  }

  /** Records as consecutive float pairs (the writer's `Vector2` loop, engine.h:386-391). */
  function EncodeVec2s(uvs: seq<Vec2>): (r: seq<Word>)
    ensures |r| == 2 * |uvs|
  {
    if uvs == [] then []
    else
      var last := uvs[|uvs| - 1];
      EncodeVec2s(uvs[..|uvs| - 1]) + [F(last.x), F(last.y)]
  }

  /** The four mesh header words: vertices, triangles, then the vertex count twice more. */
  function MeshHeader(m: MeshData): (r: seq<Word>)
    requires MeshWritable(m)
    ensures |r| == 4
  {
    var v := |m.geometry.vertices|;
    [U(v), U(|m.geometry.triangles|), U(v), U(v)]
  }

  /** `writeMesh` (engine.h:353-392): header, positions, triangles, normals, UVs. */
  function EncodeMesh(m: MeshData): (r: seq<Word>)
    requires MeshWritable(m)
    ensures |r| == 4 + MeshSize(m)
  {
    var g := m.geometry;
    MeshHeader(m) + EncodeVec3s(g.vertices) + EncodeVec3s(g.triangles)
      + EncodeVec3s(m.normals) + EncodeVec2s(m.uvs)
  }

  /** `writeCollider` (engine.h:394-415): two count words, positions, triangles. */
  function EncodeCollider(c: GeometryData): (r: seq<Word>)
    requires Writable(c)
    ensures |r| == 2 + ColliderSize(c)
  {
    [U(|c.vertices|), U(|c.triangles|)] + EncodeVec3s(c.vertices) + EncodeVec3s(c.triangles)
  }

  /** Pivot and rotation as seven inline floats (the placement engine.h:422 and 426 imply). */
  function EncodePose(p: Vec3, q: Quat): (r: seq<Word>)
    ensures |r| == 7
  {
    [F(p.x), F(p.y), F(p.z), F(q.a), F(q.i), F(q.j), F(q.k)]
  }

  /** `writeObject` (engine.h:417-433): pose, mesh block, collider block. */
  function EncodeObject(o: PhysicalObject): (r: seq<Word>)
    requires ObjectWritable(o)
    ensures |r| == ObjectSize(o)
  {
    EncodePose(o.meshPivot, o.rotation) + EncodeMesh(o.mesh) + EncodeCollider(o.collider)
  }

  /** The prefix of `i + 1` items takes the words of the prefix of `i` and those of item `i`. */
  lemma {:induction false} SumOfExtend<T>(size: T -> nat, items: seq<T>, i: nat)
    requires i < |items|
    ensures SumOf(size, items[..i + 1]) == SumOf(size, items[..i]) + size(items[i])
  {
    assert items[..i + 1] == items[..i] + [items[i]];
    SumOfAppend(size, items[..i], [items[i]]);
    assert [items[i]][1..] == [];
  }

  /** A longer prefix of a run takes at least as many words. */
  lemma {:induction false} SumOfPrefixes<T>(size: T -> nat, items: seq<T>, j: nat, k: nat)
    requires j <= k <= |items|
    ensures SumOf(size, items[..j]) <= SumOf(size, items[..k])
  {
    assert items[..k] == items[..j] + items[j..k];
    SumOfAppend(size, items[..j], items[j..k]);
  }

  /** The objects one after the other, in collection order. */
  function EncodeObjects(objs: seq<PhysicalObject>): (r: seq<Word>)
    requires AllWritable(objs)
    ensures |r| == SumOf(ObjectSize, objs)
  {
    if objs == [] then [] else EncodeObject(objs[0]) + EncodeObjects(objs[1..])
  }

  /** Encoding a split collection is encoding its parts back to back. */
  lemma {:induction false} EncodeObjectsAppend(a: seq<PhysicalObject>, b: seq<PhysicalObject>)
    requires AllWritable(a) && AllWritable(b)
    ensures AllWritable(a + b)
    ensures EncodeObjects(a + b) == EncodeObjects(a) + EncodeObjects(b)
  {
    if a == [] {
      assert a + b == b;
    } else {
      HeadTailAppend(a, b);
      EncodeObjectsAppend(a[1..], b);
      assert AllWritable(a + b);
      EncodeObjectsCons(a);
      EncodeObjectsCons(a + b);
      AppendAssoc(EncodeObject(a[0]), EncodeObjects(a[1..]), EncodeObjects(b));
    }
  }

  /** One more object of a writable collection: its encoding and its size follow the prefix's. */
  lemma {:induction false} EncodeObjectsExtend(objs: seq<PhysicalObject>, i: nat)
    requires AllWritable(objs) && i < |objs|
    ensures AllWritable(objs[..i]) && ObjectWritable(objs[i]) && AllWritable(objs[..i + 1])
    ensures EncodeObjects(objs[..i + 1]) == EncodeObjects(objs[..i]) + EncodeObject(objs[i])
    ensures SumOf(ObjectSize, objs[..i + 1]) == SumOf(ObjectSize, objs[..i]) + ObjectSize(objs[i])
  {
    AllWritablePrefix(objs, i);
    AllWritablePrefix(objs, i + 1);
    AllWritableIff(objs);
    var one := [objs[i]];
    assert objs[..i] + one == objs[..i + 1];
    assert AllWritable(one[1..]);
    EncodeObjectsAppend(objs[..i], one);
    SumOfAppend(ObjectSize, objs[..i], one);
    EncodeObjectsCons(one);
    assert EncodeObjects(one) == EncodeObject(objs[i]) + [];
    assert EncodeObject(objs[i]) + [] == EncodeObject(objs[i]);
  }

  /**
   * The object count `dropAllData` writes at word 0: `objects.size()` stored
   * in a `uint32_t` (engine.h:450), so it wraps modulo 2^32.
   */
  function WrittenCount(objs: seq<PhysicalObject>): (n: u32)
    ensures |objs| < U32_LIMIT ==> n == |objs|
    ensures n <= |objs|
  {
    |objs| % 0x1_0000_0000
  }

  /** `dropAllData` (engine.h:447-471): the count word, then the first `count` objects. */
  function EncodeScene(objs: seq<PhysicalObject>): (r: seq<Word>)
    requires AllWritable(objs)
    ensures |r| == 1 + SumOf(ObjectSize, objs[..WrittenCount(objs)])
    ensures r[0] == U(WrittenCount(objs))
  {
    var n := WrittenCount(objs);
    AllWritablePrefix(objs, n);
    [U(n)] + EncodeObjects(objs[..n])
  }

  /** An empty scene encodes to the one-word buffer `[0]`. */
  lemma {:induction false} EmptyScene()
    ensures EncodeScene([]) == [U(0)]
  {
  }

  // ---------------------------------------------------------------------
  // Reading records back.

  /** Words `start .. start + n - 1` exist and were written as floats. */
  predicate FloatsAt(s: seq<Word>, start: nat, n: nat) {
    start + n <= |s| && forall k {:trigger s[k].F?} :: start <= k < start + n ==> s[k].F?
  }

  /** `count` float triples from `start` on, read in order (the cursor loads, engine.h:84-102). */
  function ReadVec3s(s: seq<Word>, start: nat, count: nat): (r: seq<Vec3>)
    requires FloatsAt(s, start, 3 * count)
    ensures |r| == count
  {
    if count == 0 then []
    else
      var p := start + 3 * (count - 1);
      ReadVec3s(s, start, count - 1) + [Vec3(s[p].v, s[p + 1].v, s[p + 2].v)]
  }

  /** Record `i` of a triple read is words `start + 3i .. start + 3i + 2`. */
  lemma {:induction false} ReadVec3sAt(s: seq<Word>, start: nat, count: nat, i: nat)
    requires FloatsAt(s, start, 3 * count) && i < count
    ensures ReadVec3s(s, start, count)[i] ==
      Vec3(s[start + 3 * i].v, s[start + 3 * i + 1].v, s[start + 3 * i + 2].v)
    decreases count
  {
    if i < count - 1 {
      ReadVec3sAt(s, start, count - 1, i);
    }
  }

  /** For every record `i < count`, words `start + stride*i` and the next one hold floats. */
  predicate PairsAt(s: seq<Word>, start: nat, count: nat, stride: nat) {
    forall i :: 0 <= i < count ==>
      start + stride * i + 1 < |s| && s[start + stride * i].F? && s[start + stride * i + 1].F?
  }

  /** `count` float pairs from `start` on, record `i` at words `start + stride*i` and the next one. */
  function ReadVec2s(s: seq<Word>, start: nat, count: nat, stride: nat): (r: seq<Vec2>)
    requires PairsAt(s, start, count, stride)
    ensures |r| == count
  {
    if count == 0 then []
    else
      var p := start + stride * (count - 1);
      ReadVec2s(s, start, count - 1, stride) + [Vec2(s[p].v, s[p + 1].v)]
  }

  /** Record `i` of a pair read is words `start + stride*i` and `start + stride*i + 1`. */
  lemma {:induction false} ReadVec2sAt(s: seq<Word>, start: nat, count: nat, stride: nat, i: nat)
    requires PairsAt(s, start, count, stride) && i < count
    ensures ReadVec2s(s, start, count, stride)[i] ==
      Vec2(s[start + stride * i].v, s[start + stride * i + 1].v)
    decreases count
  {
    if i < count - 1 {
      ReadVec2sAt(s, start, count - 1, stride, i);
    }
  }

  /** Packed floats are pairs with stride 2. */
  lemma {:induction false} FloatsArePairs(s: seq<Word>, start: nat, count: nat)
    requires FloatsAt(s, start, 2 * count)
    ensures PairsAt(s, start, count, 2)
  {
  }

  // ---------------------------------------------------------------------
  // The decoder that mirrors the writer. It returns None where the source
  // would read past the buffer, or would read a word through the other view.

  /** Words `off` and `off + 1` exist and were written as counts. */
  predicate CountPairAt(s: seq<Word>, off: nat) {
    off + 1 < |s| && s[off].U? && s[off + 1].U?
  }

  /** `count` float triples at `off`, and the word after them. */
  function DecodeVec3s(s: seq<Word>, off: nat, count: nat): (r: Option<(seq<Vec3>, nat)>) {
    if FloatsAt(s, off, 3 * count) then Some((ReadVec3s(s, off, count), off + 3 * count)) else None
  }

  /** `count` float pairs packed back to back at `off`, and the word after them. */
  function DecodeVec2s(s: seq<Word>, off: nat, count: nat): (r: Option<(seq<Vec2>, nat)>) {
    if FloatsAt(s, off, 2 * count) then
      FloatsArePairs(s, off, count);
      Some((ReadVec2s(s, off, count, 2), off + 2 * count))
    else None
  }

  /** Pivot then rotation, read inline. */
  function DecodePose(s: seq<Word>, off: nat): (r: Option<(Vec3, Quat)>)
    ensures r.Some? <==> FloatsAt(s, off, 7)
  {
    if !FloatsAt(s, off, 7) then None
    else Some((Vec3(s[off].v, s[off + 1].v, s[off + 2].v),
               Quat(s[off + 3].v, s[off + 4].v, s[off + 5].v, s[off + 6].v)))
  }

  /**
   * `loadMesh` (engine.h:301-323) with the layout the writer uses: UVs with
   * stride 2, and every array as long as its header word says.
   */
  function DecodeMesh(s: seq<Word>, off: nat): (r: Option<(MeshData, nat)>)
    ensures r.Some? ==> r.value.1 <= |s| && CountPairAt(s, off) && CountPairAt(s, off + 2)
    ensures r.Some? ==>
      var m := r.value.0;
      |m.geometry.vertices| == s[off].n && |m.geometry.triangles| == s[off + 1].n &&
      |m.normals| == s[off + 2].n && |m.uvs| == s[off + 3].n &&
      r.value.1 == off + 4 + 3 * (s[off].n + s[off + 1].n + s[off + 2].n) + 2 * s[off + 3].n
  {
    if !(CountPairAt(s, off) && CountPairAt(s, off + 2)) then None
    else
      match DecodeVec3s(s, off + 4, s[off].n)
      case None => None
      case Some((vs, pt)) =>
        match DecodeVec3s(s, pt, s[off + 1].n)
        case None => None
        case Some((ts, pn)) =>
          match DecodeVec3s(s, pn, s[off + 2].n)
          case None => None
          case Some((ns, pu)) =>
            match DecodeVec2s(s, pu, s[off + 3].n)
            case None => None
            case Some((us, end)) => Some((MeshData(GeometryData(vs, ts), ns, us), end))
  }

  /** `loadCollider` (engine.h:325-334) reading the triangle count from its own header word. */
  function DecodeCollider(s: seq<Word>, off: nat): (r: Option<(GeometryData, nat)>)
    ensures r.Some? ==> r.value.1 <= |s| && CountPairAt(s, off)
    ensures r.Some? ==>
      var c := r.value.0;
      |c.vertices| == s[off].n && |c.triangles| == s[off + 1].n &&
      r.value.1 == off + 2 + ColliderSize(c)
  {
    if !CountPairAt(s, off) then None
    else
      match DecodeVec3s(s, off + 2, s[off].n)
      case None => None
      case Some((vs, pt)) =>
        match DecodeVec3s(s, pt, s[off + 1].n)
        case None => None
        case Some((ts, end)) => Some((GeometryData(vs, ts), end))
  }

  /** `loadObject` (engine.h:336-351) with pivot and rotation read inline. */
  function DecodeObject(s: seq<Word>, off: nat): (r: Option<(PhysicalObject, nat)>)
    ensures r.Some? ==> off + 13 <= r.value.1 <= |s|
  {
    match DecodePose(s, off)
    case None => None
    case Some((p, q)) =>
      match DecodeMesh(s, off + 7)
      case None => None
      case Some((m, pc)) =>
        match DecodeCollider(s, pc)
        case None => None
        case Some((c, end)) => Some((PhysicalObject(m, c, p, q), end))
  }

  /**
   * `count` items read one after another by `dec` from `off` on, each from
   * where the previous one ended (the object loop of `setAllData`).
   */
  function DecodeMany<T>(dec: (seq<Word>, nat) -> Option<(T, nat)>, s: seq<Word>, off: nat, count: nat)
    : (r: Option<(seq<T>, nat)>)
    ensures r.Some? ==> |r.value.0| == count
    decreases count
  {
    if count == 0 then (if off <= |s| then Some(([], off)) else None)
    else
      match dec(s, off)
      case None => None
      case Some((x, next)) =>
        match DecodeMany(dec, s, next, count - 1)
        case None => None
        case Some((rest, end)) => Some(([x] + rest, end))
  }

  /** `setAllData` (engine.h:474-482): the count at word 0, then that many objects. */
  function DecodeScene(s: seq<Word>): (r: Option<seq<PhysicalObject>>)
    ensures r.Some? ==> |s| >= 1 && s[0].U? && |r.value| == s[0].n
  {
    if |s| == 0 || !s[0].U? then None
    else
      match DecodeMany(DecodeObject, s, 1, s[0].n)
      case None => None
      case Some((objs, _)) => Some(objs)
  }

  // ---------------------------------------------------------------------
  // Round trips: decoding what the writer emits recovers what it wrote.

  /**
   * The words `e` sit in `s` from word `off` on. Stated word by word so that
   * a proof only learns the words it asks for (see `AtIndex`).
   */
  predicate At(s: seq<Word>, off: nat, e: seq<Word>)
    decreases |e|
  {
    off + |e| <= |s| && (e == [] || (s[off] == e[0] && At(s, off + 1, e[1..])))
  }

  /** Word `k` of `e` is word `off + k` of `s`. */
  lemma {:induction false} AtIndex(s: seq<Word>, off: nat, e: seq<Word>, k: nat)
    requires At(s, off, e) && k < |e|
    ensures s[off + k] == e[k]
    decreases k
  {
    if k > 0 {
      AtIndex(s, off + 1, e[1..], k - 1);
    }
  }

  /** A buffer holds its own tail. */
  lemma {:induction false} AtTail(s: seq<Word>, off: nat)
    requires off <= |s|
    ensures At(s, off, s[off..])
    decreases |s| - off
  {
    if off < |s| {
      AtTail(s, off + 1);
      assert s[off..][1..] == s[off + 1..];
    }
  }

  /** Words laid out as `a + b` at `off`: `a` sits at `off`, `b` at `mid`, right after it. */
  lemma {:induction false} AtSplit(s: seq<Word>, off: nat, a: seq<Word>, b: seq<Word>, mid: nat)
    requires At(s, off, a + b) && mid == off + |a|
    ensures At(s, off, a) && At(s, mid, b)
    decreases |a|
  {
    if a == [] {
      assert a + b == b;
    } else {
      assert (a + b)[0] == a[0] && (a + b)[1..] == a[1..] + b;
      AtSplit(s, off + 1, a[1..], b, mid);
    }
  }

  lemma {:induction false} Vec3sRoundTrip(s: seq<Word>, off: nat, vs: seq<Vec3>)
    requires At(s, off, EncodeVec3s(vs))
    ensures DecodeVec3s(s, off, |vs|) == Some((vs, off + 3 * |vs|))
    decreases |vs|
  {
    if vs != [] {
      var n := |vs| - 1;
      var last := vs[n];
      var t := [F(last.x), F(last.y), F(last.z)];
      var p := off + 3 * n;
      AtSplit(s, off, EncodeVec3s(vs[..n]), t, p);
      Vec3sRoundTrip(s, off, vs[..n]);
      AtIndex(s, p, t, 0);
      AtIndex(s, p, t, 1);
      AtIndex(s, p, t, 2);
      assert FloatsAt(s, off, 3 * |vs|);
      assert vs[..n] + [last] == vs;
    }
  }

  lemma {:induction false} Vec2sRoundTrip(s: seq<Word>, off: nat, uvs: seq<Vec2>)
    requires At(s, off, EncodeVec2s(uvs))
    ensures DecodeVec2s(s, off, |uvs|) == Some((uvs, off + 2 * |uvs|))
    decreases |uvs|
  {
    if uvs != [] {
      var n := |uvs| - 1;
      var last := uvs[n];
      var t := [F(last.x), F(last.y)];
      var p := off + 2 * n;
      AtSplit(s, off, EncodeVec2s(uvs[..n]), t, p);
      Vec2sRoundTrip(s, off, uvs[..n]);
      AtIndex(s, p, t, 0);
      AtIndex(s, p, t, 1);
      assert FloatsAt(s, off, 2 * |uvs|);
      FloatsArePairs(s, off, |uvs|);
      assert uvs[..n] + [last] == uvs;
    }
  }

  /** Decoding a written mesh block gives the mesh back and ends right after the block. */
  lemma {:induction false} MeshRoundTrip(s: seq<Word>, off: nat, m: MeshData)
    requires MeshWritable(m) && At(s, off, EncodeMesh(m))
    ensures DecodeMesh(s, off) == Some((m, off + 4 + MeshSize(m)))
  {
    var v, t := |m.geometry.vertices|, |m.geometry.triangles|;
    var pt: nat := off + 4 + 3 * v;
    var pn: nat := pt + 3 * t;
    var pu: nat := pn + 3 * v;
    MeshWordsAt(s, off, m, pt, pn, pu);
    MeshOfWords(s, off, m, pt, pn, pu);
  }

  /** Where the header words and the four arrays of a written mesh block sit. */
  lemma {:induction false} MeshWordsAt(s: seq<Word>, off: nat, m: MeshData, pt: nat, pn: nat, pu: nat)
    requires MeshWritable(m) && At(s, off, EncodeMesh(m))
    requires pt == off + 4 + 3 * |m.geometry.vertices| && pn == pt + 3 * |m.geometry.triangles|
    requires pu == pn + 3 * |m.geometry.vertices|
    ensures off + 3 < |s| && s[off] == U(|m.geometry.vertices|) && s[off + 1] == U(|m.geometry.triangles|)
    ensures s[off + 2] == U(|m.geometry.vertices|) && s[off + 3] == U(|m.geometry.vertices|)
    ensures At(s, off + 4, EncodeVec3s(m.geometry.vertices)) && At(s, pt, EncodeVec3s(m.geometry.triangles))
    ensures At(s, pn, EncodeVec3s(m.normals)) && At(s, pu, EncodeVec2s(m.uvs))
  {
    var g := m.geometry;
    var h := MeshHeader(m);
    var ev, et := EncodeVec3s(g.vertices), EncodeVec3s(g.triangles);
    var en, eu := EncodeVec3s(m.normals), EncodeVec2s(m.uvs);
    AtSplit(s, off, h + ev + et + en, eu, pu);
    AtSplit(s, off, h + ev + et, en, pn);
    AtSplit(s, off, h + ev, et, pt);
    AtSplit(s, off, h, ev, off + 4);
    AtIndex(s, off, h, 0);
    AtIndex(s, off, h, 1);
    AtIndex(s, off, h, 2);
    AtIndex(s, off, h, 3);
  }

  /** A mesh whose header words and arrays sit where `writeMesh` puts them reads back. */
  lemma {:induction false} MeshOfWords(s: seq<Word>, off: nat, m: MeshData, pt: nat, pn: nat, pu: nat)
    requires MeshWritable(m)
    requires pt == off + 4 + 3 * |m.geometry.vertices| && pn == pt + 3 * |m.geometry.triangles|
    requires pu == pn + 3 * |m.geometry.vertices|
    requires off + 3 < |s| && s[off] == U(|m.geometry.vertices|) && s[off + 1] == U(|m.geometry.triangles|)
    requires s[off + 2] == U(|m.geometry.vertices|) && s[off + 3] == U(|m.geometry.vertices|)
    requires At(s, off + 4, EncodeVec3s(m.geometry.vertices)) && At(s, pt, EncodeVec3s(m.geometry.triangles))
    requires At(s, pn, EncodeVec3s(m.normals)) && At(s, pu, EncodeVec2s(m.uvs))
    ensures DecodeMesh(s, off) == Some((m, off + 4 + MeshSize(m)))
  {
    var g := m.geometry;
    Vec3sRoundTrip(s, off + 4, g.vertices);
    Vec3sRoundTrip(s, pt, g.triangles);
    Vec3sRoundTrip(s, pn, m.normals);
    Vec2sRoundTrip(s, pu, m.uvs);
    DecodeMeshOfParts(s, off, m, pt, pn, pu, off + 4 + MeshSize(m));
  }

  /** `r` is the successful read of `x`, ending at word `end`. */
  ghost predicate Decoded<T>(r: Option<(T, nat)>, x: T, end: nat) {
    r.Some? && r.value.0 == x && r.value.1 == end
  }

  /** Assembles `DecodeMesh` from the header and the four array reads. */
  lemma {:induction false} DecodeMeshOfParts(s: seq<Word>, off: nat, m: MeshData, pt: nat, pn: nat, pu: nat, end: nat)
    requires MeshWritable(m)
    requires off + 3 < |s| && s[off] == U(|m.geometry.vertices|) && s[off + 1] == U(|m.geometry.triangles|)
    requires s[off + 2] == U(|m.geometry.vertices|) && s[off + 3] == U(|m.geometry.vertices|)
    requires Decoded(DecodeVec3s(s, off + 4, |m.geometry.vertices|), m.geometry.vertices, pt)
    requires Decoded(DecodeVec3s(s, pt, |m.geometry.triangles|), m.geometry.triangles, pn)
    requires Decoded(DecodeVec3s(s, pn, |m.normals|), m.normals, pu)
    requires Decoded(DecodeVec2s(s, pu, |m.uvs|), m.uvs, end)
    ensures DecodeMesh(s, off) == Some((m, end))
  {
  }

  /** Decoding a written collider block gives the collider back and ends right after the block. */
  lemma {:induction false} ColliderRoundTrip(s: seq<Word>, off: nat, c: GeometryData)
    requires Writable(c) && At(s, off, EncodeCollider(c))
    ensures DecodeCollider(s, off) == Some((c, off + 2 + ColliderSize(c)))
  {
    var v: u32, t: u32 := |c.vertices|, |c.triangles|;
    var h := [U(v), U(t)];
    var ev, et := EncodeVec3s(c.vertices), EncodeVec3s(c.triangles);
    var pv: nat, pt: nat := off + 2, off + 2 + 3 * v;
    AtSplit(s, off, h + ev, et, pt);
    AtSplit(s, off, h, ev, pv);
    AtIndex(s, off, h, 0);
    AtIndex(s, off, h, 1);
    Vec3sRoundTrip(s, pv, c.vertices);
    Vec3sRoundTrip(s, pt, c.triangles);
    DecodeColliderOfParts(s, off, c, pt, off + 2 + ColliderSize(c));
  }

  /** Assembles `DecodeCollider` from the header and the two array reads. */
  lemma {:induction false} DecodeColliderOfParts(s: seq<Word>, off: nat, c: GeometryData, pt: nat, end: nat)
    requires Writable(c)
    requires off + 1 < |s| && s[off] == U(|c.vertices|) && s[off + 1] == U(|c.triangles|)
    requires Decoded(DecodeVec3s(s, off + 2, |c.vertices|), c.vertices, pt)
    requires Decoded(DecodeVec3s(s, pt, |c.triangles|), c.triangles, end)
    ensures DecodeCollider(s, off) == Some((c, end))
  {
  }

  /** The pose words read back as the pose. */
  lemma {:induction false} PoseRoundTrip(s: seq<Word>, off: nat, p: Vec3, q: Quat)
    requires At(s, off, EncodePose(p, q))
    ensures DecodePose(s, off) == Some((p, q))
  {
    var ep := EncodePose(p, q);
    AtIndex(s, off, ep, 0);
    AtIndex(s, off, ep, 1);
    AtIndex(s, off, ep, 2);
    AtIndex(s, off, ep, 3);
    AtIndex(s, off, ep, 4);
    AtIndex(s, off, ep, 5);
    AtIndex(s, off, ep, 6);
  }

  /** Where the three parts of a written object sit. */
  lemma {:induction false} ObjectWordsAt(s: seq<Word>, off: nat, o: PhysicalObject, pc: nat)
    requires ObjectWritable(o) && At(s, off, EncodeObject(o)) && pc == off + 7 + 4 + MeshSize(o.mesh)
    ensures At(s, off, EncodePose(o.meshPivot, o.rotation))
    ensures At(s, off + 7, EncodeMesh(o.mesh)) && At(s, pc, EncodeCollider(o.collider))
  {
    var ep, em := EncodePose(o.meshPivot, o.rotation), EncodeMesh(o.mesh);
    AtSplit(s, off, ep + em, EncodeCollider(o.collider), pc);
    AtSplit(s, off, ep, em, off + 7);
  }

  /**
   * The size law: decoding one written object gives it back and consumes
   * exactly `ObjectSize` words.
   */
  lemma {:induction false} ObjectRoundTrip(s: seq<Word>, off: nat, o: PhysicalObject)
    requires ObjectWritable(o) && At(s, off, EncodeObject(o))
    ensures DecodeObject(s, off) == Some((o, off + ObjectSize(o)))
  {
    var pc: nat := off + 7 + 4 + MeshSize(o.mesh);
    ObjectWordsAt(s, off, o, pc);
    ObjectOfWords(s, off, o, pc);
  }

  /** An object whose three parts sit where `writeObject` puts them reads back. */
  lemma {:induction false} ObjectOfWords(s: seq<Word>, off: nat, o: PhysicalObject, pc: nat)
    requires ObjectWritable(o) && pc == off + 7 + 4 + MeshSize(o.mesh)
    requires At(s, off, EncodePose(o.meshPivot, o.rotation))
    requires At(s, off + 7, EncodeMesh(o.mesh)) && At(s, pc, EncodeCollider(o.collider))
    ensures DecodeObject(s, off) == Some((o, off + ObjectSize(o)))
  {
    PoseRoundTrip(s, off, o.meshPivot, o.rotation);
    MeshRoundTrip(s, off + 7, o.mesh);
    ColliderRoundTrip(s, pc, o.collider);
    var end: nat := off + ObjectSize(o);
    assert pc + 2 + ColliderSize(o.collider) == end;
    DecodeObjectOfParts(s, off, o, pc, end);
  }

  /** Assembles `DecodeObject` from the pose and the two blocks. */
  lemma {:induction false} DecodeObjectOfParts(s: seq<Word>, off: nat, o: PhysicalObject, pc: nat, end: nat)
    requires DecodePose(s, off) == Some((o.meshPivot, o.rotation))
    requires Decoded(DecodeMesh(s, off + 7), o.mesh, pc) && Decoded(DecodeCollider(s, pc), o.collider, end)
    ensures DecodeObject(s, off) == Some((o, end))
  {
  }

  /** The encoding of a writable `o` sits in `s` at `off`. */
  ghost predicate ObjectAt(s: seq<Word>, off: nat, o: PhysicalObject) {
    ObjectWritable(o) && At(s, off, EncodeObject(o))
  }

  /** Each item sits in `s` as `at` says, one after another from `off`, the `i`-th taking `size` of it words. */
  ghost predicate EachAt<T>(at: (seq<Word>, nat, T) -> bool, size: T -> nat, s: seq<Word>, off: nat, items: seq<T>)
    decreases |items|
  {
    if items == [] then off <= |s|
    else at(s, off, items[0]) && EachAt(at, size, s, off + size(items[0]), items[1..])
  }

  /**
   * Each item decodes on its own with `dec`, one right after another from
   * `off`, the `i`-th taking `size` of it words.
   */
  ghost predicate DecodesEach<T>(dec: (seq<Word>, nat) -> Option<(T, nat)>, size: T -> nat, s: seq<Word>, off: nat,
                           items: seq<T>)
    decreases |items|
  {
    if items == [] then off <= |s|
    else DecodesOne(dec, size, s, off, items[0]) && DecodesEach(dec, size, s, off + size(items[0]), items[1..])
  }

  /** `x` decodes with `dec` at `off`, taking `size(x)` words. */
  ghost predicate DecodesOne<T>(dec: (seq<Word>, nat) -> Option<(T, nat)>, size: T -> nat, s: seq<Word>, off: nat, x: T) {
    var r := dec(s, off);
    r.Some? && r.value.0 == x && r.value.1 == off + size(x)
  }

  /** Items that read back one by one read back as a run, ending after the last. */
  lemma {:induction false} DecodeManyOfEach<T>(dec: (seq<Word>, nat) -> Option<(T, nat)>, size: T -> nat,
                                               s: seq<Word>, off: nat, items: seq<T>)
    requires DecodesEach(dec, size, s, off, items)
    ensures DecodeMany(dec, s, off, |items|) == Some((items, off + SumOf(size, items)))
    decreases |items|
  {
    if items != [] {
      var next: nat := off + size(items[0]);
      DecodeManyOfEach(dec, size, s, next, items[1..]);
      assert [items[0]] + items[1..] == items;
    }
  }

  /** The encoding of a collection is its objects' encodings back to back. */
  lemma {:induction false} ObjectsAtOfEncoding(s: seq<Word>, off: nat, objs: seq<PhysicalObject>)
    requires AllWritable(objs) && At(s, off, EncodeObjects(objs))
    ensures EachAt(ObjectAt, ObjectSize, s, off, objs)
    decreases |objs|
  {
    if objs == [] {
      assert off <= |s|;
    } else {
      var next: nat := off + ObjectSize(objs[0]);
      EncodeObjectsCons(objs);
      AtSplit(s, off, EncodeObject(objs[0]), EncodeObjects(objs[1..]), next);
      ObjectsAtOfEncoding(s, next, objs[1..]);
    }
  }

  /** `ObjectRoundTrip` in the form `DecodesEach` asks for. */
  lemma {:induction false} ObjectDecodesOne(s: seq<Word>, off: nat, o: PhysicalObject)
    requires ObjectWritable(o) && At(s, off, EncodeObject(o))
    ensures DecodesOne(DecodeObject, ObjectSize, s, off, o)
  {
    ObjectRoundTrip(s, off, o);
  }

  /** Items placed where each one decodes by itself decode one after another. */
  lemma {:induction false} DecodesEachOfEachAt<T>(at: (seq<Word>, nat, T) -> bool, dec: (seq<Word>, nat) -> Option<(T, nat)>,
                                                  size: T -> nat, s: seq<Word>, off: nat, items: seq<T>)
    requires EachAt(at, size, s, off, items)
    requires forall p: nat, x: T :: at(s, p, x) ==> DecodesOne(dec, size, s, p, x)
    ensures DecodesEach(dec, size, s, off, items)
    decreases |items|
  {
    if items != [] {
      DecodesEachOfEachAt(at, dec, size, s, off + size(items[0]), items[1..]);
    }
  }

  /** Each written object reads back by itself. */
  lemma {:induction false} ObjectsDecodeAtOfObjectsAt(s: seq<Word>, off: nat, objs: seq<PhysicalObject>)
    requires EachAt(ObjectAt, ObjectSize, s, off, objs)
    ensures DecodesEach(DecodeObject, ObjectSize, s, off, objs)
  {
    forall p: nat, o: PhysicalObject | ObjectAt(s, p, o)
      ensures DecodesOne(DecodeObject, ObjectSize, s, p, o)
    {
      ObjectDecodesOne(s, p, o);
    }
    DecodesEachOfEachAt(ObjectAt, DecodeObject, ObjectSize, s, off, objs);
  }

  /**
   * Decoding as many objects as were written, where their encodings were
   * written, reads back exactly those objects and stops right after the last.
   */
  lemma {:induction false} ObjectsRoundTrip(s: seq<Word>, off: nat, objs: seq<PhysicalObject>)
    requires AllWritable(objs) && At(s, off, EncodeObjects(objs))
    ensures DecodeMany(DecodeObject, s, off, |objs|) == Some((objs, off + SumOf(ObjectSize, objs)))
  {
    WrittenObjectsDecode(s, off, objs);
    ObjectsDecodeMany(s, off, objs);
  }

  /** `DecodeManyOfEach` for objects. */
  lemma {:induction false} ObjectsDecodeMany(s: seq<Word>, off: nat, objs: seq<PhysicalObject>)
    requires DecodesEach(DecodeObject, ObjectSize, s, off, objs)
    ensures DecodeMany(DecodeObject, s, off, |objs|) == Some((objs, off + SumOf(ObjectSize, objs)))
  {
    DecodeManyOfEach(DecodeObject, ObjectSize, s, off, objs);
  }

  /** Each object of a written collection reads back where it was written. */
  lemma {:induction false} WrittenObjectsDecode(s: seq<Word>, off: nat, objs: seq<PhysicalObject>)
    requires AllWritable(objs) && At(s, off, EncodeObjects(objs))
    ensures DecodesEach(DecodeObject, ObjectSize, s, off, objs)
  {
    ObjectsAtOfEncoding(s, off, objs);
    ObjectsDecodeAtOfObjectsAt(s, off, objs);
  }

  /** The first object's words, then the rest's. */
  lemma {:induction false} EncodeObjectsCons(objs: seq<PhysicalObject>)
    requires AllWritable(objs) && objs != []
    ensures AllWritable(objs[1..])
    ensures EncodeObjects(objs) == EncodeObject(objs[0]) + EncodeObjects(objs[1..])
    ensures SumOf(ObjectSize, objs) == ObjectSize(objs[0]) + SumOf(ObjectSize, objs[1..])
  {
  }

  /**
   * The headline round trip: decoding what `dropAllData` writes recovers the
   * objects it wrote, in order: all of them, or the first `|objs| mod 2^32`
   * once the count word wraps.
   */
  lemma {:induction false} SceneRoundTrip(objs: seq<PhysicalObject>)
    requires AllWritable(objs)
    ensures DecodeScene(EncodeScene(objs)) == Some(objs[..WrittenCount(objs)])
    ensures |objs| < U32_LIMIT ==> DecodeScene(EncodeScene(objs)) == Some(objs)
  {
    var s := EncodeScene(objs);
    var n := WrittenCount(objs);
    var written := objs[..n];
    AllWritablePrefix(objs, n);
    AtTail(s, 0);
    assert s[0..] == [U(n)] + EncodeObjects(written);
    AtSplit(s, 0, [U(n)], EncodeObjects(written), 1);
    ObjectsRoundTrip(s, 1, written);
    DecodeSceneOfRun(s, written);
    if |objs| < U32_LIMIT {
      PrefixAll(objs, n);
    }
  }

  /** The prefix as long as the sequence is the sequence. */
  lemma {:induction false} PrefixAll<T>(xs: seq<T>, n: nat)
    requires n == |xs|
    ensures xs[..n] == xs
  {
  }

  /** A count word followed by that many decodable objects decodes to those objects. */
  lemma {:induction false} DecodeSceneOfRun(s: seq<Word>, objs: seq<PhysicalObject>)
    requires |s| >= 1 && s[0].U? && s[0].n == |objs|
    requires DecodeMany(DecodeObject, s, 1, |objs|).Some? && DecodeMany(DecodeObject, s, 1, |objs|).value.0 == objs
    ensures DecodeScene(s) == Some(objs)
  {
  }
}
