/**
 * The record loops every `load*` and `write*` of engine.h repeats: a run of
 * `Vector3` or `Vector2` records copied between the word buffer and an array
 * of records, with an `int& offset` cursor advanced once per record.
 */
module Cursor {
  import opened Types
  import opened Layout

  /** `s` with the words from `at` on replaced by `e`. */
  function Splice(s: seq<Word>, at: nat, e: seq<Word>): (r: seq<Word>)
    requires at + |e| <= |s|
    ensures |r| == |s|
  {
    s[..at] + e + s[at + |e|..]
  }

  /** Writing `e1` at `at` and then `e2` right after it, at `mid`, is writing `e1 + e2` at `at`. */
  lemma {:induction false} SpliceSplice(s: seq<Word>, at: nat, e1: seq<Word>, mid: nat, e2: seq<Word>)
    requires mid == at + |e1| && mid + |e2| <= |s|
    ensures Splice(Splice(s, at, e1), mid, e2) == Splice(s, at, e1 + e2)
  {
    var t := Splice(s, at, e1);
    assert t[..mid] == s[..at] + e1;
    assert t[mid + |e2|..] == s[mid + |e2|..];
    AppendAssoc(s[..at], e1, e2);
  }

  /** Two words stored one at a time form the two-word block. */
  lemma TwoWords(a: Word, b: Word)
    ensures [a] + [b] == [a, b]
  {
  }

  /** Four words stored one at a time form the four-word block. */
  lemma FourWords(a: Word, b: Word, c: Word, d: Word)
    ensures [a] + [b] + [c] + [d] == [a, b, c, d]
  {
  }

  /** A block as long as the buffer replaces all of it. */
  lemma {:induction false} SpliceWhole(s: seq<Word>, e: seq<Word>)
    requires |e| == |s|
    ensures Splice(s, 0, e) == e
  {
    assert s[..0] == [] && s[|e|..] == [];
  }

  /**
   * The cursor loop of `loadVertices`, `loadTriangles` and `loadNormals`
   * (engine.h:84-102, 178-186): `size` records of three floats from
   * `offset` on, the cursor advanced by three words per record.
   */
  method ReadVec3sFrom(data: seq<Word>, offset: nat, size: nat) returns (vs: seq<Vec3>, next: nat)
    requires FloatsAt(data, offset, 3 * size)
    ensures vs == ReadVec3s(data, offset, size)
    ensures next == offset + 3 * size
  {
    vs := [];
    next := offset;
    var i := 0;
    while i < size
      invariant 0 <= i <= size
      invariant next == offset + 3 * i
      invariant vs == ReadVec3s(data, offset, i)
    {
      vs := vs + [Vec3(data[next].v, data[next + 1].v, data[next + 2].v)];
      next := next + 3;
      i := i + 1;
    }
  }

  /**
   * The cursor loop of `loadUVs` (engine.h:188-195): record `i` is words
   * `offset + stride*i` and the next one, and the cursor advances by
   * `stride` words per record.
   */
  method ReadVec2sFrom(data: seq<Word>, offset: nat, size: nat, stride: nat) returns (uvs: seq<Vec2>, next: nat)
    requires PairsAt(data, offset, size, stride)
    ensures uvs == ReadVec2s(data, offset, size, stride)
    ensures next == offset + stride * size
  {
    uvs := [];
    next := offset;
    var i := 0;
    while i < size
      invariant 0 <= i <= size
      invariant next == offset + stride * i
      invariant uvs == ReadVec2s(data, offset, i, stride)
    {
      assert offset + stride * i + 1 < |data| && data[offset + stride * i].F?;
      uvs := uvs + [Vec2(data[next].v, data[next + 1].v)];
      assert stride * (i + 1) == stride * i + stride;
      assert stride * (i + 1 - 1) == stride * i;
      next := next + stride;
      i := i + 1;
    }
  }

  /**
   * A `Vector3` loop of `writeMesh` / `writeCollider` (engine.h:365-385,
   * 401-414): the records as float triples from `offset` on. Words before
   * `offset` and from the returned cursor on keep their values.
   */
  method WriteVec3s(data: array<Word>, offset: nat, vs: seq<Vec3>) returns (next: nat)
    requires offset + 3 * |vs| <= data.Length
    modifies data
    ensures next == offset + 3 * |vs|
    ensures data[..] == Splice(old(data[..]), offset, EncodeVec3s(vs))
  {
    next := offset;
    var j := 0;
    while j < |vs|
      invariant 0 <= j <= |vs|
      invariant next == offset + 3 * j
      invariant data[..] == Splice(old(data[..]), offset, EncodeVec3s(vs[..j]))
    {
      PutVec3(data, next, vs[j]);
      assert vs[..j + 1][..j] == vs[..j];
      SpliceSplice(old(data[..]), offset, EncodeVec3s(vs[..j]), next, [F(vs[j].x), F(vs[j].y), F(vs[j].z)]);
      next := next + 3;
      j := j + 1;
    }
    assert vs[..j] == vs;
  }

  /**
   * The `Vector2` loop of `writeMesh` (engine.h:386-391): the records as
   * float pairs, packed back to back from `offset` on.
   */
  method WriteVec2s(data: array<Word>, offset: nat, uvs: seq<Vec2>) returns (next: nat)
    requires offset + 2 * |uvs| <= data.Length
    modifies data
    ensures next == offset + 2 * |uvs|
    ensures data[..] == Splice(old(data[..]), offset, EncodeVec2s(uvs))
  {
    next := offset;
    var j := 0;
    while j < |uvs|
      invariant 0 <= j <= |uvs|
      invariant next == offset + 2 * j
      invariant data[..] == Splice(old(data[..]), offset, EncodeVec2s(uvs[..j]))
    {
      PutVec2(data, next, uvs[j]);
      assert uvs[..j + 1][..j] == uvs[..j];
      SpliceSplice(old(data[..]), offset, EncodeVec2s(uvs[..j]), next, [F(uvs[j].x), F(uvs[j].y)]);
      next := next + 2;
      j := j + 1;
    }
    assert uvs[..j] == uvs;
  }

  /** One `Vector3` record stored as three float words at `at`; every other word keeps its value. */
  method PutVec3(data: array<Word>, at: nat, v: Vec3)
    requires at + 3 <= data.Length
    modifies data
    ensures data[..] == Splice(old(data[..]), at, [F(v.x), F(v.y), F(v.z)])
  {
    data[at] := F(v.x);
    data[at + 1] := F(v.y);
    data[at + 2] := F(v.z);
  }

  /** One `Vector2` record stored as two float words at `at`; every other word keeps its value. */
  method PutVec2(data: array<Word>, at: nat, v: Vec2)
    requires at + 2 <= data.Length
    modifies data
    ensures data[..] == Splice(old(data[..]), at, [F(v.x), F(v.y)])
  {
    data[at] := F(v.x);
    data[at + 1] := F(v.y);
  }

  /** One `Quaternion` stored as four float words at `at`; every other word keeps its value. */
  method PutQuat(data: array<Word>, at: nat, q: Quat)
    requires at + 4 <= data.Length
    modifies data
    ensures data[..] == Splice(old(data[..]), at, [F(q.a), F(q.i), F(q.j), F(q.k)])
  {
    data[at] := F(q.a);
    data[at + 1] := F(q.i);
    data[at + 2] := F(q.j);
    data[at + 3] := F(q.k);
  }

  /** One count word stored at `at` through the `uint32_t` view; every other word keeps its value. */
  method PutCount(data: array<Word>, at: nat, n: u32)
    requires at < data.Length
    modifies data
    ensures data[..] == Splice(old(data[..]), at, [U(n)])
  {
    data[at] := U(n);
  }
}
