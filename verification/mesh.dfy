/** `Mesh` (src/shade/Mesh.cpp): an index buffer and a vertex buffer, and the
    assembly of their contents from a parsed OBJ file. The OBJ parser and the
    layout's `getUnalignedStride`/`getPropertyOffset` answers are inputs;
    attribute values are 32-bit float bit patterns, carried opaquely. */
module Meshes {
  import opened Vk
  import opened Wrappers
  import opened Buffers
  import StructuredLayout
  import opened StructuredBuffers
  import opened VertexBuffers
  import opened IndexBuffers

  // ----- What the OBJ parser hands over -----

  /** `tinyobj::index_t`: indices into the attribute arrays, -1 when absent. */
  datatype ObjIndex = ObjIndex(vertexIndex: int, normalIndex: int, texcoordIndex: int)

  /** `tinyobj::attrib_t`: flat arrays of float components. */
  datatype ObjAttrib = ObjAttrib(vertices: seq<u32>, normals: seq<u32>, texcoords: seq<u32>)

  /** `tinyobj::shape_t`, reduced to its mesh's index list. */
  datatype ObjShape = ObjShape(indices: seq<ObjIndex>)

  /** The outcome of `tinyobj::LoadObj`. */
  datatype ObjLoad = ObjLoad(success: bool, attrib: ObjAttrib, shapes: seq<ObjShape>)

  /** What the vertex layout answers to `getUnalignedStride()` and to
      `getPropertyOffset` for the position, normal and texcoord flags. */
  datatype LayoutQueries = LayoutQueries(
    unalignedStride: u32,
    positionOffset: Option<u32>,
    normalOffset: Option<u32>,
    texcoordOffset: Option<u32>)

  /** Bytes of a `glm::vec3` and of a `glm::vec2`. */
  const VEC3_SIZE: nat := 12
  const VEC2_SIZE: nat := 8

  /** The largest index count whose positions `indices.size()` still fits
      an `int`. */
  const MAX_VERTEX_COUNT: nat := 0x8000_0000

  // ----- The contents of one vertex record -----

  function Zeros(n: nat): (z: seq<byte>)
    ensures |z| == n && forall j :: 0 <= j < n ==> z[j] == 0
  {
    if n == 0 then [] else [0] + Zeros(n - 1)
  }

  /** s with t stored over it from position at on. */
  function Splice(s: seq<byte>, at: nat, t: seq<byte>): (r: seq<byte>)
    requires at + |t| <= |s|
    ensures |r| == |s|
  {
    s[..at] + t + s[at + |t|..]
  }

  /** Byte j after a store: the stored byte inside the slot, the old one
      elsewhere. */
  lemma SpliceIndex(s: seq<byte>, at: nat, t: seq<byte>)
    requires at + |t| <= |s|
    ensures forall j :: 0 <= j < |s| ==> Splice(s, at, t)[j] == if at <= j < at + |t| then t[j - at] else s[j]
  {
  }

  predicate PositionAvailable(attrib: ObjAttrib, index: ObjIndex) {
    0 <= index.vertexIndex && 3 * index.vertexIndex + 3 <= |attrib.vertices|
  }

  predicate NormalAvailable(attrib: ObjAttrib, index: ObjIndex) {
    0 <= index.normalIndex && 3 * index.normalIndex + 3 <= |attrib.normals|
  }

  predicate TexcoordAvailable(attrib: ObjAttrib, index: ObjIndex) {
    0 <= index.texcoordIndex && 2 * index.texcoordIndex + 2 <= |attrib.texcoords|
  }

  /** The three position components of an index. */
  function PositionOf(attrib: ObjAttrib, index: ObjIndex): (p: seq<u32>)
    requires PositionAvailable(attrib, index)
    ensures |p| == 3
  {
    attrib.vertices[3 * index.vertexIndex .. 3 * index.vertexIndex + 3]
  }

  /** The three normal components of an index. */
  function NormalOf(attrib: ObjAttrib, index: ObjIndex): (n: seq<u32>)
    requires NormalAvailable(attrib, index)
    ensures |n| == 3
  {
    attrib.normals[3 * index.normalIndex .. 3 * index.normalIndex + 3]
  }

  /** The texture coordinate of an index: u as parsed, v flipped by
      `flipV` (the float subtraction `1.0f - v`). */
  function TexcoordOf(attrib: ObjAttrib, index: ObjIndex, flipV: u32 -> u32): (t: seq<u32>)
    requires TexcoordAvailable(attrib, index)
    ensures |t| == 2
  {
    [attrib.texcoords[2 * index.texcoordIndex], flipV(attrib.texcoords[2 * index.texcoordIndex + 1])]
  }

  /** Every attribute the layout places can be read from the parser's arrays
      and fits inside a record. */
  predicate Writable(attrib: ObjAttrib, q: LayoutQueries, index: ObjIndex) {
    && (q.positionOffset.Some? ==>
          PositionAvailable(attrib, index) && q.positionOffset.value + VEC3_SIZE <= q.unalignedStride)
    && (q.normalOffset.Some? ==>
          NormalAvailable(attrib, index) && q.normalOffset.value + VEC3_SIZE <= q.unalignedStride)
    && (q.texcoordOffset.Some? ==>
          TexcoordAvailable(attrib, index) && q.texcoordOffset.value + VEC2_SIZE <= q.unalignedStride)
  }

  /** s with t stored at `offset`, or s itself when there is no offset. */
  function StoreAt(s: seq<byte>, offset: Option<u32>, t: seq<byte>): (r: seq<byte>)
    requires offset.Some? ==> offset.value + |t| <= |s|
    ensures |r| == |s|
  {
    if offset.Some? then Splice(s, offset.value, t) else s
  }

  /** The bytes of the attributes an index contributes: the float images of
      its position, normal and texcoord, each empty when the layout does not
      locate it. */
  function PositionBytes(attrib: ObjAttrib, q: LayoutQueries, index: ObjIndex): (b: seq<byte>)
    requires Writable(attrib, q, index)
    ensures q.positionOffset.Some? ==> q.positionOffset.value + |b| <= q.unalignedStride
  {
    if q.positionOffset.Some? then Words(PositionOf(attrib, index)) else []
  }

  function NormalBytes(attrib: ObjAttrib, q: LayoutQueries, index: ObjIndex): (b: seq<byte>)
    requires Writable(attrib, q, index)
    ensures q.normalOffset.Some? ==> q.normalOffset.value + |b| <= q.unalignedStride
  {
    if q.normalOffset.Some? then Words(NormalOf(attrib, index)) else []
  }

  function TexcoordBytes(attrib: ObjAttrib, q: LayoutQueries, flipV: u32 -> u32, index: ObjIndex): (b: seq<byte>)
    requires Writable(attrib, q, index)
    ensures q.texcoordOffset.Some? ==> q.texcoordOffset.value + |b| <= q.unalignedStride
  {
    if q.texcoordOffset.Some? then Words(TexcoordOf(attrib, index, flipV)) else []
  }

  /** One store of the loop body: `bytes` written from `offset` of the
      record on. */
  datatype Store = Store(offset: nat, bytes: seq<byte>)

  /** The store of a located attribute; none when the layout lacks it. */
  function StoresOf(offset: Option<u32>, bytes: seq<byte>): seq<Store> {
    if offset.Some? then [Store(offset.value, bytes)] else []
  }

  /** s after the stores, made in order (a later one overwrites an earlier
      one where they overlap). A store that would not fit is skipped; the
      records below only make stores that fit. */
  function ApplyStores(s: seq<byte>, stores: seq<Store>): (r: seq<byte>)
    ensures |r| == |s|
    decreases |stores|
  {
    if stores == [] then s
    else if stores[0].offset + |stores[0].bytes| <= |s| then ApplyStores(Splice(s, stores[0].offset, stores[0].bytes), stores[1..])
    else ApplyStores(s, stores[1..])
  }

  /** The stores the loop body makes for one index: position, normal and
      texcoord, in that order, each only when the layout locates it. */
  function VertexStores(attrib: ObjAttrib, q: LayoutQueries, flipV: u32 -> u32, index: ObjIndex): (stores: seq<Store>)
    requires Writable(attrib, q, index)
  {
    StoresOf(q.positionOffset, PositionBytes(attrib, q, index))
      + StoresOf(q.normalOffset, NormalBytes(attrib, q, index))
      + StoresOf(q.texcoordOffset, TexcoordBytes(attrib, q, flipV, index))
  }

  /** The bytes of one vertex: a zeroed record of `unalignedStride` bytes
      with the index's stores made over it. */
  function Record(attrib: ObjAttrib, q: LayoutQueries, flipV: u32 -> u32, index: ObjIndex): (rec: seq<byte>)
    requires Writable(attrib, q, index)
    ensures |rec| == q.unalignedStride
  {
    ApplyStores(Zeros(q.unalignedStride), VertexStores(attrib, q, flipV, index))
  }

  lemma {:induction false} ApplyStoresAppend(s: seq<byte>, a: seq<Store>, b: seq<Store>)
    ensures ApplyStores(s, a + b) == ApplyStores(ApplyStores(s, a), b)
    decreases |a|
  {
    if a != [] {
      assert (a + b)[1..] == a[1..] + b;
      if a[0].offset + |a[0].bytes| <= |s| {
        ApplyStoresAppend(Splice(s, a[0].offset, a[0].bytes), a[1..], b);
      } else {
        ApplyStoresAppend(s, a[1..], b);
      }
    } else {
      assert a + b == b;
    }
  }

  lemma ApplyStoresOf(s: seq<byte>, offset: Option<u32>, bytes: seq<byte>)
    requires offset.Some? ==> offset.value + |bytes| <= |s|
    ensures ApplyStores(s, StoresOf(offset, bytes)) == StoreAt(s, offset, bytes)
  {
    if offset.Some? {
      var st := StoresOf(offset, bytes);
      assert st[1..] == [];
      assert ApplyStores(s, st) == ApplyStores(Splice(s, offset.value, bytes), []);
    }
  }

  /** A record is the zeroed record with the position, the normal and the
      texcoord stored over it one after the other. */
  lemma RecordInStages(attrib: ObjAttrib, q: LayoutQueries, flipV: u32 -> u32, index: ObjIndex)
    requires Writable(attrib, q, index)
    ensures Record(attrib, q, flipV, index) ==
      StoreAt(StoreAt(StoreAt(Zeros(q.unalignedStride), q.positionOffset, PositionBytes(attrib, q, index)),
                      q.normalOffset, NormalBytes(attrib, q, index)),
              q.texcoordOffset, TexcoordBytes(attrib, q, flipV, index))
  {
    var zero := Zeros(q.unalignedStride);
    var ps := StoresOf(q.positionOffset, PositionBytes(attrib, q, index));
    var ns := StoresOf(q.normalOffset, NormalBytes(attrib, q, index));
    var ts := StoresOf(q.texcoordOffset, TexcoordBytes(attrib, q, flipV, index));
    ApplyStoresOf(zero, q.positionOffset, PositionBytes(attrib, q, index));
    ApplyStoresOf(zero, q.normalOffset, NormalBytes(attrib, q, index));
    ApplyStoresOf(zero, q.texcoordOffset, TexcoordBytes(attrib, q, flipV, index));
    ApplyStoresAppend(zero, ps + ns, ts);
    ApplyStoresAppend(zero, ps, ns);
    var withPosition := ApplyStores(zero, ps);
    ApplyStoresOf(withPosition, q.normalOffset, NormalBytes(attrib, q, index));
    var withNormal := ApplyStores(withPosition, ns);
    ApplyStoresOf(withNormal, q.texcoordOffset, TexcoordBytes(attrib, q, flipV, index));
  }

  /** The records of the indices, in order. */
  function Records(attrib: ObjAttrib, q: LayoutQueries, flipV: u32 -> u32, indices: seq<ObjIndex>): (rs: seq<seq<byte>>)
    requires forall k :: 0 <= k < |indices| ==> Writable(attrib, q, indices[k])
    ensures |rs| == |indices|
    ensures forall k :: 0 <= k < |rs| ==> |rs[k]| == q.unalignedStride
  {
    seq(|indices|, k requires 0 <= k < |indices| => Record(attrib, q, flipV, indices[k]))
  }

  /** Chunks laid back to back. */
  function Flatten(chunks: seq<seq<byte>>): seq<byte> {
    if chunks == [] then [] else Flatten(chunks[..|chunks| - 1]) + chunks[|chunks| - 1]
  }

  /** Chunks of equal size `stride` flatten to `stride` bytes each. */
  lemma {:induction false} FlattenLength(chunks: seq<seq<byte>>, stride: nat)
    requires forall i :: 0 <= i < |chunks| ==> |chunks[i]| == stride
    ensures |Flatten(chunks)| == stride * |chunks|
  {
    if chunks != [] {
      FlattenLength(chunks[..|chunks| - 1], stride);
      MulSucc(stride, |chunks| - 1);
    }
  }

  /** Chunk k of equal-size chunks starts at byte `base` = `stride * k`. */
  lemma {:induction false} FlattenChunk(chunks: seq<seq<byte>>, stride: nat, k: nat, base: nat)
    requires forall i :: 0 <= i < |chunks| ==> |chunks[i]| == stride
    requires k < |chunks| && base == stride * k
    ensures base + stride <= |Flatten(chunks)| && Flatten(chunks)[base .. base + stride] == chunks[k]
  {
    var n := |chunks|;
    var front := chunks[..n - 1];
    FlattenLength(front, stride);
    if k < n - 1 {
      FlattenChunk(front, stride, k, base);
    }
    ChunkOfAppend(Flatten(front), chunks[n - 1], stride, n, k, base);
  }

  /** The vertex block: one record per index, back to back. */
  function VertexBlock(attrib: ObjAttrib, q: LayoutQueries, flipV: u32 -> u32, indices: seq<ObjIndex>): (block: seq<byte>)
    requires forall k :: 0 <= k < |indices| ==> Writable(attrib, q, indices[k])
    ensures |block| == q.unalignedStride * |indices|
  {
    var rs := Records(attrib, q, flipV, indices);
    FlattenLength(rs, q.unalignedStride);
    Flatten(rs)
  }

  // ----- Properties of the assembled data -----

  /** Record k of the block is the record of index k; it starts at byte
      `base` = `unalignedStride * k`. */
  lemma VertexBlockRecords(attrib: ObjAttrib, q: LayoutQueries, flipV: u32 -> u32, indices: seq<ObjIndex>,
                           k: nat, base: nat)
    requires forall i :: 0 <= i < |indices| ==> Writable(attrib, q, indices[i])
    requires k < |indices| && base == q.unalignedStride * k
    ensures base + q.unalignedStride <= |VertexBlock(attrib, q, flipV, indices)|
    ensures VertexBlock(attrib, q, flipV, indices)[base .. base + q.unalignedStride] == Record(attrib, q, flipV, indices[k])
  {
    FlattenChunk(Records(attrib, q, flipV, indices), q.unalignedStride, k, base);
  }

  /** Chunk k of a sequence of n chunks of `stride` bytes, one of which is
      appended to the first n - 1. */
  lemma ChunkOfAppend(front: seq<byte>, last: seq<byte>, stride: nat, n: nat, k: nat, base: nat)
    requires |last| == stride && |front| == stride * (n - 1) && k < n && base == stride * k
    requires k < n - 1 ==> base + stride <= |front|
    ensures base + stride <= |front + last|
    ensures k == n - 1 ==> (front + last)[base .. base + stride] == last
    ensures k < n - 1 ==> (front + last)[base .. base + stride] == front[base .. base + stride]
  {
  }

  lemma MulSucc(a: nat, b: nat)
    ensures a * b + a == a * (b + 1)
  {
  }

  lemma MulMonotone(a: nat, b: nat, c: nat)
    requires b <= c
    ensures a * b <= a * c
  {
  }

  /** Whether byte j of a record lies in the slot of a located attribute. */
  predicate InSlot(offset: Option<u32>, width: nat, j: int) {
    offset.Some? && offset.value <= j < offset.value + width
  }

  predicate OutsideSlots(q: LayoutQueries, j: int) {
    !InSlot(q.positionOffset, VEC3_SIZE, j) && !InSlot(q.normalOffset, VEC3_SIZE, j) && !InSlot(q.texcoordOffset, VEC2_SIZE, j)
  }

  /** The slots of the located attributes do not overlap. */
  predicate SlotsApart(q: LayoutQueries) {
    && (q.positionOffset.Some? && q.normalOffset.Some? ==>
          q.positionOffset.value + VEC3_SIZE <= q.normalOffset.value || q.normalOffset.value + VEC3_SIZE <= q.positionOffset.value)
    && (q.positionOffset.Some? && q.texcoordOffset.Some? ==>
          q.positionOffset.value + VEC3_SIZE <= q.texcoordOffset.value || q.texcoordOffset.value + VEC2_SIZE <= q.positionOffset.value)
    && (q.normalOffset.Some? && q.texcoordOffset.Some? ==>
          q.normalOffset.value + VEC3_SIZE <= q.texcoordOffset.value || q.texcoordOffset.value + VEC2_SIZE <= q.normalOffset.value)
  }

  /** What a store leaves behind: the stored bytes at the offset, and the
      old bytes everywhere outside them. */
  lemma StoreAtEffect(s: seq<byte>, offset: Option<u32>, t: seq<byte>)
    requires offset.Some? ==> offset.value + |t| <= |s|
    ensures offset.Some? ==> StoreAt(s, offset, t)[offset.value .. offset.value + |t|] == t
    ensures forall j :: 0 <= j < |s| && !InSlot(offset, |t|, j) ==> StoreAt(s, offset, t)[j] == s[j]
  {
    if offset.Some? {
      SpliceIndex(s, offset.value, t);
      assert StoreAt(s, offset, t)[offset.value .. offset.value + |t|] == t;
    }
  }

  /** A store leaves every range outside its slot as it was. */
  lemma StoreAtElsewhere(s: seq<byte>, offset: Option<u32>, t: seq<byte>, i: nat, j: nat)
    requires offset.Some? ==> offset.value + |t| <= |s|
    requires i <= j <= |s|
    requires offset.Some? ==> j <= offset.value || offset.value + |t| <= i
    ensures StoreAt(s, offset, t)[i..j] == s[i..j]
  {
    StoreAtEffect(s, offset, t);
    assert StoreAt(s, offset, t)[i..j] == s[i..j];
  }

  /** Three stores in a row leave the old bytes outside all three slots,
      and the last store's bytes in its slot. */
  lemma ThreeStoresOutside(z: seq<byte>, p: Option<u32>, pb: seq<byte>, n: Option<u32>, nb: seq<byte>,
                           t: Option<u32>, tb: seq<byte>)
    requires p.Some? ==> p.value + |pb| <= |z|
    requires n.Some? ==> n.value + |nb| <= |z|
    requires t.Some? ==> t.value + |tb| <= |z|
    ensures var r := StoreAt(StoreAt(StoreAt(z, p, pb), n, nb), t, tb);
      && (forall j :: 0 <= j < |z| && !InSlot(p, |pb|, j) && !InSlot(n, |nb|, j) && !InSlot(t, |tb|, j) ==> r[j] == z[j])
      && (t.Some? ==> r[t.value .. t.value + |tb|] == tb)
  {
    var withPosition := StoreAt(z, p, pb);
    var withNormal := StoreAt(withPosition, n, nb);
    StoreAtEffect(z, p, pb);
    StoreAtEffect(withPosition, n, nb);
    StoreAtEffect(withNormal, t, tb);
  }

  /** The first two of three stores in a row survive where the slots do
      not overlap. */
  lemma ThreeStoresKeep(z: seq<byte>, p: Option<u32>, pb: seq<byte>, n: Option<u32>, nb: seq<byte>,
                        t: Option<u32>, tb: seq<byte>)
    requires p.Some? ==> p.value + |pb| <= |z|
    requires n.Some? ==> n.value + |nb| <= |z|
    requires t.Some? ==> t.value + |tb| <= |z|
    ensures var r := StoreAt(StoreAt(StoreAt(z, p, pb), n, nb), t, tb);
      && (p.Some? && (n.Some? ==> p.value + |pb| <= n.value || n.value + |nb| <= p.value)
                  && (t.Some? ==> p.value + |pb| <= t.value || t.value + |tb| <= p.value)
          ==> r[p.value .. p.value + |pb|] == pb)
      && (n.Some? && (t.Some? ==> n.value + |nb| <= t.value || t.value + |tb| <= n.value)
          ==> r[n.value .. n.value + |nb|] == nb)
  {
    var withPosition := StoreAt(z, p, pb);
    var withNormal := StoreAt(withPosition, n, nb);
    if p.Some? && (n.Some? ==> p.value + |pb| <= n.value || n.value + |nb| <= p.value)
               && (t.Some? ==> p.value + |pb| <= t.value || t.value + |tb| <= p.value) {
      StoreAtEffect(z, p, pb);
      StoreAtElsewhere(withPosition, n, nb, p.value, p.value + |pb|);
      StoreAtElsewhere(withNormal, t, tb, p.value, p.value + |pb|);
    }
    if n.Some? && (t.Some? ==> n.value + |nb| <= t.value || t.value + |tb| <= n.value) {
      StoreAtEffect(withPosition, n, nb);
      StoreAtElsewhere(withNormal, t, tb, n.value, n.value + |nb|);
    }
  }

  /** Bytes of a record outside every located attribute's slot are zero
      (the memset survives), and the texcoord, stored last, always reads
      back as [u, flipV(v)]. */
  lemma RecordZeroOutsideSlots(attrib: ObjAttrib, q: LayoutQueries, flipV: u32 -> u32, index: ObjIndex)
    requires Writable(attrib, q, index)
    ensures forall j :: 0 <= j < q.unalignedStride && OutsideSlots(q, j) ==> Record(attrib, q, flipV, index)[j] == 0
    ensures q.texcoordOffset.Some? ==>
      var t := q.texcoordOffset.value;
      WordsOf(Record(attrib, q, flipV, index)[t .. t + VEC2_SIZE])
        == [attrib.texcoords[2 * index.texcoordIndex], flipV(attrib.texcoords[2 * index.texcoordIndex + 1])]
  {
    RecordInStages(attrib, q, flipV, index);
    ThreeStoresOutside(Zeros(q.unalignedStride), q.positionOffset, PositionBytes(attrib, q, index),
                       q.normalOffset, NormalBytes(attrib, q, index), q.texcoordOffset, TexcoordBytes(attrib, q, flipV, index));
    if q.texcoordOffset.Some? {
      WordsRoundTrip(TexcoordOf(attrib, index, flipV));
    }
  }

  /** With non-overlapping slots, the position and the normal read back as
      the three components the OBJ file gives for the index. */
  lemma RecordReadsBack(attrib: ObjAttrib, q: LayoutQueries, flipV: u32 -> u32, index: ObjIndex)
    requires Writable(attrib, q, index) && SlotsApart(q)
    ensures q.positionOffset.Some? ==>
      var p := q.positionOffset.value;
      WordsOf(Record(attrib, q, flipV, index)[p .. p + VEC3_SIZE])
        == attrib.vertices[3 * index.vertexIndex .. 3 * index.vertexIndex + 3]
    ensures q.normalOffset.Some? ==>
      var n := q.normalOffset.value;
      WordsOf(Record(attrib, q, flipV, index)[n .. n + VEC3_SIZE])
        == attrib.normals[3 * index.normalIndex .. 3 * index.normalIndex + 3]
  {
    RecordInStages(attrib, q, flipV, index);
    ThreeStoresKeep(Zeros(q.unalignedStride), q.positionOffset, PositionBytes(attrib, q, index),
                    q.normalOffset, NormalBytes(attrib, q, index), q.texcoordOffset, TexcoordBytes(attrib, q, flipV, index));
    if q.positionOffset.Some? {
      WordsRoundTrip(PositionOf(attrib, index));
    }
    if q.normalOffset.Some? {
      WordsRoundTrip(NormalOf(attrib, index));
    }
  }

  /** A layout with none of the three flags leaves the whole block zero (the
      case the code only warns about). */
  lemma {:induction false} NoPropertiesZeroBlock(attrib: ObjAttrib, q: LayoutQueries, flipV: u32 -> u32, indices: seq<ObjIndex>)
    requires q.positionOffset.None? && q.normalOffset.None? && q.texcoordOffset.None?
    ensures VertexBlock(attrib, q, flipV, indices) == Zeros(q.unalignedStride * |indices|)
  {
    if indices != [] {
      var n := |indices|;
      NoPropertiesZeroBlock(attrib, q, flipV, indices[..n - 1]);
      VertexBlockSnoc(attrib, q, flipV, indices, n - 1);
      assert indices[..n] == indices;
      RecordInStages(attrib, q, flipV, indices[n - 1]);
      MulSucc(q.unalignedStride, n - 1);
      ZerosAppend(q.unalignedStride * (n - 1), q.unalignedStride);
    }
  }

  // ----- The stores of the assembly loop -----

  /** Storing t into the middle part of a + m + b only changes that part. */
  lemma SpliceMiddle(a: seq<byte>, m: seq<byte>, b: seq<byte>, at: nat, t: seq<byte>)
    requires at + |t| <= |m|
    ensures Splice(a + m + b, |a| + at, t) == a + Splice(m, at, t) + b
  {
    SpliceIndex(a + m + b, |a| + at, t);
    SpliceIndex(m, at, t);
    assert Splice(a + m + b, |a| + at, t) == a + Splice(m, at, t) + b;
  }

  /** Two adjacent stores are one store of their concatenation. */
  lemma SpliceAdjacent(s: seq<byte>, at: nat, t: seq<byte>, u: seq<byte>)
    requires at + |t| + |u| <= |s|
    ensures Splice(Splice(s, at, t), at + |t|, u) == Splice(s, at, t + u)
  {
    SpliceIndex(s, at, t);
    SpliceIndex(Splice(s, at, t), at + |t|, u);
    SpliceIndex(s, at, t + u);
    assert Splice(Splice(s, at, t), at + |t|, u) == Splice(s, at, t + u);
  }

  lemma WordsOfTwo(ws: seq<u32>)
    requires |ws| == 2
    ensures Words(ws) == WordBytes(ws[0]) + WordBytes(ws[1])
  {
    assert ws[1..][1..] == [];
    assert Words(ws[1..]) == WordBytes(ws[1]) + Words([]);
  }

  lemma WordsOfThree(ws: seq<u32>)
    requires |ws| == 3
    ensures Words(ws) == WordBytes(ws[0]) + WordBytes(ws[1]) + WordBytes(ws[2])
  {
    WordsOfTwo(ws[1..]);
    assert Words(ws) == WordBytes(ws[0]) + Words(ws[1..]);
  }

  /** Stores one float at byte `at`. */
  method StoreFloat(vertices: array<byte>, at: nat, w: u32)
    requires at + 4 <= vertices.Length
    modifies vertices
    ensures vertices[..] == Splice(old(vertices[..]), at, WordBytes(w))
  {
    var b := WordBytes(w);
    vertices[at] := b[0];
    vertices[at + 1] := b[1];
    vertices[at + 2] := b[2];
    vertices[at + 3] := b[3];
    SpliceIndex(old(vertices[..]), at, b);
  }

  /** `*prop = {...}` for a `glm::vec2` or `glm::vec3`: its floats, stored
      one after the other from byte `at`. */
  method StoreVec(vertices: array<byte>, at: nat, ws: seq<u32>)
    requires |ws| == 2 || |ws| == 3
    requires at + 4 * |ws| <= vertices.Length
    modifies vertices
    ensures vertices[..] == Splice(old(vertices[..]), at, Words(ws))
  {
    ghost var s := vertices[..];
    StoreFloat(vertices, at, ws[0]);
    StoreFloat(vertices, at + 4, ws[1]);
    SpliceAdjacent(s, at, WordBytes(ws[0]), WordBytes(ws[1]));
    if |ws| == 3 {
      StoreFloat(vertices, at + 8, ws[2]);
      SpliceAdjacent(s, at, WordBytes(ws[0]) + WordBytes(ws[1]), WordBytes(ws[2]));
      WordsOfThree(ws);
    } else {
      WordsOfTwo(ws);
    }
  }

  /** A vec store into the record that sits between `front` and `back`
      changes only that record. */
  method StoreInRecord(vertices: array<byte>, base: nat, ghost front: seq<byte>, ghost rec: seq<byte>, ghost back: seq<byte>,
                       offset: nat, ws: seq<u32>)
    requires |ws| == 2 || |ws| == 3
    requires vertices[..] == front + rec + back && |front| == base
    requires offset + 4 * |ws| <= |rec|
    modifies vertices
    ensures vertices[..] == front + Splice(rec, offset, Words(ws)) + back
  {
    StoreVec(vertices, base + offset, ws);
    SpliceMiddle(front, rec, back, offset, Words(ws));
  }

  /** One iteration of the assembly loop: the three conditional stores into
      the zeroed record that starts at byte `base`. */
  method WriteVertex(vertices: array<byte>, base: nat, ghost front: seq<byte>, ghost back: seq<byte>,
                     attrib: ObjAttrib, q: LayoutQueries, flipV: u32 -> u32, index: ObjIndex)
    requires Writable(attrib, q, index)
    requires vertices[..] == front + Zeros(q.unalignedStride) + back && |front| == base
    modifies vertices
    ensures vertices[..] == front + Record(attrib, q, flipV, index) + back
  {
    ghost var rec := Zeros(q.unalignedStride);
    if q.positionOffset.Some? {
      StoreInRecord(vertices, base, front, rec, back, q.positionOffset.value, PositionOf(attrib, index));
    }
    rec := StoreAt(rec, q.positionOffset, PositionBytes(attrib, q, index));
    if q.normalOffset.Some? {
      StoreInRecord(vertices, base, front, rec, back, q.normalOffset.value, NormalOf(attrib, index));
    }
    rec := StoreAt(rec, q.normalOffset, NormalBytes(attrib, q, index));
    if q.texcoordOffset.Some? {
      StoreInRecord(vertices, base, front, rec, back, q.texcoordOffset.value, TexcoordOf(attrib, index, flipV));
    }
    rec := StoreAt(rec, q.texcoordOffset, TexcoordBytes(attrib, q, flipV, index));
    RecordInStages(attrib, q, flipV, index);
  }

  /** The assembly loop of `loadFromOBJ`: a zero-filled block of
      `unalignedStride * count` bytes written record by record, and the index
      list 0, 1, ..., count-1. */
  method AssembleVertices(attrib: ObjAttrib, q: LayoutQueries, flipV: u32 -> u32, shapeIndices: seq<ObjIndex>)
      returns (vertices: array<byte>, indices: seq<int32>)
    requires q.unalignedStride * |shapeIndices| < U32_LIMIT
    requires |shapeIndices| <= MAX_VERTEX_COUNT
    requires forall k :: 0 <= k < |shapeIndices| ==> Writable(attrib, q, shapeIndices[k])
    ensures fresh(vertices)
    ensures vertices[..] == VertexBlock(attrib, q, flipV, shapeIndices)
    ensures indices == Identity(|shapeIndices|)
  {
    var n := |shapeIndices|;
    vertices := new byte[q.unalignedStride * n](_ => 0);
    indices := [];
    assert Filled(vertices[..], VertexBlock(attrib, q, flipV, shapeIndices[..0]));
    var i := 0;
    while i < n
      invariant 0 <= i <= n
      invariant vertices.Length == q.unalignedStride * n
      invariant Filled(vertices[..], VertexBlock(attrib, q, flipV, shapeIndices[..i]))
      invariant indices == Identity(i)
    {
      AssembleVertex(vertices, i, attrib, q, flipV, shapeIndices);
      IdentitySnoc(i);
      indices := indices + [|indices|];
      i := i + 1;
    }
    assert shapeIndices[..n] == shapeIndices;
    assert Filled(vertices[..], VertexBlock(attrib, q, flipV, shapeIndices));
  }

  /** The index list 0, 1, ..., n-1. */
  function Identity(n: nat): (ids: seq<int32>)
    requires n <= MAX_VERTEX_COUNT
    ensures |ids| == n && forall k :: 0 <= k < n ==> ids[k] == k
  {
    seq(n, k requires 0 <= k < n => k)
  }

  lemma IdentitySnoc(n: nat)
    requires n < MAX_VERTEX_COUNT
    ensures Identity(n) + [n] == Identity(n + 1)
  {
  }

  /** `block` holds `front` followed by zeros. */
  ghost predicate Filled(block: seq<byte>, front: seq<byte>) {
    |front| <= |block| && block == front + Zeros(|block| - |front|)
  }

  /** The body of the assembly loop for index i: record i, at byte
      `unalignedStride * i`, goes from zeros to its attributes. */
  method AssembleVertex(vertices: array<byte>, i: nat, attrib: ObjAttrib, q: LayoutQueries, flipV: u32 -> u32,
                        shapeIndices: seq<ObjIndex>)
    requires i < |shapeIndices| && vertices.Length == q.unalignedStride * |shapeIndices|
    requires forall k :: 0 <= k < |shapeIndices| ==> Writable(attrib, q, shapeIndices[k])
    requires Filled(vertices[..], VertexBlock(attrib, q, flipV, shapeIndices[..i]))
    modifies vertices
    ensures Filled(vertices[..], VertexBlock(attrib, q, flipV, shapeIndices[..i + 1]))
  {
    var stride := q.unalignedStride;
    var base := stride * i;
    ghost var front := VertexBlock(attrib, q, flipV, shapeIndices[..i]);
    MulSucc(stride, i);
    MulMonotone(stride, i + 1, |shapeIndices|);
    ghost var back := Zeros(vertices.Length - stride * (i + 1));
    ZerosAppend(stride, vertices.Length - stride * (i + 1));
    assert vertices[..] == front + Zeros(stride) + back;
    WriteVertex(vertices, base, front, back, attrib, q, flipV, shapeIndices[i]);
    VertexBlockSnoc(attrib, q, flipV, shapeIndices, i);
  }

  /** The block of the first i + 1 indices extends that of the first i by
      record i. */
  lemma VertexBlockSnoc(attrib: ObjAttrib, q: LayoutQueries, flipV: u32 -> u32, indices: seq<ObjIndex>, i: nat)
    requires forall k :: 0 <= k < |indices| ==> Writable(attrib, q, indices[k])
    requires i < |indices|
    ensures VertexBlock(attrib, q, flipV, indices[..i + 1])
            == VertexBlock(attrib, q, flipV, indices[..i]) + Record(attrib, q, flipV, indices[i])
  {
    assert indices[..i + 1][..i] == indices[..i];
    var rs := Records(attrib, q, flipV, indices[..i + 1]);
    assert rs[..i] == Records(attrib, q, flipV, indices[..i]);
  }

  lemma ZerosAppend(a: nat, b: nat)
    ensures Zeros(a + b) == Zeros(a) + Zeros(b)
  {
    assert Zeros(a + b) == Zeros(a) + Zeros(b);
  }

  // ----- The mesh object -----

  datatype MeshError = ObjLoadFailed | BufferCreationFailed(error: BufferError)

  class Mesh {
    const indexBuffer: IndexBuffer
    const vertexBuffer: VertexBuffer

    ghost predicate Valid()
      reads this, indexBuffer, indexBuffer.buffer, vertexBuffer, vertexBuffer.structured, vertexBuffer.structured.buffer
    {
      indexBuffer.Valid() && vertexBuffer.Valid()
    }

    constructor Of(indexBuffer: IndexBuffer, vertexBuffer: VertexBuffer)
      requires indexBuffer.Valid() && vertexBuffer.Valid()
      ensures Valid() && this.indexBuffer == indexBuffer && this.vertexBuffer == vertexBuffer
    {
      this.indexBuffer := indexBuffer;
      this.vertexBuffer := vertexBuffer;
    }

    /** The constructor: an index buffer over `indices` and a vertex buffer of
        `vertexCount` elements of the vertex layout. */
    static method Create(device: DeviceContext, indices: seq<int32>, vertices: seq<byte>,
                         vertexLayout: StructuredLayout.Layout, vertexCount: u32)
        returns (r: Result<Mesh, BufferError>)
      requires |vertices| >= TotalSize(ElementSize(vertexLayout), vertexCount)
      ensures r.Success? <==> HasSuitableMemoryType(device.memoryTypes, device.memoryTypeBits, CREATE_MEMORY_PROPERTIES)
      ensures r.Success? ==> fresh(r.value) && r.value.Valid()
      ensures r.Success? ==> r.value.indexBuffer.indices == indices
      ensures r.Success? ==> r.value.indexBuffer.buffer.Holds(IndexBytes(indices), INDEX_SIZE, IndexCount(indices))
      ensures r.Success? ==> r.value.vertexBuffer.vertices == vertices && r.value.vertexBuffer.structured.layout == vertexLayout
      ensures r.Success? ==> r.value.vertexBuffer.structured.buffer.Holds(vertices, ElementSize(vertexLayout), vertexCount)
      ensures r.Failure? ==> r.error == NoSuitableMemoryType
    {
      var ib := IndexBuffer.Create(device, indices);
      if ib.Failure? {
        return Failure(ib.error);
      }
      var vb := VertexBuffer.Create(device, vertexLayout, vertices, vertexCount);
      // Both buffers search the same memory types for the same properties.
      assert vb.Success?;
      var mesh := new Mesh.Of(ib.value, vb.value);
      return Success(mesh);
    }

    /** `loadFromOBJ` after parsing: fails when the parser failed; otherwise
        assembles the first shape's vertices and identity index list and
        builds the mesh from them. */
    static method LoadFromObj(device: DeviceContext, load: ObjLoad, vertexLayout: StructuredLayout.Layout,
                              q: LayoutQueries, flipV: u32 -> u32)
        returns (r: Result<Mesh, MeshError>)
      requires load.success ==> |load.shapes| > 0
      requires load.success ==> MeshAssemblable(load.attrib, q, load.shapes[0].indices)
      requires load.success ==>
        TotalSize(ElementSize(vertexLayout), |load.shapes[0].indices|) <= q.unalignedStride * |load.shapes[0].indices|
      ensures !load.success ==> r == Failure(ObjLoadFailed)
      ensures load.success ==>
        (r.Success? <==> HasSuitableMemoryType(device.memoryTypes, device.memoryTypeBits, CREATE_MEMORY_PROPERTIES))
      ensures r.Failure? && load.success ==> r.error == BufferCreationFailed(NoSuitableMemoryType)
      ensures r.Success? ==> fresh(r.value) && r.value.Valid()
      ensures r.Success? ==>
        var shapeIndices := load.shapes[0].indices;
        && r.value.vertexBuffer.vertices == VertexBlock(load.attrib, q, flipV, shapeIndices)
        && r.value.vertexBuffer.structured.buffer.elementCount == |shapeIndices|
        && |r.value.indexBuffer.indices| == |shapeIndices|
        && (forall k :: 0 <= k < |shapeIndices| ==> r.value.indexBuffer.indices[k] == k)
      ensures r.Success? ==>
        var shapeIndices := load.shapes[0].indices;
        && r.value.vertexBuffer.structured.layout == vertexLayout
        && r.value.vertexBuffer.structured.buffer.Holds(VertexBlock(load.attrib, q, flipV, shapeIndices),
                                                        ElementSize(vertexLayout), |shapeIndices|)
        && r.value.indexBuffer.buffer.Holds(IndexBytes(Identity(|shapeIndices|)), INDEX_SIZE,
                                            IndexCount(Identity(|shapeIndices|)))
    {
      if !load.success {
        return Failure(ObjLoadFailed);
      }
      var shape := load.shapes[0];
      var vertexCount: u32 := |shape.indices|;
      var vertices, indices := AssembleVertices(load.attrib, q, flipV, shape.indices);
      var mesh := Create(device, indices, vertices[..], vertexLayout, vertexCount);
      if mesh.Failure? {
        return Failure(BufferCreationFailed(mesh.error));
      }
      return Success(mesh.value);
    }

    method GetIndexBuffer() returns (b: IndexBuffer)
      ensures b == indexBuffer
    {
      return indexBuffer;
    }

    method GetVertexBuffer() returns (b: VertexBuffer)
      ensures b == vertexBuffer
    {
      return vertexBuffer;
    }
  }

  /** What the assembly loop needs of the first shape to stay within its
      memory: a block size and an index count that fit their 32-bit types,
      and indices whose located attributes exist and fit a record. */
  predicate MeshAssemblable(attrib: ObjAttrib, q: LayoutQueries, shapeIndices: seq<ObjIndex>) {
    && q.unalignedStride * |shapeIndices| < U32_LIMIT
    && |shapeIndices| <= MAX_VERTEX_COUNT
    && forall k :: 0 <= k < |shapeIndices| ==> Writable(attrib, q, shapeIndices[k])
  }
}
