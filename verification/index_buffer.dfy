/** `IndexBuffer` (src/shade/IndexBuffer.cpp): a buffer of 4-byte `int`
    indices, tagged INDEX, that also keeps a copy of the index list. */
module IndexBuffers {
  import opened Vk
  import opened Wrappers
  import opened Buffers

  /** `sizeof(int)`. */
  const INDEX_SIZE: u32 := 4

  /** The bytes `indices.data()` points at. */
  function IndexBytes(indices: seq<int32>): (bytes: seq<byte>)
    ensures |bytes| == 4 * |indices|
  {
    Words(seq(|indices|, i requires 0 <= i < |indices| => Int32Bits(indices[i])))
  }

  /** The index list stored in a byte image. */
  function IndicesOf(bytes: seq<byte>): (indices: seq<int>)
    requires |bytes| % 4 == 0
    ensures |indices| == |bytes| / 4
  {
    var ws := WordsOf(bytes);
    seq(|ws|, i requires 0 <= i < |ws| => Int32Of(ws[i]))
  }

  /** Reading the buffer bytes back as `int`s gives the index list. */
  lemma IndexBytesRoundTrip(indices: seq<int32>)
    ensures IndicesOf(IndexBytes(indices)) == indices
  {
    var ws := seq(|indices|, i requires 0 <= i < |indices| => Int32Bits(indices[i]));
    WordsRoundTrip(ws);
    forall i | 0 <= i < |indices| ensures Int32Of(ws[i]) == indices[i] {
      Int32RoundTrip(indices[i]);
    }
  }

  /** The element count: `indices.size()` narrowed to `uint32_t`. */
  function IndexCount(indices: seq<int32>): u32 {
    Wrap32(|indices|)
  }

  lemma IndexDataLargeEnough(indices: seq<int32>)
    ensures |IndexBytes(indices)| >= TotalSize(INDEX_SIZE, IndexCount(indices))
  {
  }

  class IndexBuffer {
    const buffer: Buffer
    /** The copy of the index list the object keeps. */
    const indices: seq<int32>

    ghost predicate Valid()
      reads this, buffer
    {
      buffer.Valid() && buffer.bufferType == Index && buffer.elementSize == INDEX_SIZE
    }

    constructor Of(buffer: Buffer, indices: seq<int32>)
      requires buffer.Valid() && buffer.bufferType == Index && buffer.elementSize == INDEX_SIZE
      ensures Valid() && this.buffer == buffer && this.indices == indices
    {
      this.buffer := buffer;
      this.indices := indices;
    }

    /** The constructor: `indices.size()` elements of `sizeof(int)` bytes,
        filled from the index list in order. */
    static method Create(device: DeviceContext, indices: seq<int32>) returns (r: Result<IndexBuffer, BufferError>)
      ensures r.Success? <==> HasSuitableMemoryType(device.memoryTypes, device.memoryTypeBits, CREATE_MEMORY_PROPERTIES)
      ensures r.Success? ==> fresh(r.value) && fresh(r.value.buffer) && r.value.Valid() && r.value.indices == indices
      ensures r.Success? ==> r.value.buffer.Holds(IndexBytes(indices), INDEX_SIZE, IndexCount(indices))
      ensures r.Success? && 4 * |indices| < U32_LIMIT ==>
                r.value.buffer.contents == IndexBytes(indices) && r.value.buffer.elementCount == |indices|
      ensures r.Failure? ==> r.error == NoSuitableMemoryType
    {
      IndexDataLargeEnough(indices);
      var b := Buffer.Create(device, IndexBytes(indices), INDEX_SIZE, IndexCount(indices), Index);
      if b.Failure? {
        return Failure(b.error);
      }
      var ib := new IndexBuffer.Of(b.value, indices);
      return Success(ib);
    }
  }
}
