/** `StructuredBuffer` (src/shade/StructuredBuffer.cpp:7-22): a `Buffer` whose
    element size is the stride of a `StructuredBufferLayout`. The inheritance
    of the C++ class is modelled as composition: the object holds its layout
    and the `Buffer` it configures. */
module StructuredBuffers {
  import opened Vk
  import opened Wrappers
  import opened Buffers
  import StructuredLayout

  /** The element size a structured buffer passes to `Buffer`: `getStride()`. */
  function ElementSize(layout: StructuredLayout.Layout): u32 {
    Wrap32(StructuredLayout.Stride(layout))
  }

  class StructuredBuffer {
    const layout: StructuredLayout.Layout
    const buffer: Buffer

    ghost predicate Valid()
      reads this, buffer
    {
      buffer.Valid() && buffer.elementSize == ElementSize(layout)
    }

    constructor Of(layout: StructuredLayout.Layout, buffer: Buffer)
      requires buffer.Valid() && buffer.elementSize == ElementSize(layout)
      ensures Valid() && this.layout == layout && this.buffer == buffer
    {
      this.layout := layout;
      this.buffer := buffer;
    }

    /** The constructor: a `Buffer` of `count` elements of the layout's stride. */
    static method Create(device: DeviceContext, layout: StructuredLayout.Layout, data: seq<byte>, count: u32, bufferType: BufferType)
        returns (r: Result<StructuredBuffer, BufferError>)
      requires |data| >= TotalSize(ElementSize(layout), count)
      ensures r.Success? <==> HasSuitableMemoryType(device.memoryTypes, device.memoryTypeBits, CREATE_MEMORY_PROPERTIES)
      ensures r.Success? ==> fresh(r.value) && fresh(r.value.buffer) && r.value.Valid() && r.value.layout == layout
      ensures r.Success? ==> r.value.buffer.Holds(data, ElementSize(layout), count)
      ensures r.Success? ==> r.value.buffer.bufferType == bufferType && r.value.buffer.device == device
      ensures r.Failure? ==> r.error == NoSuitableMemoryType
    {
      var stride := StructuredLayout.GetStride(layout);
      var b := Buffer.Create(device, data, stride, count, bufferType);
      if b.Failure? {
        return Failure(b.error);
      }
      var sb := new StructuredBuffer.Of(layout, b.value);
      return Success(sb);
    }

    /** `setData(data, count)`: recreates the buffer with `count` elements of
        the layout's stride. */
    method SetData(data: seq<byte>, count: u32) returns (err: Option<BufferError>)
      requires Valid() && buffer.live
      requires |data| >= TotalSize(ElementSize(layout), count)
      modifies buffer
      ensures Valid()
      ensures err.None? <==> HasSuitableMemoryType(buffer.device.memoryTypes, buffer.device.memoryTypeBits, CREATE_MEMORY_PROPERTIES)
      ensures err.None? ==> buffer.Holds(data, ElementSize(layout), count)
      ensures err.None? ==> buffer.allocationCount == old(buffer.allocationCount) + 1
      ensures err.Some? ==> !buffer.live
    {
      var stride := StructuredLayout.GetStride(layout);
      err := buffer.SetData(data, stride, count);
    }
  }

  lemma MulAtLeast(a: nat, b: nat)
    requires b >= 1
    ensures a <= a * b
  {
    assert a * b == a + a * (b - 1);
  }

  /** Without overflow a structured buffer holds stride × count bytes. */
  lemma TotalIsStrideTimesCount(layout: StructuredLayout.Layout, count: u32)
    requires StructuredLayout.Stride(layout) * count < U32_LIMIT
    ensures TotalSize(ElementSize(layout), count) == StructuredLayout.Stride(layout) * count
  {
    var s := StructuredLayout.Stride(layout);
    if count > 0 {
      MulAtLeast(s, count);
      assert Wrap32(s) == s;
    }
  }
}
