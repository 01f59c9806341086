/** `StructuredUniformBuffer` (src/shade/StructuredUniformBuffer.cpp): a
    structured buffer of exactly one element, tagged UNIFORM. */
module UniformBuffers {
  import opened Vk
  import opened Wrappers
  import opened Buffers
  import opened StructuredBuffers
  import StructuredLayout

  class StructuredUniformBuffer {
    const structured: StructuredBuffer

    ghost predicate Valid()
      reads this, structured, structured.buffer
    {
      structured.Valid() && structured.buffer.bufferType == Uniform
    }

    constructor Of(structured: StructuredBuffer)
      requires structured.Valid() && structured.buffer.bufferType == Uniform
      ensures Valid() && this.structured == structured
    {
      this.structured := structured;
    }

    /** The constructor: one element of the layout's stride, type UNIFORM.
        The `location` argument is accepted and ignored. */
    static method Create(device: DeviceContext, uniformLayout: StructuredLayout.Layout, data: seq<byte>, location: u32)
        returns (r: Result<StructuredUniformBuffer, BufferError>)
      requires |data| >= TotalSize(ElementSize(uniformLayout), 1)
      ensures r.Success? <==> HasSuitableMemoryType(device.memoryTypes, device.memoryTypeBits, CREATE_MEMORY_PROPERTIES)
      ensures r.Success? ==> fresh(r.value) && fresh(r.value.structured) && fresh(r.value.structured.buffer)
      ensures r.Success? ==> r.value.Valid() && r.value.structured.layout == uniformLayout
      ensures r.Success? ==> r.value.structured.buffer.Holds(data, ElementSize(uniformLayout), 1)
      ensures r.Success? ==> r.value.structured.buffer.totalBufferSize == ElementSize(uniformLayout)
      ensures r.Failure? ==> r.error == NoSuitableMemoryType
    {
      var sb := StructuredBuffer.Create(device, uniformLayout, data, 1, Uniform);
      if sb.Failure? {
        return Failure(sb.error);
      }
      var ub := new StructuredUniformBuffer.Of(sb.value);
      return Success(ub);
    }

    /** `setData(data)`: rewrites the single element; the size stays the stride. */
    method SetData(data: seq<byte>) returns (err: Option<BufferError>)
      requires Valid() && structured.buffer.live
      requires |data| >= TotalSize(ElementSize(structured.layout), 1)
      modifies structured.buffer
      ensures Valid()
      ensures err.None? <==> HasSuitableMemoryType(structured.buffer.device.memoryTypes, structured.buffer.device.memoryTypeBits, CREATE_MEMORY_PROPERTIES)
      ensures err.None? ==> structured.buffer.Holds(data, ElementSize(structured.layout), 1)
      ensures err.None? ==> structured.buffer.totalBufferSize == ElementSize(structured.layout)
      ensures err.Some? ==> !structured.buffer.live
    {
      err := structured.SetData(data, 1);
    }
  }
}
