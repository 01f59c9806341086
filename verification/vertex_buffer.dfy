/** `VertexBuffer` (src/shade/VertexBuffer.cpp): a structured buffer of
    `count` vertices, tagged VERTEX, that also keeps the caller's vertex data. */
module VertexBuffers {
  import opened Vk
  import opened Wrappers
  import opened Buffers
  import opened StructuredBuffers
  import StructuredLayout

  class VertexBuffer {
    const structured: StructuredBuffer
    /** The `vertices` the caller passed, kept as given. */
    const vertices: seq<byte>

    ghost predicate Valid()
      reads this, structured, structured.buffer
    {
      structured.Valid() && structured.buffer.bufferType == Vertex
    }

    constructor Of(structured: StructuredBuffer, vertices: seq<byte>)
      requires structured.Valid() && structured.buffer.bufferType == Vertex
      ensures Valid() && this.structured == structured && this.vertices == vertices
    {
      this.structured := structured;
      this.vertices := vertices;
    }

    /** The constructor: `count` elements of the vertex layout's stride. */
    static method Create(device: DeviceContext, vertexLayout: StructuredLayout.Layout, vertices: seq<byte>, count: u32)
        returns (r: Result<VertexBuffer, BufferError>)
      requires |vertices| >= TotalSize(ElementSize(vertexLayout), count)
      ensures r.Success? <==> HasSuitableMemoryType(device.memoryTypes, device.memoryTypeBits, CREATE_MEMORY_PROPERTIES)
      ensures r.Success? ==> fresh(r.value) && fresh(r.value.structured) && fresh(r.value.structured.buffer)
      ensures r.Success? ==> r.value.Valid() && r.value.structured.layout == vertexLayout && r.value.vertices == vertices
      ensures r.Success? ==> r.value.structured.buffer.Holds(vertices, ElementSize(vertexLayout), count)
      ensures r.Failure? ==> r.error == NoSuitableMemoryType
    {
      var sb := StructuredBuffer.Create(device, vertexLayout, vertices, count, Vertex);
      if sb.Failure? {
        return Failure(sb.error);
      }
      var vb := new VertexBuffer.Of(sb.value, vertices);
      return Success(vb);
    }
  }
}
