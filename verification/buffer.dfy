/** `Buffer` (src/shade/Buffer.cpp): a host-visible device buffer holding
    `elementCount` elements of `elementSize` bytes, with exactly one live
    device allocation between operations. */
module Buffers {
  import opened Vk
  import opened Wrappers

  datatype BufferType = Vertex | Index | Uniform

  /** `VkMemoryPropertyFlagBits` (Vulkan 1.0, section 10.2 "Device Memory"). */
  datatype MemoryProperty = DeviceLocal | HostVisible | HostCoherent | HostCached | LazilyAllocated

  /** `VkBufferUsageFlagBits` the engine could ask for. */
  datatype BufferUsage = VertexBufferUsage | IndexBufferUsage | UniformBufferUsage

  datatype BufferError = NoSuitableMemoryType

  /** What `createBuffer` learns from the driver: the property flags of each
      memory type (`VkPhysicalDeviceMemoryProperties`) and the
      `memoryTypeBits` of the buffer's memory requirements. One value of
      `memoryTypeBits` serves every buffer: `createBuffer` always creates with
      VERTEX usage and flags 0, and the Vulkan specification (Resource Memory
      Association) guarantees the same `memoryTypeBits` for
      buffers created with the same usage and flags. */
  datatype DeviceContext = DeviceContext(memoryTypes: seq<set<MemoryProperty>>, memoryTypeBits: u32)

  /** `createBuffer` always creates a vertex buffer in host-visible, coherent memory. */
  const CREATE_USAGE: BufferUsage := VertexBufferUsage
  const CREATE_MEMORY_PROPERTIES: set<MemoryProperty> := {HostVisible, HostCoherent}

  function Pow2(i: nat): (p: nat)
    ensures p >= 1
  {
    if i == 0 then 1 else 2 * Pow2(i - 1)
  }

  /** Bit i of a `uint32_t` mask, i.e. `mask & (1 << i)` is non-zero. */
  predicate HasBit(mask: u32, i: nat) {
    (mask / Pow2(i)) % 2 == 1
  }

  /** Memory type i is allowed by the filter and has every requested property. */
  predicate IsSuitableMemoryType(memoryTypes: seq<set<MemoryProperty>>, typeFilter: u32, properties: set<MemoryProperty>, i: nat) {
    i < |memoryTypes| && HasBit(typeFilter, i) && properties <= memoryTypes[i]
  }

  predicate HasSuitableMemoryType(memoryTypes: seq<set<MemoryProperty>>, typeFilter: u32, properties: set<MemoryProperty>) {
    exists i :: 0 <= i < |memoryTypes| && IsSuitableMemoryType(memoryTypes, typeFilter, properties, i)
  }

  /** `findMemoryType`: the first suitable memory type, or an error when there is none. */
  method FindMemoryType(memoryTypes: seq<set<MemoryProperty>>, typeFilter: u32, properties: set<MemoryProperty>)
      returns (r: Result<nat, BufferError>)
    ensures r.Success? <==> HasSuitableMemoryType(memoryTypes, typeFilter, properties)
    ensures r.Success? ==> IsSuitableMemoryType(memoryTypes, typeFilter, properties, r.value)
    ensures r.Success? ==> forall j :: 0 <= j < r.value ==> !IsSuitableMemoryType(memoryTypes, typeFilter, properties, j)
    ensures r.Failure? ==> r.error == NoSuitableMemoryType
  {
    for i := 0 to |memoryTypes|
      invariant forall j :: 0 <= j < i ==> !IsSuitableMemoryType(memoryTypes, typeFilter, properties, j)
    {
      if HasBit(typeFilter, i) && properties <= memoryTypes[i] {
        assert IsSuitableMemoryType(memoryTypes, typeFilter, properties, i);
        return Success(i);
      }
    }
    return Failure(NoSuitableMemoryType);
  }

  /** `totalBufferSize = elementSize * elementCount`, a `uint32_t` product. */
  function TotalSize(elementSize: u32, elementCount: u32): (total: u32)
    ensures elementSize * elementCount < U32_LIMIT ==> total == elementSize * elementCount
  {
    Wrap32(elementSize * elementCount)
  }

  class Buffer {
    const device: DeviceContext
    const bufferType: BufferType
    var elementSize: u32
    var elementCount: u32
    var totalBufferSize: u32
    var usage: BufferUsage
    var memoryTypeIndex: nat
    /** The bytes of the live device allocation. */
    var contents: seq<byte>
    var live: bool
    /** Device allocations made and freed by this buffer so far. */
    var allocationCount: nat
    var freeCount: nat

    /** Exactly one allocation is live, or none after a failed creation; a
        live allocation is as large as the buffer and sits in a memory type
        the search accepts. */
    ghost predicate Valid()
      reads this
    {
      && allocationCount == freeCount + (if live then 1 else 0)
      && (live ==>
            && |contents| == totalBufferSize
            && usage == CREATE_USAGE
            && IsSuitableMemoryType(device.memoryTypes, device.memoryTypeBits, CREATE_MEMORY_PROPERTIES, memoryTypeIndex))
      && (!live ==> contents == [])
    }

    /** The buffer's state after a successful `createBuffer(data, elementSize, elementCount)`. */
    ghost predicate Holds(data: seq<byte>, elementSize: u32, elementCount: u32)
      reads this
    {
      && live
      && this.elementSize == elementSize
      && this.elementCount == elementCount
      && totalBufferSize == TotalSize(elementSize, elementCount)
      && |data| >= totalBufferSize
      && contents == data[..totalBufferSize]
    }

    /** The members as they are before the constructor's `createBuffer` call. */
    constructor Init(device: DeviceContext, bufferType: BufferType)
      ensures Valid() && !live
      ensures this.device == device && this.bufferType == bufferType
      ensures allocationCount == 0 && freeCount == 0
    {
      this.device := device;
      this.bufferType := bufferType;
      elementSize, elementCount, totalBufferSize := 0, 0, 0;
      usage := CREATE_USAGE;
      memoryTypeIndex := 0;
      contents := [];
      live := false;
      allocationCount, freeCount := 0, 0;
    }

    /** The constructor: a new buffer filled by `createBuffer`, or the error
        `findMemoryType` throws. */
    static method Create(device: DeviceContext, data: seq<byte>, elementSize: u32, elementCount: u32, bufferType: BufferType)
        returns (r: Result<Buffer, BufferError>)
      requires |data| >= TotalSize(elementSize, elementCount)
      ensures r.Success? <==> HasSuitableMemoryType(device.memoryTypes, device.memoryTypeBits, CREATE_MEMORY_PROPERTIES)
      ensures r.Success? ==> fresh(r.value) && r.value.Valid() && r.value.Holds(data, elementSize, elementCount)
      ensures r.Success? ==> r.value.device == device && r.value.bufferType == bufferType && r.value.allocationCount == 1
      ensures r.Failure? ==> r.error == NoSuitableMemoryType
    {
      var b := new Buffer.Init(device, bufferType);
      var err := b.CreateBuffer(data, elementSize, elementCount);
      if err.Some? {
        return Failure(err.value);
      }
      return Success(b);
    }

    /** `createBuffer`: records the sizes, allocates host-visible coherent
        memory of the first suitable type and copies the first
        `totalBufferSize` bytes of `data` into it. */
    method CreateBuffer(data: seq<byte>, elementSize: u32, elementCount: u32) returns (err: Option<BufferError>)
      requires Valid() && !live
      requires |data| >= TotalSize(elementSize, elementCount)
      modifies this
      ensures Valid()
      ensures this.elementSize == elementSize && this.elementCount == elementCount
      ensures totalBufferSize == TotalSize(elementSize, elementCount)
      ensures err.None? <==> HasSuitableMemoryType(device.memoryTypes, device.memoryTypeBits, CREATE_MEMORY_PROPERTIES)
      ensures err.None? ==> Holds(data, elementSize, elementCount) && allocationCount == old(allocationCount) + 1
      ensures err.None? ==> forall j :: 0 <= j < memoryTypeIndex ==>
                !IsSuitableMemoryType(device.memoryTypes, device.memoryTypeBits, CREATE_MEMORY_PROPERTIES, j)
      ensures err.Some? ==> err.value == NoSuitableMemoryType && !live && allocationCount == old(allocationCount)
      ensures freeCount == old(freeCount)
    {
      this.elementSize := elementSize;
      this.elementCount := elementCount;
      totalBufferSize := TotalSize(elementSize, elementCount);
      usage := CREATE_USAGE;
      var index := FindMemoryType(device.memoryTypes, device.memoryTypeBits, CREATE_MEMORY_PROPERTIES);
      if index.Failure? {
        return Some(index.error);
      }
      memoryTypeIndex := index.value;
      allocationCount := allocationCount + 1;
      live := true;
      contents := data[..totalBufferSize];
      return None;
    }

    /** `freeBuffer`: releases the live allocation. */
    method FreeBuffer()
      requires Valid() && live
      modifies this
      ensures Valid() && !live
      ensures freeCount == old(freeCount) + 1 && allocationCount == old(allocationCount)
      ensures elementSize == old(elementSize) && elementCount == old(elementCount)
      ensures totalBufferSize == old(totalBufferSize)
    {
      live := false;
      contents := [];
      freeCount := freeCount + 1;
    }

    /** `setData`: always frees the allocation and creates a new one, even when
        size and count are unchanged; afterwards only the new arguments show. */
    method SetData(data: seq<byte>, elementSize: u32, elementCount: u32) returns (err: Option<BufferError>)
      requires Valid() && live
      requires |data| >= TotalSize(elementSize, elementCount)
      modifies this
      ensures Valid()
      ensures freeCount == old(freeCount) + 1
      ensures err.None? <==> HasSuitableMemoryType(device.memoryTypes, device.memoryTypeBits, CREATE_MEMORY_PROPERTIES)
      ensures err.None? ==> Holds(data, elementSize, elementCount) && allocationCount == old(allocationCount) + 1
      ensures err.Some? ==> !live && err.value == NoSuitableMemoryType
    {
      FreeBuffer();
      err := CreateBuffer(data, elementSize, elementCount);
    }

    /** `getElementCount`. */
    method GetElementCount() returns (count: u32)
      ensures count == elementCount
    {
      count := elementCount;
    }

    /** The destructor: releases the live allocation, so every allocation made
        has been freed. */
    method Destroy()
      requires Valid() && live
      modifies this
      ensures Valid() && !live && allocationCount == freeCount
    {
      FreeBuffer();
    }
  }
}
