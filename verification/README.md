# Shade core, modelled in Dafny

Shade is a thin C++ wrapper over Vulkan. This project models the parts of it that hold real logic and proves properties of them:

- **Layout engine.** This covers `StructuredBufferLayout` and the older `ShaderLayout`. Each has a type → size table and a type → `VkFormat` table. The stride is the sum of the entry sizes. The vertex attribute descriptions carry prefix-sum offsets.
- **Buffer bookkeeping.** This is `Buffer` with its size fields, the memory-type search, the one live device allocation and `setData`'s free-then-recreate. It also covers the structured, uniform, vertex and index presets built on `Buffer`.
- **Mesh assembly.** This is what `Mesh::loadFromOBJ` does once the OBJ file is parsed. It builds a zeroed block of stride-pitched vertex records. Each record gets the position, normal and texture coordinate the layout locates. The index list is 0, 1, …, n-1. The `Mesh` constructor then builds an index buffer and a vertex buffer from these.
- **Device and swapchain selection.** These are the decision rules of `ShadeApplication`:
  - extent clamping;
  - present-mode and surface-format preference;
  - the image-count clamp;
  - the queue-family scan;
  - the extension check;
  - the choice of the first suitable device;
  - queue create-infos and the image sharing mode.

The models follow each file's own form:

- **Pure table lookups and sums** are functions with lemmas.
- **Loops** are methods with loop invariants, each proved against a specification function. Examples are `getStride`, `_getAttributeDescriptions`, `findMemoryType`, `findQueueFamilies`, the extension erase loop and the vertex assembly loop.
- **The vertex block is a byte `array`.** The assembly loop writes into it float by float.
- **Objects whose fields change are classes.** `Buffer` and the presets hold their state in fields, with `modifies` clauses. C++ inheritance becomes composition: a `StructuredBuffer` holds its `Buffer`.
- **Vulkan query results are inputs.** Memory types, queue families, extensions, surface capabilities and formats are passed in as plain data.
- **Number encoding.**
  - `uint32_t` arithmetic wraps explicitly (`Vk.Wrap32`).
  - Host memory is a sequence of bytes.
  - A float or `int` is the little-endian image of a 32-bit word. Float values are carried as opaque bit patterns.

Points where the code is easy to misread:

- **Size table.** `getBufferVariableTypeSize` gives VEC3 16 bytes and MAT3 52 (`src/shade/StructuredBuffer.cpp:45-52`), not the tightly packed 12 and 36. The model uses 16 and 52.
- **Alignment.** `getAlignedStride`, `getUnalignedStride` and `getPropertyOffset` are declared (`include/shade/StructuredBuffer.hpp:61-68`) but have no bodies, so the model has no alignment rule. The mesh loader's calls to the last two are inputs.
- **Header revision.** The headers declare `Buffer(app, …, bufferType)` and `getStride(BufferType)`. The `.cpp` bodies use a different signature, and the model follows the bodies. It keeps the buffer type as a field.

## Model

| member | source | states |
|---|---|---|
| StructuredLayout.TypeSize | src/shade/StructuredBuffer.cpp:35-59 | the size table; every size is positive, at most 64 and a multiple of 4 |
| StructuredLayout.TypeFormat | src/shade/StructuredBuffer.cpp:61-85 | the format table: UNDEFINED exactly for the matrix types; FLOAT → R32_SFLOAT, INT → R32_SINT |
| StructuredLayout.Stride | src/shade/StructuredBuffer.cpp:87-97 | the exact sum of entry sizes is a multiple of 4, is 0 exactly for the empty layout, and is at most 64 per entry |
| StructuredLayout.GetStride | src/shade/StructuredBuffer.cpp:87-97 | the `uint32_t` accumulator loop returns the exact stride wrapped to 32 bits |
| StructuredLayout.StrideAppend | src/shade/StructuredBuffer.cpp:87-97 | stride(a ++ b) = stride(a) + stride(b) |
| StructuredLayout.StrideDependsOnTypesOnly | src/shade/StructuredBuffer.cpp:91-94 | two layouts with the same entry types have the same stride, whatever their names and flags |
| StructuredLayout.StrideAtLeast | src/shade/StructuredBuffer.cpp:87-97 | every entry adds at least 4 bytes to the stride |
| StructuredLayout.AttributeDescriptions | src/shade/StructuredBuffer.cpp:99-119 | one description per entry |
| StructuredLayout.GetAttributeDescriptions | src/shade/StructuredBuffer.cpp:99-119 | the fill loop produces, for entry i in order: binding 0, location 0, the entry's format, and the running `uint32_t` offset |
| StructuredLayout.OffsetsIncrease | src/shade/StructuredBuffer.cpp:113-116 | offsets of later entries are at least 4 bytes per entry further on |
| StructuredLayout.DescriptionChain | src/shade/StructuredBuffer.cpp:113-116 | offset of entry i plus its size is the offset of entry i+1, in `uint32_t` |
| StructuredLayout.DescriptionOffsetExact | src/shade/StructuredBuffer.cpp:103-116 | without overflow, description i's offset is the prefix sum; the first is 0; the last plus its size is the stride |
| StructuredLayout.DescriptionOffsetsIncrease | src/shade/StructuredBuffer.cpp:103-116 | without overflow the offsets strictly increase |
| StructuredLayout.DemoLayouts | src/DemoApplication.cpp:17-22 | `{mvp: MAT4}` has stride 64; `{VEC2, VEC2}` has stride 16 and descriptions at offsets 0 and 8 |
| ShaderLayout.TypeSize | src/shade/Shader.cpp:242-256 | the ShaderLayout size table (FLOAT, INT, VEC2) agrees with the StructuredBufferLayout table |
| ShaderLayout.TypeFormat | src/shade/Shader.cpp:258-272 | the ShaderLayout format table agrees with the StructuredBufferLayout table |
| ShaderLayout.StrideAgrees | src/shade/Shader.cpp:274-284 | on layouts the table covers, the stride equals the StructuredBufferLayout stride of the same types |
| ShaderLayout.DescriptionsAgree | src/shade/Shader.cpp:286-307 | the attribute descriptions, offsets included, equal the StructuredBufferLayout ones |
| ShaderLayout.AttributeDescriptions | src/shade/Shader.cpp:286-307 | one description per type |
| ShaderLayout.GetStride | src/shade/Shader.cpp:274-284 | the accumulator loop returns the wrapped sum of sizes; 0 for the empty layout |
| ShaderLayout.GetAttributeDescriptions | src/shade/Shader.cpp:286-307 | the fill loop yields binding 0, location 0, the format and the running offset per type, in order |
| ShaderLayout.VertexInputState | src/shade/Shader.cpp:51-59 | one per-vertex binding 0 whose stride is `stride()`, and one attribute description per layout type |
| Buffers.FindMemoryType | src/shade/Buffer.cpp:21-38 | succeeds iff some type is allowed by the filter and has every requested property; returns the smallest such index, otherwise the error |
| Buffers.TotalSize | src/shade/Buffer.cpp:44 | the `uint32_t` product equals elementSize × elementCount when that fits |
| Buffers.Buffer.Init | src/shade/Buffer.cpp:7-11 | a buffer with no allocation yet, bound to the device |
| Buffers.Buffer.Create | src/shade/Buffer.cpp:7-13 | the constructor succeeds iff a host-visible coherent memory type exists; the new buffer then holds the sizes and the first totalBufferSize bytes of data, with one allocation |
| Buffers.Buffer.CreateBuffer | src/shade/Buffer.cpp:40-83 | sets elementSize, elementCount and totalBufferSize; on success allocates exactly once in the first suitable memory type (VERTEX usage), and the contents are the first totalBufferSize bytes of data; otherwise reports the error with no memory allocated |
| Buffers.Buffer.FreeBuffer | src/shade/Buffer.cpp:85-89 | releases the live allocation; the size fields stay |
| Buffers.Buffer.SetData | src/shade/Buffer.cpp:101-111 | always frees and then recreates; afterwards the fields and contents reflect only the new arguments |
| Buffers.Buffer.GetElementCount | src/shade/Buffer.cpp:96-99 | returns the count of the most recent createBuffer |
| Buffers.Buffer.Destroy | src/shade/Buffer.cpp:15-19 | the destructor frees the live allocation, so allocations made equal allocations freed |
| StructuredBuffers.StructuredBuffer.Create | src/shade/StructuredBuffer.cpp:7-12 | a Buffer whose element size is the layout stride and whose count is `count` |
| StructuredBuffers.StructuredBuffer.SetData | src/shade/StructuredBuffer.cpp:19-22 | recreates the buffer with the layout stride and the new count |
| StructuredBuffers.TotalIsStrideTimesCount | src/shade/StructuredBuffer.cpp:7-12 | without overflow a structured buffer holds stride × count bytes |
| UniformBuffers.StructuredUniformBuffer.Create | src/shade/StructuredUniformBuffer.cpp:5-10 | one element of the layout stride, type UNIFORM; `location` is ignored; total size is the stride |
| UniformBuffers.StructuredUniformBuffer.SetData | src/shade/StructuredUniformBuffer.cpp:17-20 | rewrites exactly one element; the total size stays the stride |
| VertexBuffers.VertexBuffer.Create | src/shade/VertexBuffer.cpp:5-9 | `count` elements of the layout stride, type VERTEX; keeps a copy of the caller's vertex data |
| IndexBuffers.IndexBytes | src/shade/IndexBuffer.cpp:5 | the bytes of `indices.data()` are 4 per index |
| IndexBuffers.IndexBytesRoundTrip | src/shade/IndexBuffer.cpp:5 | reading the buffer bytes back as `int`s gives the index list |
| IndexBuffers.IndexDataLargeEnough | src/shade/IndexBuffer.cpp:5 | the index bytes cover the buffer's total size |
| IndexBuffers.IndexBuffer.Create | src/shade/IndexBuffer.cpp:5-8 | `indices.size()` elements of 4 bytes, type INDEX, filled from the indices in order; the object keeps a copy of the list |
| Meshes.PositionOf | src/shade/Mesh.cpp:141-144 | a position is three components |
| Meshes.TexcoordOf | src/shade/Mesh.cpp:159-161 | a texture coordinate is two components, the second flipped |
| Meshes.Record | src/shade/Mesh.cpp:136-162 | a vertex record is `unalignedStride` bytes |
| Meshes.RecordInStages | src/shade/Mesh.cpp:138-162 | a record is the zeroed record with the position, the normal and the texcoord stored over it, in that order, each only when located |
| Meshes.RecordZeroOutsideSlots | src/shade/Mesh.cpp:128-162 | bytes outside every located attribute stay zero; the texcoord reads back as [u, flipV(v)] |
| Meshes.RecordReadsBack | src/shade/Mesh.cpp:138-154 | with non-overlapping slots, position and normal read back as components 3·index … 3·index+2 of their arrays |
| Meshes.VertexBlock | src/shade/Mesh.cpp:128 | the block is unalignedStride × vertexCount bytes |
| Meshes.VertexBlockRecords | src/shade/Mesh.cpp:136 | record i of the block starts at byte stride × i and is the record of index i |
| Meshes.VertexBlockSnoc | src/shade/Mesh.cpp:134-166 | each iteration appends the next record |
| Meshes.NoPropertiesZeroBlock | src/shade/Mesh.cpp:113-129 | with no flag located, the whole block is zero |
| Meshes.StoreVec | src/shade/Mesh.cpp:140-161 | a vec2/vec3 assignment stores the floats' bytes in order at the slot and changes nothing else |
| Meshes.WriteVertex | src/shade/Mesh.cpp:136-162 | one iteration turns the zeroed record between front and back into the index's record |
| Meshes.AssembleVertex | src/shade/Mesh.cpp:134-165 | after iteration i the block holds records 0..i followed by zeros |
| Meshes.AssembleVertices | src/shade/Mesh.cpp:127-166 | a fresh zero-filled block becomes the vertex block; the index list is 0, 1, …, n-1 |
| Meshes.Identity | src/shade/Mesh.cpp:164 | the list 0, 1, …, n-1 |
| Meshes.Mesh.Create | src/shade/Mesh.cpp:10-16 | an index buffer over `indices` and a vertex buffer of `vertexCount` elements of the layout; succeeds iff memory is found |
| Meshes.Mesh.LoadFromObj | src/shade/Mesh.cpp:34-168 | a failed load fails before anything is built; otherwise the vertex buffer, over the given vertex layout, holds the vertex block of the first shape with vertexCount = index count, and the index buffer holds the bytes of 0, 1, …, n-1; success iff suitable memory exists |
| Meshes.Mesh.GetIndexBuffer | src/shade/Mesh.cpp:24-27 | returns the index buffer |
| Meshes.Mesh.GetVertexBuffer | src/shade/Mesh.cpp:29-32 | returns the vertex buffer |
| DeviceSelection.OptimalSwapExtent | src/shade/ShadeApplication.cpp:433-458 | the current extent unless its width is UINT32_MAX; otherwise each dimension is the window size clamped to [min, max] (min when they cross) |
| DeviceSelection.SwapchainImageCount | src/shade/ShadeApplication.cpp:367-373 | min+1 (wrapped), lowered to max when max > 0 and it would be exceeded |
| DeviceSelection.ImageCountWithinLimits | src/shade/ShadeApplication.cpp:367-373 | under the surface guarantees the count is at least the minimum, and is min+1 exactly when the maximum leaves room |
| DeviceSelection.OptimalSwapPresentMode | src/shade/ShadeApplication.cpp:460-471 | MAILBOX iff it is offered, FIFO otherwise |
| DeviceSelection.OptimalSwapSurfaceFormat | src/shade/ShadeApplication.cpp:473-487 | (B8G8R8A8_UNORM, SRGB_NONLINEAR) if offered, else the first format; always one of the offered formats |
| DeviceSelection.LastGraphics | src/shade/ShadeApplication.cpp:226-229 | the last graphics family before the scan position, or none if there is none |
| DeviceSelection.LastPresent | src/shade/ShadeApplication.cpp:231-237 | the last presenting family before the scan position, or none if there is none |
| DeviceSelection.ScanEnd | src/shade/ShadeApplication.cpp:221-224 | the scan stops within the family list |
| DeviceSelection.ScanEndComplete | src/shade/ShadeApplication.cpp:221-240 | the scan stops early only once both indices are set |
| DeviceSelection.FindQueueFamilies | src/shade/ShadeApplication.cpp:209-243 | the scan loop returns the specified choice |
| DeviceSelection.QueueFamilyChoiceCorrect | src/shade/ShadeApplication.cpp:209-243 | chosen indices exist and have the capability; complete iff the device has a graphics family and a presenting family |
| DeviceSelection.CheckDeviceExtensionsSupport | src/shade/ShadeApplication.cpp:245-267 | true iff every required extension is among the available ones |
| DeviceSelection.IsDeviceSuitable | src/shade/ShadeApplication.cpp:184-207 | true iff the queues are complete, the extensions are supported, and there are formats and present modes |
| DeviceSelection.PickPhysicalDevice | src/shade/ShadeApplication.cpp:152-182 | the first suitable device, and success whenever some device is suitable; an error for no devices, and for no suitable device |
| DeviceSelection.UniqueQueueFamilies | src/shade/ShadeApplication.cpp:316-318 | the set {graphics, present} in ascending order, without duplicates |
| DeviceSelection.QueueCreateInfos | src/shade/ShadeApplication.cpp:314-332 | one create-info with one queue per distinct family, covering exactly {graphics, present}, in ascending order |
| DeviceSelection.ImageSharingFor | src/shade/ShadeApplication.cpp:400-411 | CONCURRENT over [graphics, present] iff they differ, else EXCLUSIVE with no family list |
| DeviceSelection.SharingMatchesQueues | src/shade/ShadeApplication.cpp:400-411 | concurrent sharing exactly when two queues are created, over the created families |
| DeviceSelection.ChooseSwapchainSettings | src/shade/ShadeApplication.cpp:363-411 | the swapchain settings combine the image count, extent, surface format, present mode and sharing rules above; the preferred surface format when offered, otherwise the first offered format |

## Left out

- **Driver failures.** `vkCreateBuffer`, `vkAllocateMemory`, `vkMapMemory` and the other Vulkan calls are taken to succeed. Only the memory-type search can fail.
- **Undefined behaviour in the type tables.** In the `ShaderLayout` tables, VEC3 and VEC4 fall off the end of the switch without throwing. This is a precondition (`ShaderLayout.Sized`) and is not modelled.
- **Buffer usage.** `createBuffer` requests VERTEX usage for every buffer, index and uniform buffers included. The model records this in the `usage` field and does not model the effect on the device.
- **The OBJ parser.** `tinyobj::LoadObj` is not part of this model, nor are the warning and error text it prints. Its result is an input: success, attribute arrays and shapes.
- **Layout queries.** `getUnalignedStride` and `getPropertyOffset` have no bodies in the source. Their answers are inputs (`Meshes.LayoutQueries`).
- **The texture-coordinate flip.** The float subtraction `1.0f - v` is an input function `flipV` on float bit patterns. No IEEE arithmetic is modelled.
- **The no-property warning.** `loadFromOBJ` prints a warning when no attribute is located. The print is left out; `Meshes.NoPropertiesZeroBlock` states the resulting all-zero block.
- Meshes.Mesh.LoadFromObj: requires a non-empty shape list, because the code reads `shapes[0]` unchecked.
  - It also requires index values whose located attributes exist and fit inside a record. The code does not check them: out-of-range indices read or write outside the arrays.
  - It also requires a block size that fits `uint32_t`, and an index count that fits `int`.
  - It also requires the vertex buffer's `getStride() * count` bytes to fit within the assembled block, since `memcpy` would otherwise read past the block.
- **The `malloc`'d block.** It is never freed in the source. The model does not track that leak, and does not model the `Mesh` destructor's `delete` of both buffers.
- **The window size.** The `static_cast<uint32_t>` of the window size is not modelled. The window extent is passed in as two `uint32_t` values.
- **Vulkan queries.** Instance, surface and swapchain creation are not modelled. Neither are image views, the render pass, pipelines, descriptor sets, textures, command buffers, frame submission or the main loop. The physical-device, queue-family, extension and surface queries are replaced by their results.
- **Concurrency and GPU-side synchronisation.** Semaphores and idle waits are not modelled.
- **Host byte order.** It is taken to be little-endian.
- VertexBuffers.VertexBuffer.Create: keeps a value copy of the caller's vertex bytes. The source stores the caller's pointer (`src/shade/VertexBuffer.cpp:8`), so later writes through that pointer show through `vertices`; the model does not capture this aliasing.
- Buffers.Buffer.CreateBuffer: on the error path the `VkBuffer` made by `vkCreateBuffer` (`src/shade/Buffer.cpp:54`) already exists when the memory-type search throws (`src/shade/Buffer.cpp:66`), and no destructor runs, so it leaks. The model tracks only memory allocations, so "nothing allocated" does not cover this buffer handle.
- **Skipped stores in `Meshes.ApplyStores`.** This helper skips a store that would not fit. Records only make stores that fit, so the skip never applies to them.
