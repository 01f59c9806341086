/** `StructuredBufferLayout`: an ordered list of typed, named, optionally
    flagged entries, and the size, format, stride and vertex attribute tables
    derived from it (src/shade/StructuredBuffer.cpp). */
module StructuredLayout {
  import opened Vk

  datatype VariableType = Float | Int | Vec2 | Vec3 | Vec4 | Mat2 | Mat3 | Mat4

  /** The semantic flag a mesh loader looks an entry up by. */
  datatype EntryFlag = NoFlag | PositionFlag | NormalFlag | TexcoordFlag

  datatype Entry = Entry(name: string, varType: VariableType, flag: EntryFlag)

  type Layout = seq<Entry>

  predicate IsMatrix(t: VariableType) {
    t.Mat2? || t.Mat3? || t.Mat4?
  }

  /** `getBufferVariableTypeSize`: the byte size the engine gives each type.
      VEC3 counts 16 bytes and MAT3 52, as the table has them. */
  function TypeSize(t: VariableType): (size: nat)
    ensures 4 <= size <= 64 && size % 4 == 0
  {
    match t
    case Float => 4
    case Int => 4
    case Vec2 => 8
    case Vec3 => 16
    case Vec4 => 16
    case Mat2 => 16
    case Mat3 => 52
    case Mat4 => 64
  }

  /** `getBufferVariableTypeFormat`: the vertex attribute format of each type;
      the matrix types have none. */
  function TypeFormat(t: VariableType): (format: Format)
    ensures format == FORMAT_UNDEFINED <==> IsMatrix(t)
    ensures t == Float ==> format == FORMAT_R32_SFLOAT
    ensures t == Int ==> format == FORMAT_R32_SINT
  {
    match t
    case Float => FORMAT_R32_SFLOAT
    case Int => FORMAT_R32_SINT
    case Vec2 => FORMAT_R32G32_SFLOAT
    case Vec3 => FORMAT_R32G32B32_SFLOAT
    case Vec4 => FORMAT_R32G32B32A32_SFLOAT
    case Mat2 => FORMAT_UNDEFINED
    case Mat3 => FORMAT_UNDEFINED
    case Mat4 => FORMAT_UNDEFINED
  }

  /** The exact (unbounded) sum of the entry sizes. */
  function Stride(layout: Layout): (stride: nat)
    ensures stride % 4 == 0
    ensures stride == 0 <==> layout == []
    ensures stride <= 64 * |layout|
  {
    if layout == [] then 0 else TypeSize(layout[0].varType) + Stride(layout[1..])
  }

  /** The byte offset of entry i: the sizes of the entries before it. */
  function Offset(layout: Layout, i: nat): nat
    requires i <= |layout|
  {
    Stride(layout[..i])
  }

  /** The attribute descriptions `_getAttributeDescriptions` returns: one per
      entry, in order, at binding 0 and location 0, with the entry's format and
      its offset held in a `uint32_t`. */
  function AttributeDescriptions(layout: Layout): (ds: seq<VertexInputAttributeDescription>)
    ensures |ds| == |layout|
  {
    seq(|layout|, i requires 0 <= i < |layout| =>
      VertexInputAttributeDescription(0, 0, TypeFormat(layout[i].varType), Wrap32(Offset(layout, i))))
  }

  /** `getStride`: the sum of the entry sizes, accumulated in a `uint32_t`. */
  method GetStride(layout: Layout) returns (stride: u32)
    ensures stride == Wrap32(Stride(layout))
  {
    stride := 0;
    for k := 0 to |layout|
      invariant stride == Wrap32(Stride(layout[..k]))
    {
      StridePush(layout, k);
      Wrap32Add(Stride(layout[..k]), TypeSize(layout[k].varType));
      stride := Wrap32(stride + TypeSize(layout[k].varType));
    }
    assert layout[..|layout|] == layout;
  }

  /** `_getAttributeDescriptions`: fills a vector sized to the layout, entry by
      entry, with a running offset. */
  method GetAttributeDescriptions(layout: Layout) returns (descriptions: seq<VertexInputAttributeDescription>)
    ensures descriptions == AttributeDescriptions(layout)
  {
    var a := new VertexInputAttributeDescription[|layout|](_ => VertexInputAttributeDescription(0, 0, FORMAT_UNDEFINED, 0));
    var i: nat := 0;
    var offset: u32 := 0;
    while i < |layout|
      invariant i <= |layout|
      invariant offset == Wrap32(Offset(layout, i))
      invariant forall j :: 0 <= j < i ==> a[j] == AttributeDescriptions(layout)[j]
    {
      a[i] := VertexInputAttributeDescription(0, 0, TypeFormat(layout[i].varType), offset);
      StridePush(layout, i);
      Wrap32Add(Stride(layout[..i]), TypeSize(layout[i].varType));
      offset := Wrap32(offset + TypeSize(layout[i].varType));
      i := i + 1;
    }
    descriptions := a[..];
  }

  /** The stride of a concatenation is the sum of the strides. */
  lemma {:induction false} StrideAppend(a: Layout, b: Layout)
    ensures Stride(a + b) == Stride(a) + Stride(b)
  {
    if a == [] {
      assert a + b == b;
    } else {
      assert (a + b)[1..] == a[1..] + b;
      StrideAppend(a[1..], b);
    }
  }

  /** Adding one entry to a prefix adds that entry's size. */
  lemma StridePush(layout: Layout, k: nat)
    requires k < |layout|
    ensures Stride(layout[..k + 1]) == Stride(layout[..k]) + TypeSize(layout[k].varType)
  {
    assert layout[..k + 1] == layout[..k] + [layout[k]];
    StrideAppend(layout[..k], [layout[k]]);
  }

  /** The stride sees only the entry types: names and flags do not matter. */
  lemma {:induction false} StrideDependsOnTypesOnly(a: Layout, b: Layout)
    requires |a| == |b|
    requires forall i :: 0 <= i < |a| ==> a[i].varType == b[i].varType
    ensures Stride(a) == Stride(b)
  {
    if a != [] {
      StrideDependsOnTypesOnly(a[1..], b[1..]);
    }
  }

  /** A longer prefix never has a smaller stride, and each entry adds at least 4 bytes. */
  lemma OffsetsIncrease(layout: Layout, i: nat, j: nat)
    requires i <= j <= |layout|
    ensures Offset(layout, i) + 4 * (j - i) <= Offset(layout, j)
  {
    assert layout[..j] == layout[..i] + layout[i..j];
    StrideAppend(layout[..i], layout[i..j]);
    StrideAtLeast(layout[i..j]);
  }

  lemma {:induction false} StrideAtLeast(layout: Layout)
    ensures Stride(layout) >= 4 * |layout|
  {
    if layout != [] {
      StrideAtLeast(layout[1..]);
    }
  }

  /** Each attribute starts where the previous one ends: the offset of
      entry i plus its size is the offset of entry i + 1, both as `uint32_t`. */
  lemma DescriptionChain(layout: Layout, i: nat)
    requires i < |layout|
    ensures Wrap32(AttributeDescriptions(layout)[i].offset + TypeSize(layout[i].varType)) == Wrap32(Offset(layout, i + 1))
  {
    StridePush(layout, i);
    Wrap32Add(Offset(layout, i), TypeSize(layout[i].varType));
  }

  /** As long as the stride fits a `uint32_t`, every recorded offset is the
      exact prefix sum: the first is 0 and the last one plus its size is the
      stride. */
  lemma DescriptionOffsetExact(layout: Layout, i: nat)
    requires Stride(layout) < U32_LIMIT
    requires i < |layout|
    ensures AttributeDescriptions(layout)[i].offset == Offset(layout, i)
    ensures i == 0 ==> AttributeDescriptions(layout)[i].offset == 0
    ensures i == |layout| - 1 ==> AttributeDescriptions(layout)[i].offset + TypeSize(layout[i].varType) == Stride(layout)
  {
    OffsetsIncrease(layout, i, |layout|);
    assert layout[..|layout|] == layout;
    StridePush(layout, i);
  }

  /** Without overflow the offsets strictly increase. */
  lemma DescriptionOffsetsIncrease(layout: Layout, i: nat, j: nat)
    requires Stride(layout) < U32_LIMIT
    requires i < j < |layout|
    ensures AttributeDescriptions(layout)[i].offset < AttributeDescriptions(layout)[j].offset
  {
    DescriptionOffsetExact(layout, i);
    DescriptionOffsetExact(layout, j);
    OffsetsIncrease(layout, i, j);
  }

  /** The two layouts `src/DemoApplication.cpp` builds: `{mvp: MAT4}` is 64
      bytes wide; `{inPosition: VEC2, inTexCoord: VEC2}` is 16 bytes wide with
      attributes at offsets 0 and 8. */
  lemma DemoLayouts()
    ensures Stride([Entry("mvp", Mat4, NoFlag)]) == 64
    ensures var v := [Entry("inPosition", Vec2, NoFlag), Entry("inTexCoord", Vec2, NoFlag)];
      Stride(v) == 16 &&
      AttributeDescriptions(v) == [VertexInputAttributeDescription(0, 0, FORMAT_R32G32_SFLOAT, 0),
                                   VertexInputAttributeDescription(0, 0, FORMAT_R32G32_SFLOAT, 8)]
  {
    var v := [Entry("inPosition", Vec2, NoFlag), Entry("inTexCoord", Vec2, NoFlag)];
    assert v[..0] == [] && v[..1] == [v[0]];
  }
}
