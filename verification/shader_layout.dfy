/** `ShaderLayout` (src/shade/Shader.cpp): the older vertex layout, a bare list
    of variable types. Its size and format tables cover FLOAT, INT and VEC2
    only; for VEC3 and VEC4 the switch builds an exception object without
    throwing it and falls off the end of the function, so the model requires
    the covered types. */
module ShaderLayout {
  import opened Vk
  import StructuredLayout

  datatype ShaderVariableType = Float | Int | Vec2 | Vec3 | Vec4

  type Layout = seq<ShaderVariableType>

  /** The types the size and format tables cover. */
  predicate Sized(t: ShaderVariableType) {
    t.Float? || t.Int? || t.Vec2?
  }

  predicate AllSized(layout: Layout) {
    forall i :: 0 <= i < |layout| ==> Sized(layout[i])
  }

  /** The same-named type of `StructuredBufferLayout`. */
  function AsBufferType(t: ShaderVariableType): StructuredLayout.VariableType {
    match t
    case Float => StructuredLayout.Float
    case Int => StructuredLayout.Int
    case Vec2 => StructuredLayout.Vec2
    case Vec3 => StructuredLayout.Vec3
    case Vec4 => StructuredLayout.Vec4
  }

  /** The layout seen as a `StructuredBufferLayout` with unnamed, unflagged entries. */
  function AsBufferLayout(layout: Layout): (l: StructuredLayout.Layout)
    ensures |l| == |layout|
  {
    seq(|layout|, i requires 0 <= i < |layout| => StructuredLayout.Entry("", AsBufferType(layout[i]), StructuredLayout.NoFlag))
  }

  /** `getShaderVariableTypeSize`, where it returns a value: it agrees with
      the `StructuredBufferLayout` table. */
  function TypeSize(t: ShaderVariableType): (size: nat)
    requires Sized(t)
    ensures size == StructuredLayout.TypeSize(AsBufferType(t))
  {
    match t
    case Float => 4
    case Int => 4
    case Vec2 => 8
  }

  /** `getShaderVariableTypeFormat`, where it returns a value: it agrees with
      the `StructuredBufferLayout` table. */
  function TypeFormat(t: ShaderVariableType): (format: Format)
    requires Sized(t)
    ensures format == StructuredLayout.TypeFormat(AsBufferType(t))
  {
    match t
    case Float => FORMAT_R32_SFLOAT
    case Int => FORMAT_R32_SINT
    case Vec2 => FORMAT_R32G32_SFLOAT
  }

  /** The exact sum of the type sizes. */
  function Stride(layout: Layout): nat
    requires AllSized(layout)
  {
    if layout == [] then 0 else TypeSize(layout[0]) + Stride(layout[1..])
  }

  function Offset(layout: Layout, i: nat): nat
    requires i <= |layout| && AllSized(layout)
  {
    Stride(layout[..i])
  }

  function AttributeDescriptions(layout: Layout): (ds: seq<VertexInputAttributeDescription>)
    requires AllSized(layout)
    ensures |ds| == |layout|
  {
    seq(|layout|, i requires 0 <= i < |layout| =>
      VertexInputAttributeDescription(0, 0, TypeFormat(layout[i]), Wrap32(Offset(layout, i))))
  }

  /** On layouts the table covers, the stride is the one
      `StructuredBufferLayout` computes for the same types. */
  lemma {:induction false} StrideAgrees(layout: Layout)
    requires AllSized(layout)
    ensures Stride(layout) == StructuredLayout.Stride(AsBufferLayout(layout))
  {
    if layout != [] {
      StrideAgrees(layout[1..]);
      assert AsBufferLayout(layout)[1..] == AsBufferLayout(layout[1..]);
    }
  }

  /** ... and so are the attribute descriptions, offsets included. */
  lemma DescriptionsAgree(layout: Layout)
    requires AllSized(layout)
    ensures AttributeDescriptions(layout) == StructuredLayout.AttributeDescriptions(AsBufferLayout(layout))
  {
    forall i | 0 <= i < |layout|
      ensures Offset(layout, i) == StructuredLayout.Offset(AsBufferLayout(layout), i)
    {
      StrideAgrees(layout[..i]);
      assert AsBufferLayout(layout[..i]) == AsBufferLayout(layout)[..i];
    }
  }

  lemma StridePush(layout: Layout, k: nat)
    requires AllSized(layout) && k < |layout|
    ensures Stride(layout[..k + 1]) == Stride(layout[..k]) + TypeSize(layout[k])
  {
    StrideAgrees(layout[..k + 1]);
    StrideAgrees(layout[..k]);
    assert AsBufferLayout(layout[..k + 1]) == AsBufferLayout(layout)[..k + 1];
    assert AsBufferLayout(layout[..k]) == AsBufferLayout(layout)[..k];
    StructuredLayout.StridePush(AsBufferLayout(layout), k);
  }

  /** `stride()`: the sum of the type sizes in a `uint32_t`; 0 for the empty layout. */
  method GetStride(layout: Layout) returns (stride: u32)
    requires AllSized(layout)
    ensures stride == Wrap32(Stride(layout))
    ensures layout == [] ==> stride == 0
  {
    stride := 0;
    for k := 0 to |layout|
      invariant stride == Wrap32(Stride(layout[..k]))
    {
      StridePush(layout, k);
      Wrap32Add(Stride(layout[..k]), TypeSize(layout[k]));
      stride := Wrap32(stride + TypeSize(layout[k]));
    }
    assert layout[..|layout|] == layout;
  }

  /** `_getAttributeDescriptions`: one description per type, in order. */
  method GetAttributeDescriptions(layout: Layout) returns (descriptions: seq<VertexInputAttributeDescription>)
    requires AllSized(layout)
    ensures descriptions == AttributeDescriptions(layout)
  {
    var a := new VertexInputAttributeDescription[|layout|](_ => VertexInputAttributeDescription(0, 0, FORMAT_UNDEFINED, 0));
    var i: nat := 0;
    var offset: u32 := 0;
    while i < |layout|
      invariant i <= |layout|
      invariant offset == Wrap32(Offset(layout, i))
      invariant forall j :: 0 <= j < i ==> a[j] == AttributeDescriptions(layout)[j]
    {
      a[i] := VertexInputAttributeDescription(0, 0, TypeFormat(layout[i]), offset);
      StridePush(layout, i);
      Wrap32Add(Stride(layout[..i]), TypeSize(layout[i]));
      offset := Wrap32(offset + TypeSize(layout[i]));
      i := i + 1;
    }
    descriptions := a[..];
  }

  /** The vertex input state the `Shader` constructor builds from the layout:
      a single per-vertex binding 0 whose stride is `stride()`, and as many
      attribute descriptions as the layout has types. */
  method VertexInputState(layout: Layout)
      returns (binding: VertexInputBindingDescription, attributes: seq<VertexInputAttributeDescription>)
    requires AllSized(layout)
    ensures binding == VertexInputBindingDescription(0, Wrap32(Stride(layout)), InputRateVertex)
    ensures attributes == AttributeDescriptions(layout)
    ensures |attributes| == |layout|
  {
    var stride := GetStride(layout);
    binding := VertexInputBindingDescription(0, stride, InputRateVertex);
    attributes := GetAttributeDescriptions(layout);
  }
}
