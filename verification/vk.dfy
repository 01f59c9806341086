/** The slice of the Vulkan 1.0 API that the engine's own logic touches:
    32-bit unsigned arithmetic, the `VkFormat` codes the layout tables return,
    vertex input attribute descriptions, and the little-endian byte image of
    32-bit words (float bit patterns, `int` values) that `memcpy` copies on the host. */
module Vk {

  const U32_LIMIT: nat := 0x1_0000_0000
  /** UINT32_MAX, also the special `currentExtent.width` value of the
      Window System Integration chapter. */
  const UINT32_MAX: nat := 0xFFFF_FFFF

  type u32 = x: nat | x < 0x1_0000_0000

  /** The value a `uint32_t` holds after an assignment of the mathematical value x. */
  function Wrap32(x: nat): (r: u32)
    ensures x < U32_LIMIT ==> r == x
    ensures r <= x
  {
    x % U32_LIMIT
  }

  /** Adding to a wrapped accumulator is the same as wrapping the exact sum. */
  lemma Wrap32Add(a: nat, b: nat)
    ensures Wrap32(Wrap32(a) + b) == Wrap32(a + b)
  {
    var q := a / U32_LIMIT;
    assert a == q * U32_LIMIT + Wrap32(a);
    assert a + b == q * U32_LIMIT + (Wrap32(a) + b);
    ModAddMultiple(Wrap32(a) + b, q);
  }

  lemma {:induction false} ModAddMultiple(x: nat, q: nat)
    ensures (q * U32_LIMIT + x) % U32_LIMIT == x % U32_LIMIT
    decreases q
  {
    if q > 0 {
      calc {
        (q * U32_LIMIT + x) % U32_LIMIT;
        ((q - 1) * U32_LIMIT + (x + U32_LIMIT)) % U32_LIMIT;
        { ModAddMultiple(x + U32_LIMIT, q - 1); }
        (x + U32_LIMIT) % U32_LIMIT;
      }
    }
  }

  /** `VkFormat` enumerant values (Vulkan 1.0, "Formats" chapter). */
  type Format = nat
  const FORMAT_UNDEFINED: Format := 0
  const FORMAT_B8G8R8A8_UNORM: Format := 44
  const FORMAT_R32_SINT: Format := 99
  const FORMAT_R32_SFLOAT: Format := 100
  const FORMAT_R32G32_SFLOAT: Format := 103
  const FORMAT_R32G32B32_SFLOAT: Format := 106
  const FORMAT_R32G32B32A32_SFLOAT: Format := 109

  /** `VkVertexInputAttributeDescription` (Vulkan 1.0, "Vertex Input Description"). */
  datatype VertexInputAttributeDescription = VertexInputAttributeDescription(
    location: u32, binding: u32, format: Format, offset: u32)

  datatype VertexInputRate = InputRateVertex | InputRateInstance

  /** `VkVertexInputBindingDescription`. */
  datatype VertexInputBindingDescription = VertexInputBindingDescription(
    binding: u32, stride: u32, inputRate: VertexInputRate)

  /** A host byte, as `memcpy` and `memset` see it. */
  type byte = x: nat | x < 0x100

  /** The four bytes of a 32-bit word as a little-endian host stores them. */
  function WordBytes(w: u32): (r: seq<byte>)
    ensures |r| == 4
  {
    [w % 0x100, w / 0x100 % 0x100, w / 0x1_0000 % 0x100, w / 0x100_0000]
  }

  /** Reads back a little-endian 32-bit word. */
  function WordOf(b: seq<byte>): u32
    requires |b| == 4
  {
    b[0] as int + 0x100 * b[1] as int + 0x1_0000 * b[2] as int + 0x100_0000 * b[3] as int
  }

  /** The contiguous byte image of an array of 32-bit words. */
  function Words(ws: seq<u32>): (r: seq<byte>)
    ensures |r| == 4 * |ws|
  {
    if ws == [] then [] else WordBytes(ws[0]) + Words(ws[1..])
  }

  /** Reads back a byte image as 32-bit words. */
  function WordsOf(b: seq<byte>): (ws: seq<u32>)
    requires |b| % 4 == 0
    ensures |ws| == |b| / 4
  {
    if b == [] then [] else [WordOf(b[..4])] + WordsOf(b[4..])
  }

  /** Reading a word back from its four bytes gives the word. */
  lemma WordRoundTrip(w: u32)
    ensures WordOf(WordBytes(w)) == w
  {
    var a := w / 0x100;
    var b := a / 0x100;
    assert w / 0x1_0000 == b;
    assert w / 0x100_0000 == b / 0x100;
  }

  /** Decoding the byte image of a word array gives the array back. */
  lemma {:induction false} WordsRoundTrip(ws: seq<u32>)
    ensures WordsOf(Words(ws)) == ws
  {
    if ws != [] {
      var b := Words(ws);
      assert b[..4] == WordBytes(ws[0]);
      assert b[4..] == Words(ws[1..]);
      WordRoundTrip(ws[0]);
      WordsRoundTrip(ws[1..]);
    }
  }

  /** Word k of an array sits at bytes 4k .. 4k+3 of its image. */
  lemma {:induction false} WordsAt(ws: seq<u32>, k: nat)
    requires k < |ws|
    ensures Words(ws)[4 * k .. 4 * k + 4] == WordBytes(ws[k])
  {
    if k > 0 {
      WordsAt(ws[1..], k - 1);
      assert Words(ws) == WordBytes(ws[0]) + Words(ws[1..]);
    }
  }

  /** `Words` of a concatenation is the concatenation of the images. */
  lemma {:induction false} WordsAppend(a: seq<u32>, b: seq<u32>)
    ensures Words(a + b) == Words(a) + Words(b)
  {
    if a != [] {
      assert (a + b)[1..] == a[1..] + b;
      WordsAppend(a[1..], b);
    } else {
      assert a + b == b;
    }
  }

  /** A C++ `int`. */
  type int32 = x: int | -0x8000_0000 <= x < 0x8000_0000

  /** The bit pattern a 32-bit two's-complement `int` holds. */
  function Int32Bits(x: int32): (w: u32)
  {
    if x < 0 then x + U32_LIMIT else x
  }

  /** The `int` a 32-bit two's-complement bit pattern denotes. */
  function Int32Of(w: u32): int
  {
    if w < 0x8000_0000 then w else w - U32_LIMIT
  }

  lemma Int32RoundTrip(x: int32)
    ensures Int32Of(Int32Bits(x)) == x
  {
  }
}
