/** Rgba: packing four channels into a 32-bit C# int as (a << 24) | (r << 16) |
    (g << 8) | b. A C# int is modelled by its 32 bits, so the shifts drop the
    bits pushed past bit 31 as C# does. */
module Colors {
  type Int32Bits = bv32

  /** The signed value C# reads from 32 bits. */
  function SignedValue(v: Int32Bits): int {
    if v as int >= 0x8000_0000 then v as int - 0x1_0000_0000 else v as int
  }

  /** The low byte is blue's low byte whatever the other channels hold; with the
      colour channels in [0, 255] the top byte is alpha's low byte. */
  function Rgba(a: Int32Bits, r: Int32Bits, g: Int32Bits, b: Int32Bits): (c: Int32Bits)
    ensures c & 0xFF == b & 0xFF
    ensures IsChannel(r) && IsChannel(g) && IsChannel(b) ==> c >> 24 == a & 0xFF
  {
    (a << 24) | (r << 16) | (g << 8) | b
  }

  predicate IsChannel(c: Int32Bits) {
    c < 256
  }

  /** Each channel in [0, 255] can be read back from its byte of the packed value. */
  lemma ChannelsUnpack(a: Int32Bits, r: Int32Bits, g: Int32Bits, b: Int32Bits)
    requires IsChannel(a) && IsChannel(r) && IsChannel(g) && IsChannel(b)
    ensures var v := Rgba(a, r, g, b);
            v >> 24 == a && (v >> 16) & 0xFF == r && (v >> 8) & 0xFF == g && v & 0xFF == b
  {
  }

  /** The packed colour has its sign bit set exactly when alpha is 128 or more. */
  lemma SignBitIsHighAlpha(a: Int32Bits, r: Int32Bits, g: Int32Bits, b: Int32Bits)
    requires IsChannel(a) && IsChannel(r) && IsChannel(g) && IsChannel(b)
    ensures Rgba(a, r, g, b) >= 0x8000_0000 <==> a >= 128
  {
  }

  /** Alpha wraps: only its low 8 bits survive the shift by 24. */
  lemma AlphaWraps(a: Int32Bits, r: Int32Bits, g: Int32Bits, b: Int32Bits)
    ensures Rgba(a, r, g, b) == Rgba(a & 0xFF, r, g, b)
  {
  }

  /** Opaque white, the rock chip colour, packs to -1; the dust colour is positive. */
  lemma PackedExamples()
    ensures SignedValue(Rgba(255, 255, 255, 255)) == -1
    ensures SignedValue(Rgba(80, 120, 110, 100)) == 80 * 0x100_0000 + 120 * 0x1_0000 + 110 * 0x100 + 100
  {
    assert Rgba(255, 255, 255, 255) == 0xFFFF_FFFF;
    assert Rgba(80, 120, 110, 100) == 0x5078_6E64;
  }
}
