/** `set_color` of m5_device.py: three channels packed into one colour value
    `(r << 16) | (g << 8) | b` for the RGB unit. The channels are Python ints
    and are not masked, so the packing is exact only for bytes. */
module DeviceColor {
  import opened Bits

  /** A channel value the RGB unit can show on its own. */
  predicate IsByte(x: int) { 0 <= x < 256 }

  /** `(r << 16) | (g << 8) | b` on Python ints. */
  function Pack(r: int, g: int, b: int): int
  {
    Or(Or(ShiftLeft(r, 16), ShiftLeft(g, 8)), b)
  }

  /** On bytes the three channels occupy disjoint bit ranges, so the packed
      value is their positional sum and fits in 24 bits. */
  lemma PackBytes(r: int, g: int, b: int)
    requires IsByte(r) && IsByte(g) && IsByte(b)
    ensures Pack(r, g, b) == r * 65536 + g * 256 + b
    ensures 0 <= Pack(r, g, b) < 0x100_0000
  {
    ShiftWidths();
    OrDisjoint(r, 16, ShiftLeft(g, 8));
    assert ShiftLeft(r, 16) + ShiftLeft(g, 8) == ShiftLeft(r * 256 + g, 8);
    OrDisjoint(r * 256 + g, 8, b);
  }

  /** Shifting and masking the packed value gives back each byte. */
  lemma Unpack(r: int, g: int, b: int)
    requires IsByte(r) && IsByte(g) && IsByte(b)
    ensures ByteAt(Pack(r, g, b), 16) == r
    ensures ByteAt(Pack(r, g, b), 8) == g
    ensures ByteAt(Pack(r, g, b), 0) == b
  {
    PackBytes(r, g, b);
    ShiftWidths();
    Positions(r, g, b);
  }

  /** The positional sum of three bytes, read back digit by digit in base 256. */
  lemma Positions(r: int, g: int, b: int)
    requires IsByte(r) && IsByte(g) && IsByte(b)
    ensures var c := r * 65536 + g * 256 + b;
            (c / 65536) % 256 == r && (c / 256) % 256 == g && (c / 1) % 256 == b
  {
    var c := r * 65536 + g * 256 + b;
    assert c / 65536 == r;
    assert c / 256 == r * 256 + g;
  }

  /** Distinct byte triples give distinct colours. */
  lemma PackInjectiveOnBytes(r1: int, g1: int, b1: int, r2: int, g2: int, b2: int)
    requires IsByte(r1) && IsByte(g1) && IsByte(b1)
    requires IsByte(r2) && IsByte(g2) && IsByte(b2)
    requires Pack(r1, g1, b1) == Pack(r2, g2, b2)
    ensures r1 == r2 && g1 == g2 && b1 == b2
  {
    Unpack(r1, g1, b1);
    Unpack(r2, g2, b2);
  }

  /** Outside bytes the packing collides: a blue of 256 is a green of 1. */
  lemma PackCollidesOutsideBytes()
    ensures Pack(0, 0, 256) == Pack(0, 1, 0) == 256
  {
    ShiftWidths();
    ZeroOr(0);
    ZeroOr(256);
    OrZero(256);
  }

  /** A blue above 255 spills into green: with no green given, it packs to the
      colour whose green is `b / 256` and whose blue is `b % 256`. */
  lemma BlueSpillsIntoGreen(r: int, b: int)
    requires IsByte(r) && 0 <= b < 65536
    ensures Pack(r, 0, b) == Pack(r, b / 256, b % 256)
  {
    ShiftWidths();
    OrZero(ShiftLeft(r, 16));
    OrDisjoint(r, 16, b);
    PackBytes(r, b / 256, b % 256);
  }

  /** A red above 255 is shifted past the 24-bit colour: nothing of it lands
      in the three channel bytes' range. */
  lemma RedOverflows(r: int)
    requires r >= 256
    ensures Pack(r, 0, 0) == r * 65536 && Pack(r, 0, 0) >= 0x100_0000
  {
    ShiftWidths();
    OrZero(ShiftLeft(r, 16));
  }

  /** Red 256 leaves every channel byte of the colour at 0. */
  lemma RedOverflowExample()
    ensures Pack(256, 0, 0) == 0x100_0000
    ensures ByteAt(Pack(256, 0, 0), 16) == 0
    ensures ByteAt(Pack(256, 0, 0), 8) == 0
    ensures ByteAt(Pack(256, 0, 0), 0) == 0
  {
    RedOverflows(256);
    ShiftWidths();
    var c := Pack(256, 0, 0);
    assert c / Pow2(16) == 256 && c / Pow2(8) == 65536 && c / Pow2(0) == c;
  }

  // ----- The 24-bit colour word as a bit-vector -----

  /** The packing on 8-bit channels in a 32-bit word. */
  function PackWord(r: bv8, g: bv8, b: bv8): bv32
  {
    ((r as bv32) << 16) | ((g as bv32) << 8) | (b as bv32)
  }

  /** The word keeps the top byte clear and each channel can be read back
      with a shift and a mask. */
  lemma WordRoundTrip(r: bv8, g: bv8, b: bv8)
    ensures PackWord(r, g, b) < 0x100_0000
    ensures ((PackWord(r, g, b) >> 16) & 0xFF) as bv8 == r
    ensures ((PackWord(r, g, b) >> 8) & 0xFF) as bv8 == g
    ensures (PackWord(r, g, b) & 0xFF) as bv8 == b
  {
  }

  /** On bytes, the word and the Python-int packing carry the same three
      channels at the same offsets. */
  lemma WordAgreesWithPack(r: bv8, g: bv8, b: bv8)
    ensures ByteAt(Pack(r as int, g as int, b as int), 16) == ((PackWord(r, g, b) >> 16) & 0xFF) as bv8 as int
    ensures ByteAt(Pack(r as int, g as int, b as int), 8) == ((PackWord(r, g, b) >> 8) & 0xFF) as bv8 as int
    ensures ByteAt(Pack(r as int, g as int, b as int), 0) == (PackWord(r, g, b) & 0xFF) as bv8 as int
  {
    Unpack(r as int, g as int, b as int);
    WordRoundTrip(r, g, b);
  }
}
