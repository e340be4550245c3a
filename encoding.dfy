/**
 * How a divider plan is packed into the Si5351A registers (Silicon Labs AN619):
 * the eight Multisynth bytes at 42 + 8n .. 49 + 8n, the CLKn control byte at 16 + n,
 * and the read-modify-write of the output-enable register 3.
 *
 * The programs' expressions are kept operator for operator: `(x >> 8) & 0xFF` is
 * Mid(x), `a | b` is BitOr(a, b). The contracts say what the chip reads back out of
 * the bytes, field by field.
 */
module Encoding {
  import opened Bus
  import opened Bits

  // ---------------------------------------------------------------------------
  // Byte slices of an integer

  /** `x & 0xFF` */
  function Lo(x: int): Byte
  {
    (x % 256) as Byte
  }

  /** `(x >> 8) & 0xFF` */
  function Mid(x: int): Byte
  {
    Lo(x / 256)
  }

  /** `(x >> 16) & 0x0F`: bits 19:16 */
  function Nib(x: int): nat
  {
    (x / 65536) % 16
  }

  /** `(x >> 16) & 0x03`: bits 17:16 */
  function Top2(x: int): nat
  {
    (x / 65536) % 4
  }

  // ---------------------------------------------------------------------------
  // The eight Multisynth parameter bytes

  /**
   * Bytes base+0 .. base+7 in the order the programs write them: P3[15:8], P3[7:0],
   * the variant-specific byte 2, P1[15:8], P1[7:0], `(P3[19:16] << 4) | P2[19:16]`,
   * P2[15:8], P2[7:0]. The contract is the decoding: the bytes give back the low
   * 20 bits of P3 and of P2 and the low 16 bits of P1, and byte 2 is passed through.
   */
  function MsBlock(p1: int, p2: int, p3: int, byte2: Byte): (bs: seq<Byte>)
    ensures |bs| == 8 && bs[2] == byte2
    ensures P3Field(bs) == p3 % 1048576
    ensures P2Field(bs) == p2 % 1048576
    ensures P1Field(bs) == (byte2 as int % 4) * 65536 + p1 % 65536
  {
    var b5 := BitOr(Nib(p3) * 16, Nib(p2));
    PackedNibbles(p3, p2);
    Slices(p3, 16);
    Slices(p2, 16);
    Slices(p1, 1);
    [Mid(p3), Lo(p3), byte2, Mid(p1), Lo(p1), b5 as Byte, Mid(p2), Lo(p2)]
  }

  /** P3 as the chip reads it: byte 5 bits 7:4, byte 0, byte 1. */
  function P3Field(bs: seq<Byte>): int
    requires |bs| == 8
  {
    (bs[5] as int / 16) * 65536 + bs[0] as int * 256 + bs[1] as int
  }

  /** P1 as the chip reads it: byte 2 bits 1:0, byte 3, byte 4. */
  function P1Field(bs: seq<Byte>): int
    requires |bs| == 8
  {
    (bs[2] as int % 4) * 65536 + bs[3] as int * 256 + bs[4] as int
  }

  /** P2 as the chip reads it: byte 5 bits 3:0, byte 6, byte 7. */
  function P2Field(bs: seq<Byte>): int
    requires |bs| == 8
  {
    (bs[5] as int % 16) * 65536 + bs[6] as int * 256 + bs[7] as int
  }

  /** R_DIV as the chip reads it from byte 2: bits 6:4. */
  function RDivField(b: int): int
  {
    (b / 16) % 8
  }

  /** MSx_DIVBY4 as the chip reads it from byte 2: bits 3:2. */
  function DivBy4Field(b: int): int
  {
    (b / 4) % 4
  }

  /** With byte 2 carrying P1[17:16], the block gives back P1 modulo 2^18. */
  lemma P1RoundTrip(p1: int, p2: int, p3: int, byte2: Byte)
    requires byte2 as int % 4 == Top2(p1)
    ensures P1Field(MsBlock(p1, p2, p3, byte2)) == p1 % 262144
  {
    Split(p1, 4);
    ModOfProduct(p1, 256, 256);
  }

  /** Eight bytes built around a byte 2 that carries P1[17:16] give back P1, P2 and P3. */
  lemma BlockFields(p1: int, p2: int, p3: int, byte2: Byte)
    requires 0 <= p1 < 262144 && 0 <= p2 < 1048576 && 0 <= p3 < 1048576
    requires byte2 as int % 4 == Top2(p1)
    ensures var bs := MsBlock(p1, p2, p3, byte2);
      P3Field(bs) == p3 && P1Field(bs) == p1 && P2Field(bs) == p2
  {
    P1RoundTrip(p1, p2, p3, byte2);
    ModUnique(p1, 262144, 0, p1);
    ModUnique(p2, 1048576, 0, p2);
    ModUnique(p3, 1048576, 0, p3);
  }

  /**
   * Byte 2 as Final2.py builds it: `(r_div << 4) | (divby4 << 2) | P1[17:16]`. For a
   * divby4 below 4 the three fields are disjoint, so the chip reads R_DIV, DIVBY4 and
   * P1[17:16] back from bits 6:4, 3:2 and 1:0.
   */
  function Byte2AtBit2(rDiv: nat, divBy4: nat, p1: int): (b: nat)
    ensures divBy4 < 4 ==> b == 16 * rDiv + 4 * divBy4 + Top2(p1)
    ensures divBy4 < 4 ==> b / 16 == rDiv && DivBy4Field(b) == divBy4 && b % 4 == Top2(p1)
    ensures divBy4 < 4 && rDiv < 8 ==> b < 128 && RDivField(b) == rDiv
  {
    if divBy4 < 4 then
      DisjointAtBit2(rDiv, divBy4, Top2(p1));
      FieldsAtBit2(rDiv, divBy4, Top2(p1));
      BitOr(BitOr(rDiv * 16, divBy4 * 4), Top2(p1))
    else
      BitOr(BitOr(rDiv * 16, divBy4 * 4), Top2(p1))
  }

  /**
   * Byte 2 as hardkod.py and setF.py build it: `(r_div << 4) | (divby4 << 3) | P1[17:16]`;
   * testVerzija.py builds the same byte with r_div = 0. The divby4 field occupies bits
   * 4:3, so it shares bit 4 with R_DIV: with divby4 = 0 the byte is Final2.py's, and
   * with r_div = 0 it is `divby4 * 8 + P1[17:16]`.
   */
  function Byte2AtBit3(rDiv: nat, divBy4: nat, p1: int): (b: nat)
    ensures divBy4 == 0 ==> b == 16 * rDiv + Top2(p1)
    ensures rDiv == 0 ==> b == 8 * divBy4 + Top2(p1)
  {
    OrDisjoint(rDiv, 0, 4);
    OrDisjoint(divBy4, Top2(p1), 3);
    OrDisjoint(rDiv * 8, 0, 0);
    assert Pow2(4) == 16 && Pow2(3) == 8 && Pow2(2) == 4;
    OrDisjoint(rDiv * 4, Top2(p1), 2);
    assert rDiv * 16 == (rDiv * 4) * 4;
    BitOr(BitOr(rDiv * 16, divBy4 * 8), Top2(p1))
  }

  /**
   * Divide-by-4 (divby4 = 3, r_div = 0) through the bit-3 layout: the chip reads
   * R_DIV = 1 (divide by 2) and MSx_DIVBY4 = 2 (not the value 3 that selects divide by 4).
   */
  lemma DivBy4AtBit3Misread(p1: int)
    ensures Byte2AtBit3(0, 3, p1) == 24 + Top2(p1)
    ensures RDivField(Byte2AtBit3(0, 3, p1)) == 1 && DivBy4Field(Byte2AtBit3(0, 3, p1)) == 2
  {
    var t := Top2(p1);
    assert (24 + t) / 16 == 1;
    assert (24 + t) / 4 == 6;
  }

  /** The bit-3 layout does lose bits when both fields are set: r_div = 1 with divby4 = 3 gives 0x18, not 0x28. */
  lemma Bit3FieldsCollide()
    ensures Byte2AtBit3(1, 3, 0) == 0x18
  {
    assert BitOr(16, 24) == 2 * BitOr(8, 12);
    assert BitOr(8, 12) == 2 * BitOr(4, 6);
    assert BitOr(4, 6) == 2 * BitOr(2, 3);
    assert BitOr(2, 3) == 2 * BitOr(1, 1) + 1;
    assert BitOr(1, 1) == 2 * BitOr(0, 0) + 1;
  }

  /** The CLKn control byte: `(integer_mode << 6) | (0x3 << 2) | 0x3`. */
  function ControlByte(integerMode: bool): (b: Byte)
    ensures BitSet(b as nat, 6) <==> integerMode // MSx_INT
    ensures !BitSet(b as nat, 7)                 // CLKx_PDN: powered up
    ensures !BitSet(b as nat, 5)                 // MSx_SRC: PLLA
    ensures !BitSet(b as nat, 4)                 // CLKx_INV: not inverted
    ensures (b as int / 4) % 4 == 3              // CLKx_SRC: its own Multisynth
    ensures b as int % 4 == 3                    // CLKx_IDRV: 8 mA
  {
    var im := if integerMode then 1 else 0;
    ControlBits(im);
    BitOr(BitOr(im * 64, 12), 3) as Byte
  }

  // ---------------------------------------------------------------------------
  // Register 3 (output enable, a set bit disables CLKn)

  /**
   * `(reg3 & 0xF8) & ~(1 << clk)`: bits 7:3 are kept and bits 2:0 are all cleared, so
   * every one of CLK0..CLK2 ends up enabled, not only `clk`.
   */
  function EnableOutputBits(x: Byte, clk: nat): (v: Byte)
    requires clk <= 2
    ensures v as int / 8 == x as int / 8
    ensures v as int % 8 == 0
  {
    KeepHigh(x);
    var y := BitAnd(x as nat, 0xF8);
    assert !BitSet(y, clk) by { BitOfMultipleOf8(x as int / 8, clk); }
    ClearBit(y, clk) as Byte
  }

  /**
   * `(reg3 & 0xF8) | (1 << clk)`: bits 7:3 are kept, and of bits 2:0 only bit `clk` is
   * set, so the other two of CLK0..CLK2 end up enabled.
   */
  function DisableOutputBits(x: Byte, clk: nat): (v: Byte)
    requires clk <= 2
    ensures v as int / 8 == x as int / 8
    ensures v as int % 8 == Pow2(clk)
  {
    KeepHigh(x);
    assert Pow2(3) == 8 && Pow2(clk) <= 4;
    OrDisjoint(x as int / 8, Pow2(clk), 3);
    BitOr(BitAnd(x as nat, 0xF8), Pow2(clk)) as Byte
  }

  /**
   * Turning one output on or off does not isolate it: afterwards each of the other two
   * channels is enabled, whatever it was before, and switching a channel off after
   * switching it on gives the same byte as switching it off directly.
   */
  lemma EnableAndDisableDoNotIsolate(x: Byte, clk: nat, other: nat)
    requires clk <= 2 && other <= 2 && other != clk
    ensures !BitSet(EnableOutputBits(x, clk) as nat, other)
    ensures !BitSet(DisableOutputBits(x, clk) as nat, other)
    ensures BitSet(DisableOutputBits(x, clk) as nat, clk)
    ensures DisableOutputBits(EnableOutputBits(x, clk), clk) == DisableOutputBits(x, clk)
  {
    var e, d := EnableOutputBits(x, clk) as int, DisableOutputBits(x, clk) as int;
    LowBit(e, other);
    LowBit(d, other);
    LowBit(d, clk);
    PowerBits(clk, other);
    var d' := DisableOutputBits(EnableOutputBits(x, clk), clk) as int;
    assert d' == (d' / 8) * 8 + d' % 8 && d == (d / 8) * 8 + d % 8;
  }

  /** Enabling CLK0 alone from 0x06 (CLK1, CLK2 off) enables all three. */
  lemma EnableExample()
    ensures EnableOutputBits(0x06, 0) == 0x00 && DisableOutputBits(0x00, 1) == 0x02
  {
  }

  // ---------------------------------------------------------------------------
  // Helpers

  /** `x & 0xF8` is x with its low three bits cleared. */
  lemma KeepHigh(x: Byte)
    ensures BitAnd(x as nat, 0xF8) == (x as int / 8) * 8
  {
    var n := x as nat;
    AndEvenMask(n, 124);
    AndEvenMask(n / 2, 62);
    AndEvenMask(n / 4, 31);
    assert n / 2 / 2 == n / 4 && n / 4 / 2 == n / 8;
    assert Pow2(5) == 32;
    AndAllOnes(n / 8, 5);
  }

  lemma BitOfMultipleOf8(q: int, k: nat)
    requires q >= 0 && k <= 2
    ensures !BitSet(q * 8, k)
  {
    assert Pow2(1) == 2 && Pow2(2) == 4;
    if k == 0 {
      assert (q * 8) % 2 == 0;
    } else if k == 1 {
      assert (q * 8) / 2 == q * 4;
    } else {
      assert (q * 8) / 4 == q * 2;
    }
  }

  /** Bits 0..2 of a byte are the bits of its remainder by 8. */
  lemma LowBit(v: int, k: nat)
    requires v >= 0 && k <= 2
    ensures BitSet(v, k) <==> BitSet(v % 8, k)
  {
    assert Pow2(1) == 2 && Pow2(2) == 4;
    var q, r := v / 8, v % 8;
    assert v == q * 8 + r;
    if k == 1 {
      ModUnique(v, 2, q * 4 + r / 2, r % 2);
      ModUnique(v / 2, 2, q * 2 + (r / 2) / 2, (r / 2) % 2);
    } else if k == 2 {
      ModUnique(v, 4, q * 2 + r / 4, r % 4);
      ModUnique(v / 4, 2, q, r / 4);
    }
  }

  /** Of bits 0..2, 2^clk has exactly bit clk set, and 0 has none. */
  lemma PowerBits(clk: nat, other: nat)
    requires clk <= 2 && other <= 2
    ensures BitSet(Pow2(clk), clk)
    ensures other != clk ==> !BitSet(Pow2(clk), other)
    ensures !BitSet(0, other)
  {
    assert Pow2(0) == 1 && Pow2(1) == 2 && Pow2(2) == 4;
  }

  lemma ControlBits(im: nat)
    requires im <= 1
    ensures BitOr(BitOr(im * 64, 12), 3) == 64 * im + 15
    ensures BitSet(64 * im + 15, 6) <==> im == 1
    ensures !BitSet(64 * im + 15, 7) && !BitSet(64 * im + 15, 5) && !BitSet(64 * im + 15, 4)
    ensures ((64 * im + 15) / 4) % 4 == 3 && (64 * im + 15) % 4 == 3
  {
    assert Pow2(2) == 4 && Pow2(4) == 16 && Pow2(5) == 32 && Pow2(6) == 64 && Pow2(7) == 128;
    OrDisjoint(im, 12, 6);
    OrDisjoint(16 * im + 3, 3, 2);
    assert (16 * im + 3) * 4 == 64 * im + 12;
    if im == 1 {
      assert (64 * im + 15) == 79;
    } else {
      assert (64 * im + 15) == 15;
    }
  }

  /** Byte 5: the two nibbles are disjoint and come back out. */
  lemma PackedNibbles(p3: int, p2: int)
    ensures BitOr(Nib(p3) * 16, Nib(p2)) == Nib(p3) * 16 + Nib(p2) < 256
    ensures (Nib(p3) * 16 + Nib(p2)) / 16 == Nib(p3) && (Nib(p3) * 16 + Nib(p2)) % 16 == Nib(p2)
  {
    assert Pow2(4) == 16;
    OrDisjoint(Nib(p3), Nib(p2), 4);
    ModUnique(Nib(p3) * 16 + Nib(p2), 16, Nib(p3), Nib(p2));
  }

  /** The low bits of x, as the slices Lo, Mid and bits 16 up carry them. */
  lemma Slices(x: int, top: int)
    requires top > 0
    ensures x % (65536 * top) == ((x / 65536) % top) * 65536 + Mid(x) as int * 256 + Lo(x) as int
    ensures x % 65536 == Mid(x) as int * 256 + Lo(x) as int
  {
    Split(x, top);
    ModOfProduct(x, 256, 256);
  }

  lemma FieldsAtBit2(r: nat, d: nat, t: nat)
    requires d < 4 && t < 4
    ensures (16 * r + 4 * d + t) / 16 == r
    ensures ((16 * r + 4 * d + t) / 4) % 4 == d && (16 * r + 4 * d + t) % 4 == t
    ensures r < 8 ==> 16 * r + 4 * d + t < 128 && ((16 * r + 4 * d + t) / 16) % 8 == r
  {
    var b := 16 * r + 4 * d + t;
    ModUnique(b, 16, r, 4 * d + t);
    ModUnique(b, 4, 4 * r + d, t);
    ModUnique(4 * r + d, 4, r, d);
  }

  lemma DisjointAtBit2(r: nat, d: nat, t: nat)
    requires d < 4 && t < 4
    ensures BitOr(BitOr(r * 16, d * 4), t) == 16 * r + 4 * d + t
  {
    assert Pow2(2) == 4;
    OrDouble(r * 8, d * 2);
    OrDouble(r * 4, d);
    OrDisjoint(r, d, 2);
    assert 2 * (r * 8) == r * 16 && 2 * (d * 2) == d * 4 && 2 * (r * 4) == r * 8;
    OrDisjoint(4 * r + d, t, 2);
    assert (4 * r + d) * 4 == 16 * r + 4 * d;
  }

  /** x % (65536 top) split into the three slices the bytes carry. */
  lemma Split(x: int, top: int)
    requires top > 0
    ensures x % (65536 * top) == ((x / 65536) % top) * 65536 + ((x / 256) % 256) * 256 + x % 256
  {
    ModOfProduct(x, 65536, top);
    ModOfProduct(x, 256, 256);
  }

  lemma ModOfProduct(x: int, d1: int, d2: int)
    requires d1 > 0 && d2 > 0
    ensures x % (d1 * d2) == ((x / d1) % d2) * d1 + x % d1
  {
    Decompose(x, d1, d2);
    ModUnique(x, d1 * d2, x / d1 / d2, ((x / d1) % d2) * d1 + x % d1);
  }

  /** x = q2 (d1 d2) + (s d1 + r) where q = x / d1, s = q % d2, q2 = q / d2. */
  lemma Decompose(x: int, d1: int, d2: int)
    requires d1 > 0 && d2 > 0
    ensures x == (x / d1 / d2) * (d1 * d2) + (((x / d1) % d2) * d1 + x % d1)
    ensures 0 <= ((x / d1) % d2) * d1 + x % d1 < d1 * d2
  {
    var q := x / d1;
    var r := x % d1;
    var s := q % d2;
    var q2 := q / d2;
    assert x == q * d1 + r;
    assert q == q2 * d2 + s;
    assert q * d1 == q2 * d2 * d1 + s * d1;
    assert q2 * d2 * d1 == q2 * (d1 * d2);
    assert s * d1 <= (d2 - 1) * d1;
    assert (d2 - 1) * d1 == d1 * d2 - d1;
  }
}
