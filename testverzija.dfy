/**
 * testVerzija.py: the earliest version. write_register and read_register are single raw
 * transactions with no retry and no read-back; set_frequency has no R divider and no
 * divide-by-4 band, computes a = floor(VCO / freq) for every frequency in range and sets
 * divby4 = 3 exactly when a = 4; initialize writes only MSNA registers 26..30; neither
 * routine touches register 3.
 */
module TestVerzija {
  import opened Wrappers
  import opened Bus
  import opened Bits
  import opened Transport
  import opened Sequence
  import opened Multisynth
  import opened Encoding
  import opened Programs
  import opened Channel

  /** One raw `bus.write_byte_data` / `bus.read_byte_data` per call: a single attempt. */
  const Retries: nat := 1

  const CrystalLoadReg: Byte := 0xB7

  /** No write of this program is read back. */
  predicate ReadsBack(reg: Byte)
  {
    false
  }

  /** `write_register(bus, address, reg, v)`, which is `bus.write_byte_data(address, reg, v)`. */
  function Write(reg: Byte, v: Byte): RegWrite
  {
    RegWrite(reg, v, ReadsBack(reg))
  }

  // ---------------------------------------------------------------------------
  // Planner (testVerzija.py:66-90)

  /**
   * The divider plan of testVerzija.py: R = 1 always, a = floor(VCO / freq),
   * b = floor(frac * 1048575), c = 1048575, P1..P3 by AN619, divby4 = 3 exactly when a = 4,
   * integer mode for b = 0 with a even. Only the range check can fail.
   */
  function Plan(freq: int): Result<DividerPlan, PlanError>
  {
    if freq < MinFreq || freq > MaxFreq then Failure(OutOfRange)
    else
      var p := Fractional(freq, 0, false);
      Success(p.(divBy4 := if p.a == 4 then 3 else 0))
  }

  /**
   * The plan fails exactly outside 2.5 kHz .. 200 MHz; otherwise a = VCO div freq,
   * b/c approximates the fraction from below with c = 1048575, P1 + 512 = 128 a +
   * floor(128 b / c), P2 = 128 b mod c, P3 = c, and divby4 = 3 exactly for
   * 160 MHz < freq <= 200 MHz, the frequencies with a = 4.
   */
  lemma PlanWithoutR(freq: int)
    ensures Plan(freq).Failure? <==> freq < MinFreq || freq > MaxFreq
    ensures Plan(freq).Failure? ==> Plan(freq).error == OutOfRange
    ensures Plan(freq).Success? ==>
      var p := Plan(freq).value;
      && p.r == 1 && p.rDiv == 0
      && p.a == VcoFreq / freq && p.a >= 4
      && p.a * freq <= VcoFreq < (p.a + 1) * freq
      && 0 <= p.b < FracDenom && p.c == FracDenom && p.p3 == FracDenom
      && p.p1 + 512 == 128 * p.a + (128 * p.b) / p.c
      && p.p2 == (128 * p.b) % p.c && 0 <= p.p2 < p.c
      && (p.integerMode <==> p.b == 0 && p.a % 2 == 0)
      && (p.divBy4 == 3 <==> p.a == 4) && (p.divBy4 == 0 <==> p.a != 4)
      && (p.a == 4 <==> 160_000_000 < freq)
  {
    if MinFreq <= freq <= MaxFreq {
      var a := WholePart(freq);
      assert (a + 1) * freq <= (a + 1) * MaxFreq;
      if 160_000_000 < freq {
        assert a * 160_000_000 <= a * freq;
      }
    }
  }

  /**
   * P1 needs more than its 18 bits below 389864 Hz: there a >= 2052, because nothing
   * scales the ratio down by an R divider.
   */
  lemma PlanOverflowsP1(freq: int)
    requires Plan(freq).Success?
    ensures var p := Plan(freq).value;
      && 0 <= p.p1
      && (p.p1 < 262144 <==> freq >= 389864)
  {
    var p := Plan(freq).value;
    PlanWithoutR(freq);
    assert 128 * p.a - 512 <= p.p1 < 128 * p.a - 512 + 128;
    RatioBelow2052(p.a, freq);
  }

  /** With a = VCO div freq, a <= 2051 exactly from 389864 Hz on. */
  lemma RatioBelow2052(a: int, freq: int)
    requires freq > 0 && a >= 0 && a * freq <= VcoFreq < (a + 1) * freq
    ensures a <= 2051 <==> freq >= 389864
  {
    if freq >= 389864 {
      MulMono(a, 389864, freq);
      assert 389864 * a <= VcoFreq;
    } else {
      MulMono(a + 1, freq, 389863);
      assert VcoFreq < 389863 * (a + 1);
    }
  }

  lemma MulMono(x: int, y: int, z: int)
    requires x >= 0 && y <= z
    ensures x * y <= x * z
  {
    assert x * z - x * y == x * (z - y);
  }

  // ---------------------------------------------------------------------------
  // Register image (testVerzija.py:92-107)

  /** divby4 is 0 or 3, so `(divby4 << 3) | ((p1 >> 16) & 0x03)` fits a byte. */
  predicate Encodable(p: DividerPlan)
  {
    p.divBy4 == 0 || p.divBy4 == 3
  }

  /** `(divby4 << 3) | ((p1 >> 16) & 0x03)`: there is no R field to fill. */
  function Byte2(p: DividerPlan): (b: Byte)
    requires Encodable(p)
    ensures b as int == 8 * p.divBy4 + Top2(p.p1)
    ensures b as int % 4 == Top2(p.p1)
  {
    Byte2AtBit3(0, p.divBy4, p.p1) as Byte
  }

  /** The bytes written to base_reg .. base_reg + 7. */
  function ChannelBytes(p: DividerPlan): (bs: seq<Byte>)
    requires Encodable(p)
    ensures |bs| == 8
  {
    MsBlock(p.p1, p.p2, p.p3, Byte2(p))
  }

  /**
   * What the chip decodes from the eight bytes: P3 = 1048575, P2 as planned, and P1 only
   * modulo 2^18 (truncated below 389864 Hz). Where it looks for R_DIV and MSx_DIVBY4 it
   * finds 0 and 0 when a != 4, but R_DIV = 1 and MSx_DIVBY4 = 2 when a = 4.
   */
  lemma BlockDecodes(freq: int)
    requires Plan(freq).Success?
    ensures var p := Plan(freq).value;
      Encodable(p) &&
      var bs := ChannelBytes(p);
      && P3Field(bs) == FracDenom
      && P2Field(bs) == p.p2
      && P1Field(bs) == p.p1 % 262144
      && (p.a != 4 ==> RDivField(bs[2] as int) == 0 && DivBy4Field(bs[2] as int) == 0)
      && (p.a == 4 ==> RDivField(bs[2] as int) == 1 && DivBy4Field(bs[2] as int) == 2)
  {
    var p := Plan(freq).value;
    PlanWithoutR(freq);
    PlannedBlockDecodes(p);
  }

  /** The decoding of the eight bytes for any plan with c = 1048575 and P2 below it. */
  lemma PlannedBlockDecodes(p: DividerPlan)
    requires Encodable(p) && p.p3 == FracDenom && 0 <= p.p2 < FracDenom
    ensures var bs := ChannelBytes(p);
      && P3Field(bs) == FracDenom
      && P2Field(bs) == p.p2
      && P1Field(bs) == p.p1 % 262144
      && (p.divBy4 == 0 ==> RDivField(bs[2] as int) == 0 && DivBy4Field(bs[2] as int) == 0)
      && (p.divBy4 == 3 ==> RDivField(bs[2] as int) == 1 && DivBy4Field(bs[2] as int) == 2)
  {
    var b2 := Byte2(p);
    var bs := MsBlock(p.p1, p.p2, p.p3, b2);
    assert bs == ChannelBytes(p);
    assert P3Field(bs) == p.p3 % 1048576 == FracDenom;
    assert P2Field(bs) == p.p2 % 1048576 == p.p2;
    P1RoundTrip(p.p1, p.p2, p.p3, b2);
    Byte2Decodes(p);
  }

  /** Byte 2 as the chip reads it: R_DIV and MSx_DIVBY4 are 0 and 0 for divby4 = 0, 1 and 2 for divby4 = 3. */
  lemma Byte2Decodes(p: DividerPlan)
    requires Encodable(p)
    ensures p.divBy4 == 0 ==> RDivField(Byte2(p) as int) == 0 && DivBy4Field(Byte2(p) as int) == 0
    ensures p.divBy4 == 3 ==> RDivField(Byte2(p) as int) == 1 && DivBy4Field(Byte2(p) as int) == 2
  {
    if p.divBy4 == 3 {
      DivBy4AtBit3Misread(p.p1);
    }
  }

  // ---------------------------------------------------------------------------
  // set_frequency (testVerzija.py:60-112)

  /** The ten writes: the channel's eight Multisynth registers, its control register, then 0xB1 = 0x20. */
  function SetWrites(clk: int, p: DividerPlan): (ws: seq<RegWrite>)
    requires ValidChannel(clk) && Encodable(p)
  {
    ChannelWrites(clk, ChannelBytes(p), ControlByte(p.integerMode), ReadsBack) + [Write(PllResetReg, 0x20)]
  }

  /** The writes of set_frequency list no register twice, end with the PLL reset, and none is read back. */
  lemma SetWritesShape(clk: int, p: DividerPlan)
    requires ValidChannel(clk) && Encodable(p)
    ensures var ws := SetWrites(clk, p);
      && |ws| == 10 && Distinct(ws)
      && ws[9] == RegWrite(PllResetReg, 0x20, false)
      && (forall k :: 0 <= k < 9 ==> InChannel(ws[k].reg as int, clk))
      && (forall k :: 0 <= k < |ws| ==> !ws[k].verify)
  {
    var cw := ChannelWrites(clk, ChannelBytes(p), ControlByte(p.integerMode), ReadsBack);
    assert BaseReg(clk) as int + 8 < PllResetReg as int;
    DistinctAppend(cw, [Write(PllResetReg, 0x20)]);
    assert forall k :: 0 <= k < 9 ==> SetWrites(clk, p)[k] == cw[k];
  }

  datatype SetResult =
    | InvalidChannel     // clk_num outside 0..2
    | FreqOutOfRange     // freq outside 2.5 kHz .. 200 MHz
    | Programmed         // every write returned
    | SetRaised(failure: Failure) // a write raised OSError to the caller

  /** set_frequency(bus, address, clk_num, freq). */
  function SetFrequencyRun(w: Wire, clk: int, freq: int): (r: (SetResult, Wire))
    requires WellFormed(w)
    ensures WellFormed(r.1) && r.1.clearing == w.clearing
  {
    if !ValidChannel(clk) then (InvalidChannel, w)
    else match Plan(freq)
      case Failure(_) => (FreqOutOfRange, w)
      case Success(p) =>
        PlanWithoutR(freq);
        var (o, w1) := WriteAll(w, SetWrites(clk, p), Retries);
        (if o.Done? then Programmed else SetRaised(o.failure), w1)
  }

  /** set_frequency makes no access exactly for a bad channel and a frequency out of range. */
  lemma SetFrequencyRejects(w: Wire, clk: int, freq: int)
    requires WellFormed(w)
    ensures var (r, w') := SetFrequencyRun(w, clk, freq);
      && (r == InvalidChannel <==> !ValidChannel(clk))
      && (r == FreqOutOfRange <==> ValidChannel(clk) && (freq < MinFreq || freq > MaxFreq))
      && (r.InvalidChannel? || r.FreqOutOfRange? ==> w' == w)
  {
    PlanWithoutR(freq);
  }

  /**
   * set_frequency only writes, never reads; it accesses no register but CLKn's nine and
   * 0xB1 (register 3 in particular is neither read nor written), and every other
   * register keeps its value.
   */
  lemma SetFrequencyFrame(w: Wire, clk: int, freq: int)
    requires WellFormed(w)
    ensures var w' := SetFrequencyRun(w, clk, freq).1;
      && Extends(w, w') && |w'.regs| == RegisterCount
      && (forall i :: |w.log| <= i < |w'.log| ==>
            w'.log[i].WriteAccess? && ValidChannel(clk) && (InChannel(w'.log[i].reg as int, clk) || w'.log[i].reg == PllResetReg))
      && (forall i :: 0 <= i < RegisterCount && i != PllResetReg as int && !(ValidChannel(clk) && InChannel(i, clk)) ==>
            w'.regs[i] == w.regs[i])
  {
    if ValidChannel(clk) && Plan(freq).Success? {
      var p := Plan(freq).value;
      PlanWithoutR(freq);
      var ws := SetWrites(clk, p);
      SetWritesShape(clk, p);
      WriteAllFrame(w, ws, Retries);
      WriteAllNeverReads(w, ws, Retries);
      forall i | 0 <= i < RegisterCount && i != PllResetReg as int && !InChannel(i, clk)
        ensures Pos(ws, i as Byte) == |ws|
      {
        assert forall k :: 0 <= k < |ws| ==> ws[k].reg as int != i;
      }
    }
  }

  /**
   * The PLL reset is the last write: no write to a channel register follows one to
   * 0xB1, so the reset is the final access of a set_frequency call.
   */
  lemma SetFrequencyResetsLast(w: Wire, clk: int, freq: int)
    requires WellFormed(w)
    ensures var w' := SetFrequencyRun(w, clk, freq).1;
      forall i, j :: |w.log| <= i < j < |w'.log| && w'.log[i].reg == PllResetReg ==> w'.log[j].reg == PllResetReg
  {
    if ValidChannel(clk) && Plan(freq).Success? {
      var p := Plan(freq).value;
      PlanWithoutR(freq);
      var ws := SetWrites(clk, p);
      SetWritesShape(clk, p);
      WriteAllInOrder(w, ws, Retries);
      WriteAllFrame(w, ws, Retries);
      assert Pos(ws, PllResetReg) == 9;
    }
  }

  /**
   * When every write returned, CLKn's registers hold the plan's bytes and control byte,
   * and 0xB1 has cleared itself.
   */
  lemma SetFrequencyImage(w: Wire, clk: int, freq: int)
    requires WellFormed(w)
    ensures var (r, w') := SetFrequencyRun(w, clk, freq);
      r == Programmed ==>
        && ValidChannel(clk) && Plan(freq).Success? && Encodable(Plan(freq).value)
        && ChannelHolds(w', clk, ChannelBytes(Plan(freq).value), ControlByte(Plan(freq).value.integerMode))
        && w'.regs[PllResetReg as int] == 0
  {
    if ValidChannel(clk) && Plan(freq).Success? {
      var p := Plan(freq).value;
      PlanWithoutR(freq);
      var ws := SetWrites(clk, p);
      SetWritesShape(clk, p);
      WriteAllLatches(w, ws, Retries);
      forall k | 0 <= k < 9
        ensures Latched(w.clearing, ws[k].reg, ws[k].value) == ws[k].value
      {
        assert BaseReg(clk) as int + 8 < PllResetReg as int;
        LatchesValue(w.clearing, ws[k].reg, ws[k].value);
      }
      var cw := ChannelWrites(clk, ChannelBytes(p), ControlByte(p.integerMode), ReadsBack);
      assert forall k :: 0 <= k < 9 ==> ws[k] == cw[k];
    }
  }

  // ---------------------------------------------------------------------------
  // initialize (testVerzija.py:23-56)

  /** The ten writes of initialize, in order; MSNA gets only its first five registers. */
  const InitWrites: seq<RegWrite> :=
    [Write(CrystalLoadReg, 0xD2), Write(0x0F, 0x00), Write(0xBB, 0xD0)]
    + BlockWrites(26, MsnaBytes[..5], false)
    + [Write(22, 0x40), Write(PllResetReg, 0x20)]

  /** initialize(bus, address): the ten writes; the first OSError propagates. */
  function InitRun(w: Wire): (r: (Outcome, Wire))
    requires WellFormed(w)
    ensures WellFormed(r.1) && r.1.clearing == w.clearing
  {
    WriteAll(w, InitWrites, Retries)
  }

  lemma InitWritesShape()
    ensures |InitWrites| == 10 && Distinct(InitWrites)
    ensures forall i :: 0 <= i < 5 ==> InitWrites[3 + i] == RegWrite((26 + i) as Byte, MsnaBytes[i], false)
    ensures InitWrites[0] == RegWrite(CrystalLoadReg, 0xD2, false) && InitWrites[1] == RegWrite(0x0F, 0x00, false)
    ensures InitWrites[2] == RegWrite(0xBB, 0xD0, false)
    ensures InitWrites[8] == RegWrite(22, 0x40, false) && InitWrites[9] == RegWrite(PllResetReg, 0x20, false)
    ensures forall k :: 0 <= k < |InitWrites| ==> !InitWrites[k].verify
  {
    var a := [Write(CrystalLoadReg, 0xD2), Write(0x0F, 0x00), Write(0xBB, 0xD0)];
    var b := BlockWrites(26, MsnaBytes[..5], false);
    var c := [Write(22, 0x40), Write(PllResetReg, 0x20)];
    assert forall j :: 0 <= j < |b| ==> 26 <= b[j].reg as int < 31;
    DistinctAppend(a, b);
    DistinctAppend(a + b, c);
    assert InitWrites == a + b + c;
    assert forall i :: 0 <= i < 5 ==> InitWrites[3 + i] == b[i];
  }

  /** The registers initialize writes. */
  predicate InitListed(i: int)
  {
    i == CrystalLoadReg as int || i == 0x0F || i == 0xBB || 26 <= i < 31 || i == 22 || i == PllResetReg as int
  }

  /**
   * initialize only writes, and touches no register it does not list: in particular the
   * MSNA registers 31..33 (P2[15:0] and the rest of P1) keep whatever they held.
   */
  lemma InitFrame(w: Wire)
    requires WellFormed(w)
    ensures var w' := InitRun(w).1;
      && Extends(w, w') && |w'.regs| == RegisterCount
      && (forall i :: |w.log| <= i < |w'.log| ==> w'.log[i].WriteAccess?)
      && (forall i :: 31 <= i < 34 ==> w'.regs[i] == w.regs[i])
      && (forall i :: 0 <= i < RegisterCount && !InitListed(i) ==> w'.regs[i] == w.regs[i])
  {
    InitWritesShape();
    WriteAllFrame(w, InitWrites, Retries);
    WriteAllNeverReads(w, InitWrites, Retries);
    forall i | 0 <= i < RegisterCount && !InitListed(i)
      ensures Pos(InitWrites, i as Byte) == |InitWrites|
    {
      assert forall k :: 0 <= k < |InitWrites| ==> InitWrites[k].reg as int != i;
    }
  }

  /**
   * When all ten writes returned: 10 pF crystal load, crystal to PLLA, MSNA 26..30 as
   * for ratio 32, PLLA in integer mode, and 0xB1 cleared again.
   */
  lemma InitImage(w: Wire)
    requires WellFormed(w)
    requires InitRun(w).0.Done?
    ensures var w' := InitRun(w).1;
      && |w'.regs| == RegisterCount
      && w'.regs[CrystalLoadReg as int] == 0xD2 && w'.regs[0x0F] == 0x00
      && (forall i :: 0 <= i < 5 ==> w'.regs[26 + i] == MsnaBytes[i])
      && w'.regs[22] == 0x40 && w'.regs[PllResetReg as int] == 0
  {
    InitWritesShape();
    var ws := InitWrites;
    WriteAllLatches(w, ws, Retries);
    forall k | 0 <= k < |ws| && k != 2 && k != 9
      ensures Latched(w.clearing, ws[k].reg, ws[k].value) == ws[k].value
    {
      LatchesValue(w.clearing, ws[k].reg, ws[k].value);
    }
  }

  // ---------------------------------------------------------------------------
  // on / off (testVerzija.py:155-156, 167-168)

  /** `reg3 = read_register(...) & 0xF8` and the write of register 3, one raw transaction each. */
  function OutputCommand(w: Wire, clk: int, enable: bool): (r: (Outcome, Wire))
    requires WellFormed(w) && ValidChannel(clk)
    ensures WellFormed(r.1) && r.1.clearing == w.clearing
  {
    SetOutput(w, clk, enable, Retries, ReadsBack(0x03))
  }

  /**
   * An on or off command makes at most two transactions, a read of register 3 and then
   * a write of it that is not read back, and changes no other register. When it
   * returns, it made both, and register 3 holds the byte the read returned with bits
   * 2:0 all clear (on) or only bit clk set (off).
   */
  lemma OutputCommandEffect(w: Wire, clk: int, enable: bool)
    requires WellFormed(w) && ValidChannel(clk)
    ensures var (o, w') := OutputCommand(w, clk, enable);
      && Extends(w, w') && |w'.log| <= |w.log| + 2
      && (|w.log| < |w'.log| ==> w'.log[|w.log|].ReadAccess? && w'.log[|w.log|].reg == 0x03)
      && (|w'.log| == |w.log| + 2 ==> w'.log[|w.log| + 1].WriteAccess? && w'.log[|w.log| + 1].reg == 0x03)
      && (forall i :: 0 <= i < RegisterCount && i != 3 ==> w'.regs[i] == w.regs[i])
      && (o.Done? ==>
            && |w'.log| == |w.log| + 2 && w'.log[|w.log|].got.Some?
            && var x := w'.log[|w.log|].got.value;
               w'.regs[3] == (if enable then EnableOutputBits(x, clk) else DisableOutputBits(x, clk)))
  {
    SetOutputEffect(w, clk, enable, Retries, false);
  }

  // ---------------------------------------------------------------------------
  // The same operations over the device

  method SetFrequency(dev: Device, clk: int, freq: int) returns (r: SetResult)
    requires dev.Valid()
    modifies dev, dev.regs
    ensures dev.Valid()
    ensures (r, dev.State()) == SetFrequencyRun(old(dev.State()), clk, freq)
  {
    if !ValidChannel(clk) {
      return InvalidChannel;
    }
    var plan := Plan(freq);
    if plan.Failure? {
      return FreqOutOfRange;
    }
    PlanWithoutR(freq);
    var o := WriteEach(dev, SetWrites(clk, plan.value), Retries);
    r := if o.Done? then Programmed else SetRaised(o.failure);
  }

  method Initialize(dev: Device) returns (o: Outcome)
    requires dev.Valid()
    modifies dev, dev.regs
    ensures dev.Valid()
    ensures (o, dev.State()) == InitRun(old(dev.State()))
  {
    o := WriteEach(dev, InitWrites, Retries);
  }
}
