/**
 * Programming one output channel, as every set_frequency does it: the eight Multisynth
 * registers from base_reg = 42 + 8 clk_num, then control register 16 + clk_num, each by
 * one write_register call; and the read-modify-write of the output-enable register 3.
 * The programs differ in which of these writes their write_register reads back, which
 * is the `readsBack` argument here.
 */
module Channel {
  import opened Wrappers
  import opened Bus
  import opened Bits
  import opened Transport
  import opened Sequence
  import opened Encoding
  import opened Programs

  /** The nine writes of a channel: bytes[i] to base_reg + i, then the control byte. */
  function ChannelWrites(clk: int, bytes: seq<Byte>, control: Byte, readsBack: Byte -> bool): (ws: seq<RegWrite>)
    requires ValidChannel(clk) && |bytes| == 8
    ensures |ws| == 9 && Distinct(ws)
    ensures forall i :: 0 <= i < 8 ==> ws[i].reg as int == BaseReg(clk) as int + i && ws[i].value == bytes[i]
    ensures forall i :: 0 <= i < 8 ==> ws[i].verify == readsBack(ws[i].reg)
    ensures ws[8] == RegWrite(ControlReg(clk), control, readsBack(ControlReg(clk)))
  {
    var base := BaseReg(clk) as int;
    var block := seq(8, i requires 0 <= i < 8 => RegWrite((base + i) as Byte, bytes[i], readsBack((base + i) as Byte)));
    var ws := block + [RegWrite(ControlReg(clk), control, readsBack(ControlReg(clk)))];
    assert forall i :: 0 <= i < 8 ==> ws[i] == block[i] && block[i].reg as int == base + i;
    ws
  }

  /** Register i is one of CLKn's Multisynth registers or its control register. */
  predicate InChannel(i: int, clk: int)
    requires ValidChannel(clk)
  {
    (BaseReg(clk) as int <= i < BaseReg(clk) as int + 8) || i == ControlReg(clk) as int
  }

  /** CLKn's nine registers hold `bytes` and `control`. */
  ghost predicate ChannelHolds(w: Wire, clk: int, bytes: seq<Byte>, control: Byte)
    requires ValidChannel(clk) && |bytes| == 8 && |w.regs| == RegisterCount
  {
    && (forall i :: 0 <= i < 8 ==> w.regs[BaseReg(clk) as int + i] == bytes[i])
    && w.regs[ControlReg(clk) as int] == control
  }

  /** The nine channel writes access and change only the channel's registers. */
  lemma ChannelWritesFrame(w: Wire, clk: int, bytes: seq<Byte>, control: Byte, readsBack: Byte -> bool, retries: nat)
    requires WellFormed(w) && ValidChannel(clk) && |bytes| == 8
    ensures var w1 := WriteAll(w, ChannelWrites(clk, bytes, control, readsBack), retries).1;
      && Extends(w, w1) && |w1.regs| == RegisterCount
      && (forall i :: |w.log| <= i < |w1.log| ==> InChannel(w1.log[i].reg as int, clk))
      && (forall i :: 0 <= i < RegisterCount && !InChannel(i, clk) ==> w1.regs[i] == w.regs[i])
  {
    var ws := ChannelWrites(clk, bytes, control, readsBack);
    WriteAllFrame(w, ws, retries);
    assert forall i :: 0 <= i < RegisterCount && !InChannel(i, clk) ==> Pos(ws, i as Byte) == |ws|;
    assert forall k :: 0 <= k < |ws| ==> InChannel(ws[k].reg as int, clk);
  }

  /** When all nine channel writes returned, the channel's registers hold its image. */
  lemma ChannelImage(w: Wire, clk: int, bytes: seq<Byte>, control: Byte, readsBack: Byte -> bool, retries: nat)
    requires WellFormed(w) && ValidChannel(clk) && |bytes| == 8 && retries > 0
    requires WriteAll(w, ChannelWrites(clk, bytes, control, readsBack), retries).0.Done?
    ensures var w1 := WriteAll(w, ChannelWrites(clk, bytes, control, readsBack), retries).1;
      |w1.regs| == RegisterCount && ChannelHolds(w1, clk, bytes, control)
  {
    var ws := ChannelWrites(clk, bytes, control, readsBack);
    WriteAllStores(w, ws, retries);
  }

  /**
   * `reg3 = read_register(bus, address, 0x03) & 0xF8` followed by the write of
   * `reg3 & ~(1 << clk)` (enable) or `reg3 | (1 << clk)` (disable); `verify` says
   * whether the program's write_register reads register 3 back.
   */
  function SetOutput(w: Wire, clk: int, enable: bool, retries: nat, verify: bool): (r: (Outcome, Wire))
    requires WellFormed(w) && ValidChannel(clk)
    ensures WellFormed(r.1) && r.1.clearing == w.clearing
  {
    var (x, w1) := ReadLoop(w, 0x03, retries);
    if x.None? then (Failed(BusError), w1)
    else
      var v := if enable then EnableOutputBits(x.value, clk) else DisableOutputBits(x.value, clk);
      WriteLoop(w1, 0x03, v, retries, verify)
  }

  /**
   * The read-modify-write of register 3 accesses and changes no other register. When
   * it returns, the read of register 3 succeeded and register 3 holds the byte that
   * read returned with bits 2:0 replaced (EnableOutputBits, DisableOutputBits): all
   * clear after an enable, only bit clk set after a disable. That byte was logged as a
   * read of register 3 among the update's accesses.
   */
  lemma SetOutputEffect(w: Wire, clk: int, enable: bool, retries: nat, verify: bool)
    requires WellFormed(w) && ValidChannel(clk) && retries > 0
    ensures var (o, w') := SetOutput(w, clk, enable, retries, verify);
      && Extends(w, w') && |w'.regs| == RegisterCount
      && (forall i :: |w.log| <= i < |w'.log| ==> w'.log[i].reg == 0x03)
      && (forall i :: 0 <= i < RegisterCount && i != 3 ==> w'.regs[i] == w.regs[i])
      && (o.Done? ==>
            exists i :: (|w.log| <= i < |w'.log| && w'.log[i].ReadAccess? && w'.log[i].reg == 0x03 && w'.log[i].got.Some?
              && w'.regs[3] as int / 8 == w'.log[i].got.value as int / 8
              && w'.regs[3] as int % 8 == (if enable then 0 else Pow2(clk))))
      && (o.Done? ==>
            var x := ReadLoop(w, 0x03, retries).0;
            x.Some? && w'.regs[3] == (if enable then EnableOutputBits(x.value, clk) else DisableOutputBits(x.value, clk)))
  {
    var (x, w1) := ReadLoop(w, 0x03, retries);
    ReadReturnsFirstSuccess(w, 0x03, retries);
    ReadLoopFrame(w, 0x03, retries);
    if x.Some? {
      var v := if enable then EnableOutputBits(x.value, clk) else DisableOutputBits(x.value, clk);
      var (o, w') := WriteLoop(w1, 0x03, v, retries, verify);
      WriteLoopFrame(w1, 0x03, v, retries, verify);
      LatchesValue(w1.clearing, 0x03, v);
      assert w'.log[|w1.log| - 1] == w1.log[|w1.log| - 1];
    }
  }

  /**
   * When register 3 is read back (Final2.py, hardkod.py), an update that returns has
   * confirmed the byte now held: its last access read register 3 and got that byte.
   */
  lemma SetOutputConfirmed(w: Wire, clk: int, enable: bool, retries: nat)
    requires WellFormed(w) && ValidChannel(clk) && retries > 0
    ensures var (o, w') := SetOutput(w, clk, enable, retries, true);
      o.Done? ==> |w.log| < |w'.log| && w'.log[|w'.log| - 1] == ReadAccess(0x03, Some(w'.regs[3]))
  {
    var (x, w1) := ReadLoop(w, 0x03, retries);
    if x.Some? {
      var v := if enable then EnableOutputBits(x.value, clk) else DisableOutputBits(x.value, clk);
      assert SetOutput(w, clk, enable, retries, true) == WriteLoop(w1, 0x03, v, retries, true);
      WriteDoneIsConfirmed(w1, 0x03, v, retries, true);
      WriteLoopFrame(w1, 0x03, v, retries, true);
      LatchesValue(w1.clearing, 0x03, v);
      ReadLoopFrame(w, 0x03, retries);
    }
  }

  /** The nine channel writes, then the enable of register 3 (read back as `readsBack` says). */
  function ProgramChannel(w: Wire, clk: int, bytes: seq<Byte>, control: Byte, readsBack: Byte -> bool, retries: nat): (r: (Outcome, Wire))
    requires WellFormed(w) && ValidChannel(clk) && |bytes| == 8
    ensures WellFormed(r.1) && r.1.clearing == w.clearing
  {
    var (o, w1) := WriteAll(w, ChannelWrites(clk, bytes, control, readsBack), retries);
    if o.Failed? then (o, w1) else SetOutput(w1, clk, true, retries, readsBack(0x03))
  }

  /**
   * Programming a channel accesses and changes no register but the channel's nine and
   * register 3; when every write returned, they hold the channel bytes, the control
   * byte, and a register 3 with bits 2:0 clear.
   */
  lemma ProgramChannelEffect(w: Wire, clk: int, bytes: seq<Byte>, control: Byte, readsBack: Byte -> bool, retries: nat)
    requires WellFormed(w) && ValidChannel(clk) && |bytes| == 8 && retries > 0
    ensures var (o, w') := ProgramChannel(w, clk, bytes, control, readsBack, retries);
      && Extends(w, w') && |w'.regs| == RegisterCount
      && (forall i :: |w.log| <= i < |w'.log| ==> InChannel(w'.log[i].reg as int, clk) || w'.log[i].reg == 0x03)
      && (forall i :: 0 <= i < RegisterCount && !InChannel(i, clk) && i != 3 ==> w'.regs[i] == w.regs[i])
      && (o.Done? ==> ChannelHolds(w', clk, bytes, control) && w'.regs[3] as int % 8 == 0)
  {
    var (o, w1) := WriteAll(w, ChannelWrites(clk, bytes, control, readsBack), retries);
    ChannelWritesFrame(w, clk, bytes, control, readsBack, retries);
    if o.Done? {
      ChannelImage(w, clk, bytes, control, readsBack, retries);
      var w' := SetOutput(w1, clk, true, retries, readsBack(0x03)).1;
      SetOutputEffect(w1, clk, true, retries, readsBack(0x03));
      assert forall i :: |w.log| <= i < |w1.log| ==> w'.log[i] == w1.log[i];
    }
  }

  /** The method form of the register-3 update. */
  method SetOutputOn(dev: Device, clk: int, enable: bool, retries: nat, verify: bool) returns (o: Outcome)
    requires dev.Valid() && ValidChannel(clk)
    modifies dev, dev.regs
    ensures dev.Valid()
    ensures (o, dev.State()) == SetOutput(old(dev.State()), clk, enable, retries, verify)
  {
    var x := ReadWithRetry(dev, 0x03, retries);
    if x.None? {
      return Failed(BusError);
    }
    var v := if enable then EnableOutputBits(x.value, clk) else DisableOutputBits(x.value, clk);
    o := WriteWithRetry(dev, 0x03, v, retries, verify);
  }

  /** The method form of channel programming. */
  method ProgramChannelOn(dev: Device, clk: int, bytes: seq<Byte>, control: Byte, readsBack: Byte -> bool, retries: nat)
    returns (o: Outcome)
    requires dev.Valid() && ValidChannel(clk) && |bytes| == 8
    modifies dev, dev.regs
    ensures dev.Valid()
    ensures (o, dev.State()) == ProgramChannel(old(dev.State()), clk, bytes, control, readsBack, retries)
  {
    o := WriteEach(dev, ChannelWrites(clk, bytes, control, readsBack), retries);
    if o.Failed? {
      return;
    }
    o := SetOutputOn(dev, clk, true, retries, readsBack(0x03));
  }
}
