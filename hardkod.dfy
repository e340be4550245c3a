/**
 * hardkod.py: write_register reads back every write, 0xB1 included, with three
 * attempts; the planner keeps c = 1048575 outside the divide-by-4 band; byte base+2
 * carries divby4 shifted left by 3; set_frequency also enables the output in register 3,
 * resets PLLA with the OSError caught, and reads the status once without acting on it.
 */
module Hardkod {
  import opened Wrappers
  import opened Bus
  import opened Bits
  import opened Transport
  import opened Sequence
  import opened Multisynth
  import opened Encoding
  import opened Programs
  import opened Channel

  /** The default `retries=3` of write_register and read_register. */
  const Retries: nat := 3

  const CrystalLoadReg: Byte := 0xB7

  // ---------------------------------------------------------------------------
  // Transport (hardkod.py:14-43)

  /** hardkod.py's write_register reads back whatever register it writes. */
  predicate ReadsBack(reg: Byte)
  {
    true
  }

  /** `write_register(bus, address, reg, v)` as an entry of a run of writes. */
  function Write(reg: Byte, v: Byte): RegWrite
  {
    RegWrite(reg, v, ReadsBack(reg))
  }

  /**
   * The rules of hardkod.py's write_register: a write that returns after at least one
   * attempt ends with the read-back of the value written; one that raises does so only
   * after `retries` attempts; and a write of a nonzero byte to a register that clears
   * itself (0xB1 always) raises, unless the chip answers a read with that very byte.
   */
  lemma WriteRegisterRules(w: Wire, reg: Byte, v: Byte, retries: nat)
    requires WellFormed(w)
    ensures var (o, w') := WriteLoop(w, reg, v, retries, ReadsBack(reg));
      && Extends(w, w')
      && (o.Done? && retries > 0 ==> |w.log| < |w'.log| && w'.log[|w'.log| - 1] == ReadAccess(reg, Some(v)))
      && (o.Failed? ==> WriteCount(NewAccesses(w, w')) == retries)
      && (reg in w.clearing && v != 0 && retries > 0 && (forall i :: 0 <= i < |w.oracle| ==> w.oracle[i] != Answer(v)) ==>
            o.Failed?)
  {
    WriteDoneIsConfirmed(w, reg, v, retries, true);
    WriteFailsOnlyAfterEveryAttempt(w, reg, v, retries, true);
    if reg in w.clearing && v != 0 && (forall i :: 0 <= i < |w.oracle| ==> w.oracle[i] != Answer(v)) {
      VerifiedWriteToSelfClearingFails(w, reg, v, retries);
    }
  }

  /** `try: write_register(bus, address, 0xB1, v) except OSError: pass` (lines 59-63, 94-98, 192-196). */
  function PllResetCaught(w: Wire, v: Byte, retries: nat): (w': Wire)
    requires WellFormed(w)
    ensures WellFormed(w') && w'.clearing == w.clearing
  {
    WriteLoop(w, PllResetReg, v, retries, ReadsBack(PllResetReg)).1
  }

  /** The caught PLL reset changes no register but 0xB1, which at most clears itself. */
  lemma PllResetCaughtFrame(w: Wire, v: Byte, retries: nat)
    requires WellFormed(w)
    ensures var w' := PllResetCaught(w, v, retries);
      && Extends(w, w') && |w'.regs| == RegisterCount
      && (forall i :: |w.log| <= i < |w'.log| ==> w'.log[i].reg == PllResetReg)
      && (forall i :: 0 <= i < RegisterCount && i != PllResetReg as int ==> w'.regs[i] == w.regs[i])
      && (w'.regs[PllResetReg as int] == w.regs[PllResetReg as int] || w'.regs[PllResetReg as int] == 0)
  {
    WriteLoopFrame(w, PllResetReg, v, retries, true);
  }

  // ---------------------------------------------------------------------------
  // Planner and register image (hardkod.py:127-185)

  /** The planner of hardkod.py (and of setF.py), which keeps c = 1048575 for every ratio. */
  function Plan(freq: int): Result<DividerPlan, PlanError>
  {
    PlanWithR(freq, false)
  }

  /**
   * Outside the divide-by-4 band c is 1048575 even for an integer ratio, so an integer
   * divider goes out as P1 = 128 a - 512, P2 = 0 and P3 = 1048575.
   */
  lemma PlanKeepsDenominator(freq: int)
    requires Plan(freq).Success? && freq <= DivBy4Above
    ensures var p := Plan(freq).value;
      && p.c == FracDenom && p.p3 == FracDenom
      && (p.b == 0 ==> p.p1 == 128 * p.a - 512 && p.p2 == 0)
  {
    PlanFractional(freq, false);
  }

  /** R code below 8, and divby4 either 0, or 3 with r_div = 0. */
  predicate Encodable(p: DividerPlan)
  {
    p.rDiv < 8 && (p.divBy4 == 0 || (p.divBy4 == 3 && p.rDiv == 0))
  }

  /**
   * divby4 is nonzero only above 150 MHz, where R = 1, so the shifted divby4 never
   * shares a set bit with r_div: the planned plan is always Encodable.
   */
  lemma PlanIsEncodable(freq: int)
    requires Plan(freq).Success?
    ensures var p := Plan(freq).value;
      && Encodable(p)
      && (p.divBy4 != 0 <==> DivBy4Above < freq)
  {
    PlanPicksSmallestR(freq, false);
    if freq <= DivBy4Above {
      PlanFractional(freq, false);
    } else {
      PlanDivBy4Band(freq, false);
    }
  }

  /** `(r_div << 4) | (divby4 << 3) | ((p1 >> 16) & 0x03)` */
  function Byte2(p: DividerPlan): (b: Byte)
    requires Encodable(p)
    ensures b as int == 16 * p.rDiv + 8 * p.divBy4 + Top2(p.p1)
    ensures b as int % 4 == Top2(p.p1)
  {
    Byte2AtBit3(p.rDiv, p.divBy4, p.p1) as Byte
  }

  /** The bytes written to base_reg .. base_reg + 7. */
  function ChannelBytes(p: DividerPlan): (bs: seq<Byte>)
    requires Encodable(p)
    ensures |bs| == 8
  {
    MsBlock(p.p1, p.p2, p.p3, Byte2(p))
  }

  /**
   * The eight bytes give back P3, P1 and P2, and byte base+2 is the plain sum
   * 16 r_div + 8 divby4 + P1[17:16] (no bit of one field lands on a set bit of
   * another). Where the chip looks for R_DIV (bits 6:4) and MSx_DIVBY4 (bits 3:2) it
   * finds r_div and 0 below the band, but 1 and 2 in the divide-by-4 band.
   */
  lemma BlockEncodesPlan(freq: int)
    requires Plan(freq).Success?
    ensures var p := Plan(freq).value;
      Encodable(p) &&
      var bs := ChannelBytes(p);
      && P3Field(bs) == p.p3
      && P1Field(bs) == p.p1
      && P2Field(bs) == p.p2
      && bs[2] as int == 16 * p.rDiv + 8 * p.divBy4 + p.p1 / 65536
      && (freq <= DivBy4Above ==> RDivField(bs[2] as int) == p.rDiv && DivBy4Field(bs[2] as int) == 0)
      && (DivBy4Above < freq ==> RDivField(bs[2] as int) == 1 && DivBy4Field(bs[2] as int) == 2)
  {
    var p := Plan(freq).value;
    PlanIsEncodable(freq);
    PlanFitsRegisters(freq, false);
    BlockFields(p.p1, p.p2, p.p3, Byte2(p));
    assert Top2(p.p1) == p.p1 / 65536;
    if DivBy4Above < freq {
      DivBy4AtBit3Misread(p.p1);
    } else {
      Byte2Fields(p.rDiv, Top2(p.p1));
    }
  }

  /** A byte 16 r + t with r < 8 and t < 4 holds r in bits 6:4 and 0 in bits 3:2. */
  lemma Byte2Fields(r: nat, t: nat)
    requires r < 8 && t < 4
    ensures (16 * r + t) % 4 == t
    ensures RDivField(16 * r + t) == r && DivBy4Field(16 * r + t) == 0
  {
    assert (16 * r + t) / 16 == r;
    assert (16 * r + t) / 4 == 4 * r;
  }

  /** The register image set_frequency leaves behind for CLKn when all its writes returned. */
  ghost predicate ChannelProgrammed(w: Wire, clk: int, p: DividerPlan)
    requires ValidChannel(clk) && Encodable(p) && |w.regs| == RegisterCount
  {
    ChannelHolds(w, clk, ChannelBytes(p), ControlByte(p.integerMode)) && w.regs[3] as int % 8 == 0
  }

  // ---------------------------------------------------------------------------
  // set_frequency (hardkod.py:120-213)

  /** Lines 206-212: dump the channel's eight registers, its control register and register 3. */
  function Dump(w: Wire, clk: int, retries: nat): (r: (bool, Wire))
    requires WellFormed(w) && ValidChannel(clk)
    ensures WellFormed(r.1) && r.1.clearing == w.clearing && r.1.regs == w.regs
  {
    var (d, w1) := ReadBlock(w, BaseReg(clk) as nat, 8, retries);
    if d.None? then (false, w1)
    else
      var (c, w2) := ReadLoop(w1, ControlReg(clk), retries);
      if c.None? then (false, w2)
      else
        var (e, w3) := ReadLoop(w2, 0x03, retries);
        (e.Some?, w3)
  }

  /** The dump only reads. */
  lemma DumpOnlyReads(w: Wire, clk: int, retries: nat)
    requires WellFormed(w) && ValidChannel(clk)
    ensures var w' := Dump(w, clk, retries).1;
      Extends(w, w') && forall i :: |w.log| <= i < |w'.log| ==> w'.log[i].ReadAccess?
  {
    var (d, w1) := ReadBlock(w, BaseReg(clk) as nat, 8, retries);
    ReadBlockFrame(w, BaseReg(clk) as nat, 8, retries);
    if d.Some? {
      var (c, w2) := ReadLoop(w1, ControlReg(clk), retries);
      ReadLoopFrame(w1, ControlReg(clk), retries);
      if c.Some? {
        var w3 := ReadLoop(w2, 0x03, retries).1;
        ReadLoopFrame(w2, 0x03, retries);
        assert forall i :: |w.log| <= i < |w2.log| ==> w3.log[i] == w2.log[i];
      }
      var w' := Dump(w, clk, retries).1;
      assert forall i :: |w.log| <= i < |w1.log| ==> w'.log[i] == w1.log[i];
    }
  }

  /** How a set_frequency call ended. */
  datatype SetResult =
    | InvalidChannel             // clk_num outside 0..2
    | NotPlanned(why: PlanError) // the range check or the R search returned
    | Programmed(status: Byte)   // ran to the end; the status was only printed
    | SetRaised(failure: Failure) // an OSError propagated to the caller

  /** set_frequency(bus, address, clk_num, freq), every register access with `retries` attempts. */
  function SetFrequencyRun(w: Wire, clk: int, freq: int, retries: nat): (r: (SetResult, Wire))
    requires WellFormed(w)
    ensures WellFormed(r.1) && r.1.clearing == w.clearing
  {
    if !ValidChannel(clk) then (InvalidChannel, w)
    else match Plan(freq)
      case Failure(e) => (NotPlanned(e), w)
      case Success(p) =>
        PlanIsEncodable(freq);
        var (o, w1) := ProgramChannel(w, clk, ChannelBytes(p), ControlByte(p.integerMode), ReadsBack, retries);
        if o.Failed? then (SetRaised(o.failure), w1) else Finish(w1, clk, retries)
  }

  /** Lines 192-212, once the channel is programmed: the caught PLL reset, the status read, the dump. */
  function Finish(w: Wire, clk: int, retries: nat): (r: (SetResult, Wire))
    requires WellFormed(w) && ValidChannel(clk)
    ensures WellFormed(r.1) && r.1.clearing == w.clearing
  {
    var w1 := PllResetCaught(w, 0x20, retries);
    var (s, w2) := ReadLoop(w1, StatusReg, retries);
    if s.None? then (SetRaised(BusError), w2)
    else
      var (ok, w3) := Dump(w2, clk, retries);
      (if ok then Programmed(s.value) else SetRaised(BusError), w3)
  }

  /**
   * After the channel writes, set_frequency changes no register but 0xB1, which at most
   * clears itself, and it never sets one aside for the status it reads: when it reports
   * that status, the read is in the log and only reads follow it.
   */
  lemma FinishEffect(w: Wire, clk: int, retries: nat)
    requires WellFormed(w) && ValidChannel(clk)
    ensures var (r, w') := Finish(w, clk, retries);
      && Extends(w, w') && |w'.regs| == RegisterCount
      && (forall i :: 0 <= i < RegisterCount && i != PllResetReg as int ==> w'.regs[i] == w.regs[i])
      && (w'.regs[PllResetReg as int] == w.regs[PllResetReg as int] || w'.regs[PllResetReg as int] == 0)
      && (r.Programmed? ==>
            exists k :: |w.log| <= k < |w'.log| && w'.log[k] == ReadAccess(StatusReg, Some(r.status)) && OnlyReadsAfter(w', k))
  {
    var w1 := PllResetCaught(w, 0x20, retries);
    PllResetCaughtFrame(w, 0x20, retries);
    var (s, w2) := ReadLoop(w1, StatusReg, retries);
    ReadReturnsFirstSuccess(w1, StatusReg, retries);
    ReadLoopFrame(w1, StatusReg, retries);
    if s.Some? {
      var (ok, w3) := Dump(w2, clk, retries);
      DumpOnlyReads(w2, clk, retries);
      var k := |w2.log| - 1;
      assert w3.log[k] == w2.log[k];
      assert OnlyReadsAfter(w3, k);
    }
  }

  /** Every access after index k is a read. */
  ghost predicate OnlyReadsAfter(w: Wire, k: int)
  {
    forall j :: 0 <= k < j < |w.log| ==> w.log[j].ReadAccess?
  }

  /**
   * set_frequency returns without a single register access exactly for a bad channel,
   * a frequency outside 2.5 kHz .. 200 MHz, and the frequencies 2500 .. 3051 Hz for
   * which no R divider qualifies.
   */
  lemma SetFrequencyRejects(w: Wire, clk: int, freq: int, retries: nat)
    requires WellFormed(w)
    ensures var (r, w') := SetFrequencyRun(w, clk, freq, retries);
      && (r == InvalidChannel <==> !ValidChannel(clk))
      && (r == NotPlanned(OutOfRange) <==> ValidChannel(clk) && (freq < MinFreq || freq > MaxFreq))
      && (r == NotPlanned(NoValidDivider) <==> ValidChannel(clk) && MinFreq <= freq <= 3051)
      && (r.InvalidChannel? || r.NotPlanned? ==> w' == w)
  {
    PlanFailsExactly(freq, false);
  }

  /**
   * set_frequency changes no register outside CLKn's nine, register 3 and 0xB1, which
   * at most clears itself.
   */
  lemma SetFrequencyFrame(w: Wire, clk: int, freq: int, retries: nat)
    requires WellFormed(w) && retries > 0
    ensures var w' := SetFrequencyRun(w, clk, freq, retries).1;
      && Extends(w, w') && |w'.regs| == RegisterCount
      && (forall i :: 0 <= i < RegisterCount && i != 3 && i != PllResetReg as int && !(ValidChannel(clk) && InChannel(i, clk)) ==>
            w'.regs[i] == w.regs[i])
      && (w'.regs[PllResetReg as int] == w.regs[PllResetReg as int] || w'.regs[PllResetReg as int] == 0)
  {
    if ValidChannel(clk) && Plan(freq).Success? {
      var p := Plan(freq).value;
      PlanIsEncodable(freq);
      var bytes, control := ChannelBytes(p), ControlByte(p.integerMode);
      var (o, w1) := ProgramChannel(w, clk, bytes, control, ReadsBack, retries);
      ProgramChannelEffect(w, clk, bytes, control, ReadsBack, retries);
      assert w1.regs[PllResetReg as int] == w.regs[PllResetReg as int];
      if o.Done? {
        FinishEffect(w1, clk, retries);
      }
    }
  }

  /**
   * When set_frequency runs to the end, CLKn's registers hold the plan's bytes and
   * control byte and register 3 has CLK0..CLK2 enabled, whether or not the status it
   * read shows PLLA locked.
   */
  lemma SetFrequencyProgramsChannel(w: Wire, clk: int, freq: int, retries: nat)
    requires WellFormed(w) && retries > 0
    ensures var (r, w') := SetFrequencyRun(w, clk, freq, retries);
      r.Programmed? ==>
        && ValidChannel(clk) && Plan(freq).Success? && Encodable(Plan(freq).value)
        && ChannelProgrammed(w', clk, Plan(freq).value)
  {
    if ValidChannel(clk) && Plan(freq).Success? {
      var p := Plan(freq).value;
      PlanIsEncodable(freq);
      var bytes, control := ChannelBytes(p), ControlByte(p.integerMode);
      var (o, w1) := ProgramChannel(w, clk, bytes, control, ReadsBack, retries);
      ProgramChannelEffect(w, clk, bytes, control, ReadsBack, retries);
      if o.Done? {
        var w' := Finish(w1, clk, retries).1;
        FinishEffect(w1, clk, retries);
        ProgrammedSurvivesReset(w1, w', clk, p);
      }
    }
  }

  /**
   * set_frequency does not act on the status it reads: when it runs to the end, that
   * read is in the log and only reads follow it, so nothing is rolled back whatever
   * LOL_A showed.
   */
  lemma SetFrequencyIgnoresLock(w: Wire, clk: int, freq: int, retries: nat)
    requires WellFormed(w) && retries > 0
    ensures var (r, w') := SetFrequencyRun(w, clk, freq, retries);
      r.Programmed? ==>
        exists k :: |w.log| <= k < |w'.log| && w'.log[k] == ReadAccess(StatusReg, Some(r.status)) && OnlyReadsAfter(w', k)
  {
    if ValidChannel(clk) && Plan(freq).Success? {
      var p := Plan(freq).value;
      PlanIsEncodable(freq);
      var bytes, control := ChannelBytes(p), ControlByte(p.integerMode);
      var (o, w1) := ProgramChannel(w, clk, bytes, control, ReadsBack, retries);
      ProgramChannelEffect(w, clk, bytes, control, ReadsBack, retries);
      if o.Done? {
        FinishEffect(w1, clk, retries);
      }
    }
  }

  /** The channel image survives a stretch that changes no register but 0xB1. */
  lemma ProgrammedSurvivesReset(w1: Wire, w2: Wire, clk: int, p: DividerPlan)
    requires ValidChannel(clk) && Encodable(p) && |w1.regs| == RegisterCount == |w2.regs|
    requires forall i :: 0 <= i < RegisterCount && i != PllResetReg as int ==> w2.regs[i] == w1.regs[i]
    requires ChannelProgrammed(w1, clk, p)
    ensures ChannelProgrammed(w2, clk, p)
  {
    assert BaseReg(clk) as int + 8 < PllResetReg as int;
  }

  /** Line 251: the `set <clk> <freq>` command programs four times the frequency typed. */
  function SetCommand(w: Wire, clk: int, arg: int, retries: nat): (r: (SetResult, Wire))
    requires WellFormed(w)
    ensures WellFormed(r.1) && r.1.clearing == w.clearing
  {
    SetFrequencyRun(w, clk, 4 * arg, retries)
  }

  /**
   * Through the 4x scaling the range check rejects every argument below 625 or above
   * 50000000, and the R search every argument from 625 to 762.
   */
  lemma SetCommandRange(w: Wire, clk: int, arg: int, retries: nat)
    requires WellFormed(w) && ValidChannel(clk)
    ensures var r := SetCommand(w, clk, arg, retries).0;
      && (r == NotPlanned(OutOfRange) <==> arg < 625 || arg > 50_000_000)
      && (r == NotPlanned(NoValidDivider) <==> 625 <= arg <= 762)
  {
    SetFrequencyRejects(w, clk, 4 * arg, retries);
  }

  // ---------------------------------------------------------------------------
  // initialize (hardkod.py:47-116)

  /** Lines 66 and 69: outputs off, crystal load 10 pF. */
  const SetupWrites: seq<RegWrite> := [Write(0x03, 0xFF), Write(CrystalLoadReg, 0xD2)]

  /** Lines 74-91: crystal to PLLA, fanout, the MSNA registers, PLLA integer mode. */
  const OutputWrites: seq<RegWrite> :=
    [Write(0x0F, 0x00), Write(0xBB, 0xD0)] + BlockWrites(26, MsnaBytes, true) + [Write(22, 0x40)]

  /** How initialize ended; it returns None on every path, so this is what it printed or raised. */
  datatype InitResult =
    | Initialized(status: Byte) // PLLA locked, the MSNA registers dumped
    | LockTimeout               // the else branch of the 20-poll loop
    | InitRaised(failure: Failure)

  /** initialize(bus, address), every register access with `retries` attempts. */
  function InitRun(w: Wire, retries: nat): (r: (InitResult, Wire))
    requires WellFormed(w)
    ensures WellFormed(r.1) && r.1.clearing == w.clearing
  {
    var w1 := PllResetCaught(w, 0xA0, retries);
    var (o, w2) := WriteAll(w1, SetupWrites, retries);
    if o.Failed? then (InitRaised(o.failure), w2)
    else
      var (c, w3) := ReadLoop(w2, CrystalLoadReg, retries);
      if c.None? then (InitRaised(BusError), w3)
      else
        var (o2, w4) := WriteAll(w3, OutputWrites, retries);
        if o2.Failed? then (InitRaised(o2.failure), w4) else AwaitLock(w4, retries)
  }

  /** Lines 94-114: the caught PLL reset, up to 20 status polls, and the dump of 26..33. */
  function AwaitLock(w: Wire, retries: nat): (r: (InitResult, Wire))
    requires WellFormed(w)
    ensures WellFormed(r.1) && r.1.clearing == w.clearing
  {
    var w1 := PllResetCaught(w, 0x20, retries);
    var (p, w2) := PollStatus(w1, 20, retries, PllLocked, false);
    if p.PollRaised? then (InitRaised(BusError), w2)
    else if p.Exhausted? then (LockTimeout, w2)
    else
      var (d, w3) := ReadBlock(w2, 26, 8, retries);
      (if d.None? then InitRaised(BusError) else Initialized(p.status), w3)
  }

  /**
   * The polls change no register but 0xB1. The lock is reported only after a status read
   * with LOL_A and SYS_INIT clear; a timeout only when the polls, the last accesses of
   * all, all showed one of them set.
   */
  lemma AwaitLockReport(w: Wire, retries: nat)
    requires WellFormed(w)
    ensures var (r, w') := AwaitLock(w, retries);
      && Extends(w, w') && |w'.regs| == RegisterCount
      && (forall i :: 0 <= i < RegisterCount && i != PllResetReg as int ==> w'.regs[i] == w.regs[i])
      && (r.Initialized? ==>
            PllLocked(r.status) && exists i :: |w.log| <= i < |w'.log| && w'.log[i] == ReadAccess(StatusReg, Some(r.status)))
      && (r == LockTimeout ==> exists k :: |w.log| <= k <= |w'.log| && UnlockedSince(w', k))
  {
    var w1 := PllResetCaught(w, 0x20, retries);
    PllResetCaughtFrame(w, 0x20, retries);
    var (p, w2) := PollStatus(w1, 20, retries, PllLocked, false);
    PollFindsFirstReady(w1, 20, retries, PllLocked, false);
    if p.Ready? {
      var w3 := ReadBlock(w2, 26, 8, retries).1;
      ReadBlockFrame(w2, 26, 8, retries);
      assert w3.log[|w2.log| - 1] == w2.log[|w2.log| - 1];
    } else if p.Exhausted? {
      assert UnlockedSince(w2, |w1.log|);
    }
  }

  lemma OutputWritesShape()
    ensures |OutputWrites| == 11 && Distinct(OutputWrites)
    ensures forall i :: 0 <= i < 8 ==> OutputWrites[2 + i] == RegWrite((26 + i) as Byte, MsnaBytes[i], true)
    ensures OutputWrites[0] == RegWrite(0x0F, 0x00, true) && OutputWrites[10] == RegWrite(22, 0x40, true)
  {
    var a := [Write(0x0F, 0x00), Write(0xBB, 0xD0)];
    var b := BlockWrites(26, MsnaBytes, true);
    assert forall j :: 0 <= j < |b| ==> 26 <= b[j].reg as int < 34;
    DistinctAppend(a, b);
    DistinctAppend(a + b, [Write(22, 0x40)]);
    assert OutputWrites == a + b + [Write(22, 0x40)];
    assert forall i :: 0 <= i < 8 ==> OutputWrites[2 + i] == b[i];
  }

  /** When the output writes all returned, 0x0F, MSNA 26..33 and register 22 hold what was written. */
  lemma OutputWritesStore(w: Wire, retries: nat)
    requires WellFormed(w) && retries > 0
    requires WriteAll(w, OutputWrites, retries).0.Done?
    ensures var w' := WriteAll(w, OutputWrites, retries).1;
      && |w'.regs| == RegisterCount
      && (forall i :: 0 <= i < 8 ==> w'.regs[26 + i] == MsnaBytes[i])
      && w'.regs[0x0F] == 0x00 && w'.regs[22] == 0x40
  {
    OutputWritesShape();
    var ws := OutputWrites;
    WriteAllLatches(w, ws, retries);
    forall k | 0 <= k < |ws| && k != 1
      ensures Latched(w.clearing, ws[k].reg, ws[k].value) == ws[k].value
    {
      LatchesValue(w.clearing, ws[k].reg, ws[k].value);
    }
  }

  /** Every access from index k on is a status read that did not show PLLA locked. */
  ghost predicate UnlockedSince(w: Wire, k: int)
  {
    forall i :: 0 <= k <= i < |w.log| ==> w.log[i].ReadAccess? && w.log[i].reg == StatusReg && !ReadyRead(w.log[i], PllLocked)
  }

  /**
   * initialize reports the lock only after a status read with LOL_A and SYS_INIT both
   * clear, and gives up only when every status read of its 20 polls failed or showed one
   * of them set, those reads being its last accesses.
   */
  lemma InitReportsLock(w: Wire, retries: nat)
    requires WellFormed(w)
    ensures var (r, w') := InitRun(w, retries);
      && (r.Initialized? ==>
            PllLocked(r.status) && exists i :: |w.log| <= i < |w'.log| && w'.log[i] == ReadAccess(StatusReg, Some(r.status)))
      && (r == LockTimeout ==> exists k :: |w.log| <= k <= |w'.log| && UnlockedSince(w', k))
  {
    var w1 := PllResetCaught(w, 0xA0, retries);
    PllResetCaughtFrame(w, 0xA0, retries);
    var (o, w2) := WriteAll(w1, SetupWrites, retries);
    WriteAllFrame(w1, SetupWrites, retries);
    if o.Done? {
      var (c, w3) := ReadLoop(w2, CrystalLoadReg, retries);
      ReadLoopFrame(w2, CrystalLoadReg, retries);
      if c.Some? {
        var (o2, w4) := WriteAll(w3, OutputWrites, retries);
        WriteAllFrame(w3, OutputWrites, retries);
        if o2.Done? {
          AwaitLockReport(w4, retries);
        }
      }
    }
  }

  /**
   * Whether or not PLLA locked, once initialize gets to its polls the registers hold
   * what it wrote: outputs off, 10 pF crystal load, crystal to PLLA, the MSNA bytes of
   * ratio 32 in 26..33 and PLLA integer mode.
   */
  lemma InitWritesOutputs(w: Wire, retries: nat)
    requires WellFormed(w) && retries > 0
    ensures var (r, w') := InitRun(w, retries);
      && |w'.regs| == RegisterCount
      && (r.Initialized? || r == LockTimeout ==>
            && (forall i :: 0 <= i < 8 ==> w'.regs[26 + i] == MsnaBytes[i])
            && w'.regs[0x03] == 0xFF && w'.regs[CrystalLoadReg as int] == 0xD2
            && w'.regs[0x0F] == 0x00 && w'.regs[22] == 0x40)
  {
    var w1 := PllResetCaught(w, 0xA0, retries);
    var (o, w2) := WriteAll(w1, SetupWrites, retries);
    if o.Done? {
      WriteAllStores(w1, SetupWrites, retries);
      var (c, w3) := ReadLoop(w2, CrystalLoadReg, retries);
      ReadLoopFrame(w2, CrystalLoadReg, retries);
      if c.Some? {
        OutputsThenLock(w3, retries);
      }
    }
  }

  /** From the writes of lines 74-91 on: what they store survives the lock wait, and so do registers 3 and 0xB7. */
  lemma OutputsThenLock(w: Wire, retries: nat)
    requires WellFormed(w) && retries > 0
    ensures var (o, w1) := WriteAll(w, OutputWrites, retries);
      o.Done? ==>
        var (r, w') := AwaitLock(w1, retries);
        && |w'.regs| == RegisterCount
        && (forall i :: 0 <= i < 8 ==> w'.regs[26 + i] == MsnaBytes[i])
        && w'.regs[0x0F] == 0x00 && w'.regs[22] == 0x40
        && w'.regs[0x03] == w.regs[0x03] && w'.regs[CrystalLoadReg as int] == w.regs[CrystalLoadReg as int]
  {
    var (o, w1) := WriteAll(w, OutputWrites, retries);
    WriteAllFrame(w, OutputWrites, retries);
    if o.Done? {
      OutputWritesStore(w, retries);
      OutputWritesShape();
      assert Pos(OutputWrites, 0x03) == |OutputWrites| && Pos(OutputWrites, CrystalLoadReg) == |OutputWrites|;
      AwaitLockReport(w1, retries);
    }
  }

  // ---------------------------------------------------------------------------
  // The same operations over the device

  method ResetPllCaught(dev: Device, v: Byte, retries: nat)
    requires dev.Valid()
    modifies dev, dev.regs
    ensures dev.Valid()
    ensures dev.State() == PllResetCaught(old(dev.State()), v, retries)
  {
    var o := WriteWithRetry(dev, PllResetReg, v, retries, ReadsBack(PllResetReg));
  }

  method DumpChannel(dev: Device, clk: int, retries: nat) returns (ok: bool)
    requires dev.Valid() && ValidChannel(clk)
    modifies dev
    ensures dev.Valid()
    ensures (ok, dev.State()) == Dump(old(dev.State()), clk, retries)
  {
    var d := ReadEach(dev, BaseReg(clk) as nat, 8, retries);
    if d.None? {
      return false;
    }
    var c := ReadWithRetry(dev, ControlReg(clk), retries);
    if c.None? {
      return false;
    }
    var e := ReadWithRetry(dev, 0x03, retries);
    ok := e.Some?;
  }

  /** set_frequency over the device. */
  method SetFrequency(dev: Device, clk: int, freq: int) returns (r: SetResult)
    requires dev.Valid()
    modifies dev, dev.regs
    ensures dev.Valid()
    ensures (r, dev.State()) == SetFrequencyRun(old(dev.State()), clk, freq, Retries)
  {
    if !ValidChannel(clk) {
      return InvalidChannel;
    }
    var plan := Plan(freq);
    if plan.Failure? {
      return NotPlanned(plan.error);
    }
    var p := plan.value;
    PlanIsEncodable(freq);
    var o := ProgramChannelOn(dev, clk, ChannelBytes(p), ControlByte(p.integerMode), ReadsBack, Retries);
    if o.Failed? {
      return SetRaised(o.failure);
    }
    ResetPllCaught(dev, 0x20, Retries);
    var s := ReadWithRetry(dev, StatusReg, Retries);
    if s.None? {
      return SetRaised(BusError);
    }
    var ok := DumpChannel(dev, clk, Retries);
    r := if ok then Programmed(s.value) else SetRaised(BusError);
  }

  /** initialize over the device. */
  method Initialize(dev: Device) returns (r: InitResult)
    requires dev.Valid()
    modifies dev, dev.regs
    ensures dev.Valid()
    ensures (r, dev.State()) == InitRun(old(dev.State()), Retries)
  {
    ResetPllCaught(dev, 0xA0, Retries);
    var o := WriteEach(dev, SetupWrites, Retries);
    if o.Failed? {
      return InitRaised(o.failure);
    }
    var c := ReadWithRetry(dev, CrystalLoadReg, Retries);
    if c.None? {
      return InitRaised(BusError);
    }
    o := WriteEach(dev, OutputWrites, Retries);
    if o.Failed? {
      return InitRaised(o.failure);
    }
    ResetPllCaught(dev, 0x20, Retries);
    var p := PollUntilReady(dev, 20, Retries, PllLocked, false);
    if p.PollRaised? {
      return InitRaised(BusError);
    }
    if p.Exhausted? {
      return LockTimeout;
    }
    var d := ReadEach(dev, 26, 8, Retries);
    r := if d.None? then InitRaised(BusError) else Initialized(p.status);
  }
}
