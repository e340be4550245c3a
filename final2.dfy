/**
 * Final2.py, the CLI's version of the driver: write_register reads back every write
 * except to 0xB1, 1 and 187 or with skip_verify, with five attempts; the planner
 * searches R below 500 kHz and drops c to 1 for an integer ratio; set_frequency
 * programs the eight Multisynth registers, the control register and register 3, then
 * resets PLLA and reads the status once.
 */
module Final2 {
  import opened Wrappers
  import opened Bus
  import opened Bits
  import opened Transport
  import opened Sequence
  import opened Multisynth
  import opened Encoding
  import opened Programs
  import opened Channel

  /** The default `retries=5` of write_register and read_register. */
  const Retries: nat := 5

  const CrystalLoadReg: Byte := 0xB7
  const CrystalLoad10pF: Byte := 0xD2

  // ---------------------------------------------------------------------------
  // Transport

  /** `not (skip_verify or reg == 0xB1 or reg == 1 or reg == 187)`: the write is read back. */
  predicate ReadsBack(reg: Byte, skipVerify: bool)
  {
    !skipVerify && reg != 0xB1 && reg != 1 && reg != 187
  }

  /** `write_register(bus, address, reg, v, skip_verify=skipVerify)` as an entry of a run of writes. */
  function Call(reg: Byte, v: Byte, skipVerify: bool): RegWrite
  {
    RegWrite(reg, v, ReadsBack(reg, skipVerify))
  }

  /**
   * The rules of Final2.py's write_register: it never reads back the registers that may
   * clear themselves, nor any register with skip_verify; a write that is not read back
   * logs only writes of the value; and any write raises only after its five attempts.
   */
  lemma WriteRegisterRules(w: Wire, reg: Byte, v: Byte, skipVerify: bool)
    requires WellFormed(w)
    ensures ReadsBack(reg, false) <==> reg !in ClearingCandidates
    ensures var (o, w') := WriteLoop(w, reg, v, Retries, ReadsBack(reg, skipVerify));
      && Extends(w, w')
      && (!ReadsBack(reg, skipVerify) ==>
            forall i :: |w.log| <= i < |w'.log| ==> w'.log[i].WriteAccess? && w'.log[i].reg == reg && w'.log[i].value == v)
      && (o.Failed? ==> WriteCount(NewAccesses(w, w')) == Retries)
  {
    if !ReadsBack(reg, skipVerify) {
      UnverifiedWriteNeverReadsBack(w, reg, v, Retries);
    }
    WriteFailsOnlyAfterEveryAttempt(w, reg, v, Retries, ReadsBack(reg, skipVerify));
  }

  // ---------------------------------------------------------------------------
  // Planner and register image (set_frequency, Final2.py:130-190)

  /** The planner of Final2.py, which reduces c to 1 when b = 0. */
  function Plan(freq: int): Result<DividerPlan, PlanError>
  {
    PlanWithR(freq, true)
  }

  /** In Final2.py the denominator is 1 exactly for an integer ratio, so an integer divider has P2 = 0 and P3 = 1. */
  lemma PlanReducesDenominator(freq: int)
    requires Plan(freq).Success?
    ensures var p := Plan(freq).value;
      && (p.c == 1 <==> p.b == 0)
      && (p.c == 1 || p.c == FracDenom)
      && (p.b == 0 ==> p.p2 == 0 && p.p3 == 1)
  {
    if freq <= DivBy4Above {
      PlanFractional(freq, true);
    } else {
      PlanDivBy4Band(freq, true);
    }
  }

  /** A plan whose R code and divby4 code fit their fields of byte base+2. */
  predicate Encodable(p: DividerPlan)
  {
    p.rDiv < 8 && p.divBy4 < 4
  }

  lemma PlanIsEncodable(freq: int, reduce: bool)
    requires PlanWithR(freq, reduce).Success?
    ensures var p := PlanWithR(freq, reduce).value;
      Encodable(p) && (p.divBy4 == 0 || p.divBy4 == 3)
  {
    PlanPicksSmallestR(freq, reduce);
    if freq <= DivBy4Above {
      PlanFractional(freq, reduce);
    } else {
      PlanDivBy4Band(freq, reduce);
    }
  }

  /** `(r_div << 4) | (divby4 << 2) | ((p1 >> 16) & 0x03)` */
  function Byte2(p: DividerPlan): (b: Byte)
    requires Encodable(p)
    ensures b as int == 16 * p.rDiv + 4 * p.divBy4 + Top2(p.p1)
    ensures b as int % 4 == Top2(p.p1)
  {
    Byte2AtBit2(p.rDiv, p.divBy4, p.p1) as Byte
  }

  /** The bytes written to base_reg .. base_reg + 7. */
  function ChannelBytes(p: DividerPlan): (bs: seq<Byte>)
    requires Encodable(p)
    ensures |bs| == 8
  {
    MsBlock(p.p1, p.p2, p.p3, Byte2(p))
  }

  /**
   * The eight bytes decode back to the plan: P3 and P2 as 20-bit fields, P1 as an
   * 18-bit field, r_div from bits 6:4 and divby4 from bits 3:2 of byte base+2, whose
   * bits 1:0 hold P1[17:16] and whose bit 7 stays clear.
   */
  lemma BlockEncodesPlan(freq: int)
    requires Plan(freq).Success?
    ensures var p := Plan(freq).value;
      Encodable(p) &&
      var bs := ChannelBytes(p);
      && P3Field(bs) == p.p3
      && P1Field(bs) == p.p1
      && P2Field(bs) == p.p2
      && RDivField(bs[2] as int) == p.rDiv
      && DivBy4Field(bs[2] as int) == p.divBy4
      && bs[2] as int % 4 == p.p1 / 65536
      && bs[2] < 128
  {
    PlanIsEncodable(freq, true);
    PlanFitsRegisters(freq, true);
    ChannelBytesDecode(Plan(freq).value);
  }

  lemma ChannelBytesDecode(p: DividerPlan)
    requires Encodable(p)
    requires 0 <= p.p1 < 262144 && 0 <= p.p2 < 1048576 && 0 <= p.p3 < 1048576
    ensures var bs := ChannelBytes(p);
      && P3Field(bs) == p.p3
      && P1Field(bs) == p.p1
      && P2Field(bs) == p.p2
      && RDivField(bs[2] as int) == p.rDiv
      && DivBy4Field(bs[2] as int) == p.divBy4
      && bs[2] as int % 4 == p.p1 / 65536
      && bs[2] < 128
  {
    var b2 := Byte2(p);
    BlockFields(p.p1, p.p2, p.p3, b2);
    assert b2 as int == Byte2AtBit2(p.rDiv, p.divBy4, p.p1);
    assert Top2(p.p1) == p.p1 / 65536;
  }

  /** Final2.py's write_register reads back every channel register and register 3. */
  predicate Verifies(reg: Byte)
  {
    ReadsBack(reg, false)
  }

  /** The register image set_frequency leaves behind for CLKn when all its writes returned. */
  ghost predicate ChannelProgrammed(w: Wire, clk: int, p: DividerPlan)
    requires ValidChannel(clk) && Encodable(p) && |w.regs| == RegisterCount
  {
    ChannelHolds(w, clk, ChannelBytes(p), ControlByte(p.integerMode)) && w.regs[3] as int % 8 == 0
  }

  /** What the status read after the PLLA reset showed (Final2.py:195-205). */
  datatype LockCheck = Locked(status: Byte) | NotLocked(status: Byte) | CheckRaised

  /** Lines 195-205: reset PLLA without read-back, then one status read; an OSError is caught. */
  function PllCheck(w: Wire, retries: nat): (r: (LockCheck, Wire))
    requires WellFormed(w)
    ensures WellFormed(r.1) && r.1.clearing == w.clearing
  {
    var (o, w1) := WriteLoop(w, PllResetReg, 0x20, retries, ReadsBack(PllResetReg, true));
    if o.Failed? then (CheckRaised, w1)
    else
      var (s, w2) := ReadLoop(w1, StatusReg, retries);
      if s.None? then (CheckRaised, w2)
      else (if PllLocked(s.value) then Locked(s.value) else NotLocked(s.value), w2)
  }

  /** The PLLA reset changes no register but 0xB1, which at most clears itself. */
  lemma PllCheckFrame(w: Wire, retries: nat)
    requires WellFormed(w)
    ensures var w' := PllCheck(w, retries).1;
      && Extends(w, w') && |w'.regs| == RegisterCount
      && (forall i :: 0 <= i < RegisterCount && i != PllResetReg as int ==> w'.regs[i] == w.regs[i])
      && (w'.regs[PllResetReg as int] == w.regs[PllResetReg as int] || w'.regs[PllResetReg as int] == 0)
  {
    var (o, w1) := WriteLoop(w, PllResetReg, 0x20, retries, false);
    WriteLoopFrame(w, PllResetReg, 0x20, retries, false);
    if o.Done? {
      ReadLoopFrame(w1, StatusReg, retries);
    }
  }

  /** Lines 209-217: dump the channel's eight registers, its control register, register 3 and the status. */
  function Dump(w: Wire, clk: int, retries: nat): (r: (bool, Wire))
    requires WellFormed(w) && ValidChannel(clk)
    ensures WellFormed(r.1) && r.1.clearing == w.clearing && r.1.regs == w.regs
  {
    var (d, w1) := ReadBlock(w, BaseReg(clk) as nat, 8, retries);
    if d.None? then (false, w1)
    else
      var (c, w2) := ReadLoop(w1, ControlReg(clk), retries);
      if c.None? then (false, w2)
      else
        var (e, w3) := ReadLoop(w2, 0x03, retries);
        if e.None? then (false, w3)
        else
          var (s, w4) := ReadLoop(w3, StatusReg, retries);
          (s.Some?, w4)
  }

  lemma DumpExtends(w: Wire, clk: int, retries: nat)
    requires WellFormed(w) && ValidChannel(clk)
    ensures Extends(w, Dump(w, clk, retries).1)
  {
    var w1 := ReadBlock(w, BaseReg(clk) as nat, 8, retries).1;
    ReadBlockFrame(w, BaseReg(clk) as nat, 8, retries);
    ReadLoopFrame(w1, ControlReg(clk), retries);
    var w2 := ReadLoop(w1, ControlReg(clk), retries).1;
    ReadLoopFrame(w2, 0x03, retries);
    var w3 := ReadLoop(w2, 0x03, retries).1;
    ReadLoopFrame(w3, StatusReg, retries);
  }

  /** How a set_frequency call ended. */
  datatype SetResult =
    | InvalidChannel             // clk_num outside 0..2
    | NotPlanned(why: PlanError) // the range check or the R search returned
    | Programmed(lock: LockCheck)
    | SetRaised(failure: Failure) // an OSError propagated to the caller

  /** set_frequency(bus, address, clk_num, freq), every register access with `retries` attempts. */
  function SetFrequencyRun(w: Wire, clk: int, freq: int, retries: nat): (r: (SetResult, Wire))
    requires WellFormed(w)
    ensures WellFormed(r.1) && r.1.clearing == w.clearing
  {
    if !ValidChannel(clk) then (InvalidChannel, w)
    else match Plan(freq)
      case Failure(e) => (NotPlanned(e), w)
      case Success(p) =>
        PlanIsEncodable(freq, true);
        ApplyPlan(w, clk, p, retries)
  }

  /** Lines 181-217, once the plan is known: program the channel, reset PLLA, dump. */
  function ApplyPlan(w: Wire, clk: int, p: DividerPlan, retries: nat): (r: (SetResult, Wire))
    requires WellFormed(w) && ValidChannel(clk) && Encodable(p)
    ensures WellFormed(r.1) && r.1.clearing == w.clearing
  {
    var (o, w1) := ProgramChannel(w, clk, ChannelBytes(p), ControlByte(p.integerMode), Verifies, retries);
    if o.Failed? then (SetRaised(o.failure), w1)
    else
      var (lock, w2) := PllCheck(w1, retries);
      var (ok, w3) := Dump(w2, clk, retries);
      (if ok then Programmed(lock) else SetRaised(BusError), w3)
  }

  /**
   * set_frequency returns without a single register access exactly for a bad channel,
   * a frequency outside 2.5 kHz .. 200 MHz, and the frequencies 2500 .. 3051 Hz for
   * which no R divider qualifies.
   */
  lemma SetFrequencyRejects(w: Wire, clk: int, freq: int, retries: nat)
    requires WellFormed(w)
    ensures var (r, w') := SetFrequencyRun(w, clk, freq, retries);
      && (r == InvalidChannel <==> !ValidChannel(clk))
      && (r == NotPlanned(OutOfRange) <==> ValidChannel(clk) && (freq < MinFreq || freq > MaxFreq))
      && (r == NotPlanned(NoValidDivider) <==> ValidChannel(clk) && MinFreq <= freq <= 3051)
      && (r.InvalidChannel? || r.NotPlanned? ==> w' == w)
  {
    PlanFailsExactly(freq, true);
  }

  /**
   * set_frequency changes no register outside CLKn's nine, register 3 and 0xB1, which
   * at most clears itself.
   */
  lemma SetFrequencyFrame(w: Wire, clk: int, freq: int, retries: nat)
    requires WellFormed(w) && retries > 0
    ensures var w' := SetFrequencyRun(w, clk, freq, retries).1;
      && Extends(w, w') && |w'.regs| == RegisterCount
      && (forall i :: 0 <= i < RegisterCount && i != 3 && i != PllResetReg as int && !(ValidChannel(clk) && InChannel(i, clk)) ==>
            w'.regs[i] == w.regs[i])
      && (w'.regs[PllResetReg as int] == w.regs[PllResetReg as int] || w'.regs[PllResetReg as int] == 0)
  {
    if ValidChannel(clk) && Plan(freq).Success? {
      PlanIsEncodable(freq, true);
      ApplyPlanFrame(w, clk, Plan(freq).value, retries);
    }
  }

  /** The frame of set_frequency for any encodable plan. */
  lemma ApplyPlanFrame(w: Wire, clk: int, p: DividerPlan, retries: nat)
    requires WellFormed(w) && ValidChannel(clk) && Encodable(p) && retries > 0
    ensures var w' := ApplyPlan(w, clk, p, retries).1;
      && Extends(w, w') && |w'.regs| == RegisterCount
      && (forall i :: 0 <= i < RegisterCount && i != 3 && i != PllResetReg as int && !InChannel(i, clk) ==> w'.regs[i] == w.regs[i])
      && (w'.regs[PllResetReg as int] == w.regs[PllResetReg as int] || w'.regs[PllResetReg as int] == 0)
  {
    var bytes, control := ChannelBytes(p), ControlByte(p.integerMode);
    var (o, w1) := ProgramChannel(w, clk, bytes, control, Verifies, retries);
    ProgramChannelEffect(w, clk, bytes, control, Verifies, retries);
    if o.Done? {
      var w2 := PllCheck(w1, retries).1;
      PllCheckFrame(w1, retries);
      var w3 := Dump(w2, clk, retries).1;
      DumpExtends(w2, clk, retries);
      assert ApplyPlan(w, clk, p, retries).1 == w3;
      assert w1.regs[PllResetReg as int] == w.regs[PllResetReg as int];
    }
  }

  /**
   * When set_frequency completes, CLKn's registers hold the plan's bytes and control
   * byte, and register 3 has CLK0..CLK2 all enabled.
   */
  lemma SetFrequencyProgramsChannel(w: Wire, clk: int, freq: int, retries: nat)
    requires WellFormed(w) && retries > 0
    ensures var (r, w') := SetFrequencyRun(w, clk, freq, retries);
      r.Programmed? ==> ValidChannel(clk) && Plan(freq).Success? && Encodable(Plan(freq).value) && ChannelProgrammed(w', clk, Plan(freq).value)
  {
    if ValidChannel(clk) && Plan(freq).Success? {
      PlanIsEncodable(freq, true);
      ApplyPlanImage(w, clk, Plan(freq).value, retries);
    }
  }

  /** The channel image left by set_frequency for any encodable plan. */
  lemma ApplyPlanImage(w: Wire, clk: int, p: DividerPlan, retries: nat)
    requires WellFormed(w) && ValidChannel(clk) && Encodable(p) && retries > 0
    ensures var (r, w') := ApplyPlan(w, clk, p, retries);
      r.Programmed? ==> ChannelProgrammed(w', clk, p)
  {
    var bytes, control := ChannelBytes(p), ControlByte(p.integerMode);
    var (o, w1) := ProgramChannel(w, clk, bytes, control, Verifies, retries);
    ProgramChannelEffect(w, clk, bytes, control, Verifies, retries);
    if o.Done? {
      var w2 := PllCheck(w1, retries).1;
      PllCheckFrame(w1, retries);
      ProgrammedSurvivesCheck(w1, w2, clk, p);
    }
  }

  /** The channel image survives a stretch that changes no register but 0xB1. */
  lemma ProgrammedSurvivesCheck(w1: Wire, w2: Wire, clk: int, p: DividerPlan)
    requires ValidChannel(clk) && Encodable(p) && |w1.regs| == RegisterCount == |w2.regs|
    requires forall i :: 0 <= i < RegisterCount && i != PllResetReg as int ==> w2.regs[i] == w1.regs[i]
    requires ChannelProgrammed(w1, clk, p)
    ensures ChannelProgrammed(w2, clk, p)
  {
    assert BaseReg(clk) as int + 8 < PllResetReg as int;
  }

  // ---------------------------------------------------------------------------
  // initialize (Final2.py:45-126)

  /** Lines 63-67: crystal, interrupt mask, spread spectrum, outputs off, crystal load 10 pF. */
  const SetupWrites: seq<RegWrite> :=
    [Call(2, 0x18, false), Call(1, 0x00, true), Call(149, 0x00, false), Call(3, 0xFF, false),
     Call(CrystalLoadReg, CrystalLoad10pF, false)]

  /** Lines 74-90: CLK3..CLK7 powered down, PLL inputs, fanout, and the MSNA registers. */
  const DriveWrites: seq<RegWrite> :=
    [Call(19, 0x80, false), Call(20, 0x80, false), Call(21, 0x80, false), Call(22, 0xC0, false),
     Call(23, 0x80, false), Call(0x0F, 0x00, false), Call(0xBB, 0x50, true)]

  const OutputWrites: seq<RegWrite> := DriveWrites + BlockWrites(26, MsnaBytes, true)

  /** Lines 120-121: between lock rounds, rewrite the crystal load and reset PLLA again. */
  const RelockWrites: seq<RegWrite> := [Call(CrystalLoadReg, CrystalLoad10pF, false), Call(PllResetReg, 0x20, true)]

  /** How initialize ended. */
  datatype InitResult =
    | Initialized              // returned True
    | SysInitTimeout           // returned False: SYS_INIT never cleared
    | CrystalMismatch(v: Byte) // returned False: 0xB7 did not read back 0xD2
    | LockTimeout              // returned False: PLLA never locked
    | InitRaised(failure: Failure)

  /** Lines 98-105: reset PLLA and read 0xB1 back, catching OSError. */
  function PllReset(w: Wire, retries: nat): (w': Wire)
    requires WellFormed(w)
    ensures WellFormed(w') && w'.clearing == w.clearing
  {
    var (o, w1) := WriteLoop(w, PllResetReg, 0x20, retries, ReadsBack(PllResetReg, true));
    if o.Failed? then w1 else ReadLoop(w1, PllResetReg, retries).1
  }

  /**
   * One round of lines 108-121: poll the status `polls` times (50 in the source) for
   * `(status & 0xA0) == 0`; on success dump MSNA and end with True; otherwise rewrite
   * 0xB7 and 0xB1. None means the loop goes on to the next round. A round changes no register but 0xB7 and 0xB1; it
   * ends with True only after a status read of its own saw `(status & 0xA0) == 0`,
   * neither LOL_A nor SYS_INIT set, and it goes on only when none of its reads saw that.
   */
  function LockRound(w: Wire, polls: nat, retries: nat): (r: (Option<InitResult>, Wire))
    requires WellFormed(w)
    ensures WellFormed(r.1) && r.1.clearing == w.clearing
    ensures r.0.Some? ==> r.0.value == Initialized || r.0.value.InitRaised?
    ensures Extends(w, r.1)
    ensures forall i :: 0 <= i < RegisterCount && i != CrystalLoadReg as int && i != PllResetReg as int ==> r.1.regs[i] == w.regs[i]
    ensures r.0 == Some(Initialized) ==> exists i :: |w.log| <= i < |r.1.log| && ReadyRead(r.1.log[i], LockMaskClear)
    ensures r.0.None? ==> forall i :: |w.log| <= i < |r.1.log| ==> !ReadyRead(r.1.log[i], LockMaskClear)
  {
    var (p, w1) := PollStatus(w, polls, retries, LockMaskClear, false);
    LockPollEffect(w, polls, retries);
    if p.Ready? then
      var (d, w2) := ReadBlock(w1, 26, 8, retries);
      LockedRoundEffect(w, w1, retries);
      (Some(if d.None? then InitRaised(BusError) else Initialized), w2)
    else if p.PollRaised? then (Some(InitRaised(BusError)), w1)
    else
      var (o, w2) := WriteAll(w1, RelockWrites, retries);
      UnlockedRoundEffect(w, w1, retries);
      (if o.Failed? then Some(InitRaised(o.failure)) else None, w2)
  }

  /** The polls of a round, as the rest of the round needs them. */
  lemma LockPollEffect(w: Wire, polls: nat, retries: nat)
    requires WellFormed(w)
    ensures var (p, w1) := PollStatus(w, polls, retries, LockMaskClear, false);
      && Extends(w, w1)
      && (p.Ready? ==> |w.log| < |w1.log| && ReadyRead(w1.log[|w1.log| - 1], LockMaskClear))
      && (p.Exhausted? ==> forall i :: |w.log| <= i < |w1.log| ==> !ReadyRead(w1.log[i], LockMaskClear))
  {
    PollFindsFirstReady(w, polls, retries, LockMaskClear, false);
  }

  /** A round whose poll saw the lock keeps that status read in the log through the MSNA dump. */
  lemma LockedRoundEffect(w: Wire, w1: Wire, retries: nat)
    requires WellFormed(w1) && Extends(w, w1) && w1.regs == w.regs && |w.log| < |w1.log|
    requires ReadyRead(w1.log[|w1.log| - 1], LockMaskClear)
    ensures var w2 := ReadBlock(w1, 26, 8, retries).1;
      && Extends(w, w2) && w2.regs == w.regs
      && exists i :: |w.log| <= i < |w2.log| && ReadyRead(w2.log[i], LockMaskClear)
  {
    var w2 := ReadBlock(w1, 26, 8, retries).1;
    ReadBlockFrame(w1, 26, 8, retries);
    ReadyReadKept(w1, w2, |w1.log| - 1, LockMaskClear);
  }

  /** A round whose poll never saw the lock adds no such status read with the relock writes. */
  lemma UnlockedRoundEffect(w: Wire, w1: Wire, retries: nat)
    requires WellFormed(w1) && Extends(w, w1) && w1.regs == w.regs
    requires forall i :: |w.log| <= i < |w1.log| ==> !ReadyRead(w1.log[i], LockMaskClear)
    ensures var w2 := WriteAll(w1, RelockWrites, retries).1;
      && Extends(w, w2)
      && (forall i :: 0 <= i < RegisterCount && i != CrystalLoadReg as int && i != PllResetReg as int ==> w2.regs[i] == w.regs[i])
      && (forall i :: |w.log| <= i < |w2.log| ==> !ReadyRead(w2.log[i], LockMaskClear))
  {
    var w2 := WriteAll(w1, RelockWrites, retries).1;
    RelockFrame(w1, retries);
    NoReadyReadAcross(w, w1, w2, w2, LockMaskClear);
  }

  /**
   * Lines 107-126 with `rounds` rounds to go; after the last round read 0xB7 once more
   * and return False. The rounds change no register but 0xB7 and 0xB1; they report True
   * only after some status read saw `(status & 0xA0) == 0`, and the timeout only when no
   * status read of any round did.
   */
  function LockRounds(w: Wire, rounds: nat, retries: nat): (r: (InitResult, Wire))
    requires WellFormed(w)
    ensures WellFormed(r.1) && r.1.clearing == w.clearing
    ensures r.0 == Initialized || r.0 == LockTimeout || r.0.InitRaised?
    ensures Extends(w, r.1)
    ensures forall i :: 0 <= i < RegisterCount && i != CrystalLoadReg as int && i != PllResetReg as int ==> r.1.regs[i] == w.regs[i]
    ensures r.0 == Initialized ==> exists i :: |w.log| <= i < |r.1.log| && ReadyRead(r.1.log[i], LockMaskClear)
    ensures r.0 == LockTimeout ==> forall i :: |w.log| <= i < |r.1.log| ==> !ReadyRead(r.1.log[i], LockMaskClear)
    decreases rounds
  {
    if rounds == 0 then
      var (v, w1) := ReadLoop(w, CrystalLoadReg, retries);
      ReadLoopFrame(w, CrystalLoadReg, retries);
      (if v.None? then InitRaised(BusError) else LockTimeout, w1)
    else
      var (e, w1) := LockRound(w, 50, retries);
      if e.Some? then (e.value, w1)
      else
        var (r2, w2) := LockRounds(w1, rounds - 1, retries);
        assert forall i :: |w.log| <= i < |w1.log| ==> w2.log[i] == w1.log[i];
        (r2, w2)
  }

  /** initialize(bus, address), every register access with `retries` attempts. */
  function InitRun(w: Wire, retries: nat): (r: (InitResult, Wire))
    requires WellFormed(w)
    ensures WellFormed(r.1) && r.1.clearing == w.clearing
  {
    var (p, w1) := PollStatus(w, 100, retries, SysInitDone, true);
    if !p.Ready? then (SysInitTimeout, w1)
    else
      var (o, w2) := WriteAll(w1, SetupWrites, retries);
      if o.Failed? then (InitRaised(o.failure), w2)
      else
        var (v, w3) := ReadLoop(w2, CrystalLoadReg, retries);
        if v.None? then (InitRaised(BusError), w3)
        else if v.value != CrystalLoad10pF then (CrystalMismatch(v.value), w3)
        else
          var (o2, w4) := WriteAll(w3, OutputWrites, retries);
          if o2.Failed? then (InitRaised(o2.failure), w4)
          else
            var (d, w5) := ReadBlock(w4, 26, 8, retries);
            if d.None? then (InitRaised(BusError), w5)
            else LockRounds(PllReset(w5, retries), 3, retries)
  }

  /** One step of the round loop: a round that ends decides the result, otherwise the rest run. */
  lemma LockRoundsUnfold(w: Wire, rounds: nat, retries: nat)
    requires WellFormed(w) && rounds > 0
    ensures LockRound(w, 50, retries).0.Some? ==> LockRounds(w, rounds, retries) == (LockRound(w, 50, retries).0.value, LockRound(w, 50, retries).1)
    ensures LockRound(w, 50, retries).0.None? ==> LockRounds(w, rounds, retries) == LockRounds(LockRound(w, 50, retries).1, rounds - 1, retries)
  {
  }

  /** The relock writes touch 0xB7 and 0xB1 only. */
  lemma RelockFrame(w: Wire, retries: nat)
    requires WellFormed(w)
    ensures var w' := WriteAll(w, RelockWrites, retries).1;
      && Extends(w, w') && |w'.regs| == RegisterCount
      && (forall i :: |w.log| <= i < |w'.log| ==> w'.log[i].reg == CrystalLoadReg || w'.log[i].reg == PllResetReg)
      && (forall i :: 0 <= i < RegisterCount && i != CrystalLoadReg as int && i != PllResetReg as int ==> w'.regs[i] == w.regs[i])
  {
    WriteAllFrame(w, RelockWrites, retries);
    forall b: Byte | b != CrystalLoadReg && b != PllResetReg
      ensures Pos(RelockWrites, b) == |RelockWrites|
    {
    }
  }

  /** Three stretches of log without a ready status read make one. */
  lemma NoReadyReadAcross(w: Wire, w1: Wire, w2: Wire, w3: Wire, ready: Byte -> bool)
    requires Extends(w, w1) && Extends(w1, w2) && Extends(w2, w3)
    requires forall i :: |w.log| <= i < |w1.log| ==> !ReadyRead(w1.log[i], ready)
    requires forall i :: |w1.log| <= i < |w2.log| ==> w2.log[i].reg != StatusReg
    ensures (forall i :: |w2.log| <= i < |w3.log| ==> !ReadyRead(w3.log[i], ready)) ==>
      forall i :: |w.log| <= i < |w3.log| ==> !ReadyRead(w3.log[i], ready)
  {
    assert forall i :: |w.log| <= i < |w1.log| ==> w3.log[i] == w1.log[i];
    assert forall i :: |w1.log| <= i < |w2.log| ==> w3.log[i] == w2.log[i];
  }

  /** A ready status read stays in the log as it grows. */
  lemma ReadyReadKept(w1: Wire, w2: Wire, k: int, ready: Byte -> bool)
    requires Extends(w1, w2) && 0 <= k < |w1.log| && ReadyRead(w1.log[k], ready)
    ensures ReadyRead(w2.log[k], ready)
  {
    assert w2.log[k] == w1.log[k];
  }

  /** The PLLA reset of lines 98-105 changes no register but 0xB1. */
  lemma PllResetFrame(w: Wire, retries: nat)
    requires WellFormed(w)
    ensures var w' := PllReset(w, retries);
      && Extends(w, w') && |w'.regs| == RegisterCount
      && (forall i :: 0 <= i < RegisterCount && i != PllResetReg as int ==> w'.regs[i] == w.regs[i])
  {
    var (o, w1) := WriteLoop(w, PllResetReg, 0x20, retries, false);
    WriteLoopFrame(w, PllResetReg, 0x20, retries, false);
    if o.Done? {
      ReadLoopFrame(w1, PllResetReg, retries);
    }
  }

  /** initialize returns False for SYS_INIT only when each of its accesses was a status read that failed or had bit 7 set. */
  lemma InitSysInitTimeout(w: Wire, retries: nat)
    requires WellFormed(w)
    ensures var (r, w') := InitRun(w, retries);
      r == SysInitTimeout ==>
        && Extends(w, w')
        && forall i :: |w.log| <= i < |w'.log| ==>
             w'.log[i].ReadAccess? && w'.log[i].reg == StatusReg && !ReadyRead(w'.log[i], SysInitDone)
  {
    PollFindsFirstReady(w, 100, retries, SysInitDone, true);
  }

  /**
   * initialize returns False for the crystal load only when 0xB7 read back a byte
   * other than 0xD2, that read being the last access it made.
   */
  lemma InitCrystalMismatch(w: Wire, retries: nat)
    requires WellFormed(w) && retries > 0
    ensures var (r, w') := InitRun(w, retries);
      r.CrystalMismatch? ==>
        r.v != CrystalLoad10pF && |w'.log| > 0 && w'.log[|w'.log| - 1] == ReadAccess(CrystalLoadReg, Some(r.v))
  {
    var (p, w1) := PollStatus(w, 100, retries, SysInitDone, true);
    if p.Ready? {
      var (o, w2) := WriteAll(w1, SetupWrites, retries);
      if o.Done? {
        ReadReturnsFirstSuccess(w2, CrystalLoadReg, retries);
      }
    }
  }

  /** No register of the output writes is listed twice, and MSNA sits at positions 7..14. */
  lemma OutputWritesShape()
    ensures Distinct(OutputWrites) && |OutputWrites| == 15
    ensures forall i :: 0 <= i < 8 ==> OutputWrites[7 + i] == RegWrite((26 + i) as Byte, MsnaBytes[i], true)
  {
    var a := DriveWrites;
    var b := BlockWrites(26, MsnaBytes, true);
    assert forall i :: 0 <= i < |a| ==> a[i].reg as int < 26 || a[i].reg as int == 0xBB;
    assert forall j :: 0 <= j < |b| ==> 26 <= b[j].reg as int < 34;
    DistinctAppend(a, b);
    assert forall i :: 0 <= i < 8 ==> OutputWrites[7 + i] == b[i];
  }

  /** When the output writes all returned, MSNA registers 26..33 hold the ratio-32 image. */
  lemma OutputWritesStoreMsna(w: Wire, retries: nat)
    requires WellFormed(w) && retries > 0
    requires WriteAll(w, OutputWrites, retries).0.Done?
    ensures var w' := WriteAll(w, OutputWrites, retries).1;
      |w'.regs| == RegisterCount && forall i :: 0 <= i < 8 ==> w'.regs[26 + i] == MsnaBytes[i]
  {
    OutputWritesShape();
    WriteAllLatches(w, OutputWrites, retries);
    forall i | 0 <= i < 8
      ensures Latched(w.clearing, OutputWrites[7 + i].reg, MsnaBytes[i]) == MsnaBytes[i]
    {
      LatchesValue(w.clearing, OutputWrites[7 + i].reg, MsnaBytes[i]);
    }
  }

  /**
   * Whenever initialize gets to the lock rounds, MSNA registers 26..33 hold
   * 00 01 00 0E 00 00 00 00 at the end, whatever the rounds report; a mismatch read
   * back after writing them is only reported. It returns True only after a status
   * read with LOL_A and SYS_INIT both clear.
   */
  lemma InitProgramsPlla(w: Wire, retries: nat)
    requires WellFormed(w) && retries > 0
    ensures var (r, w') := InitRun(w, retries);
      && |w'.regs| == RegisterCount
      && (r == Initialized || r == LockTimeout ==> forall i :: 0 <= i < 8 ==> w'.regs[26 + i] == MsnaBytes[i])
      && (r == Initialized ==> exists i :: |w.log| <= i < |w'.log| && ReadyRead(w'.log[i], LockMaskClear) && PllLocked(w'.log[i].got.value))
  {
    var (p, w1) := PollStatus(w, 100, retries, SysInitDone, true);
    if p.Ready? {
      var (o, w2) := WriteAll(w1, SetupWrites, retries);
      if o.Done? {
        var (v, w3) := ReadLoop(w2, CrystalLoadReg, retries);
        if v.Some? && v.value == CrystalLoad10pF {
          var (o2, w4) := WriteAll(w3, OutputWrites, retries);
          if o2.Done? {
            OutputWritesStoreMsna(w3, retries);
            var (d, w5) := ReadBlock(w4, 26, 8, retries);
            if d.Some? {
              var w6 := PllReset(w5, retries);
              PllResetFrame(w5, retries);
              var (r, w') := LockRounds(w6, 3, retries);
              if r == Initialized {
                assert |w.log| <= |w6.log| by {
                  PollFindsFirstReady(w, 100, retries, SysInitDone, true);
                  WriteAllFrame(w1, SetupWrites, retries);
                  ReadLoopFrame(w2, CrystalLoadReg, retries);
                  WriteAllFrame(w3, OutputWrites, retries);
                  ReadBlockFrame(w4, 26, 8, retries);
                }
                var i :| |w6.log| <= i < |w'.log| && ReadyRead(w'.log[i], LockMaskClear);
                LockTestsAgree(w'.log[i].got.value);
              }
            }
          }
        }
      }
    }
  }

  // ---------------------------------------------------------------------------
  // reset_and_disable_clocks (Final2.py:221-251)

  const PowerDownBytes: seq<Byte> := [0x80, 0x80, 0x80, 0x80, 0x80, 0x80, 0x80, 0x80]

  /** Lines 228-242: outputs off, CLK0..CLK7 powered down, both PLLs reset, sticky interrupts cleared. */
  const ResetWrites: seq<RegWrite> :=
    [Call(3, 0xFF, false)] + BlockWrites(16, PowerDownBytes, true) + ResetTail

  /** How reset_and_disable_clocks ended; an OSError anywhere in it is caught. */
  datatype ResetResult = ResetDone(status: Byte) | ResetFailed(failure: Failure)

  /** reset_and_disable_clocks(bus, address), every register access with `retries` attempts. */
  function ResetRun(w: Wire, retries: nat): (r: (ResetResult, Wire))
    requires WellFormed(w)
    ensures WellFormed(r.1) && r.1.clearing == w.clearing
  {
    var (o, w1) := WriteAll(w, ResetWrites, retries);
    if o.Failed? then (ResetFailed(o.failure), w1)
    else
      var (s, w2) := ReadLoop(w1, StatusReg, retries);
      (if s.None? then ResetFailed(BusError) else ResetDone(s.value), w2)
  }

  const ResetTail: seq<RegWrite> := [Call(PllResetReg, 0xA0, true), Call(1, 0x00, true)]

  lemma ResetWritesShape()
    ensures |ResetWrites| == 11 && Distinct(ResetWrites)
    ensures ResetWrites[0] == RegWrite(3, 0xFF, true)
    ensures forall k :: 1 <= k < 9 ==> ResetWrites[k] == RegWrite((15 + k) as Byte, 0x80, true)
    ensures ResetWrites[9] == RegWrite(PllResetReg, 0xA0, false) && ResetWrites[10] == RegWrite(1, 0x00, false)
  {
    var a := [Call(3, 0xFF, false)];
    var b := BlockWrites(16, PowerDownBytes, true);
    assert forall j :: 0 <= j < |b| ==> 16 <= b[j].reg as int < 24;
    DistinctAppend(a, b);
    DistinctAppend(a + b, ResetTail);
    assert ResetWrites == a + b + ResetTail;
    assert forall k :: 1 <= k < 9 ==> ResetWrites[k] == b[k - 1];
  }

  /** Register 0 (the status read) is not among the reset writes. */
  lemma StatusNotReset()
    ensures Pos(ResetWrites, StatusReg) == |ResetWrites|
  {
    ResetWritesShape();
  }

  /**
   * The reset's accesses come in the order of its list (register 3, registers 16..23,
   * 0xB1, register 1, then the status read), and the first write that raises ends it:
   * nothing listed after that write, nor the status, is accessed.
   */
  lemma ResetInOrder(w: Wire, retries: nat)
    requires WellFormed(w)
    ensures var (r, w') := ResetRun(w, retries);
      var k := FailedIndex(w, ResetWrites, retries);
      && Extends(w, w')
      && (forall i, j :: |w.log| <= i < j < |w'.log| ==> Pos(ResetWrites, w'.log[i].reg) <= Pos(ResetWrites, w'.log[j].reg))
      && (k < |ResetWrites| ==> r.ResetFailed? && forall i :: |w.log| <= i < |w'.log| ==> Pos(ResetWrites, w'.log[i].reg) <= k)
  {
    ResetWritesShape();
    StatusNotReset();
    var (o, w1) := WriteAll(w, ResetWrites, retries);
    WriteAllInOrder(w, ResetWrites, retries);
    WriteAllFrame(w, ResetWrites, retries);
    if o.Done? {
      var w' := ReadLoop(w1, StatusReg, retries).1;
      ReadLoopFrame(w1, StatusReg, retries);
      assert forall i :: |w.log| <= i < |w1.log| ==> w'.log[i] == w1.log[i];
    }
  }

  /**
   * A reset that completed leaves register 3 at 0xFF, registers 16..23 at 0x80, 0xB1
   * cleared and register 1 at 0; in every outcome no other register changes.
   */
  lemma ResetDisablesClocks(w: Wire, retries: nat)
    requires WellFormed(w) && retries > 0
    ensures var (r, w') := ResetRun(w, retries);
      && |w'.regs| == RegisterCount
      && (forall i :: 0 <= i < RegisterCount && i != 1 && i != 3 && !(16 <= i < 24) && i != PllResetReg as int ==> w'.regs[i] == w.regs[i])
      && (r.ResetDone? ==>
            && w'.regs[3] == 0xFF
            && (forall i :: 16 <= i < 24 ==> w'.regs[i] == 0x80)
            && w'.regs[PllResetReg as int] == 0
            && w'.regs[1] == 0)
  {
    ResetWritesShape();
    var ws := ResetWrites;
    var (o, w1) := WriteAll(w, ws, retries);
    WriteAllFrame(w, ws, retries);
    forall b: Byte | b != 1 && b != 3 && !(16 <= b < 24) && b != PllResetReg
      ensures Pos(ws, b) == |ws|
    {
    }
    if o.Done? {
      WriteAllLatches(w, ws, retries);
      forall k | 0 <= k < 9
        ensures Latched(w.clearing, ws[k].reg, ws[k].value) == ws[k].value
      {
        LatchesValue(w.clearing, ws[k].reg, ws[k].value);
      }
      var w' := ResetRun(w, retries).1;
      forall i | 16 <= i < 24
        ensures w'.regs[i] == 0x80
      {
        assert ws[i - 15].reg as int == i;
      }
    }
  }

  // ---------------------------------------------------------------------------
  // The same operations over the device

  method CheckPll(dev: Device, retries: nat) returns (lock: LockCheck)
    requires dev.Valid()
    modifies dev, dev.regs
    ensures dev.Valid()
    ensures (lock, dev.State()) == PllCheck(old(dev.State()), retries)
  {
    var o := WriteWithRetry(dev, PllResetReg, 0x20, retries, ReadsBack(PllResetReg, true));
    if o.Failed? {
      return CheckRaised;
    }
    var s := ReadWithRetry(dev, StatusReg, retries);
    if s.None? {
      return CheckRaised;
    }
    lock := if PllLocked(s.value) then Locked(s.value) else NotLocked(s.value);
  }

  method DumpChannel(dev: Device, clk: int, retries: nat) returns (ok: bool)
    requires dev.Valid() && ValidChannel(clk)
    modifies dev
    ensures dev.Valid()
    ensures (ok, dev.State()) == Dump(old(dev.State()), clk, retries)
  {
    var d := ReadEach(dev, BaseReg(clk) as nat, 8, retries);
    if d.None? {
      return false;
    }
    var c := ReadWithRetry(dev, ControlReg(clk), retries);
    if c.None? {
      return false;
    }
    var e := ReadWithRetry(dev, 0x03, retries);
    if e.None? {
      return false;
    }
    var s := ReadWithRetry(dev, StatusReg, retries);
    ok := s.Some?;
  }

  /** set_frequency over the device. */
  method SetFrequency(dev: Device, clk: int, freq: int) returns (r: SetResult)
    requires dev.Valid()
    modifies dev, dev.regs
    ensures dev.Valid()
    ensures (r, dev.State()) == SetFrequencyRun(old(dev.State()), clk, freq, Retries)
  {
    if !ValidChannel(clk) {
      return InvalidChannel;
    }
    var plan := Plan(freq);
    if plan.Failure? {
      return NotPlanned(plan.error);
    }
    var p := plan.value;
    PlanIsEncodable(freq, true);
    var o := ProgramChannelOn(dev, clk, ChannelBytes(p), ControlByte(p.integerMode), Verifies, Retries);
    if o.Failed? {
      return SetRaised(o.failure);
    }
    var lock := CheckPll(dev, Retries);
    var ok := DumpChannel(dev, clk, Retries);
    r := if ok then Programmed(lock) else SetRaised(BusError);
  }

  method ResetPll(dev: Device, retries: nat)
    requires dev.Valid()
    modifies dev, dev.regs
    ensures dev.Valid()
    ensures dev.State() == PllReset(old(dev.State()), retries)
  {
    var o := WriteWithRetry(dev, PllResetReg, 0x20, retries, ReadsBack(PllResetReg, true));
    if o.Done? {
      var v := ReadWithRetry(dev, PllResetReg, retries);
    }
  }

  /** One lock round over the device. */
  method LockRoundOn(dev: Device, retries: nat) returns (e: Option<InitResult>)
    requires dev.Valid()
    modifies dev, dev.regs
    ensures dev.Valid()
    ensures (e, dev.State()) == LockRound(old(dev.State()), 50, retries)
  {
    var p := PollUntilReady(dev, 50, retries, LockMaskClear, false);
    if p.Ready? {
      var d := ReadEach(dev, 26, 8, retries);
      return Some(if d.None? then InitRaised(BusError) else Initialized);
    }
    if p.PollRaised? {
      return Some(InitRaised(BusError));
    }
    var o := WriteEach(dev, RelockWrites, retries);
    e := if o.Failed? then Some(InitRaised(o.failure)) else None;
  }

  /** Lines 107-126: `for attempt in range(3)` around a 50-poll loop. */
  method AwaitLock(dev: Device, retries: nat) returns (r: InitResult)
    requires dev.Valid()
    modifies dev, dev.regs
    ensures dev.Valid()
    ensures (r, dev.State()) == LockRounds(old(dev.State()), 3, retries)
  {
    var round := 0;
    while round < 3
      invariant 0 <= round <= 3
      invariant dev.Valid()
      invariant LockRounds(old(dev.State()), 3, retries) == LockRounds(dev.State(), 3 - round, retries)
    {
      ghost var before := dev.State();
      LockRoundsUnfold(before, 3 - round, retries);
      var e := LockRoundOn(dev, retries);
      if e.Some? {
        return e.value;
      }
      round := round + 1;
    }
    r := LockGiveUp(dev, retries);
  }

  /** Lines 123-126: after the last round read 0xB7 once more and return False. */
  method LockGiveUp(dev: Device, retries: nat) returns (r: InitResult)
    requires dev.Valid()
    modifies dev, dev.regs
    ensures dev.Valid()
    ensures (r, dev.State()) == LockRounds(old(dev.State()), 0, retries)
  {
    var v := ReadWithRetry(dev, CrystalLoadReg, retries);
    r := if v.None? then InitRaised(BusError) else LockTimeout;
  }

  /** initialize over the device. */
  method Initialize(dev: Device) returns (r: InitResult)
    requires dev.Valid()
    modifies dev, dev.regs
    ensures dev.Valid()
    ensures (r, dev.State()) == InitRun(old(dev.State()), Retries)
  {
    var p := PollUntilReady(dev, 100, Retries, SysInitDone, true);
    if !p.Ready? {
      return SysInitTimeout;
    }
    var o := WriteEach(dev, SetupWrites, Retries);
    if o.Failed? {
      return InitRaised(o.failure);
    }
    var v := ReadWithRetry(dev, CrystalLoadReg, Retries);
    if v.None? {
      return InitRaised(BusError);
    }
    if v.value != CrystalLoad10pF {
      return CrystalMismatch(v.value);
    }
    o := WriteEach(dev, OutputWrites, Retries);
    if o.Failed? {
      return InitRaised(o.failure);
    }
    var d := ReadEach(dev, 26, 8, Retries);
    if d.None? {
      return InitRaised(BusError);
    }
    ResetPll(dev, Retries);
    r := AwaitLock(dev, Retries);
  }

  /** reset_and_disable_clocks over the device. */
  method ResetAndDisableClocks(dev: Device) returns (r: ResetResult)
    requires dev.Valid()
    modifies dev, dev.regs
    ensures dev.Valid()
    ensures (r, dev.State()) == ResetRun(old(dev.State()), Retries)
  {
    var o := WriteEach(dev, ResetWrites, Retries);
    if o.Failed? {
      return ResetFailed(o.failure);
    }
    var s := ReadWithRetry(dev, StatusReg, Retries);
    r := if s.None? then ResetFailed(BusError) else ResetDone(s.value);
  }
}
