/**
 * setF.py: a stand-alone set_frequency with hardkod.py's planner and register layout.
 * It calls write_register and read_register from its surroundings without defining
 * them, so here the attempts per call (`retries`) and which writes are read back
 * (`readsBack`) are parameters. Unlike hardkod.py it enables the output in register 3
 * before the PLL reset, does not catch an OSError from the reset, and reads no status.
 */
module SetF {
  import opened Wrappers
  import opened Bus
  import opened Transport
  import opened Encoding
  import opened Multisynth
  import opened Programs
  import opened Channel
  import Hardkod

  datatype SetResult =
    | InvalidChannel             // clk_num outside 0..2
    | NotPlanned(why: PlanError) // the range check or the R search returned
    | Programmed                 // every write returned
    | SetRaised(failure: Failure) // an OSError propagated to the caller

  /** set_frequency(bus, address, clk_num, freq) over a given write_register / read_register. */
  function SetFrequencyRun(w: Wire, clk: int, freq: int, readsBack: Byte -> bool, retries: nat): (r: (SetResult, Wire))
    requires WellFormed(w)
    ensures WellFormed(r.1) && r.1.clearing == w.clearing
  {
    if !ValidChannel(clk) then (InvalidChannel, w)
    else match Hardkod.Plan(freq)
      case Failure(e) => (NotPlanned(e), w)
      case Success(p) =>
        Hardkod.PlanIsEncodable(freq);
        ApplyPlan(w, clk, p, readsBack, retries)
  }

  /** Lines 46-67, once the plan is known: the channel writes, register 3, the PLL reset. */
  function ApplyPlan(w: Wire, clk: int, p: DividerPlan, readsBack: Byte -> bool, retries: nat): (r: (SetResult, Wire))
    requires WellFormed(w) && ValidChannel(clk) && Hardkod.Encodable(p)
    ensures WellFormed(r.1) && r.1.clearing == w.clearing
  {
    var (o, w1) := ProgramChannel(w, clk, Hardkod.ChannelBytes(p), ControlByte(p.integerMode), readsBack, retries);
    if o.Failed? then (SetRaised(o.failure), w1)
    else
      var (o2, w2) := WriteLoop(w1, PllResetReg, 0x20, retries, readsBack(PllResetReg));
      (if o2.Done? then Programmed else SetRaised(o2.failure), w2)
  }

  /**
   * No register is accessed exactly for a bad channel, a frequency outside
   * 2.5 kHz .. 200 MHz, and 2500 .. 3051 Hz, where no R qualifies.
   */
  lemma SetFrequencyRejects(w: Wire, clk: int, freq: int, readsBack: Byte -> bool, retries: nat)
    requires WellFormed(w)
    ensures var (r, w') := SetFrequencyRun(w, clk, freq, readsBack, retries);
      && (r == InvalidChannel <==> !ValidChannel(clk))
      && (r == NotPlanned(OutOfRange) <==> ValidChannel(clk) && (freq < MinFreq || freq > MaxFreq))
      && (r == NotPlanned(NoValidDivider) <==> ValidChannel(clk) && MinFreq <= freq <= 3051)
      && (r.InvalidChannel? || r.NotPlanned? ==> w' == w)
  {
    PlanFailsExactly(freq, false);
  }

  /**
   * set_frequency accesses only CLKn's nine registers, register 3 and 0xB1, and the
   * writes to 0xB1 come last: once 0xB1 has been accessed, no other register is.
   */
  lemma SetFrequencyOrder(w: Wire, clk: int, freq: int, readsBack: Byte -> bool, retries: nat)
    requires WellFormed(w) && retries > 0
    ensures var w' := SetFrequencyRun(w, clk, freq, readsBack, retries).1;
      && Extends(w, w') && |w'.regs| == RegisterCount
      && (forall i :: |w.log| <= i < |w'.log| ==>
            ValidChannel(clk) && (InChannel(w'.log[i].reg as int, clk) || w'.log[i].reg == 0x03 || w'.log[i].reg == PllResetReg))
      && (forall i, j :: |w.log| <= i < j < |w'.log| && w'.log[i].reg == PllResetReg ==> w'.log[j].reg == PllResetReg)
      && (forall i :: 0 <= i < RegisterCount && i != 3 && i != PllResetReg as int && !(ValidChannel(clk) && InChannel(i, clk)) ==>
            w'.regs[i] == w.regs[i])
  {
    if ValidChannel(clk) && Hardkod.Plan(freq).Success? {
      Hardkod.PlanIsEncodable(freq);
      ApplyPlanOrder(w, clk, Hardkod.Plan(freq).value, readsBack, retries);
    }
  }

  /** The access order of set_frequency for any encodable plan. */
  lemma ApplyPlanOrder(w: Wire, clk: int, p: DividerPlan, readsBack: Byte -> bool, retries: nat)
    requires WellFormed(w) && ValidChannel(clk) && Hardkod.Encodable(p) && retries > 0
    ensures var w' := ApplyPlan(w, clk, p, readsBack, retries).1;
      && Extends(w, w') && |w'.regs| == RegisterCount
      && (forall i :: |w.log| <= i < |w'.log| ==>
            InChannel(w'.log[i].reg as int, clk) || w'.log[i].reg == 0x03 || w'.log[i].reg == PllResetReg)
      && (forall i, j :: |w.log| <= i < j < |w'.log| && w'.log[i].reg == PllResetReg ==> w'.log[j].reg == PllResetReg)
      && (forall i :: 0 <= i < RegisterCount && i != 3 && i != PllResetReg as int && !InChannel(i, clk) ==> w'.regs[i] == w.regs[i])
  {
    var bytes, control := Hardkod.ChannelBytes(p), ControlByte(p.integerMode);
    var (o, w1) := ProgramChannel(w, clk, bytes, control, readsBack, retries);
    ProgramChannelEffect(w, clk, bytes, control, readsBack, retries);
    assert BaseReg(clk) as int + 8 < PllResetReg as int;
    if o.Done? {
      var w2 := WriteLoop(w1, PllResetReg, 0x20, retries, readsBack(PllResetReg)).1;
      WriteLoopFrame(w1, PllResetReg, 0x20, retries, readsBack(PllResetReg));
      assert ApplyPlan(w, clk, p, readsBack, retries).1 == w2;
      assert forall i :: |w.log| <= i < |w1.log| ==> w2.log[i] == w1.log[i] && w1.log[i].reg != PllResetReg;
    }
  }

  /**
   * When set_frequency returns, CLKn's registers hold hardkod.py's channel image (the
   * plan's bytes, the control byte) and register 3 has bits 2:0 clear.
   */
  lemma SetFrequencyImage(w: Wire, clk: int, freq: int, readsBack: Byte -> bool, retries: nat)
    requires WellFormed(w) && retries > 0
    ensures var (r, w') := SetFrequencyRun(w, clk, freq, readsBack, retries);
      r == Programmed ==>
        && ValidChannel(clk) && Hardkod.Plan(freq).Success? && Hardkod.Encodable(Hardkod.Plan(freq).value)
        && Hardkod.ChannelProgrammed(w', clk, Hardkod.Plan(freq).value)
  {
    if ValidChannel(clk) && Hardkod.Plan(freq).Success? {
      Hardkod.PlanIsEncodable(freq);
      ApplyPlanImage(w, clk, Hardkod.Plan(freq).value, readsBack, retries);
    }
  }

  /** The channel image left by set_frequency for any encodable plan. */
  lemma ApplyPlanImage(w: Wire, clk: int, p: DividerPlan, readsBack: Byte -> bool, retries: nat)
    requires WellFormed(w) && ValidChannel(clk) && Hardkod.Encodable(p) && retries > 0
    ensures var (r, w') := ApplyPlan(w, clk, p, readsBack, retries);
      r == Programmed ==> Hardkod.ChannelProgrammed(w', clk, p)
  {
    var bytes, control := Hardkod.ChannelBytes(p), ControlByte(p.integerMode);
    var (o, w1) := ProgramChannel(w, clk, bytes, control, readsBack, retries);
    ProgramChannelEffect(w, clk, bytes, control, readsBack, retries);
    if o.Done? {
      var w2 := WriteLoop(w1, PllResetReg, 0x20, retries, readsBack(PllResetReg)).1;
      WriteLoopFrame(w1, PllResetReg, 0x20, retries, readsBack(PllResetReg));
      Hardkod.ProgrammedSurvivesReset(w1, w2, clk, p);
    }
  }

  /**
   * The unguarded reset decides the outcome. With a write_register that does not read
   * 0xB1 back, a returning call leaves 0xB1 cleared again after its own write of 0x20;
   * with one that does (as hardkod.py's would), a call returns only when the read-back of
   * 0xB1 answered 0x20, a byte the self-clearing register never holds.
   */
  lemma ResetDecides(w: Wire, clk: int, freq: int, readsBack: Byte -> bool, retries: nat)
    requires WellFormed(w) && retries > 0
    ensures var (r, w') := SetFrequencyRun(w, clk, freq, readsBack, retries);
      r == Programmed ==>
        && |w.log| < |w'.log| && w'.regs[PllResetReg as int] == 0
        && (!readsBack(PllResetReg) ==> w'.log[|w'.log| - 1] == WriteAccess(PllResetReg, 0x20, true))
        && (readsBack(PllResetReg) ==> w'.log[|w'.log| - 1] == ReadAccess(PllResetReg, Some(0x20)))
  {
    if ValidChannel(clk) && Hardkod.Plan(freq).Success? {
      Hardkod.PlanIsEncodable(freq);
      var p := Hardkod.Plan(freq).value;
      assert SetFrequencyRun(w, clk, freq, readsBack, retries) == ApplyPlan(w, clk, p, readsBack, retries);
      ApplyPlanReset(w, clk, p, readsBack, retries);
    } else {
      assert SetFrequencyRun(w, clk, freq, readsBack, retries).0 != Programmed;
    }
  }

  /** The PLL reset ends set_frequency for any encodable plan. */
  lemma ApplyPlanReset(w: Wire, clk: int, p: DividerPlan, readsBack: Byte -> bool, retries: nat)
    requires WellFormed(w) && ValidChannel(clk) && Hardkod.Encodable(p) && retries > 0
    ensures var (r, w') := ApplyPlan(w, clk, p, readsBack, retries);
      r == Programmed ==>
        && |w.log| < |w'.log| && w'.regs[PllResetReg as int] == 0
        && (!readsBack(PllResetReg) ==> w'.log[|w'.log| - 1] == WriteAccess(PllResetReg, 0x20, true))
        && (readsBack(PllResetReg) ==> w'.log[|w'.log| - 1] == ReadAccess(PllResetReg, Some(0x20)))
  {
    var bytes, control := Hardkod.ChannelBytes(p), ControlByte(p.integerMode);
    var (o, w1) := ProgramChannel(w, clk, bytes, control, readsBack, retries);
    ProgramChannelEffect(w, clk, bytes, control, readsBack, retries);
    if o.Done? {
      var v := readsBack(PllResetReg);
      WriteDoneIsConfirmed(w1, PllResetReg, 0x20, retries, v);
      WriteLoopFrame(w1, PllResetReg, 0x20, retries, v);
    }
  }

  /** set_frequency over a device, with the transport's parameters. */
  method SetFrequency(dev: Device, clk: int, freq: int, readsBack: Byte -> bool, retries: nat) returns (r: SetResult)
    requires dev.Valid()
    modifies dev, dev.regs
    ensures dev.Valid()
    ensures (r, dev.State()) == SetFrequencyRun(old(dev.State()), clk, freq, readsBack, retries)
  {
    if !ValidChannel(clk) {
      return InvalidChannel;
    }
    var plan := Hardkod.Plan(freq);
    if plan.Failure? {
      return NotPlanned(plan.error);
    }
    var p := plan.value;
    Hardkod.PlanIsEncodable(freq);
    var o := ProgramChannelOn(dev, clk, Hardkod.ChannelBytes(p), ControlByte(p.integerMode), readsBack, retries);
    if o.Failed? {
      return SetRaised(o.failure);
    }
    o := WriteWithRetry(dev, PllResetReg, 0x20, retries, readsBack(PllResetReg));
    r := if o.Done? then Programmed else SetRaised(o.failure);
  }
}
