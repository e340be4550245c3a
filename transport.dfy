/**
 * Register transport: `write_register` and `read_register` with bounded retries.
 *
 * Final2.py and hardkod.py share one retry loop; they differ only in the number of
 * attempts and in whether the write is read back, which is the `verify` flag here.
 * Each loop is given twice: as a function of the bus state (WriteLoop, ReadLoop),
 * about which the lemmas speak, and as a method over the Device that is proved to
 * compute exactly that function.
 */
module Transport {
  import opened Wrappers
  import opened Bus

  /** Why a register write raised OSError. */
  datatype Failure = BusError | VerifyFailed(reg: Byte, wrote: Byte, readBack: Byte)

  datatype Outcome = Done | Failed(failure: Failure)

  /** The failure of a read-back that did not return `v`. */
  function ReadBackFailure(reg: Byte, v: Byte, got: Option<Byte>): Failure
  {
    if got.None? then BusError else VerifyFailed(reg, v, got.value)
  }

  /** The result of one pass through the body of the retry loop. */
  datatype Try = Confirmed | Raised(failure: Failure)

  /** One attempt: the raw write, then, when verifying, the read-back. */
  function Attempt(w: Wire, reg: Byte, v: Byte, verify: bool): (r: (Try, Wire))
    requires WellFormed(w)
    ensures WellFormed(r.1) && r.1.clearing == w.clearing
  {
    var (ok, w1) := WriteByte(w, reg, v);
    if !ok then (Raised(BusError), w1)
    else if !verify then (Confirmed, w1)
    else
      var (got, w2) := ReadByte(w1, reg);
      if got == Some(v) then (Confirmed, w2) else (Raised(ReadBackFailure(reg, v, got)), w2)
  }

  /** write_register with `left` attempts to go: the last attempt's failure is raised. */
  function WriteLoop(w: Wire, reg: Byte, v: Byte, left: nat, verify: bool): (r: (Outcome, Wire))
    requires WellFormed(w)
    ensures WellFormed(r.1) && r.1.clearing == w.clearing
    decreases left
  {
    if left == 0 then (Done, w)
    else
      var (t, w1) := Attempt(w, reg, v, verify);
      if t == Confirmed then (Done, w1)
      else if left == 1 then (Failed(t.failure), w1)
      else WriteLoop(w1, reg, v, left - 1, verify)
  }

  /** read_register with `left` attempts to go: the first byte obtained is returned. */
  function ReadLoop(w: Wire, reg: Byte, left: nat): (r: (Option<Byte>, Wire))
    requires WellFormed(w)
    ensures WellFormed(r.1) && r.1.clearing == w.clearing && r.1.regs == w.regs
    decreases left
  {
    if left == 0 then (None, w)
    else
      var (got, w1) := ReadByte(w, reg);
      if got.Some? || left == 1 then (got, w1) else ReadLoop(w1, reg, left - 1)
  }

  /** The log of w' continues the log of w. */
  predicate Extends(w: Wire, w': Wire)
  {
    w.log <= w'.log
  }

  /** The accesses w' has logged since w. */
  function NewAccesses(w: Wire, w': Wire): seq<Access>
    requires Extends(w, w')
  {
    w'.log[|w.log|..]
  }

  /** An access that shows `reg` now holds `v`: the matching read-back, or the write itself when unverified. */
  predicate Confirms(e: Access, reg: Byte, v: Byte, verify: bool)
  {
    if verify then e == ReadAccess(reg, Some(v)) else e == WriteAccess(reg, v, true)
  }

  /** The number of raw writes in a stretch of log. */
  function WriteCount(es: seq<Access>): nat
  {
    if es == [] then 0 else (if es[0].WriteAccess? then 1 else 0) + WriteCount(es[1..])
  }

  lemma {:induction false} WriteCountAppend(a: seq<Access>, b: seq<Access>)
    ensures WriteCount(a + b) == WriteCount(a) + WriteCount(b)
  {
    if a != [] {
      assert (a + b)[1..] == a[1..] + b;
      WriteCountAppend(a[1..], b);
    } else {
      assert a + b == b;
    }
  }

  /**
   * What a register write may have done, whatever the oracle said: the log grows by
   * accesses to `reg` only, no other register changes, and when it reports Done
   * after at least one attempt, `reg` holds the value written.
   */
  ghost predicate WriteFrame(w: Wire, w': Wire, reg: Byte, v: Byte, o: Outcome, left: nat)
  {
    && Extends(w, w')
    && w'.clearing == w.clearing
    && |w'.regs| == |w.regs| == RegisterCount
    && (forall i :: |w.log| <= i < |w'.log| ==> w'.log[i].reg == reg)
    && (forall i :: 0 <= i < RegisterCount && i != reg as int ==> w'.regs[i] == w.regs[i])
    && (w'.regs[reg as int] == w.regs[reg as int] || w'.regs[reg as int] == Latched(w.clearing, reg, v))
    && (left > 0 && o == Done ==> w'.regs[reg as int] == Latched(w.clearing, reg, v))
  }

  /** A register read leaves every register as it was and logs reads of `reg` only, the last giving the result. */
  ghost predicate ReadFrame(w: Wire, w': Wire, reg: Byte, got: Option<Byte>, left: nat)
  {
    && Extends(w, w')
    && w'.clearing == w.clearing
    && w'.regs == w.regs
    && (forall i :: |w.log| <= i < |w'.log| ==> w'.log[i].reg == reg && w'.log[i].ReadAccess?)
    && (left > 0 ==> |w.log| < |w'.log| && w'.log[|w'.log| - 1] == ReadAccess(reg, got))
  }

  /** Two stretches of writes to the same register compose; the value at the end is what counts. */
  lemma WriteFrameCompose(w: Wire, w1: Wire, w': Wire, reg: Byte, v: Byte, o: Outcome, left: nat)
    requires WriteFrame(w, w1, reg, v, Failed(BusError), 0)
    requires WriteFrame(w1, w', reg, v, o, left)
    requires left > 0
    ensures WriteFrame(w, w', reg, v, o, left + 1)
  {
    assert forall i :: |w.log| <= i < |w1.log| ==> w'.log[i] == w1.log[i];
  }

  /** The log of one attempt: the raw write, and the read-back when it was made. */
  function AttemptLog(w: Wire, reg: Byte, v: Byte, verify: bool): seq<Access>
    requires WellFormed(w)
  {
    var (ok, w1) := WriteByte(w, reg, v);
    if ok && verify then [WriteAccess(reg, v, true), ReadAccess(reg, ReadByte(w1, reg).0)]
    else [WriteAccess(reg, v, ok)]
  }

  /** One attempt logs the raw write and, when verifying after a successful write, one read-back. */
  lemma AttemptShape(w: Wire, reg: Byte, v: Byte, verify: bool)
    requires WellFormed(w)
    ensures var (t, w') := Attempt(w, reg, v, verify);
      && w'.log == w.log + AttemptLog(w, reg, v, verify)
      && WriteCount(AttemptLog(w, reg, v, verify)) == 1
      && WriteFrame(w, w', reg, v, if t == Confirmed then Done else Failed(BusError), 1)
  {
    var (ok, w1) := WriteByte(w, reg, v);
    if ok && verify {
      var r := ReadAccess(reg, ReadByte(w1, reg).0);
      assert [WriteAccess(reg, v, true), r][1..] == [r] && [r][1..] == [];
      assert WriteCount([r]) == 0 + WriteCount([]);
    } else {
      assert [WriteAccess(reg, v, ok)][1..] == [];
    }
  }

  /**
   * An attempt is Confirmed exactly when its last access confirms the value; no earlier
   * access of it does; a verification failure carries the byte read back.
   */
  lemma AttemptConfirms(w: Wire, reg: Byte, v: Byte, verify: bool)
    requires WellFormed(w)
    ensures var (t, w') := Attempt(w, reg, v, verify);
      var e := AttemptLog(w, reg, v, verify);
      && (!verify ==> e == [WriteAccess(reg, v, t == Confirmed)])
      && (t == Confirmed <==> Confirms(e[|e| - 1], reg, v, verify))
      && (forall i :: 0 <= i < |e| - 1 ==> !Confirms(e[i], reg, v, verify))
      && (t.Raised? && t.failure.VerifyFailed? ==>
            t.failure.readBack != v && e[|e| - 1] == ReadAccess(reg, Some(t.failure.readBack)))
  {
  }

  /** What a whole attempt logged, at the positions where the loop wrote it. */
  lemma AttemptLogged(w: Wire, reg: Byte, v: Byte, verify: bool)
    requires WellFormed(w)
    ensures var (t, w') := Attempt(w, reg, v, verify);
      var e := AttemptLog(w, reg, v, verify);
      && Extends(w, w') && NewAccesses(w, w') == e && |w.log| < |w'.log|
      && (t == Confirmed <==> Confirms(w'.log[|w'.log| - 1], reg, v, verify))
      && (forall i :: |w.log| <= i < |w'.log| - 1 ==> !Confirms(w'.log[i], reg, v, verify))
      && (t.Raised? && t.failure.VerifyFailed? ==>
            t.failure.readBack != v && w'.log[|w'.log| - 1] == ReadAccess(reg, Some(t.failure.readBack)))
  {
    AttemptShape(w, reg, v, verify);
    AttemptConfirms(w, reg, v, verify);
    var w' := Attempt(w, reg, v, verify).1;
    var e := AttemptLog(w, reg, v, verify);
    assert forall i :: |w.log| <= i < |w'.log| ==> w'.log[i] == e[i - |w.log|];
  }

  lemma {:induction false} WriteLoopFrame(w: Wire, reg: Byte, v: Byte, left: nat, verify: bool)
    requires WellFormed(w)
    ensures WriteFrame(w, WriteLoop(w, reg, v, left, verify).1, reg, v, WriteLoop(w, reg, v, left, verify).0, left)
    decreases left
  {
    if left > 0 {
      var (t, w1) := Attempt(w, reg, v, verify);
      AttemptShape(w, reg, v, verify);
      if t != Confirmed && left > 1 {
        var (o, w') := WriteLoop(w1, reg, v, left - 1, verify);
        WriteLoopFrame(w1, reg, v, left - 1, verify);
        WriteFrameCompose(w, w1, w', reg, v, o, left - 1);
      }
    }
  }

  /** A write that is not verified is never followed by a read of the register. */
  lemma {:induction false} UnverifiedWriteNeverReadsBack(w: Wire, reg: Byte, v: Byte, left: nat)
    requires WellFormed(w)
    ensures var w' := WriteLoop(w, reg, v, left, false).1;
      Extends(w, w') &&
      forall i :: |w.log| <= i < |w'.log| ==> w'.log[i].WriteAccess? && w'.log[i].reg == reg && w'.log[i].value == v
    decreases left
  {
    if left > 0 {
      var (t, w1) := Attempt(w, reg, v, false);
      AttemptShape(w, reg, v, false);
      AttemptConfirms(w, reg, v, false);
      if t != Confirmed && left > 1 {
        var w' := WriteLoop(w1, reg, v, left - 1, false).1;
        UnverifiedWriteNeverReadsBack(w1, reg, v, left - 1);
        assert forall i :: |w.log| <= i < |w1.log| ==> w'.log[i] == w1.log[i];
      }
    }
  }

  /** A write raises only after `left` attempts, each of which made exactly one raw write. */
  lemma {:induction false} WriteFailsOnlyAfterEveryAttempt(w: Wire, reg: Byte, v: Byte, left: nat, verify: bool)
    requires WellFormed(w)
    ensures var (o, w') := WriteLoop(w, reg, v, left, verify);
      Extends(w, w') && (o.Failed? ==> left >= 1 && WriteCount(NewAccesses(w, w')) == left)
    decreases left
  {
    WriteLoopFrame(w, reg, v, left, verify);
    if left > 0 {
      var (t, w1) := Attempt(w, reg, v, verify);
      AttemptShape(w, reg, v, verify);
      if t != Confirmed && left > 1 {
        var (o, w') := WriteLoop(w1, reg, v, left - 1, verify);
        WriteFailsOnlyAfterEveryAttempt(w1, reg, v, left - 1, verify);
        WriteLoopFrame(w1, reg, v, left - 1, verify);
        assert NewAccesses(w, w') == AttemptLog(w, reg, v, verify) + NewAccesses(w1, w');
        WriteCountAppend(AttemptLog(w, reg, v, verify), NewAccesses(w1, w'));
      }
    }
  }

  /** No access of a write that raised confirmed the value. */
  lemma {:induction false} FailedWriteNeverConfirmed(w: Wire, reg: Byte, v: Byte, left: nat, verify: bool)
    requires WellFormed(w)
    ensures var (o, w') := WriteLoop(w, reg, v, left, verify);
      Extends(w, w') &&
      (o.Failed? ==> forall i :: |w.log| <= i < |w'.log| ==> !Confirms(w'.log[i], reg, v, verify))
    decreases left
  {
    WriteLoopFrame(w, reg, v, left, verify);
    if left > 0 {
      var (t, w1) := Attempt(w, reg, v, verify);
      AttemptLogged(w, reg, v, verify);
      if t != Confirmed && left > 1 {
        var (o, w') := WriteLoop(w1, reg, v, left - 1, verify);
        FailedWriteNeverConfirmed(w1, reg, v, left - 1, verify);
        if o.Failed? {
          forall i | |w.log| <= i < |w'.log|
            ensures !Confirms(w'.log[i], reg, v, verify)
          {
            if i < |w1.log| {
              assert w'.log[i] == w1.log[i];
            }
          }
        }
      }
    }
  }

  /** A verification failure carries the byte of the last read-back, which differs from the byte written. */
  lemma {:induction false} VerifyFailureCarriesReadBack(w: Wire, reg: Byte, v: Byte, left: nat, verify: bool)
    requires WellFormed(w)
    ensures var (o, w') := WriteLoop(w, reg, v, left, verify);
      Extends(w, w') &&
      (o.Failed? && o.failure.VerifyFailed? ==>
        && o.failure.readBack != v
        && |w.log| < |w'.log|
        && w'.log[|w'.log| - 1] == ReadAccess(reg, Some(o.failure.readBack)))
    decreases left
  {
    WriteLoopFrame(w, reg, v, left, verify);
    if left > 0 {
      var (t, w1) := Attempt(w, reg, v, verify);
      AttemptLogged(w, reg, v, verify);
      if t != Confirmed && left > 1 {
        VerifyFailureCarriesReadBack(w1, reg, v, left - 1, verify);
      }
    }
  }

  /** A write that reports Done after at least one attempt ends with the access that confirms it. */
  lemma {:induction false} WriteDoneIsConfirmed(w: Wire, reg: Byte, v: Byte, left: nat, verify: bool)
    requires WellFormed(w)
    ensures var (o, w') := WriteLoop(w, reg, v, left, verify);
      Extends(w, w') &&
      (o == Done && left > 0 ==> |w.log| < |w'.log| && Confirms(w'.log[|w'.log| - 1], reg, v, verify))
    decreases left
  {
    WriteLoopFrame(w, reg, v, left, verify);
    if left > 0 {
      var (t, w1) := Attempt(w, reg, v, verify);
      AttemptLogged(w, reg, v, verify);
      if t != Confirmed && left > 1 {
        WriteDoneIsConfirmed(w1, reg, v, left - 1, verify);
        WriteLoopFrame(w1, reg, v, left - 1, verify);
      }
    }
  }

  /**
   * A verified write of a nonzero byte to a self-clearing register always fails, unless
   * the oracle makes the read-back return that very byte.
   */
  lemma {:induction false} VerifiedWriteToSelfClearingFails(w: Wire, reg: Byte, v: Byte, left: nat)
    requires WellFormed(w)
    requires reg in w.clearing && v != 0
    requires forall i :: 0 <= i < |w.oracle| ==> w.oracle[i] != Answer(v)
    ensures left > 0 ==> WriteLoop(w, reg, v, left, true).0.Failed?
    decreases left
  {
    if left > 0 {
      var (ok, w1) := WriteByte(w, reg, v);
      assert forall i :: 0 <= i < |w1.oracle| ==> w1.oracle[i] == w.oracle[i + 1];
      var w2 := w1;
      if ok {
        assert w1.regs[reg as int] == 0;
        var got;
        got, w2 := ReadByte(w1, reg).0, ReadByte(w1, reg).1;
        assert got != Some(v);
        assert forall i :: 0 <= i < |w2.oracle| ==> w2.oracle[i] == w1.oracle[i + 1];
      }
      assert Attempt(w, reg, v, true) == (Attempt(w, reg, v, true).0, w2);
      assert Attempt(w, reg, v, true).0 != Confirmed;
      if left > 1 {
        VerifiedWriteToSelfClearingFails(w2, reg, v, left - 1);
      }
    }
  }

  lemma {:induction false} ReadLoopFrame(w: Wire, reg: Byte, left: nat)
    requires WellFormed(w)
    ensures ReadFrame(w, ReadLoop(w, reg, left).1, reg, ReadLoop(w, reg, left).0, left)
    decreases left
  {
    if left > 0 {
      var (got, w1) := ReadByte(w, reg);
      if got.None? && left > 1 {
        ReadLoopFrame(w1, reg, left - 1);
      }
    }
  }

  /**
   * read_register returns the first byte obtained and gives up only after `left`
   * consecutive failed reads: the log shows failed reads, then at most one success.
   */
  lemma {:induction false} ReadReturnsFirstSuccess(w: Wire, reg: Byte, left: nat)
    requires WellFormed(w)
    ensures var (got, w') := ReadLoop(w, reg, left);
      && Extends(w, w')
      && |w'.log| - |w.log| <= left
      && (forall i :: |w.log| <= i < |w'.log| - 1 ==> w'.log[i] == ReadAccess(reg, None))
      && (left > 0 ==> |w.log| < |w'.log| && w'.log[|w'.log| - 1] == ReadAccess(reg, got))
      && (got.None? ==> |w'.log| - |w.log| == left)
    decreases left
  {
    ReadLoopFrame(w, reg, left);
    if left > 0 {
      var (got, w1) := ReadByte(w, reg);
      if got.None? && left > 1 {
        ReadReturnsFirstSuccess(w1, reg, left - 1);
      }
    }
  }

  /** The retry loop shared by Final2.py:13-31 and hardkod.py:14-32. */
  method WriteWithRetry(dev: Device, reg: Byte, v: Byte, retries: nat, verify: bool) returns (o: Outcome)
    requires dev.Valid()
    modifies dev, dev.regs
    ensures dev.Valid()
    ensures (o, dev.State()) == WriteLoop(old(dev.State()), reg, v, retries, verify)
    ensures WriteFrame(old(dev.State()), dev.State(), reg, v, o, retries)
  {
    WriteLoopFrame(dev.State(), reg, v, retries, verify);
    var attempt := 0;
    while attempt < retries
      invariant 0 <= attempt <= retries
      invariant dev.Valid()
      invariant WriteLoop(old(dev.State()), reg, v, retries, verify)
             == WriteLoop(dev.State(), reg, v, retries - attempt, verify)
    {
      var ok := dev.WriteByteData(reg, v);
      if ok {
        if !verify {
          return Done;
        }
        var got := dev.ReadByteData(reg);
        if got == Some(v) {
          return Done;
        }
        if attempt == retries - 1 {
          return Failed(ReadBackFailure(reg, v, got));
        }
      } else if attempt == retries - 1 {
        return Failed(BusError);
      }
      attempt := attempt + 1;
    }
    return Done;
  }

  /** The retry loop shared by Final2.py:33-41 and hardkod.py:34-43. */
  method ReadWithRetry(dev: Device, reg: Byte, retries: nat) returns (got: Option<Byte>)
    requires dev.Valid()
    modifies dev
    ensures dev.Valid()
    ensures (got, dev.State()) == ReadLoop(old(dev.State()), reg, retries)
    ensures ReadFrame(old(dev.State()), dev.State(), reg, got, retries)
  {
    ReadLoopFrame(dev.State(), reg, retries);
    var attempt := 0;
    while attempt < retries
      invariant 0 <= attempt <= retries
      invariant dev.Valid()
      invariant ReadLoop(old(dev.State()), reg, retries) == ReadLoop(dev.State(), reg, retries - attempt)
    {
      got := dev.ReadByteData(reg);
      if got.Some? || attempt == retries - 1 {
        return got;
      }
      attempt := attempt + 1;
    }
    return None;
  }
}
