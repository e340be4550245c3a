/**
 * Pieces the four programs share: the channel registers of CLK0..CLK2, the list of
 * writes that programs a block of consecutive registers, and polling of the status
 * register 0 (SYS_INIT bit 7, LOL_A bit 5).
 */
module Programs {
  import opened Wrappers
  import opened Bus
  import opened Bits
  import opened Transport
  import opened Sequence
  import opened Multisynth
  import opened Encoding

  /** `0 <= clk_num <= 2` */
  predicate ValidChannel(clk: int)
  {
    0 <= clk <= 2
  }

  /** `base_reg = 42 + clk_num * 8`: the first of CLKn's eight Multisynth registers. */
  function BaseReg(clk: int): Byte
    requires ValidChannel(clk)
  {
    (42 + clk * 8) as Byte
  }

  /** `control_reg = 16 + clk_num` */
  function ControlReg(clk: int): Byte
    requires ValidChannel(clk)
  {
    (16 + clk) as Byte
  }

  const StatusReg: Byte := 0x00

  /** Writes of `bs` to the consecutive registers first, first+1, ... */
  function BlockWrites(first: int, bs: seq<Byte>, verify: bool): (ws: seq<RegWrite>)
    requires 0 <= first && first + |bs| <= RegisterCount
    ensures |ws| == |bs| && Distinct(ws)
    ensures forall i :: 0 <= i < |bs| ==> ws[i] == RegWrite((first + i) as Byte, bs[i], verify)
  {
    seq(|bs|, i requires 0 <= i < |bs| => RegWrite((first + i) as Byte, bs[i], verify))
  }

  /** `p1 = 128 * 32 - 512`: PLLA feedback ratio 32 over the 25 MHz crystal. */
  const PllaP1: int := 128 * 32 - 512

  /** The PLLA feedback Multisynth image of Final2.py and hardkod.py, registers 26..33; testVerzija.py writes its first five. */
  const MsnaBytes: seq<Byte> := [0x00, 0x01, 0x00, Mid(PllaP1), Lo(PllaP1), 0x00, 0x00, 0x00]

  /** The MSNA image is the integer ratio a = 32, b = 0, c = 1, which puts PLLA at 800 MHz. */
  lemma MsnaIsRatio32()
    ensures MsnaBytes == [0x00, 0x01, 0x00, 0x0E, 0x00, 0x00, 0x00, 0x00]
    ensures P1Field(MsnaBytes) == PllaP1 == P1(32, 0, 1) && P2Field(MsnaBytes) == P2(0, 1) && P3Field(MsnaBytes) == 1
    ensures VcoFreq == 32 * XtalFreq
  {
    assert Mid(PllaP1) == 0x0E && Lo(PllaP1) == 0x00;
  }

  /** `(status & 0x80) == 0`: SYS_INIT clear, the chip has finished its own start-up. */
  predicate SysInitDone(s: Byte)
  {
    BitAnd(s as nat, 0x80) == 0
  }

  /** `(status & 0x20) == 0 and (status & 0x80) == 0`: neither LOL_A nor SYS_INIT is set. */
  predicate PllLocked(s: Byte)
  {
    BitAnd(s as nat, 0x20) == 0 && BitAnd(s as nat, 0x80) == 0
  }

  /** `(status & 0xA0) == 0`, the lock test of Final2.py's initialize. */
  predicate LockMaskClear(s: Byte)
  {
    BitAnd(s as nat, 0xA0) == 0
  }

  /** The single-mask lock test and the two-mask one agree on every status byte. */
  lemma LockTestsAgree(s: Byte)
    ensures LockMaskClear(s) <==> PllLocked(s)
  {
    AndShift32(s as nat, 5);
    AndShift32(s as nat, 1);
    AndShift32(s as nat, 4);
    AndBelow8(s as nat / 32);
  }

  lemma AndShift32(x: nat, m: nat)
    ensures BitAnd(x, 32 * m) == 32 * BitAnd(x / 32, m)
  {
    assert x / 2 / 2 == x / 4 && x / 4 / 2 == x / 8 && x / 8 / 2 == x / 16 && x / 16 / 2 == x / 32;
    calc {
      BitAnd(x, 32 * m);
      { AndEvenMask(x, 16 * m); }
      2 * BitAnd(x / 2, 16 * m);
      { AndEvenMask(x / 2, 8 * m); }
      4 * BitAnd(x / 4, 8 * m);
      { AndEvenMask(x / 4, 4 * m); }
      8 * BitAnd(x / 8, 4 * m);
      { AndEvenMask(x / 8, 2 * m); }
      16 * BitAnd(x / 16, 2 * m);
      { AndEvenMask(x / 16, m); }
      32 * BitAnd(x / 32, m);
    }
  }

  lemma AndBelow8(y: nat)
    requires y < 8
    ensures BitAnd(y, 5) == 0 <==> BitAnd(y, 1) == 0 && BitAnd(y, 4) == 0
  {
  }

  /** How a polling loop over register 0 ended. */
  datatype Poll = Ready(status: Byte) | Exhausted | PollRaised

  /**
   * `for _ in range(polls): status = read_register(bus, address, 0x00); if ready(status): break`.
   * When `catchErrors` holds the loop body is wrapped in `try ... except OSError`, so a
   * status read that raises only costs one poll; otherwise it ends the loop.
   */
  function PollStatus(w: Wire, polls: nat, retries: nat, ready: Byte -> bool, catchErrors: bool): (r: (Poll, Wire))
    requires WellFormed(w)
    ensures WellFormed(r.1) && r.1.clearing == w.clearing && r.1.regs == w.regs
    decreases polls
  {
    if polls == 0 then (Exhausted, w)
    else
      var (s, w1) := ReadLoop(w, StatusReg, retries);
      if s.None? then
        if catchErrors then PollStatus(w1, polls - 1, retries, ready, catchErrors) else (PollRaised, w1)
      else if ready(s.value) then (Ready(s.value), w1)
      else PollStatus(w1, polls - 1, retries, ready, catchErrors)
  }

  /** A read of the status register that returned a status passing the test. */
  predicate ReadyRead(e: Access, ready: Byte -> bool)
  {
    e.ReadAccess? && e.reg == StatusReg && e.got.Some? && ready(e.got.value)
  }

  /**
   * A poll reads only the status register; it reports Ready with the first status that
   * passes the test, and when it reports anything else no status read passed it. It
   * raises only when errors are not caught.
   */
  lemma {:induction false} PollFindsFirstReady(w: Wire, polls: nat, retries: nat, ready: Byte -> bool, catchErrors: bool)
    requires WellFormed(w)
    ensures var (p, w') := PollStatus(w, polls, retries, ready, catchErrors);
      && Extends(w, w')
      && (forall i :: |w.log| <= i < |w'.log| ==> w'.log[i].ReadAccess? && w'.log[i].reg == StatusReg)
      && (p.Ready? ==> ready(p.status) && |w.log| < |w'.log| && w'.log[|w'.log| - 1] == ReadAccess(StatusReg, Some(p.status)))
      && (forall i :: |w.log| <= i < |w'.log| && (p.Ready? ==> i < |w'.log| - 1) ==> !ReadyRead(w'.log[i], ready))
      && (p.PollRaised? ==> !catchErrors)
    decreases polls
  {
    if polls > 0 {
      var (s, w1) := ReadLoop(w, StatusReg, retries);
      ReadReturnsFirstSuccess(w, StatusReg, retries);
      ReadLoopFrame(w, StatusReg, retries);
      if (s.None? && catchErrors) || (s.Some? && !ready(s.value)) {
        var (p, w') := PollStatus(w1, polls - 1, retries, ready, catchErrors);
        PollFindsFirstReady(w1, polls - 1, retries, ready, catchErrors);
        forall i | |w.log| <= i < |w1.log|
          ensures w'.log[i] == w1.log[i] && !ReadyRead(w1.log[i], ready)
        {
        }
      }
    }
  }

  /** The method form of a status poll. */
  method PollUntilReady(dev: Device, polls: nat, retries: nat, ready: Byte -> bool, catchErrors: bool) returns (p: Poll)
    requires dev.Valid()
    modifies dev
    ensures dev.Valid()
    ensures (p, dev.State()) == PollStatus(old(dev.State()), polls, retries, ready, catchErrors)
  {
    var n := 0;
    while n < polls
      invariant 0 <= n <= polls
      invariant dev.Valid()
      invariant PollStatus(old(dev.State()), polls, retries, ready, catchErrors)
             == PollStatus(dev.State(), polls - n, retries, ready, catchErrors)
    {
      var status := ReadWithRetry(dev, StatusReg, retries);
      if status.None? {
        if !catchErrors {
          return PollRaised;
        }
      } else if ready(status.value) {
        return Ready(status.value);
      }
      n := n + 1;
    }
    return Exhausted;
  }
}
