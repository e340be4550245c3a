/**
 * The I2C bus and the Si5351A behind it, as the Python programs see them through
 * `bus.write_byte_data(address, reg, value)` and `bus.read_byte_data(address, reg)`.
 *
 * The chip is a file of 256 eight-bit registers. What the wire does with each raw
 * transaction is dictated by an oracle: a sequence of replies, one consumed per
 * transaction. A transaction either raises OSError (Nak), or completes (Ack), or
 * completes with a read returning a byte the chip chose itself (Answer), which covers
 * both noise on the wire and registers the chip drives on its own, such as the
 * status register. Every raw transaction is appended to a log.
 */
module Bus {
  import opened Wrappers

  newtype Byte = x: int | 0 <= x < 256

  const RegisterCount: nat := 256

  /** The registers Final2.py treats as self-clearing (line 17): PLL reset, sticky interrupts, fanout. */
  const ClearingCandidates: set<Byte> := {0xB1, 0x01, 0xBB}

  /** The PLL reset register, which always reads back 0 after a write. */
  const PllResetReg: Byte := 0xB1

  /** What the chip does with the next raw transaction. */
  datatype Reply =
    | Ack             // the transfer completes; a read returns the stored byte
    | Nak             // the transfer raises OSError
    | Answer(v: Byte) // the transfer completes; a read returns v

  /** One raw transaction as the bus saw it. */
  datatype Access =
    | WriteAccess(reg: Byte, value: Byte, ok: bool)
    | ReadAccess(reg: Byte, got: Option<Byte>)

  /**
   * The state of bus and chip: register contents, the replies still to come, the
   * transactions so far, and the registers that clear themselves after a write.
   */
  datatype Wire = Wire(regs: seq<Byte>, oracle: seq<Reply>, log: seq<Access>, clearing: set<Byte>)

  /** 256 registers; 0xB1 clears itself, and only registers of ClearingCandidates may. */
  predicate WellFormed(w: Wire)
  {
    |w.regs| == RegisterCount && PllResetReg in w.clearing && w.clearing <= ClearingCandidates
  }

  /** An exhausted oracle answers every further transaction with Ack. */
  function NextReply(oracle: seq<Reply>): Reply
  {
    if oracle == [] then Ack else oracle[0]
  }

  function Rest(oracle: seq<Reply>): seq<Reply>
  {
    if oracle == [] then [] else oracle[1..]
  }

  /** The byte a register holds after `v` is written to it. */
  function Latched(clearing: set<Byte>, reg: Byte, v: Byte): (b: Byte)
    ensures clearing <= ClearingCandidates && reg !in ClearingCandidates ==> b == v
    ensures reg in clearing ==> b == 0
  {
    if reg in clearing then 0 else v
  }

  /** A register that is not one of the candidates latches what is written to it. */
  lemma LatchesValue(clearing: set<Byte>, reg: Byte, v: Byte)
    requires clearing <= ClearingCandidates
    requires reg as int != 0xB1 && reg as int != 0x01 && reg as int != 0xBB
    ensures Latched(clearing, reg, v) == v
  {
    assert reg !in ClearingCandidates;
  }

  /** `bus.write_byte_data`: on success the register latches the value. */
  function WriteByte(w: Wire, reg: Byte, v: Byte): (r: (bool, Wire))
    requires WellFormed(w)
    ensures WellFormed(r.1) && r.1.clearing == w.clearing
  {
    var ok := NextReply(w.oracle) != Nak;
    var regs := if ok then w.regs[reg as int := Latched(w.clearing, reg, v)] else w.regs;
    (ok, w.(regs := regs, oracle := Rest(w.oracle), log := w.log + [WriteAccess(reg, v, ok)]))
  }

  /** `bus.read_byte_data`: reading never changes a register. */
  function ReadByte(w: Wire, reg: Byte): (r: (Option<Byte>, Wire))
    requires WellFormed(w)
    ensures WellFormed(r.1) && r.1.clearing == w.clearing && r.1.regs == w.regs
  {
    var got := match NextReply(w.oracle)
      case Ack => Some(w.regs[reg as int])
      case Nak => None
      case Answer(v) => Some(v);
    (got, w.(oracle := Rest(w.oracle), log := w.log + [ReadAccess(reg, got)]))
  }

  /** The simulated chip on the bus, with its register file as a fixed buffer. */
  class Device {
    const regs: array<Byte>
    const clearing: set<Byte>
    var oracle: seq<Reply>
    var log: seq<Access>

    ghost predicate Valid()
      reads this
    {
      regs.Length == RegisterCount && PllResetReg in clearing && clearing <= ClearingCandidates
    }

    /** The abstract value of the device. */
    function State(): (w: Wire)
      reads this, regs
      ensures Valid() ==> WellFormed(w)
    {
      Wire(regs[..], oracle, log, clearing)
    }

    constructor (contents: seq<Byte>, script: seq<Reply>, selfClearing: set<Byte>)
      requires |contents| == RegisterCount
      requires PllResetReg in selfClearing && selfClearing <= ClearingCandidates
      ensures Valid() && fresh(regs)
      ensures State() == Wire(contents, script, [], selfClearing)
    {
      regs := new Byte[RegisterCount](i requires 0 <= i < RegisterCount => contents[i]);
      clearing := selfClearing;
      oracle := script;
      log := [];
      new;
      assert regs[..] == contents;
    }

    method WriteByteData(reg: Byte, v: Byte) returns (ok: bool)
      requires Valid()
      modifies this, regs
      ensures Valid()
      ensures (ok, State()) == WriteByte(old(State()), reg, v)
    {
      ok := NextReply(oracle) != Nak;
      if ok {
        regs[reg as int] := Latched(clearing, reg, v);
      }
      oracle := Rest(oracle);
      log := log + [WriteAccess(reg, v, ok)];
    }

    method ReadByteData(reg: Byte) returns (got: Option<Byte>)
      requires Valid()
      modifies this
      ensures Valid()
      ensures (got, State()) == ReadByte(old(State()), reg)
    {
      var reply := NextReply(oracle);
      if reply.Nak? {
        got := None;
      } else if reply.Answer? {
        got := Some(reply.v);
      } else {
        got := Some(regs[reg as int]);
      }
      oracle := Rest(oracle);
      log := log + [ReadAccess(reg, got)];
    }
  }
}
