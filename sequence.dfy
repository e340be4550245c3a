/**
 * Straight runs of register accesses, as the programs make them: consecutive
 * `write_register` calls whose first OSError propagates and skips the rest, and
 * `for reg in range(...)` loops of `read_register` calls (the register dumps).
 */
module Sequence {
  import opened Wrappers
  import opened Bus
  import opened Transport

  /** One write_register call: register, value, and whether the write is read back. */
  datatype RegWrite = RegWrite(reg: Byte, value: Byte, verify: bool)

  /** Consecutive write_register calls with `retries` attempts each; the first that raises ends the run. */
  function WriteAll(w: Wire, ws: seq<RegWrite>, retries: nat): (r: (Outcome, Wire))
    requires WellFormed(w)
    ensures WellFormed(r.1) && r.1.clearing == w.clearing
    decreases |ws|
  {
    if ws == [] then (Done, w)
    else
      var (o, w1) := WriteLoop(w, ws[0].reg, ws[0].value, retries, ws[0].verify);
      if o.Failed? then (o, w1) else WriteAll(w1, ws[1..], retries)
  }

  /** The index of the write that raised, or |ws| when all of them returned. */
  function FailedIndex(w: Wire, ws: seq<RegWrite>, retries: nat): (k: nat)
    requires WellFormed(w)
    ensures k <= |ws|
    ensures k < |ws| <==> WriteAll(w, ws, retries).0.Failed?
    decreases |ws|
  {
    if ws == [] then 0
    else
      var (o, w1) := WriteLoop(w, ws[0].reg, ws[0].value, retries, ws[0].verify);
      if o.Failed? then 0 else 1 + FailedIndex(w1, ws[1..], retries)
  }

  /** The position of the first write to `reg` in `ws`, or |ws| when there is none. */
  function Pos(ws: seq<RegWrite>, reg: Byte): (p: nat)
    ensures p <= |ws|
    ensures p < |ws| ==> ws[p].reg == reg
    ensures forall i :: 0 <= i < p ==> ws[i].reg != reg
  {
    if ws == [] then 0 else if ws[0].reg == reg then 0 else 1 + Pos(ws[1..], reg)
  }

  /** No register is written twice. */
  predicate Distinct(ws: seq<RegWrite>)
  {
    forall i, j :: 0 <= i < j < |ws| ==> ws[i].reg != ws[j].reg
  }

  /** Two runs that share no register join into one that lists no register twice. */
  lemma DistinctAppend(a: seq<RegWrite>, b: seq<RegWrite>)
    requires Distinct(a) && Distinct(b)
    requires forall i, j :: 0 <= i < |a| && 0 <= j < |b| ==> a[i].reg != b[j].reg
    ensures Distinct(a + b)
  {
    var ab := a + b;
    forall i, j | 0 <= i < j < |ab|
      ensures ab[i].reg != ab[j].reg
    {
      if j < |a| {
      } else if i < |a| {
        assert ab[j] == b[j - |a|];
      } else {
        assert ab[i] == b[i - |a|] && ab[j] == b[j - |a|];
      }
    }
  }

  /**
   * A run of writes touches only the registers it lists, and none after the one that
   * raised; every register it does not list keeps its value.
   */
  lemma {:induction false} WriteAllFrame(w: Wire, ws: seq<RegWrite>, retries: nat)
    requires WellFormed(w)
    ensures var (o, w') := WriteAll(w, ws, retries);
      var k := FailedIndex(w, ws, retries);
      && Extends(w, w')
      && |w'.regs| == RegisterCount
      && (forall i :: |w.log| <= i < |w'.log| ==> Pos(ws, w'.log[i].reg) <= k && Pos(ws, w'.log[i].reg) < |ws|)
      && (forall i :: 0 <= i < RegisterCount && Pos(ws, i as Byte) == |ws| ==> w'.regs[i] == w.regs[i])
    decreases |ws|
  {
    if ws != [] {
      var (o1, w1) := WriteLoop(w, ws[0].reg, ws[0].value, retries, ws[0].verify);
      WriteLoopFrame(w, ws[0].reg, ws[0].value, retries, ws[0].verify);
      if o1.Done? {
        var w' := WriteAll(w1, ws[1..], retries).1;
        WriteAllFrame(w1, ws[1..], retries);
        assert forall i :: |w.log| <= i < |w1.log| ==> w'.log[i] == w1.log[i];
      }
    }
  }

  /** With every register listed once, the accesses of a run come in the order of the list. */
  lemma {:induction false} WriteAllInOrder(w: Wire, ws: seq<RegWrite>, retries: nat)
    requires WellFormed(w) && Distinct(ws)
    ensures var w' := WriteAll(w, ws, retries).1;
      && Extends(w, w')
      && (forall i, j :: |w.log| <= i < j < |w'.log| ==> Pos(ws, w'.log[i].reg) <= Pos(ws, w'.log[j].reg))
    decreases |ws|
  {
    if ws != [] {
      var (o1, w1) := WriteLoop(w, ws[0].reg, ws[0].value, retries, ws[0].verify);
      WriteLoopFrame(w, ws[0].reg, ws[0].value, retries, ws[0].verify);
      if o1.Done? {
        var w' := WriteAll(w1, ws[1..], retries).1;
        WriteAllInOrder(w1, ws[1..], retries);
        WriteAllFrame(w1, ws[1..], retries);
        assert forall i :: |w.log| <= i < |w1.log| ==> w'.log[i] == w1.log[i];
        forall i | |w1.log| <= i < |w'.log|
          ensures Pos(ws, w'.log[i].reg) == 1 + Pos(ws[1..], w'.log[i].reg)
        {
          var p := Pos(ws[1..], w'.log[i].reg);
          assert ws[1..][p] == ws[p + 1];
        }
      }
    }
  }

  /** A run of writes none of which is read back makes write transactions only. */
  lemma {:induction false} WriteAllNeverReads(w: Wire, ws: seq<RegWrite>, retries: nat)
    requires WellFormed(w)
    requires forall k :: 0 <= k < |ws| ==> !ws[k].verify
    ensures var w' := WriteAll(w, ws, retries).1;
      Extends(w, w') && forall i :: |w.log| <= i < |w'.log| ==> w'.log[i].WriteAccess?
    decreases |ws|
  {
    if ws != [] {
      var (o1, w1) := WriteLoop(w, ws[0].reg, ws[0].value, retries, false);
      UnverifiedWriteNeverReadsBack(w, ws[0].reg, ws[0].value, retries);
      if o1.Done? {
        var w' := WriteAll(w1, ws[1..], retries).1;
        WriteAllNeverReads(w1, ws[1..], retries);
        assert forall i :: |w.log| <= i < |w1.log| ==> w'.log[i] == w1.log[i];
      }
    }
  }

  /**
   * Every write before the one that raised (all of them, when none did) left its
   * register holding the value as latched, provided no register is listed twice.
   */
  lemma {:induction false} WriteAllLatches(w: Wire, ws: seq<RegWrite>, retries: nat)
    requires WellFormed(w) && Distinct(ws) && retries > 0
    ensures var w' := WriteAll(w, ws, retries).1;
      && |w'.regs| == RegisterCount
      && forall j :: 0 <= j < FailedIndex(w, ws, retries) ==>
           w'.regs[ws[j].reg as int] == Latched(w.clearing, ws[j].reg, ws[j].value)
    decreases |ws|
  {
    if ws != [] {
      var (o1, w1) := WriteLoop(w, ws[0].reg, ws[0].value, retries, ws[0].verify);
      WriteLoopFrame(w, ws[0].reg, ws[0].value, retries, ws[0].verify);
      if o1.Done? {
        var w' := WriteAll(w1, ws[1..], retries).1;
        WriteAllLatches(w1, ws[1..], retries);
        WriteAllFrame(w1, ws[1..], retries);
        assert Pos(ws[1..], ws[0].reg) == |ws| - 1;
        forall j | 1 <= j < FailedIndex(w, ws, retries)
          ensures w'.regs[ws[j].reg as int] == Latched(w.clearing, ws[j].reg, ws[j].value)
        {
          assert ws[1..][j - 1] == ws[j];
        }
      }
    }
  }

  /** A run that returned stores every value it lists, when none of its registers may clear itself. */
  lemma WriteAllStores(w: Wire, ws: seq<RegWrite>, retries: nat)
    requires WellFormed(w) && Distinct(ws) && retries > 0
    requires forall j :: 0 <= j < |ws| ==> ws[j].reg as int != 0xB1 && ws[j].reg as int != 0x01 && ws[j].reg as int != 0xBB
    requires WriteAll(w, ws, retries).0.Done?
    ensures var w' := WriteAll(w, ws, retries).1;
      |w'.regs| == RegisterCount && forall j :: 0 <= j < |ws| ==> w'.regs[ws[j].reg as int] == ws[j].value
  {
    WriteAllLatches(w, ws, retries);
    forall j | 0 <= j < |ws|
      ensures Latched(w.clearing, ws[j].reg, ws[j].value) == ws[j].value
    {
      LatchesValue(w.clearing, ws[j].reg, ws[j].value);
    }
  }

  /** The method form of a run of writes, over the device. */
  method WriteEach(dev: Device, ws: seq<RegWrite>, retries: nat) returns (o: Outcome)
    requires dev.Valid()
    modifies dev, dev.regs
    ensures dev.Valid()
    ensures (o, dev.State()) == WriteAll(old(dev.State()), ws, retries)
  {
    var k := 0;
    while k < |ws|
      invariant 0 <= k <= |ws|
      invariant dev.Valid()
      invariant WriteAll(old(dev.State()), ws, retries) == WriteAll(dev.State(), ws[k..], retries)
    {
      assert ws[k..][1..] == ws[k + 1..];
      o := WriteWithRetry(dev, ws[k].reg, ws[k].value, retries, ws[k].verify);
      if o.Failed? {
        return;
      }
      k := k + 1;
    }
    return Done;
  }

  // ---------------------------------------------------------------------------
  // Register dumps

  /** `for i in range(n): read_register(first + i)`: the bytes read, or None once a read raises. */
  function ReadBlock(w: Wire, first: nat, n: nat, retries: nat): (r: (Option<seq<Byte>>, Wire))
    requires WellFormed(w) && first + n <= RegisterCount
    ensures WellFormed(r.1) && r.1.clearing == w.clearing && r.1.regs == w.regs
    ensures r.0.Some? ==> |r.0.value| == n
    decreases n
  {
    if n == 0 then (Some([]), w)
    else
      var (got, w1) := ReadLoop(w, first as Byte, retries);
      if got.None? then (None, w1)
      else
        var (rest, w2) := ReadBlock(w1, first + 1, n - 1, retries);
        (if rest.Some? then Some([got.value] + rest.value) else None, w2)
  }

  /** A dump reads the registers first .. first+n-1 only, and changes none. */
  lemma {:induction false} ReadBlockFrame(w: Wire, first: nat, n: nat, retries: nat)
    requires WellFormed(w) && first + n <= RegisterCount
    ensures var w' := ReadBlock(w, first, n, retries).1;
      && Extends(w, w')
      && forall i :: |w.log| <= i < |w'.log| ==>
           w'.log[i].ReadAccess? && first <= w'.log[i].reg as int < first + n
    decreases n
  {
    if n > 0 {
      var (got, w1) := ReadLoop(w, first as Byte, retries);
      ReadLoopFrame(w, first as Byte, retries);
      if got.Some? {
        var w' := ReadBlock(w1, first + 1, n - 1, retries).1;
        ReadBlockFrame(w1, first + 1, n - 1, retries);
        assert w' == ReadBlock(w, first, n, retries).1;
        forall i | |w.log| <= i < |w'.log|
          ensures w'.log[i].ReadAccess? && first <= w'.log[i].reg as int < first + n
        {
          if i < |w1.log| {
            assert w'.log[i] == w1.log[i];
          }
        }
      }
    }
  }

  /** Prefix the bytes already read to the result of the rest of a dump. */
  function Prepend(vals: seq<Byte>, r: (Option<seq<Byte>>, Wire)): (Option<seq<Byte>>, Wire)
  {
    (if r.0.Some? then Some(vals + r.0.value) else None, r.1)
  }

  /** The method form of a dump: a `for` loop of read_register calls. */
  method ReadEach(dev: Device, first: nat, n: nat, retries: nat) returns (vals: Option<seq<Byte>>)
    requires dev.Valid() && first + n <= RegisterCount
    modifies dev
    ensures dev.Valid()
    ensures (vals, dev.State()) == ReadBlock(old(dev.State()), first, n, retries)
  {
    var acc: seq<Byte> := [];
    var i := 0;
    ghost var r0 := ReadBlock(dev.State(), first, n, retries);
    assert Prepend(acc, r0) == r0 by {
      if r0.0.Some? {
        assert acc + r0.0.value == r0.0.value;
      }
    }
    while i < n
      invariant 0 <= i <= n && |acc| == i
      invariant dev.Valid()
      invariant ReadBlock(old(dev.State()), first, n, retries)
             == Prepend(acc, ReadBlock(dev.State(), first + i, n - i, retries))
    {
      var got := ReadWithRetry(dev, (first + i) as Byte, retries);
      if got.None? {
        return None;
      }
      assert forall rest: seq<Byte> :: acc + ([got.value] + rest) == (acc + [got.value]) + rest;
      acc := acc + [got.value];
      i := i + 1;
    }
    assert acc + [] == acc;
    return Some(acc);
  }
}
