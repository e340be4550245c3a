/**
 * Frequency planning arithmetic shared by the four programs: the fixed 800 MHz VCO,
 * the R post-divider search, and the Multisynth parameters of Silicon Labs AN619.
 *
 * The programs compute `VCO_FREQ / freq` in floating point; here the same quantities
 * are exact integers: a = VCO div (freq r), b = ((VCO mod (freq r)) * 1048575) div (freq r),
 * and the range test 8 <= VCO / (freq r) <= 2048 is 8 freq r <= VCO <= 2048 freq r.
 */
module Multisynth {
  import opened Wrappers
  import opened Bits

  const XtalFreq: nat := 25_000_000
  const VcoFreq: nat := 800_000_000
  const MinFreq: int := 2500
  const MaxFreq: int := 200_000_000
  /** Below this frequency the R divider is searched for. */
  const RSearchBelow: int := 500_000
  /** Above this frequency (up to MaxFreq) the Multisynth runs in divide-by-4 mode. */
  const DivBy4Above: int := 150_000_000
  /** The fractional denominator, 2^20 - 1. */
  const FracDenom: nat := 1048575
  const MinMsDiv: nat := 8
  const MaxMsDiv: nat := 2048

  /** The R divider values tried, smallest first. */
  const RValues: seq<nat> := [1, 2, 4, 8, 16, 32, 64, 128]

  /** The k-th R value is 2^k, so its index is r_div = log2 r. */
  lemma RValuesArePowersOfTwo()
    ensures forall k :: 0 <= k < |RValues| ==> RValues[k] == Pow2(k)
  {
    assert Pow2(1) == 2 && Pow2(2) == 4 && Pow2(3) == 8;
    assert Pow2(4) == 16 && Pow2(5) == 32 && Pow2(6) == 64 && Pow2(7) == 128;
  }

  /** 8 <= VCO / (freq * r) <= 2048, in exact integers. */
  predicate InRange(freq: int, r: int)
  {
    MinMsDiv * freq * r <= VcoFreq <= MaxMsDiv * freq * r
  }

  /** The search over RValues from index k on: the index of the first value in range. */
  function FirstR(freq: int, k: nat): (r: Option<nat>)
    requires k <= |RValues|
    ensures r.Some? ==> k <= r.value < |RValues| && InRange(freq, RValues[r.value])
    ensures forall j :: k <= j < (if r.Some? then r.value else |RValues|) ==> !InRange(freq, RValues[j])
    decreases |RValues| - k
  {
    if k == |RValues| then None
    else if InRange(freq, RValues[k]) then Some(k)
    else FirstR(freq, k + 1)
  }

  /**
   * Between 2500 Hz and 500 kHz no R value qualifies exactly for the frequencies up to
   * 3051 Hz: even R = 128 leaves VCO / (freq R) above 2048 there, and from 3052 Hz on
   * R = 128 is always in range.
   */
  lemma NoDividerExactlyBelow3052(freq: int)
    requires MinFreq <= freq < RSearchBelow
    ensures FirstR(freq, 0).None? <==> freq <= 3051
  {
    var found := FirstR(freq, 0);
    if freq <= 3051 {
      forall j | 0 <= j < |RValues| ensures !InRange(freq, RValues[j]) {
        assert RValues[j] <= 128;
        assert MaxMsDiv * freq * RValues[j] <= MaxMsDiv * 3051 * 128;
      }
    } else {
      assert InRange(freq, RValues[7]);
    }
  }

  /** a = floor(VCO / (freq r)), the whole part of the Multisynth ratio. */
  function WholePart(fr: int): (a: nat)
    requires fr > 0
    ensures a * fr <= VcoFreq < (a + 1) * fr
  {
    VcoFreq / fr
  }

  /**
   * b = floor(frac(VCO / (freq r)) * 1048575). Together with a it pins the ratio down
   * to within 1/1048575: a + b/1048575 <= VCO / (freq r) < a + (b + 1)/1048575.
   */
  function FracPart(fr: int): (b: nat)
    requires fr > 0
    ensures b < FracDenom
    ensures WholePart(fr) * fr * FracDenom + b * fr <= VcoFreq * FracDenom
    ensures VcoFreq * FracDenom < WholePart(fr) * fr * FracDenom + (b + 1) * fr
  {
    var a := VcoFreq / fr;
    var m := VcoFreq % fr;
    var b := (m * FracDenom) / fr;
    assert VcoFreq == a * fr + m;
    assert b * fr <= m * FracDenom < (b + 1) * fr;
    assert VcoFreq * FracDenom == a * fr * FracDenom + m * FracDenom;
    assert m * FracDenom < fr * FracDenom;
    b
  }

  /** P1 = 128 a + floor(128 b / c) - 512 (AN619). */
  function P1(a: int, b: int, c: int): (p: int)
    requires c > 0
    ensures b >= 0 ==> 128 * a - 512 <= p
    ensures 0 <= b < c ==> p < 128 * a - 512 + 128
  {
    128 * a + (128 * b) / c - 512
  }

  /** P2 = 128 b - c floor(128 b / c) (AN619): the remainder of 128 b by c. */
  function P2(b: int, c: int): (p: int)
    requires c > 0
    ensures p == (128 * b) % c && 0 <= p < c
  {
    128 * b - c * ((128 * b) / c)
  }

  /** The divider plan that set_frequency derives from a frequency. */
  datatype DividerPlan = DividerPlan(
    r: nat, rDiv: nat,             // R post-divider and its register code log2 r
    a: int, b: int, c: int,        // Multisynth ratio a + b/c
    p1: int, p2: int, p3: int,     // the packed register fields
    divBy4: nat, integerMode: bool)

  /** Why set_frequency returned without touching the chip, besides a bad channel number. */
  datatype PlanError = OutOfRange | NoValidDivider

  /** The plan used above 150 MHz: Multisynth divide-by-4 mode, R = 1. */
  const DivBy4Plan: DividerPlan := DividerPlan(1, 0, 4, 0, 1, 0, 0, 1, 3, true)

  /**
   * The R selection: below 500 kHz the first R value in range, if any; from 500 kHz on
   * R = 1 without any test.
   */
  function SelectR(freq: int): (k: Option<nat>)
    ensures k.Some? ==> k.value < |RValues|
    ensures freq >= RSearchBelow ==> k == Some(0)
    ensures freq < RSearchBelow ==> k == FirstR(freq, 0)
  {
    if freq < RSearchBelow then FirstR(freq, 0) else Some(0)
  }

  /**
   * The fractional branch for VCO / fr with R index k: a, b, P1..P3 by AN619, divby4 = 0,
   * and integer mode for an even whole ratio. `reduce` says whether c drops to 1 when
   * b = 0 (Final2.py) or stays 1048575 (hardkod.py, setF.py, testVerzija.py).
   */
  function Fractional(fr: int, k: nat, reduce: bool): (p: DividerPlan)
    requires fr > 0 && k < |RValues|
    ensures p.p3 == p.c && (p.c == 1 || p.c == FracDenom) && 0 <= p.p2 < p.c
    ensures p.divBy4 == 0 && p.r == RValues[k] && p.rDiv == k
  {
    var a := WholePart(fr);
    var b := FracPart(fr);
    var c: int := if reduce && b == 0 then 1 else FracDenom;
    DividerPlan(RValues[k], k, a, b, c, P1(a, b, c), P2(b, c), c, 0, b == 0 && a % 2 == 0)
  }

  /**
   * The planner of set_frequency with an R search (Final2.py, hardkod.py, setF.py):
   * range check, R selection, the divide-by-4 band, else the fractional branch.
   */
  function PlanWithR(freq: int, reduce: bool): Result<DividerPlan, PlanError>
  {
    if freq < MinFreq || freq > MaxFreq then Failure(OutOfRange)
    else match SelectR(freq)
      case None => Failure(NoValidDivider)
      case Some(k) =>
        if DivBy4Above < freq <= MaxFreq then Success(DivBy4Plan)
        else Success(Fractional(freq * RValues[k], k, reduce))
  }

  /**
   * The planner fails exactly outside 2.5 kHz .. 200 MHz (OutOfRange) and, inside it,
   * exactly from 2500 Hz to 3051 Hz (NoValidDivider).
   */
  lemma PlanFailsExactly(freq: int, reduce: bool)
    ensures PlanWithR(freq, reduce) == Failure(OutOfRange) <==> freq < MinFreq || freq > MaxFreq
    ensures PlanWithR(freq, reduce) == Failure(NoValidDivider) <==> MinFreq <= freq <= 3051
  {
    if MinFreq <= freq < RSearchBelow {
      NoDividerExactlyBelow3052(freq);
    }
  }

  /**
   * A planned R is 2^r_div with r_div in 0..7; below 500 kHz it is the smallest power
   * of two that puts VCO / (freq R) in 8..2048, from 500 kHz on it is 1.
   */
  lemma PlanPicksSmallestR(freq: int, reduce: bool)
    requires PlanWithR(freq, reduce).Success?
    ensures var p := PlanWithR(freq, reduce).value;
      && p.rDiv < 8 && p.r == Pow2(p.rDiv)
      && (freq < RSearchBelow ==> InRange(freq, p.r) && forall j :: 0 <= j < p.rDiv ==> !InRange(freq, Pow2(j)))
      && (freq >= RSearchBelow ==> p.r == 1 && p.rDiv == 0)
  {
    RValuesArePowersOfTwo();
  }

  /** Above 150 MHz (and up to 200 MHz) the plan is always the fixed divide-by-4 plan. */
  lemma PlanDivBy4Band(freq: int, reduce: bool)
    requires DivBy4Above < freq <= MaxFreq
    ensures PlanWithR(freq, reduce) == Success(DivBy4Plan)
    ensures var p := DivBy4Plan;
      p.a == 4 && p.b == 0 && p.c == 1 && p.p1 == 0 && p.p2 == 0 && p.p3 == 1 && p.divBy4 == 3 && p.integerMode
  {
  }

  /**
   * Below the band the plan is the AN619 fractional divider for VCO / (freq R):
   * a = floor(ms_div), 0 <= b < 1048575 approximates the fraction from below within
   * 1/1048575, P1 + 512 = 128 a + floor(128 b / c), P2 = 128 b mod c < c, P3 = c,
   * divby4 = 0, and integer mode exactly for b = 0 with a even.
   */
  lemma PlanFractional(freq: int, reduce: bool)
    requires PlanWithR(freq, reduce).Success? && freq <= DivBy4Above
    ensures var p := PlanWithR(freq, reduce).value;
      var fr := freq * p.r;
      && fr > 0
      && p.a == VcoFreq / fr
      && 0 <= p.b < FracDenom
      && p.a * fr * FracDenom + p.b * fr <= VcoFreq * FracDenom < p.a * fr * FracDenom + (p.b + 1) * fr
      && p.c == (if reduce && p.b == 0 then 1 else FracDenom)
      && p.p1 + 512 == 128 * p.a + (128 * p.b) / p.c
      && p.p2 == (128 * p.b) % p.c && 0 <= p.p2 < p.c
      && p.p3 == p.c
      && p.divBy4 == 0
      && (p.integerMode <==> p.b == 0 && p.a % 2 == 0)
  {
    RValuesArePowersOfTwo();
  }

  /** The ratio a stays in 4..2048, so P1 fits its 18 bits and P2, P3 their 20. */
  lemma PlanFitsRegisters(freq: int, reduce: bool)
    requires PlanWithR(freq, reduce).Success?
    ensures var p := PlanWithR(freq, reduce).value;
      && 4 <= p.a <= MaxMsDiv
      && 0 <= p.p1 < 262144
      && 0 <= p.p2 < 1048576
      && 0 < p.p3 < 1048576
  {
    var p := PlanWithR(freq, reduce).value;
    if freq <= DivBy4Above {
      var k := SelectR(freq).value;
      WholePartInRange(freq, freq * RValues[k]);
      assert 0 <= p.b < p.c;
    }
  }

  /** Below the band, a = VCO div (freq R) is at least 5 and at most 2048. */
  lemma WholePartInRange(freq: int, fr: int)
    requires MinFreq <= freq <= DivBy4Above
    requires SelectR(freq).Some? && fr == freq * RValues[SelectR(freq).value]
    ensures fr > 0 && 5 <= WholePart(fr) <= MaxMsDiv
  {
    var k := SelectR(freq).value;
    if freq < RSearchBelow {
      assert InRange(freq, RValues[k]);
      assert MinMsDiv * fr <= VcoFreq <= MaxMsDiv * fr;
    } else {
      assert fr == freq;
      DivIsAntitone(VcoFreq, DivBy4Above, fr);
      DivIsAntitone(VcoFreq, fr, RSearchBelow);
    }
  }

  /** x / d shrinks as d grows. */
  lemma DivIsAntitone(x: nat, d: int, e: int)
    requires 0 < e <= d
    ensures x / d <= x / e
  {
    var q, r := x / d, x / e;
    assert q * e <= q * d <= x;
    assert x == r * e + x % e && x % e < e;
    if r < q {
      AtLeastOnce(q - r, e);
    }
  }
}
