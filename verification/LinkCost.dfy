/** Link-cost smoothing and its publication gate (`crates/ntk-neighborhood/src/cost_model.rs`). */
module LinkCost {
  import opened Registration

  const TWO63: int := 0x8000_0000_0000_0000
  const TWO64: int := 0x1_0000_0000_0000_0000

  /** A 64-bit pattern read as a signed value; arithmetic on signed values wraps to it. */
  function Signed(x: int): (r: int)
    ensures -TWO63 <= r < TWO63
    ensures -TWO63 <= x < TWO63 ==> r == x
  {
    (x + TWO63) % TWO64 - TWO63
  }

  /** Division that truncates towards zero, by a positive number. */
  function Truncated(a: int, b: int): int
    requires b > 0
  {
    if a >= 0 then a / b else -((-a) / b)
  }

  /** The step taken over a difference: a rise is damped by 10, a fall by 3, and never to nothing. */
  function Damped(delta: int): int {
    if delta == 0 then 0
    else if delta > 0 then (if delta / 10 > 1 then delta / 10 else 1)
    else (if Truncated(delta, 3) < -1 then Truncated(delta, 3) else -1)
  }

  /** `ema_step`. */
  function EmaStep(last: U64, sample: U64): U64 {
    var next := Signed(Signed(last) + Damped(Signed(Signed(sample) - Signed(last))));
    if next > 0 then next else 0
  }

  function SaturatingDouble(x: U64): U64 {
    if 2 * x > MAX_U64 then MAX_U64 else 2 * x
  }

  /** `exceeds_hysteresis`. */
  predicate ExceedsHysteresis(published: U64, smoothed: U64) {
    smoothed != published && (SaturatingDouble(smoothed) < published || smoothed >= SaturatingDouble(published))
  }

  // ---------------------------------------------------------------- one step

  function Gap(a: int, b: int): nat {
    if a <= b then b - a else a - b
  }

  /** The step taken over a gap. */
  function Stride(gap: nat, rising: bool): (s: nat)
    ensures gap > 0 ==> 1 <= s <= gap
    ensures gap == 0 ==> s == 0
  {
    if gap == 0 then 0
    else
      var s := if rising then gap / 10 else gap / 3;
      if s > 1 then s else 1
  }

  /** One step moves towards the sample by the stride of the gap: it never overshoots, and never stays
      short of the sample. */
  lemma StepCloses(last: U64, sample: U64)
    requires last < TWO63 && sample < TWO63
    ensures EmaStep(last, sample) < TWO63
    ensures last <= sample ==> EmaStep(last, sample) == last + Stride(sample - last, true) <= sample
    ensures last >= sample ==> EmaStep(last, sample) == last - Stride(last - sample, false) >= sample
  {}

  // ---------------------------------------------------------------- iterated on a constant sample

  function Smoothed(start: U64, sample: U64, ticks: nat): U64 {
    if ticks == 0 then start else EmaStep(Smoothed(start, sample, ticks - 1), sample)
  }

  /** What is left of a gap after some ticks. */
  function GapAfter(gap: nat, rising: bool, ticks: nat): (g: nat)
    ensures g <= gap
  {
    if ticks == 0 then gap
    else
      var g := GapAfter(gap, rising, ticks - 1);
      g - Stride(g, rising)
  }

  lemma RisingStep(last: U64, sample: U64, gap: nat)
    requires last == sample - gap && sample < TWO63
    ensures EmaStep(last, sample) == sample - (gap - Stride(gap, true))
  {
    StepCloses(last, sample);
  }

  lemma FallingStep(last: U64, sample: U64, gap: nat)
    requires last == sample + gap < TWO63
    ensures EmaStep(last, sample) == sample + (gap - Stride(gap, false))
  {
    StepCloses(last, sample);
  }

  // Iterating the step never overshoots: the value stays on its side, at the gap left.

  lemma {:induction false} SmoothedRising(start: U64, sample: U64, ticks: nat)
    requires start <= sample < TWO63
    ensures Smoothed(start, sample, ticks) == sample - GapAfter(sample - start, true, ticks)
  {
    if ticks > 0 {
      SmoothedRising(start, sample, ticks - 1);
      RisingStep(Smoothed(start, sample, ticks - 1), sample, GapAfter(sample - start, true, ticks - 1));
    }
  }

  lemma {:induction false} SmoothedFalling(start: U64, sample: U64, ticks: nat)
    requires sample <= start < TWO63
    ensures Smoothed(start, sample, ticks) == sample + GapAfter(start - sample, false, ticks)
  {
    if ticks > 0 {
      SmoothedFalling(start, sample, ticks - 1);
      FallingStep(Smoothed(start, sample, ticks - 1), sample, GapAfter(start - sample, false, ticks - 1));
    }
  }

  lemma {:induction false} GapCompose(gap: nat, rising: bool, a: nat, b: nat)
    ensures GapAfter(gap, rising, a + b) == GapAfter(GapAfter(gap, rising, a), rising, b)
  {
    if b > 0 {
      GapCompose(gap, rising, a, b - 1);
    }
  }

  /** While more than half of the gap is left, every tick takes at least a twentieth of it. */
  lemma {:induction false} GapShrinks(gap: nat, rising: bool, ticks: nat)
    requires gap >= 20
    ensures 2 * GapAfter(gap, rising, ticks) <= gap || GapAfter(gap, rising, ticks) + ticks * (gap / 20) <= gap
  {
    if ticks > 0 {
      GapShrinks(gap, rising, ticks - 1);
      var g := GapAfter(gap, rising, ticks - 1);
      if 2 * g > gap {
        assert Stride(g, rising) >= gap / 20;
        assert ticks * (gap / 20) == (ticks - 1) * (gap / 20) + gap / 20;
      }
    }
  }

  /** Twenty ticks halve any gap of at least 20. */
  lemma GapHalves(gap: nat, rising: bool)
    requires gap >= 20
    ensures 2 * GapAfter(gap, rising, 20) <= gap
  {
    GapShrinks(gap, rising, 20);
  }

  lemma {:induction false} GapSmall(gap: nat, rising: bool, ticks: nat)
    ensures GapAfter(gap, rising, ticks) <= if ticks <= gap then gap - ticks else 0
  {
    if ticks > 0 {
      GapSmall(gap, rising, ticks - 1);
    }
  }

  /** A number of ticks that closes a gap: logarithmic above 20, one by one below. */
  function Ticks(gap: nat): nat {
    if gap < 20 then gap else 20 + Ticks(gap / 2)
  }

  lemma {:induction false} TicksMonotone(a: nat, b: nat)
    requires a <= b
    ensures Ticks(a) <= Ticks(b)
  {
    if b >= 20 {
      if a >= 20 {
        TicksMonotone(a / 2, b / 2);
      }
    }
  }

  /** After that many ticks, and ever after, nothing is left of the gap. */
  lemma {:induction false} GapCloses(gap: nat, rising: bool, ticks: nat)
    requires ticks >= Ticks(gap)
    ensures GapAfter(gap, rising, ticks) == 0
    decreases gap
  {
    if gap < 20 {
      GapSmall(gap, rising, ticks);
    } else {
      var g := GapAfter(gap, rising, 20);
      GapHalves(gap, rising);
      TicksMonotone(g, gap / 2);
      GapCloses(g, rising, ticks - 20);
      GapCompose(gap, rising, 20, ticks - 20);
    }
  }

  /** On a constant sample the smoothed value reaches the sample exactly and stays there. */
  lemma Converges(start: U64, sample: U64, ticks: nat)
    requires start < TWO63 && sample < TWO63 && ticks >= Ticks(Gap(start, sample))
    ensures Smoothed(start, sample, ticks) == sample
  {
    GapCloses(Gap(start, sample), start <= sample, ticks);
    if start <= sample {
      SmoothedRising(start, sample, ticks);
    } else {
      SmoothedFalling(start, sample, ticks);
    }
  }

  /** Once a link has settled, the gate is open if and only if its cost is outside the band from half of
      to twice the published cost, the upper bound included; the saturation of the two products never
      matters. */
  lemma SettledGateIff(published: U64, start: U64, sample: U64, ticks: nat)
    requires start < TWO63 && sample < TWO63 && ticks >= Ticks(Gap(start, sample))
    ensures ExceedsHysteresis(published, Smoothed(start, sample, ticks)) <==>
      if published == 0 then sample > 0 else 2 * sample < published || sample >= 2 * published
  {
    Converges(start, sample, ticks);
  }

  /** A link that settles at or above twice its published cost is noticed: the gate fires within the
      bound, and stays open until the cost is published. */
  lemma RiseIsPublished(published: U64, start: U64, sample: U64, ticks: nat)
    requires start < TWO63 && sample < TWO63
    requires 0 < published && 2 * published <= sample && start <= sample
    requires ticks >= Ticks(sample - start)
    ensures ExceedsHysteresis(published, Smoothed(start, sample, ticks))
  {
    SettledGateIff(published, start, sample, ticks);
  }

  /** Likewise a link that settles below half of its published cost. */
  lemma FallIsPublished(published: U64, start: U64, sample: U64, ticks: nat)
    requires start < TWO63 && sample < TWO63
    requires 2 * sample < published && sample <= start
    requires ticks >= Ticks(start - sample)
    ensures ExceedsHysteresis(published, Smoothed(start, sample, ticks))
  {
    SettledGateIff(published, start, sample, ticks);
  }
}
