/** Q0.16 and Q0.32 fixed-point arithmetic: magnitudes, attenuations, gains and potentials.
    Machine words are modelled as naturals; the lemmas show that no intermediate product
    leaves 64 bits. */
module FixedPoint {
  import opened Wrappers

  const UNITY: nat := 0x1_0000
  const MAX_GAIN: nat := 8 * UNITY
  const POTENTIAL_ONE: nat := 0x1_0000_0000
  const WORD: nat := 0x1_0000_0000_0000_0000

  /** A fraction of capacity in [0, 1], in units of 2^-16. */
  type Q16 = x: nat | x <= UNITY
  /** An authorised multiplier in [1, 8], in units of 2^-16. */
  type Gain = x: nat | UNITY <= x <= MAX_GAIN witness UNITY
  /** A traversal potential in [0, 1], in units of 2^-32. */
  type Potential = x: nat | x <= POTENTIAL_ONE

  function Min(a: nat, b: nat): nat { if a < b then a else b }

  lemma MulMonotone(a: nat, b: nat, c: nat)
    requires a <= b
    ensures a * c <= b * c
  {
  }

  function FromMagnitude(m: Q16): Potential { m * UNITY }

  /** Truncated scaling by a fraction. */
  function Attenuated(p: Potential, att: Q16): (r: Potential)
    ensures r <= p
    ensures p * att < WORD
  {
    MulMonotone(att, UNITY, p);
    p * att / UNITY
  }

  /** The product is scaled down exactly, and only the fraction of a unit is lost. */
  lemma AttenuatedExact(p: Potential, att: Q16)
    ensures Attenuated(p, att) * 0x1_0000 <= p * att < (Attenuated(p, att) + 1) * 0x1_0000
  {
  }

  lemma AttenuatedMonotone(p: Potential, q: Potential, att: Q16)
    requires p <= q
    ensures Attenuated(p, att) <= Attenuated(q, att)
  {
    MulMonotone(p, q, att);
  }

  /** Truncated scaling by a gain; None is the Overflow refusal. */
  function Amplified(p: Potential, gain: Gain): (r: Option<Potential>)
    ensures r.Some? ==> p * gain < WORD
  {
    if gain == UNITY || p == 0 then Some(p)
    else if p > POTENTIAL_ONE * UNITY / gain then None
    else
      MulMonotone(p, POTENTIAL_ONE * UNITY / gain, gain);
      Some(Min(p * gain / UNITY, POTENTIAL_ONE))
  }

  /** Amplification never exceeds the exact product and never lowers the potential. */
  lemma AmplifiedBounds(p: Potential, gain: Gain)
    requires Amplified(p, gain).Some?
    ensures p <= Amplified(p, gain).value
    ensures Amplified(p, gain).value * UNITY <= p * gain
  {
    MulMonotone(UNITY, gain, p);
  }

  /** The division in the overflow guard is exact: amplification is refused exactly when the product exceeds full
      scale, and the final clamp never acts. */
  lemma AmplifiedExact(p: Potential, gain: Gain)
    ensures Amplified(p, gain).None? <==> p * gain > POTENTIAL_ONE * UNITY
    ensures Amplified(p, gain).Some? ==> Amplified(p, gain).value == p * gain / UNITY
  {
    CapExact(p, POTENTIAL_ONE * UNITY, gain);
    if p * gain <= POTENTIAL_ONE * UNITY { QuotientBound(p * gain, POTENTIAL_ONE, UNITY); }
    QuotientBound(p * UNITY, p, UNITY);
  }

  lemma CapExact(p: nat, all: nat, gain: nat)
    requires gain > 0
    ensures p > all / gain <==> p * gain > all
  {
    var cap := all / gain;
    assert cap * gain <= all < (cap + 1) * gain by { assert all == cap * gain + all % gain; }
    if p <= cap { MulMonotone(p, cap, gain); } else { MulMonotone(cap + 1, p, gain); }
  }

  lemma QuotientBound(a: nat, b: nat, c: nat)
    requires c > 0 && a <= b * c
    ensures a / c <= b
  {
    if a / c > b { MulMonotone(b + 1, a / c, c); }
  }

  /** Round to nearest, saturating at full. */
  function ToMagnitude(p: Potential): Q16 { Min((p + 0x8000) / UNITY, UNITY) }

  /** The magnitude is the nearest one, a half rounding up. */
  lemma ToMagnitudeNearest(p: Potential)
    ensures ToMagnitude(p) * 0x1_0000 <= p + 0x8000 < (ToMagnitude(p) + 1) * 0x1_0000
  {
  }

  lemma ToMagnitudeMonotone(p: Potential, q: Potential)
    requires p <= q
    ensures ToMagnitude(p) <= ToMagnitude(q)
  {
  }

  /** Rounding undoes the embedding exactly, so a full-strength hop loses nothing. */
  lemma MagnitudeRoundTrip(m: Q16)
    ensures ToMagnitude(FromMagnitude(m)) == m
  {
  }
}
