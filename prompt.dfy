/** The one computed figure of the analysis prompt: where the current price
    sits in the 52-week range, in percent. The rest of the prompt is a
    rendering of snapshot fields. */
module Prompt {
  import opened Common
  import opened MarketData

  /** The neutral position used when the range is empty or inverted. */
  const NeutralPosition: real := 50.0

  /** `(current - low) / (high - low) * 100` for a proper range, else 50.
      The result is not clamped to [0, 100]. */
  function PricePosition(current: real, high: real, low: real): (r: real)
    ensures high <= low ==> r == NeutralPosition
    ensures high > low ==> r * (high - low) == (current - low) * 100.0
  {
    if high > low then (current - low) / (high - low) * 100.0 else NeutralPosition
  }

  /** The position the prompt reports for a snapshot: 50 for a missing or
      degenerate 52-week range (the all-zero defaults of a missing quote
      included), and a figure in [0, 100] for a price inside a proper range. */
  function SnapshotPosition(s: Snapshot): (r: real)
    ensures s.high52 <= s.low52 ==> r == NeutralPosition
    ensures s.low52 <= s.currentPrice <= s.high52 ==> 0.0 <= r <= 100.0
  {
    PositionWithinRange(s.currentPrice, s.high52, s.low52);
    PricePosition(s.currentPrice, s.high52, s.low52)
  }

  /** Division by a positive width preserves order, in both directions. */
  lemma QuotientOrder(x: real, y: real, w: real)
    requires w > 0.0
    ensures x <= y <==> x / w <= y / w
  {
    var qx, qy := x / w, y / w;
    assert x == w * qx && y == w * qy;
    if qx <= qy {
      MulMonotone(w, qx, qy);
    }
    if x <= y && qx > qy {
      MulStrict(w, qy, qx);
    }
  }

  lemma MulStrict(w: real, a: real, b: real)
    requires w > 0.0 && a < b
    ensures w * a < w * b
  {
  }

  lemma OwnQuotient(w: real)
    requires w > 0.0
    ensures 0.0 / w == 0.0 && w / w == 1.0
  {
  }

  /** The ends of a proper range map to 0 and 100. */
  lemma RangeEnds(high: real, low: real)
    requires high > low
    ensures PricePosition(low, high, low) == 0.0
    ensures PricePosition(high, high, low) == 100.0
  {
    OwnQuotient(high - low);
  }

  /** A price inside a proper range has a position in [0, 100]. */
  lemma PositionWithinRange(current: real, high: real, low: real)
    ensures high > low && low <= current <= high ==> 0.0 <= PricePosition(current, high, low) <= 100.0
  {
    if high > low && low <= current <= high {
      var w := high - low;
      OwnQuotient(w);
      QuotientOrder(0.0, current - low, w);
      QuotientOrder(current - low, w, w);
    }
  }

  /** Outside the range the position leaves [0, 100]: it is not clamped. */
  lemma PositionNotClamped(current: real, high: real, low: real)
    requires high > low
    ensures current > high ==> PricePosition(current, high, low) > 100.0
    ensures current < low ==> PricePosition(current, high, low) < 0.0
  {
    var w := high - low;
    OwnQuotient(w);
    QuotientOrder(current - low, w, w);
    QuotientOrder(0.0, current - low, w);
  }

  /** A higher price never has a lower position in the same range. */
  lemma PositionMonotone(c1: real, c2: real, high: real, low: real)
    requires high > low && c1 <= c2
    ensures PricePosition(c1, high, low) <= PricePosition(c2, high, low)
  {
    QuotientOrder(c1 - low, c2 - low, high - low);
  }
}
