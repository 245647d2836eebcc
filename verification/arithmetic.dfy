/**
  The integer payout and refund arithmetic of the subscription contract.
  Amounts are in the smallest currency unit, the refund policy is a permille
  (parts per thousand) and every division floors; all operands are
  non-negative, so Dafny's division agrees with the contract's unsigned one.
*/
module Arithmetic {
  import opened Wrappers

  /** The refund policy `max_refund_permille_policy` is out of this. */
  const Permille: nat := 1000

  /** What `subscribe` and `renew` send to the provider at once: `price * (1000 - p) / 1000`. */
  function ImmediatePayout(price: nat, permille: nat): nat
    requires permille <= Permille
  {
    price * (Permille - permille) / Permille
  }

  /** What `subscribe` and `renew` lock in the provider's ledger: `price * p / 1000`. */
  function LockedAmount(price: nat, permille: nat): nat
  {
    price * permille / Permille
  }

  /**
    The outcome of a refund, in the contract's own units: the customer portion
    scaled by 1000 (what `refund` returns), and the provider's extra share when
    the contract pays one.
  */
  datatype RefundSplit = RefundSplit(customerScaled: nat, providerShare: Option<nat>)
  {
    /** What is transferred to the buyer: the scaled portion, floored to whole units. */
    function CustomerShare(): nat
    {
      customerScaled / Permille
    }
  }

  /**
    The refund split after `elapsed` of `duration` time units have been used:
    the unused part of the price, scaled by 1000, capped at `price * p`; when
    the cap does not bite, the provider gets the rest of `price * p`, unscaled.
  */
  function SplitRefund(price: nat, permille: nat, elapsed: nat, duration: nat): (s: RefundSplit)
    requires elapsed < duration
    ensures s.customerScaled <= price * permille
    ensures s.customerScaled <= price * Permille
    ensures s.providerShare.Some? <==> price * Permille - price * Permille * elapsed / duration <= price * permille
  {
    UsedAtMostPrice(price * Permille, elapsed, duration);
    var promised := price * permille;
    var scaledPrice := price * Permille;
    var used := scaledPrice * elapsed / duration;
    var remaining := scaledPrice - used;
    if remaining > promised then RefundSplit(promised, None)
    else RefundSplit(remaining, Some((promised - remaining) / Permille))
  }

  /** The used part of a scaled price never exceeds the price while the subscription runs. */
  lemma UsedAtMostPrice(scaledPrice: nat, elapsed: nat, duration: nat)
    requires elapsed < duration
    ensures scaledPrice * elapsed / duration <= scaledPrice
  {
    MulLeftMonotone(scaledPrice, elapsed, duration);
    DivMonotone(scaledPrice * elapsed, scaledPrice * duration, duration);
    assert scaledPrice * duration / duration == scaledPrice;
  }

  lemma MulLeftMonotone(a: nat, x: nat, y: nat)
    requires x <= y
    ensures a * x <= a * y
  {
    assert a * y == a * x + a * (y - x);
  }

  lemma DivMonotone(x: nat, y: nat, d: nat)
    requires x <= y && d > 0
    ensures x / d <= y / d
  {
    assert d * (y / d) + y % d == y;
    assert d * (x / d) + x % d == x;
    if x / d > y / d {
      MulLeftMonotone(d, y / d + 1, x / d);
      assert false;
    }
  }

  /**
    Payout plus locked amount is the whole price, less the single unit that
    the two floor divisions lose when `price * p` is not a multiple of 1000.
  */
  lemma PayoutPlusLockedIsPrice(price: nat, permille: nat)
    requires permille <= Permille
    ensures ImmediatePayout(price, permille) + LockedAmount(price, permille)
            == if price * permille % Permille == 0 then price else price - 1
  {
    var x := price * permille;
    var q, r := x / Permille, x % Permille;
    MulLeftMonotone(price, permille, Permille);
    assert price * (Permille - permille) == Permille * price - x;
    assert x == Permille * q + r;
    if r == 0 {
      assert price * (Permille - permille) == Permille * (price - q);
    } else {
      assert q < price;
      assert price * (Permille - permille) == Permille * (price - q - 1) + (Permille - r);
    }
  }

  /**
    What a refund pays out, to the buyer and to the provider together, is the
    amount locked at purchase, or one unit less through rounding; the buyer's
    share alone never exceeds it.
  */
  lemma RefundWithinLocked(price: nat, permille: nat, elapsed: nat, duration: nat)
    requires elapsed < duration
    ensures var s := SplitRefund(price, permille, elapsed, duration);
            s.CustomerShare() <= LockedAmount(price, permille)
            && s.CustomerShare() + s.providerShare.GetOr(0) <= LockedAmount(price, permille)
            && s.CustomerShare() + s.providerShare.GetOr(0) + 1 >= LockedAmount(price, permille)
  {
    var s := SplitRefund(price, permille, elapsed, duration);
    var promised := price * permille;
    DivMonotone(s.customerScaled, promised, Permille);
    if s.providerShare.Some? {
      var c := s.customerScaled;
      assert s.providerShare.value == (promised - c) / Permille;
      assert c == Permille * (c / Permille) + c % Permille;
      assert promised - c == Permille * ((promised - c) / Permille) + (promised - c) % Permille;
    }
  }

  /**
    The longer the buyer waits, the less a refund gives back: the customer
    portion never grows with elapsed time, and once the provider is paid a
    share it keeps being paid one that never shrinks.
  */
  lemma RefundDecaysWithTime(price: nat, permille: nat, early: nat, late: nat, duration: nat)
    requires early <= late < duration
    ensures var s1 := SplitRefund(price, permille, early, duration);
            var s2 := SplitRefund(price, permille, late, duration);
            && s2.customerScaled <= s1.customerScaled
            && s2.CustomerShare() <= s1.CustomerShare()
            && (s1.providerShare.Some? ==> s2.providerShare.Some? && s1.providerShare.value <= s2.providerShare.value)
  {
    var scaledPrice := price * Permille;
    MulLeftMonotone(scaledPrice, early, late);
    DivMonotone(scaledPrice * early, scaledPrice * late, duration);
    var s1 := SplitRefund(price, permille, early, duration);
    var s2 := SplitRefund(price, permille, late, duration);
    DivMonotone(s2.customerScaled, s1.customerScaled, Permille);
    if s1.providerShare.Some? {
      DivMonotone(price * permille - s1.customerScaled, price * permille - s2.customerScaled, Permille);
    }
  }

  /** A refund requested at once gives the buyer the whole locked amount and the provider nothing. */
  lemma RefundAtStartReturnsLocked(price: nat, permille: nat, duration: nat)
    requires permille <= Permille && 0 < duration
    ensures var s := SplitRefund(price, permille, 0, duration);
            s.customerScaled == price * permille
            && s.CustomerShare() == LockedAmount(price, permille)
            && s.providerShare.GetOr(0) == 0
  {
    MulLeftMonotone(price, permille, Permille);
  }

  /**
    The example of the contract's documentation: price 100, policy 500 and a
    30-day plan; on day 15 the buyer gets 50, on day 20 the buyer gets 33 and
    the provider 16. The values `refund` returns are the scaled 50000 and 33334.
  */
  lemma RefundDocumentedExample()
    ensures SplitRefund(100, 500, 15 * 86400, 30 * 86400) == RefundSplit(50000, Some(0))
    ensures SplitRefund(100, 500, 15 * 86400, 30 * 86400).CustomerShare() == 50
    ensures SplitRefund(100, 500, 20 * 86400, 30 * 86400) == RefundSplit(33334, Some(16))
    ensures SplitRefund(100, 500, 20 * 86400, 30 * 86400).CustomerShare() == 33
  {
    assert 100000 * (15 * 86400) / (30 * 86400) == 50000;
    assert 100000 * (20 * 86400) / (30 * 86400) == 66666;
  }
}
