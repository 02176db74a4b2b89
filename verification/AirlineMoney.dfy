/** Prices in integer cents with half-up rounding (app/providers/airline/mock.py). A Decimal
    amount is a numerator over a power of ten; `_money` rounds it to whole cents. */
module AirlineMoney {
  const TAX_PERCENT: nat := 8
  const BOOKING_FEE: nat := 2500

  /** `quantize(0.01, ROUND_HALF_UP)` of an amount given in hundredths of a cent: ties go away from zero. */
  function Money(hundredths: int): int {
    if hundredths >= 0 then (hundredths + 50) / 100 else -((-hundredths + 50) / 100)
  }

  /** The nearest whole number of cents, and at a tie the one larger in magnitude. */
  predicate IsNearest(hundredths: int, cents: int) {
    var error := 100 * cents - hundredths;
    if hundredths >= 0 then -50 < error <= 50 else -50 <= error < 50
  }

  lemma MoneyIsNearest(hundredths: int)
    ensures forall cents :: IsNearest(hundredths, cents) <==> cents == Money(hundredths)
  {
  }

  // ------------------------------------------------------------ the two price formulas

  datatype Fare = Fare(base: int, taxes: int, fees: int, total: int)

  /** `get_fare_quote`: passenger weights are 1, 0.75 and 0.10; base, taxes and total are rounded in turn. */
  function Quote(price: nat, adults: nat, children: nat, infants: nat): (fare: Fare)
    ensures fare.total == fare.base + fare.taxes + fare.fees >= BOOKING_FEE
  {
    var base := Money(price * (100 * adults + 75 * children + 10 * infants));
    var taxes := Money(base * TAX_PERCENT);
    Fare(base, taxes, BOOKING_FEE, Money(100 * (base + taxes + BOOKING_FEE)))
  }

  /** The one-shot formula that update, add and remove use. */
  function Reprice(price: nat, passengers: nat): (total: int)
    ensures total >= BOOKING_FEE
  {
    Money(price * passengers * (100 + TAX_PERCENT) + 100 * BOOKING_FEE)
  }

  /** The one-shot price is the fare, 8 per cent of it to the nearest cent, and 25.00. */
  lemma RepriceSplits(price: nat, passengers: nat)
    ensures Reprice(price, passengers) == price * passengers + Money(price * passengers * TAX_PERCENT) + BOOKING_FEE
    ensures IsNearest(price * passengers * 8, Reprice(price, passengers) - price * passengers - 2500)
  {
    var fare := price * passengers;
    assert fare * (100 + TAX_PERCENT) + 100 * BOOKING_FEE == 100 * (fare + BOOKING_FEE) + fare * TAX_PERCENT;
  }

  /** A quote's base is the weighted fare to the nearest cent, its taxes 8 per cent of that base to
      the nearest cent, its fee 25.00, and its total their sum. */
  lemma QuoteIsRounded(price: nat, adults: nat, children: nat, infants: nat)
    ensures
      var fare := Quote(price, adults, children, infants);
      && IsNearest(price * (100 * adults + 75 * children + 10 * infants), fare.base)
      && IsNearest(fare.base * 8, fare.taxes) && fare.fees == 2500
      && fare.total == fare.base + fare.taxes + fare.fees
  {
    var hundredths := price * (100 * adults + 75 * children + 10 * infants);
    MoneyIsNearest(hundredths);
    MoneyIsNearest(Money(hundredths) * TAX_PERCENT);
  }

  /** Rounding base, taxes and total in turn gives the one-shot price for as many passengers
      exactly when what children and infants save rounds away: for adults, at every price. */
  lemma QuoteIsRepriceExactlyWhen(price: nat, adults: nat, children: nat, infants: nat)
    ensures Quote(price, adults, children, infants).total == Reprice(price, adults + children + infants)
            <==> price * (25 * children + 90 * infants) <= 50
    ensures Quote(price, adults, children, infants).total <= Reprice(price, adults + children + infants)
  {
    var n, saved := adults + children + infants, 25 * children + 90 * infants;
    var weight := 100 * adults + 75 * children + 10 * infants;
    WeightedFare(price, n, saved, weight);
    RepriceSplits(price, n);
    var base := Money(price * weight);
    assert Quote(price, adults, children, infants).total == base + Money(base * TAX_PERCENT) + BOOKING_FEE;
  }

  lemma WeightedFare(price: nat, passengers: nat, saved: nat, weight: nat)
    requires weight == 100 * passengers - saved
    ensures 0 <= Money(price * weight) <= price * passengers
    ensures Money(price * weight) == price * passengers <==> price * saved <= 50
  {
    assert price * weight == price * (100 * passengers - saved) == 100 * (price * passengers) - price * saved;
  }

  // ------------------------------------------------------------ cancellation

  /** The share kept by the airline, by the seconds left to departure. */
  function FeePercent(secondsLeft: real): nat {
    if secondsLeft <= 86400.0 then 90
    else if secondsLeft <= 172800.0 then 50
    else if secondsLeft <= 604800.0 then 25
    else 10
  }

  function CancellationFee(total: nat, secondsLeft: real): int {
    Money(total * FeePercent(secondsLeft))
  }

  function Refundable(total: nat, secondsLeft: real): int {
    Money(100 * (total - CancellationFee(total, secondsLeft)))
  }

  /** Fee and refund add up to the total, and neither is negative. */
  lemma CancellationConserves(total: nat, secondsLeft: real)
    ensures CancellationFee(total, secondsLeft) + Refundable(total, secondsLeft) == total
    ensures CancellationFee(total, secondsLeft) >= 0 && Refundable(total, secondsLeft) >= 0
  {
  }

  /** A total that covers the booking fee always costs something to cancel. */
  lemma FeeIsPositive(total: nat, secondsLeft: real)
    requires total >= BOOKING_FEE
    ensures CancellationFee(total, secondsLeft) > 0
  {
    assert total * FeePercent(secondsLeft) >= 10 * total;
  }

  /** The fee never falls, and the refund never grows, as departure approaches. */
  lemma FeeNeverFalls(total: nat, earlier: real, later: real)
    requires later <= earlier
    ensures CancellationFee(total, earlier) <= CancellationFee(total, later)
    ensures Refundable(total, later) <= Refundable(total, earlier)
  {
    assert total * FeePercent(earlier) <= total * FeePercent(later);
    CancellationConserves(total, earlier);
    CancellationConserves(total, later);
  }
}
