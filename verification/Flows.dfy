/** Money told in units times price moves: what the conversion and the commission come to. */
module Flows {
  import opened Common
  import opened Pricing

  // ---------------------------------------------------------------- the currency of an instrument

  /** Units are dollars, prices are in the other currency. */
  predicate CountedInDollars(inst: Inst) {
    !EndsWith(inst, "_USD") && "USD_" <= inst
  }

  /** `usd` is worth `amount` of the quote currency when the price is `price`. A currency that is neither side is taken
      for dollars, and so is everything at a price of zero, except that it is then worth nothing. */
  predicate IsWorth(inst: Inst, usd: real, amount: real, price: real) {
    if !CountedInDollars(inst) then usd == amount
    else if price == 0.0 then usd == 0.0
    else usd * price == amount
  }

  lemma ConversionIsWorth(inst: Inst, amount: real, price: real)
    ensures IsWorth(inst, ConvertToUsd(inst, amount, price), amount, price)
  {
  }

  /** What signed units earn in the quote currency when the price goes from one to the other. */
  function Earned(units: int, from: real, to: real): real {
    units as real * (to - from)
  }

  /** A fee of `bps` basis points on the value of `units` at `price`, none if that is not positive. */
  predicate IsFee(inst: Inst, fee: real, units: nat, price: real, bps: real) {
    if bps <= 0.0 || units == 0 then fee == 0.0
    else IsWorth(inst, fee, ShareOfValue(price, units, bps), price)
  }

  function ShareOfValue(price: real, units: nat, bps: real): real {
    if price < 0.0 then 0.0 - units as real * price * bps / 10000.0 else units as real * price * bps / 10000.0
  }

  lemma FeeIsShare(price: real, units: nat, bps: real)
    ensures FeeAmount(price, units, bps) == ShareOfValue(price, units, bps)
  {
    var value := price * units as real;
    assert value == units as real * price;
    assert price < 0.0 ==> value <= 0.0;
    assert price >= 0.0 ==> value >= 0.0;
  }

  lemma CommissionIsFee(inst: Inst, price: real, units: nat, bps: real)
    ensures IsFee(inst, Commission(inst, price, units, bps), units, price, bps)
  {
    hide ConvertToUsd, IsWorth, FeeAmount, ShareOfValue;
    FeeIsShare(price, units, bps);
    ConversionIsWorth(inst, FeeAmount(price, units, bps), price);
  }

  /** `amount` of the quote currency in dollars. */
  function Dollars(inst: Inst, amount: real, price: real): real {
    if !CountedInDollars(inst) then amount else if price == 0.0 then 0.0 else amount / price
  }

  lemma WorthIsDollars(inst: Inst, usd: real, amount: real, price: real)
    requires IsWorth(inst, usd, amount, price)
    ensures usd == Dollars(inst, amount, price)
  {
    if CountedInDollars(inst) && price != 0.0 {
      assert amount / price == usd;
    }
  }

  lemma ConversionIsDollars(inst: Inst, amount: real, price: real)
    ensures ConvertToUsd(inst, amount, price) == Dollars(inst, amount, price)
  {
    ConversionIsWorth(inst, amount, price);
    WorthIsDollars(inst, ConvertToUsd(inst, amount, price), amount, price);
  }
}
