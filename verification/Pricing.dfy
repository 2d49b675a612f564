/** Commission and currency conversion shared by the trackers and the parity replay. */
module Pricing {
  import opened Common

  predicate EndsWith(s: string, suffix: string) {
    |suffix| <= |s| && s[|s| - |suffix|..] == suffix
  }

  /** Profit in the instrument's quote currency, in US dollars at `price`. */
  function ConvertToUsd(inst: Inst, raw: real, price: real): real {
    if EndsWith(inst, "_USD") then raw
    else if "USD_" <= inst then (if price == 0.0 then 0.0 else raw / price)
    else raw
  }

  /** A share of `bps` basis points of the value of `units`, in the quote currency. */
  function FeeAmount(price: real, units: int, bps: real): real {
    AbsR(price * units as real) * (bps / 10000.0)
  }

  /** The cost in dollars of trading `units` at `price` with a fee of `bps` basis points. */
  function Commission(inst: Inst, price: real, units: int, bps: real): real {
    if bps <= 0.0 || units <= 0 then 0.0
    else ConvertToUsd(inst, FeeAmount(price, units, bps), price)
  }
}
