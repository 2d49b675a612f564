/** The coarse risk inventory: net units and dollar exposure per instrument, and the caps on them. */
module RiskLimits {
  import opened Common

  datatype Limits = Limits(
    maxPositionSize: real,
    maxTotalExposure: real,
    maxPositionsPerPair: int,
    maxTotalPositions: int,
    maxNetUnitsPerPair: int,
    maxTotalUnits: Option<int>)
  {
    /** The limits after a refresh: what is given is put in place, what is not stays. */
    function Refreshed(size: Option<real>, exposure: Option<real>, positions: Option<int>): Limits {
      this.(maxPositionSize := if size.Some? then MaxR(0.0, size.value) else maxPositionSize,
            maxTotalExposure := if exposure.Some? then MaxR(0.0, exposure.value) else maxTotalExposure,
            maxTotalPositions := if positions.Some? then Max(1, positions.value) else maxTotalPositions)
    }
  }

  /** The base currency, the part before the first underscore, is the dollar. */
  predicate UsdBase(inst: Inst) {
    inst == "USD" || "USD_" <= inst
  }

  function UsdNotional(inst: Inst, units: int, price: Option<real>): Option<real> {
    if units == 0 then Some(0.0)
    else if UsdBase(inst) then Some(Abs(units) as real)
    else if price.None? then None
    else Some(Abs(units) as real * price.value)
  }

  /** The value of the inventory; limits stay fixed unless reconfigured. */
  datatype RiskV = RiskV(positions: map<Inst, int>, exposure: map<Inst, real>) {
    function NetUnits(inst: Inst): int {
      if inst in positions then positions[inst] else 0
    }

    function ExposureOf(inst: Inst): real {
      if inst in exposure then exposure[inst] else 0.0
    }

    function Flatten(inst: Inst): RiskV {
      RiskV(positions - {inst}, exposure - {inst})
    }

    function RecordFill(inst: Inst, units: int, price: Option<real>): RiskV {
      var next := NetUnits(inst) + units;
      if next == 0 then Flatten(inst)
      else
        var notional := UsdNotional(inst, next, price);
        RiskV(positions[inst := next],
              if notional.Some? then exposure[inst := notional.value] else exposure)
    }

    ghost function AbsPositions(): map<Inst, real> {
      map i | i in positions :: Abs(positions[i]) as real
    }

    ghost function TotalUnits(): real {
      Total(AbsPositions())
    }

    ghost function TotalExposure(): real {
      Total(exposure)
    }

    predicate Reducing(inst: Inst, planned: int) {
      var current := NetUnits(inst);
      current != 0 &&
      ((current > 0 && planned < 0) || (current < 0 && planned > 0) || Abs(current + planned) < Abs(current))
    }

    /** The caps on net units, total units and the number of instruments held. */
    ghost predicate WithinUnitCaps(limits: Limits, inst: Inst, planned: int) {
      var current := NetUnits(inst);
      var proposed := current + planned;
      && (limits.maxNetUnitsPerPair != 0 ==> Abs(proposed) <= limits.maxNetUnitsPerPair)
      && (limits.maxTotalUnits.Some? ==>
            TotalUnits() + Max(0, Abs(proposed) - Abs(current)) as real <= limits.maxTotalUnits.value as real)
      && (current == 0 && proposed != 0 ==> |positions| < limits.maxTotalPositions)
    }

    /** The caps on dollar exposure; without a price the exposure on file stands in. */
    ghost predicate WithinExposureCaps(limits: Limits, inst: Inst, planned: int, price: Option<real>) {
      var proposed := UsdNotional(inst, NetUnits(inst) + planned, price).GetOr(ExposureOf(inst));
      && (limits.maxPositionSize > 0.0 ==> proposed <= limits.maxPositionSize)
      && (limits.maxTotalExposure > 0.0 ==>
            TotalExposure() - ExposureOf(inst) + proposed <= limits.maxTotalExposure)
    }

    /** The guard in front of every order. */
    ghost predicate CanAdd(limits: Limits, inst: Inst, planned: int, price: Option<real>) {
      planned == 0 ||
      (WithinUnitCaps(limits, inst, planned) &&
       (Reducing(inst, planned) || WithinExposureCaps(limits, inst, planned, price)))
    }

    /** A flat instrument has no entry. */
    ghost predicate WellFormed() {
      forall i :: i in positions ==> positions[i] != 0
    }
  }

  const EMPTY_RISK := RiskV(map[], map[])

  // ---------------------------------------------------------------- what the guard guarantees

  lemma UnitsAfterFill(r: RiskV, inst: Inst, units: int, price: Option<real>)
    ensures r.RecordFill(inst, units, price).TotalUnits()
            == r.TotalUnits() - Abs(r.NetUnits(inst)) as real + Abs(r.NetUnits(inst) + units) as real
  {
    var next := r.NetUnits(inst) + units;
    if next == 0 {
      UnitsAfterFlatten(r, inst);
    } else {
      assert r.RecordFill(inst, units, price).AbsPositions() == r.AbsPositions()[inst := Abs(next) as real];
      TotalUpdate(r.AbsPositions(), inst, Abs(next) as real);
    }
  }

  lemma UnitsAfterFlatten(r: RiskV, inst: Inst)
    ensures r.Flatten(inst).TotalUnits() == r.TotalUnits() - Abs(r.NetUnits(inst)) as real
  {
    assert r.Flatten(inst).AbsPositions() == r.AbsPositions() - {inst};
    TotalWithout(r.AbsPositions(), inst);
  }

  /** An approved fill at the checked price that does not reduce the position leaves both exposure caps intact. */
  lemma ApprovedFillWithinExposureCaps(r: RiskV, limits: Limits, inst: Inst, units: int, price: real)
    requires units != 0 && !r.Reducing(inst, units)
    requires r.CanAdd(limits, inst, units, Some(price))
    ensures var after := r.RecordFill(inst, units, Some(price));
            && (limits.maxPositionSize > 0.0 ==> after.ExposureOf(inst) <= limits.maxPositionSize)
            && (limits.maxTotalExposure > 0.0 ==> after.TotalExposure() <= limits.maxTotalExposure)
  {
    FillWithinExposureCapsIffChecked(r, limits, inst, units, price);
  }

  /** Whatever the fill does to the position, it leaves both caps intact exactly when the exposure check,
      which the guard skips for reducing orders, would have passed. */
  lemma FillWithinExposureCapsIffChecked(r: RiskV, limits: Limits, inst: Inst, units: int, price: real)
    ensures var after := r.RecordFill(inst, units, Some(price));
            (limits.maxPositionSize > 0.0 ==> after.ExposureOf(inst) <= limits.maxPositionSize)
            && (limits.maxTotalExposure > 0.0 ==> after.TotalExposure() <= limits.maxTotalExposure)
            <==> r.WithinExposureCaps(limits, inst, units, Some(price))
  {
    var notional := UsdNotional(inst, r.NetUnits(inst) + units, Some(price)).value;
    TotalUpdate(r.exposure, inst, notional);
    TotalWithout(r.exposure, inst);
  }

  /** The condition is needed: the guard calls a fill that flips the side "reducing" and waves it
      past the caps. One unit long with a cap of 100 dollars may become 1000 units short. */
  lemma FlipEscapesExposureCaps(limits: Limits)
    requires limits.maxPositionSize == 100.0
    requires limits.maxNetUnitsPerPair == 0 && limits.maxTotalUnits.None?
    ensures var r := RiskV(map["EUR_USD" := 1], map["EUR_USD" := 1.0]);
            && r.CanAdd(limits, "EUR_USD", -1001, Some(1.0))
            && r.RecordFill("EUR_USD", -1001, Some(1.0)).ExposureOf("EUR_USD") > limits.maxPositionSize
  {
    var r := RiskV(map["EUR_USD" := 1], map["EUR_USD" := 1.0]);
    assert r.Reducing("EUR_USD", -1001);
    assert !UsdBase("EUR_USD") by {
      assert "EUR_USD"[0] != "USD_"[0];
    }
  }

  class RiskManager {
    var limits: Limits
    var positions: map<Inst, int>
    var exposure: map<Inst, real>

    ghost function View(): RiskV
      reads this
    {
      RiskV(positions, exposure)
    }

    constructor (limits: Limits)
      ensures View() == EMPTY_RISK && this.limits == limits
    {
      this.limits := limits;
      positions, exposure := map[], map[];
    }

    method ConfigureDynamicLimits(size: Option<real>, exposure: Option<real>, positions: Option<int>)
      modifies this`limits
      ensures limits == old(limits).Refreshed(size, exposure, positions)
    {
      if size.Some? {
        limits := limits.(maxPositionSize := MaxR(0.0, size.value));
      }
      if exposure.Some? {
        limits := limits.(maxTotalExposure := MaxR(0.0, exposure.value));
      }
      if positions.Some? {
        limits := limits.(maxTotalPositions := Max(1, positions.value));
      }
    }

    method RecordFill(inst: Inst, units: int, price: Option<real>)
      modifies this`positions, this`exposure
      ensures View() == old(View()).RecordFill(inst, units, price)
    {
      var current := if inst in positions then positions[inst] else 0;
      var next := current + units;
      if next == 0 {
        positions := positions - {inst};
        exposure := exposure - {inst};
      } else {
        positions := positions[inst := next];
        var notional := UsdNotional(inst, next, price);
        if notional.Some? {
          exposure := exposure[inst := notional.value];
        }
      }
    }

    method Flatten(inst: Inst)
      modifies this`positions, this`exposure
      ensures View() == old(View()).Flatten(inst)
    {
      positions := positions - {inst};
      exposure := exposure - {inst};
    }

    function NetUnits(inst: Inst): int
      reads this
      ensures NetUnits(inst) == View().NetUnits(inst)
    {
      if inst in positions then positions[inst] else 0
    }

    method CanAdd(inst: Inst, planned: int, price: Option<real>) returns (allowed: bool)
      ensures allowed <==> View().CanAdd(limits, inst, planned, price)
    {
      if planned == 0 {
        return true;
      }
      var current := NetUnits(inst);
      var proposed := current + planned;
      var isReducing := current != 0 &&
        ((current > 0 && planned < 0) || (current < 0 && planned > 0) || Abs(proposed) < Abs(current));
      allowed := UnitCapsAllow(inst, planned);
      if allowed && !isReducing {
        allowed := ExposureCapsAllow(inst, planned, price);
      }
    }

    method UnitCapsAllow(inst: Inst, planned: int) returns (allowed: bool)
      ensures allowed <==> View().WithinUnitCaps(limits, inst, planned)
    {
      var current := NetUnits(inst);
      var proposed := current + planned;
      var isNew := current == 0 && proposed != 0;
      if limits.maxNetUnitsPerPair != 0 && Abs(proposed) > limits.maxNetUnitsPerPair {
        return false;
      }
      if limits.maxTotalUnits.Some? {
        var absPositions := map i | i in positions :: Abs(positions[i]) as real;
        assert absPositions == View().AbsPositions();
        var totalUnits := SumValues(absPositions);
        if totalUnits + Max(0, Abs(proposed) - Abs(current)) as real > limits.maxTotalUnits.value as real {
          return false;
        }
      }
      return !(isNew && |positions| >= limits.maxTotalPositions);
    }

    method ExposureCapsAllow(inst: Inst, planned: int, price: Option<real>) returns (allowed: bool)
      ensures allowed <==> View().WithinExposureCaps(limits, inst, planned, price)
    {
      var currentExposure := if inst in exposure then exposure[inst] else 0.0;
      var proposedExposure := UsdNotional(inst, NetUnits(inst) + planned, price).GetOr(currentExposure);
      if limits.maxPositionSize > 0.0 && proposedExposure > limits.maxPositionSize {
        return false;
      }
      var total := SumValues(exposure);
      return !(limits.maxTotalExposure > 0.0 && total - currentExposure + proposedExposure > limits.maxTotalExposure);
    }
  }

  // ---------------------------------------------------------------- exposure on file

  /** After a fill that leaves a position, the exposure on file is its value in dollars at the fill price: its units if
      they are dollars, else units times price; without a price the old figure stays. */
  lemma ExposureIsDollarValue(r: RiskV, inst: Inst, units: int, price: Option<real>)
    requires r.NetUnits(inst) + units != 0
    ensures var after, size := r.RecordFill(inst, units, price), Abs(r.NetUnits(inst) + units) as real;
            && after.NetUnits(inst) == r.NetUnits(inst) + units
            && (inst == "USD" || "USD_" <= inst ==> after.ExposureOf(inst) == size)
            && (!(inst == "USD" || "USD_" <= inst) && price.Some? ==> after.ExposureOf(inst) == size * price.value)
            && (!(inst == "USD" || "USD_" <= inst) && price.None? ==> after.ExposureOf(inst) == r.ExposureOf(inst))
  {
  }
}
