/** What becomes of the caps when the limits are refreshed from a new balance while positions are open. */
module RefreshedRuns {
  import opened Common
  import opened TradeState
  import opened RiskLimits
  import opened Books
  import opened Agreement
  import opened OrderlyRuns
  import opened Caps

  /** The caps on dollar exposure. */
  ghost predicate WithinDollarCaps(risk: RiskV, limits: Limits) {
    && (limits.maxPositionSize > 0.0 ==> forall inst :: risk.ExposureOf(inst) <= limits.maxPositionSize)
    && (limits.maxTotalExposure > 0.0 ==> risk.TotalExposure() <= limits.maxTotalExposure)
  }

  // ---------------------------------------------------------------- at the refresh

  /** Books within all caps are within the refreshed ones if and only if what is open fits under those of them that
      were given: nothing is closed to make room. */
  lemma RefreshHoldsIffRoom(b: Books, limits: Limits, size: Option<real>, exposure: Option<real>,
                            positions: Option<int>)
    requires WithinCaps(b, limits) && WithinDollarCaps(b.risk, limits)
    ensures var refreshed := limits.Refreshed(size, exposure, positions);
            WithinCaps(b, refreshed) && WithinDollarCaps(b.risk, refreshed)
            <==> && (positions.Some? ==>
                       var room := if positions.value < 1 then 1 else positions.value;
                       b.store.TotalCount() <= room as real && |b.risk.positions| <= room)
                 && (size.Some? && size.value > 0.0 ==> forall inst :: b.risk.ExposureOf(inst) <= size.value)
                 && (exposure.Some? && exposure.value > 0.0 ==> b.risk.TotalExposure() <= exposure.value)
  {
    hide StoreV.TotalCount, RiskV.TotalUnits, RiskV.TotalExposure, RiskV.ExposureOf;
  }

  const AMPLE: Limits := Limits(1000.0, 1000.0, 5, 4, 1000000, None)

  /** One unit at a hundred dollars, and a balance that shrinks the dollar caps to ten: the books agree, the number of
      positions fits, and both exposure caps are exceeded. */
  lemma ShrunkBalanceOverrunsOneUnit()
    ensures var b, refreshed := OneUnit(100.0), AMPLE.Refreshed(Some(10.0), Some(10.0), Some(4));
            && Agree(b) && WithinCaps(b, AMPLE) && WithinDollarCaps(b.risk, AMPLE) && WithinCaps(b, refreshed)
            && b.risk.ExposureOf(EURO) > refreshed.maxPositionSize
            && b.risk.TotalExposure() > refreshed.maxTotalExposure
  {
    hide Agree, Total, RiskV.TotalExposure, StoreV.TotalCount;
    var b := OneUnit(100.0);
    OneUnitAgrees(100.0);
    OneUnitTotals(100.0);
    assert b.risk.positions.Keys == {EURO};
    assert |b.risk.positions| == |b.risk.positions.Keys|;
  }

  lemma OneUnitTotals(price: real)
    ensures OneUnit(price).store.TotalCount() == 1.0
    ensures OneUnit(price).risk.TotalExposure() == price
  {
    var b := OneUnit(price);
    var counts: map<Inst, real> := map[];
    assert b.store.Counts() == counts[EURO := 1.0];
    TotalUpdate(counts, EURO, 1.0);
    assert b.risk.exposure == counts[EURO := price];
    TotalUpdate(counts, EURO, price);
  }

  // ---------------------------------------------------------------- after the refresh

  ghost predicate Holding(b: Books, limits: Limits, room: int) {
    WithinCaps(b, limits.(maxTotalPositions := room))
  }

  lemma {:induction false} RunContinues(b: Books, events: seq<Event>, i: nat)
    requires i <= |events|
    ensures Run(b, events) == Run(Run(b, events[..i]), events[i..])
  {
    hide Step;
    if i == |events| {
      assert events[..i] == events && events[i..] == [];
    } else {
      var n := |events| - 1;
      RunContinues(b, events[..n], i);
      assert events[..n][..i] == events[..i] && events[..n][i..] == events[i..][..n - i];
      assert events[i..][n - i] == events[n];
    }
  }

  lemma CappedFrom(b: Books, caps: Limits, events: seq<Event>, i: nat)
    requires i <= |events| && Capped(b, caps, events)
    ensures Capped(Run(b, events[..i]), caps, events[i..])
    ensures Capped(b, caps, events[..i])
  {
    hide Run, SaneFills, NoLooser;
    forall n | 0 <= n < |events| - i
      ensures SaneFills(Run(Run(b, events[..i]), events[i..][..n]), events[i..][n])
    {
      RunContinues(b, events[..i + n], i);
      assert events[..i + n][..i] == events[..i] && events[..i + n][i..] == events[i..][..n];
      assert events[i..][n] == events[i + n];
    }
    forall n | 0 <= n < i
      ensures SaneFills(Run(b, events[..i][..n]), events[..i][n])
    {
      assert events[..i][..n] == events[..n] && events[..i][n] == events[n];
    }
  }

  lemma LooserCaps(b: Books, caps: Limits, looser: Limits, events: seq<Event>)
    requires Capped(b, caps, events) && NoLooser(caps, looser)
    ensures Capped(b, looser, events)
  {
    hide Run, SaneFills;
  }

  /** After a refresh to fewer positions, or none given, the other caps hold as before; and if the books need no more
      than `room` positions at some moment, they never need more later. So the refreshed caps hold for good from the
      first moment they hold, and until then nothing grows. */
  lemma RefreshedRunsFindRoom(b: Books, limits: Limits, size: Option<real>, exposure: Option<real>,
                              positions: Option<int>, events: seq<Event>, i: nat, room: int)
    requires Backed(b) && WithinCaps(b, limits)
    requires var refreshed := limits.Refreshed(size, exposure, positions);
             && 0 < refreshed.maxTotalPositions <= limits.maxTotalPositions && refreshed.maxTotalPositions <= room
             && Capped(b, refreshed, events) && i <= |events| && Holding(Run(b, events[..i]), refreshed, room)
    ensures var refreshed := limits.Refreshed(size, exposure, positions);
            Holding(Run(b, events), refreshed, room) && WithinCaps(Run(b, events), limits)
  {
    hide Run, SaneFills, WithinCaps, Backed, Capped;
    var refreshed := limits.Refreshed(size, exposure, positions);
    var roomy := refreshed.(maxTotalPositions := room);
    var now := Run(b, events[..i]);
    CappedFrom(b, refreshed, events, i);
    LooserCaps(b, refreshed, limits, events[..i]);
    RunStaysWithinCaps(b, limits, events[..i]);
    LooserCaps(now, refreshed, roomy, events[i..]);
    RunStaysWithinCaps(now, roomy, events[i..]);
    RunContinues(b, events, i);
    LooserCaps(b, refreshed, limits, events);
    RunStaysWithinCaps(b, limits, events);
  }
}
