/** The planner's book: open trades, pending-close flags and last signals per instrument. */
module TradeState {
  import opened Common

  datatype Trade = Trade(
    direction: Side,
    units: nat,
    entryTs: Time,
    holdSecs: int,
    maxHoldSecs: Option<int>,
    elapsedSecs: int,
    entryPrice: real)
  {
    function NetUnits(): int {
      if direction > 0 then units else if direction < 0 then 0 - units else 0
    }

    function Aged(secs: int): Trade {
      this.(elapsedSecs := elapsedSecs + secs)
    }

    predicate Expired() {
      (maxHoldSecs.Some? && elapsedSecs >= maxHoldSecs.value) || elapsedSecs >= holdSecs
    }
  }

  function NetOfTrades(trades: seq<Trade>): int {
    if trades == [] then 0 else NetOfTrades(trades[..|trades| - 1]) + trades[|trades| - 1].NetUnits()
  }

  function AgeAll(trades: seq<Trade>, secs: int): (r: seq<Trade>)
    ensures |r| == |trades|
    ensures forall k :: 0 <= k < |r| ==> r[k] == trades[k].Aged(secs)
  {
    seq(|trades|, k requires 0 <= k < |trades| => trades[k].Aged(secs))
  }

  datatype Snapshot = Snapshot(trades: seq<Trade>, pendingClose: bool, lastSignal: Option<string>)

  /** The value of the store. */
  datatype StoreV = StoreV(trades: map<Inst, seq<Trade>>, pendingClose: set<Inst>, lastSignal: map<Inst, string>) {
    function TradesOf(inst: Inst): seq<Trade> {
      if inst in trades then trades[inst] else []
    }

    function LastSignalOf(inst: Inst): Option<string> {
      if inst in lastSignal then Some(lastSignal[inst]) else None
    }

    /** An empty list is never stored. */
    function Replace(inst: Inst, ts: seq<Trade>): StoreV {
      this.(trades := if ts != [] then trades[inst := ts] else trades - {inst})
    }

    function Remove(inst: Inst): StoreV {
      StoreV(trades - {inst}, pendingClose - {inst}, lastSignal - {inst})
    }

    function SetLastSignal(inst: Inst, key: string): StoreV {
      if key != "" then this.(lastSignal := lastSignal[inst := key]) else this
    }

    function TakeSnapshot(inst: Inst): Snapshot {
      Snapshot(TradesOf(inst), inst in pendingClose, LastSignalOf(inst))
    }

    function Restore(inst: Inst, snap: Snapshot): StoreV {
      StoreV(
        Replace(inst, snap.trades).trades,
        if snap.pendingClose then pendingClose + {inst} else pendingClose - {inst},
        if snap.lastSignal.Some? && snap.lastSignal.value != "" then lastSignal[inst := snap.lastSignal.value]
        else lastSignal - {inst})
    }

    ghost function Counts(): map<Inst, real> {
      map i | i in trades :: |trades[i]| as real
    }

    /** Open trades over the whole portfolio. */
    ghost function TotalCount(): real {
      Total(Counts())
    }

    ghost predicate WellFormed() {
      && (forall i :: i in trades ==> trades[i] != [])
      && (forall i :: i in lastSignal ==> lastSignal[i] != "")
    }

    /** `that` is the same store except, possibly, for what it holds about `inst`. */
    ghost predicate SameElsewhere(that: StoreV, inst: Inst) {
      && trades - {inst} == that.trades - {inst}
      && pendingClose - {inst} == that.pendingClose - {inst}
      && lastSignal - {inst} == that.lastSignal - {inst}
    }
  }

  lemma SameCount(s: StoreV, t: StoreV)
    requires s.trades == t.trades
    ensures s.TotalCount() == t.TotalCount()
  {
    assert s.Counts() == t.Counts();
  }

  const EMPTY_STORE := StoreV(map[], {}, map[])

  /** A snapshot undoes every later change to its instrument, whatever that change was. */
  lemma RestoreUndoes(before: StoreV, after: StoreV, inst: Inst)
    requires before.WellFormed() && before.SameElsewhere(after, inst)
    ensures after.Restore(inst, before.TakeSnapshot(inst)) == before
  {
    var back := after.Restore(inst, before.TakeSnapshot(inst));
    SameMap(before.trades, after.trades, back.trades, inst);
    SameMap(before.lastSignal, after.lastSignal, back.lastSignal, inst);
    forall i
      ensures i in back.pendingClose <==> i in before.pendingClose
    {
      assert i in before.pendingClose - {inst} <==> i in after.pendingClose - {inst};
    }
  }

  lemma SameMap<V>(before: map<Inst, V>, after: map<Inst, V>, back: map<Inst, V>, inst: Inst)
    requires before - {inst} == after - {inst} == back - {inst}
    requires inst in before <==> inst in back
    requires inst in before ==> before[inst] == back[inst]
    ensures before == back
  {
    forall i
      ensures i in before <==> i in back
      ensures i in before ==> before[i] == back[i]
    {
      assert i in before - {inst} <==> i in back - {inst};
      if i in before && i != inst {
        assert (before - {inst})[i] == (back - {inst})[i];
      }
    }
  }

  class TradeStateStore {
    var trades: map<Inst, seq<Trade>>
    var pendingClose: set<Inst>
    var lastEntrySignal: map<Inst, string>

    ghost function View(): StoreV
      reads this
    {
      StoreV(trades, pendingClose, lastEntrySignal)
    }

    constructor ()
      ensures View() == EMPTY_STORE
    {
      trades, pendingClose, lastEntrySignal := map[], {}, map[];
    }

    method TotalTradeCount() returns (count: real)
      ensures count == View().TotalCount()
    {
      var counts := map i | i in trades :: |trades[i]| as real;
      count := SumValues(counts);
    }

    /** A copy: trades are values, so changing it leaves the store alone. */
    method GetTrades(inst: Inst) returns (copy: seq<Trade>)
      ensures copy == View().TradesOf(inst)
    {
      copy := if inst in trades then trades[inst] else [];
    }

    method ReplaceTrades(inst: Inst, ts: seq<Trade>)
      modifies this
      ensures View() == old(View()).Replace(inst, ts)
    {
      if ts != [] {
        trades := trades[inst := ts];
      } else {
        trades := trades - {inst};
      }
    }

    method RemoveTrades(inst: Inst)
      modifies this
      ensures View() == old(View()).Remove(inst)
    {
      trades := trades - {inst};
      pendingClose := pendingClose - {inst};
      lastEntrySignal := lastEntrySignal - {inst};
    }

    method MarkPendingClose(inst: Inst)
      modifies this`pendingClose
      ensures pendingClose == old(pendingClose) + {inst}
    {
      pendingClose := pendingClose + {inst};
    }

    method ClearPendingClose(inst: Inst)
      modifies this`pendingClose
      ensures pendingClose == old(pendingClose) - {inst}
    {
      pendingClose := pendingClose - {inst};
    }

    method SetLastSignal(inst: Inst, key: string)
      modifies this`lastEntrySignal
      ensures View() == old(View()).SetLastSignal(inst, key)
    {
      if key != "" {
        lastEntrySignal := lastEntrySignal[inst := key];
      }
    }

    method ClearLastSignal(inst: Inst)
      modifies this`lastEntrySignal
      ensures lastEntrySignal == old(lastEntrySignal) - {inst}
    {
      lastEntrySignal := lastEntrySignal - {inst};
    }

    method TakeSnapshot(inst: Inst) returns (snap: Snapshot)
      ensures snap == View().TakeSnapshot(inst)
    {
      var copy := GetTrades(inst);
      snap := Snapshot(copy, inst in pendingClose,
                       if inst in lastEntrySignal then Some(lastEntrySignal[inst]) else None);
    }

    method Restore(inst: Inst, snap: Snapshot)
      modifies this
      ensures View() == old(View()).Restore(inst, snap)
    {
      ReplaceTrades(inst, snap.trades);
      if snap.pendingClose {
        pendingClose := pendingClose + {inst};
      } else {
        pendingClose := pendingClose - {inst};
      }
      if snap.lastSignal.Some? && snap.lastSignal.value != "" {
        lastEntrySignal := lastEntrySignal[inst := snap.lastSignal.value];
      } else {
        lastEntrySignal := lastEntrySignal - {inst};
      }
    }
  }
}
