/** Feeding hazard signatures and gates to candles: each candle sees the past and nothing else. */
module EventAlignment {
  import opened Common
  import opened TimeSort

  datatype Signature = Signature(ts: Time, hazard: real)
  datatype Gate = Gate(ts: Time, payload: string)

  const NO_HAZARD := 999.0
  const MAX_GATE_AGE := 15000

  function SignatureTime(s: Signature): Time {
    s.ts
  }

  function GateTime(g: Gate): Time {
    g.ts
  }

  /** `k` separates the events up to `ts` from the later ones. */
  ghost predicate Separates<T>(events: seq<T>, timeOf: T -> Time, ts: Time, k: nat) {
    && k <= |events|
    && (forall i :: 0 <= i < k ==> timeOf(events[i]) <= ts)
    && (forall i :: k <= i < |events| ==> ts < timeOf(events[i]))
  }

  // ---------------------------------------------------------------- hazards

  /** The latest signature at or before `ts`, whatever order the file is in; the last on file of those at the same
      time. */
  function Latest(sigs: seq<Signature>, ts: Time): Option<Signature> {
    if sigs == [] then None
    else
      var before, last := Latest(sigs[..|sigs| - 1], ts), sigs[|sigs| - 1];
      if last.ts <= ts && (before.Some? ==> before.value.ts <= last.ts) then Some(last) else before
  }

  /** The hazard of that signature, or the sentinel if there is none. */
  function HazardAt(sigs: seq<Signature>, ts: Time): real {
    match Latest(sigs, ts) case Some(s) => s.hazard case None => NO_HAZARD
  }

  lemma LatestOfLonger(sigs: seq<Signature>, s: Signature, ts: Time)
    ensures var before := Latest(sigs, ts);
            Latest(sigs + [s], ts)
            == if s.ts <= ts && (before.Some? ==> before.value.ts <= s.ts) then Some(s) else before
  {
    assert (sigs + [s])[..|sigs|] == sigs;
  }

  /** What `Latest` finds is at or before `ts`, and nothing at or before `ts` is later. */
  lemma {:induction false} LatestIsLatest(sigs: seq<Signature>, ts: Time)
    ensures match Latest(sigs, ts)
            case Some(s) =>
              s in sigs && s.ts <= ts && forall i :: 0 <= i < |sigs| && sigs[i].ts <= ts ==> sigs[i].ts <= s.ts
            case None => forall i :: 0 <= i < |sigs| ==> ts < sigs[i].ts
  {
    if sigs != [] {
      var n := |sigs| - 1;
      LatestIsLatest(sigs[..n], ts);
      assert forall i :: 0 <= i < n ==> sigs[..n][i] == sigs[i];
    }
  }

  /** In a sorted file it stands right before the later ones. */
  lemma {:induction false} LatestStandsBefore(sigs: seq<Signature>, ts: Time, k: nat)
    requires Ascending(sigs, SignatureTime) && Separates(sigs, SignatureTime, ts, k)
    ensures Latest(sigs, ts) == if k == 0 then None else Some(sigs[k - 1])
  {
    if sigs != [] {
      var n := |sigs| - 1;
      assert forall i :: 0 <= i < n ==> sigs[..n][i] == sigs[i];
      if k == |sigs| {
        LatestStandsBefore(sigs[..n], ts, n);
      } else {
        LatestStandsBefore(sigs[..n], ts, k);
      }
    }
  }

  lemma {:induction false} LatestOfInserted(sigs: seq<Signature>, s: Signature, ts: Time)
    requires Ascending(sigs, SignatureTime)
    ensures Latest(Insert(sigs, s, SignatureTime), ts) == Latest(sigs + [s], ts)
  {
    hide Latest;
    if sigs != [] && sigs[|sigs| - 1].ts > s.ts {
      var n := |sigs| - 1;
      var front, last := sigs[..n], sigs[n];
      LatestOfInserted(front, s, ts);
      assert Insert(sigs, s, SignatureTime) == Insert(front, s, SignatureTime) + [last] && sigs == front + [last];
      LatestOfLonger(Insert(front, s, SignatureTime), last, ts);
      LatestOfLonger(front, last, ts);
      LatestOfLonger(front, s, ts);
      LatestOfLonger(sigs, s, ts);
      NoneLater(sigs, ts);
    }
  }

  lemma NoneLater(sigs: seq<Signature>, ts: Time)
    requires sigs != [] && Ascending(sigs, SignatureTime)
    ensures var before := Latest(sigs[..|sigs| - 1], ts);
            before.Some? ==> before.value.ts <= sigs[|sigs| - 1].ts
  {
    var n := |sigs| - 1;
    LatestIsLatest(sigs[..n], ts);
    assert forall i :: 0 <= i < n ==> SignatureTime(sigs[i]) <= SignatureTime(sigs[n]);
  }

  /** Sorting a file does not change what is latest. */
  lemma {:induction false} SortKeepsLatest(sigs: seq<Signature>, ts: Time)
    ensures Latest(Sort(sigs, SignatureTime), ts) == Latest(sigs, ts)
  {
    if sigs != [] {
      var n := |sigs| - 1;
      SortKeepsLatest(sigs[..n], ts);
      SortIsStable(sigs[..n], ts, SignatureTime);
      var sorted := Sort(sigs[..n], SignatureTime);
      LatestOfInserted(sorted, sigs[n], ts);
      assert (sorted + [sigs[n]])[..n] == sorted;
    }
  }

  /** What a candle sees of the signatures does not depend on anything after it. */
  lemma {:induction false} HazardIgnoresTheFuture(past: seq<Signature>, future: seq<Signature>, ts: Time)
    requires forall i :: 0 <= i < |future| ==> ts < future[i].ts
    ensures HazardAt(past + future, ts) == HazardAt(past, ts)
    decreases |future|
  {
    if future == [] {
      assert past + future == past;
    } else {
      var n := |future| - 1;
      HazardIgnoresTheFuture(past, future[..n], ts);
      assert (past + future)[..|past + future| - 1] == past + future[..n];
    }
  }

  /** A cursor that has been moved past all signatures up to `since`, and the hazard of the last one passed. */
  ghost predicate Merged(sigs: seq<Signature>, since: Option<Time>, k: nat, hazard: real) {
    match since
    case None => k == 0 && hazard == NO_HAZARD
    case Some(ts) => Separates(sigs, SignatureTime, ts, k) && hazard == HazardAt(sigs, ts)
  }

  function Later(since: Option<Time>, ts: Time): Time {
    if since.Some? then Max(since.value, ts) else ts
  }

  /** Moving the cursor on; a `ts` from before the last one moves nothing. */
  method Advance(sigs: seq<Signature>, ts: Time, ghost since: Option<Time>, k0: nat, hazard0: real)
    returns (k: nat, hazard: real)
    requires Ascending(sigs, SignatureTime) && Merged(sigs, since, k0, hazard0)
    ensures Merged(sigs, Some(Later(since, ts)), k, hazard)
  {
    k, hazard := k0, hazard0;
    while k < |sigs| && sigs[k].ts <= ts
      invariant k0 <= k <= |sigs|
      invariant k > k0 ==> sigs[k - 1].ts <= ts && hazard == sigs[k - 1].hazard
      invariant k == k0 ==> hazard == hazard0
    {
      hazard := sigs[k].hazard;
      k := k + 1;
    }
    MovedOn(sigs, since, k0, ts, k);
  }

  lemma MovedOn(sigs: seq<Signature>, since: Option<Time>, k0: nat, ts: Time, k: nat)
    requires Ascending(sigs, SignatureTime) && k0 <= k <= |sigs|
    requires if since.None? then k0 == 0 else Separates(sigs, SignatureTime, since.value, k0)
    requires (k > k0 ==> sigs[k - 1].ts <= ts) && (k < |sigs| ==> ts < sigs[k].ts)
    ensures Separates(sigs, SignatureTime, Later(since, ts), k)
    ensures HazardAt(sigs, Later(since, ts)) == if k == 0 then NO_HAZARD else sigs[k - 1].hazard
    ensures since.Some? ==> HazardAt(sigs, since.value) == if k0 == 0 then NO_HAZARD else sigs[k0 - 1].hazard
  {
    hide Latest;
    assert forall i, j :: 0 <= i < j < |sigs| ==> SignatureTime(sigs[i]) <= SignatureTime(sigs[j]);
    LatestStandsBefore(sigs, Later(since, ts), k);
    if since.Some? {
      LatestStandsBefore(sigs, since.value, k0);
    }
  }

  // ---------------------------------------------------------------- gates

  /** Slot `g` is the last gate after `since` and at or before `ts`, and it is fresh. */
  ghost predicate IsGateFor(gates: seq<Gate>, since: Option<Time>, ts: Time, g: nat) {
    && g < |gates|
    && (since.Some? ==> since.value < gates[g].ts)
    && ts - 15000 <= gates[g].ts <= ts
    && (forall i :: g < i < |gates| ==> ts < gates[i].ts)
  }

  /** No gate after `since` is at or before `ts` and still fresh. */
  ghost predicate NoGateFor(gates: seq<Gate>, since: Option<Time>, ts: Time) {
    forall g :: 0 <= g < |gates| && gates[g].ts <= ts && (since.Some? ==> since.value < gates[g].ts) ==>
      gates[g].ts < ts - 15000
  }

  /** The gate on offer at a candle at `ts`, the candle before having been at `since`. */
  function Offered(gates: seq<Gate>, since: Option<Time>, ts: Time): (r: Option<nat>)
    ensures r.Some? ==> r.value < |gates|
  {
    if gates == [] then None
    else
      var n := |gates| - 1;
      if gates[n].ts > ts then Offered(gates[..n], since, ts)
      else if (since.Some? && gates[n].ts <= since.value) || gates[n].ts < ts - MAX_GATE_AGE then None
      else Some(n)
  }

  lemma {:induction false} OfferedIsTheGate(gates: seq<Gate>, since: Option<Time>, ts: Time)
    requires Ascending(gates, GateTime)
    ensures match Offered(gates, since, ts)
            case Some(g) => IsGateFor(gates, since, ts, g)
            case None => NoGateFor(gates, since, ts)
  {
    hide IsGateFor, NoGateFor;
    if gates == [] {
      NothingToOffer(since, ts);
    } else {
      var n := |gates| - 1;
      LastGateDecides(gates, since, ts);
      if gates[n].ts > ts {
        OfferedIsTheGate(gates[..n], since, ts);
      }
    }
  }

  lemma NothingToOffer(since: Option<Time>, ts: Time)
    ensures NoGateFor([], since, ts)
  {
  }

  lemma LastGateDecides(gates: seq<Gate>, since: Option<Time>, ts: Time)
    requires gates != [] && Ascending(gates, GateTime)
    ensures var n := |gates| - 1;
            if gates[n].ts > ts then
              && (forall g :: IsGateFor(gates[..n], since, ts, g) ==> IsGateFor(gates, since, ts, g))
              && (NoGateFor(gates[..n], since, ts) ==> NoGateFor(gates, since, ts))
            else if (since.Some? && gates[n].ts <= since.value) || gates[n].ts < ts - MAX_GATE_AGE then
              NoGateFor(gates, since, ts)
            else IsGateFor(gates, since, ts, n)
  {
    var n := |gates| - 1;
    assert forall i :: 0 <= i < n ==> GateTime(gates[i]) <= GateTime(gates[n]);
    assert forall i :: 0 <= i < n ==> gates[..n][i] == gates[i];
    hide Ascending;
  }

  /** Walking on from the gates up to `since`, only the last one passed can be on offer, if it is fresh. */
  lemma {:induction false} WalkedToOffer(gates: seq<Gate>, since: Option<Time>, ts: Time, from: nat, k: nat)
    requires Ascending(gates, GateTime) && Separates(gates, GateTime, ts, k) && from <= k
    requires if since.None? then from == 0 else since.value <= ts && Separates(gates, GateTime, since.value, from)
    ensures Offered(gates, since, ts)
            == if from < k && ts - gates[k - 1].ts <= MAX_GATE_AGE then Some(k - 1) else None
  {
    if k < |gates| {
      var n := |gates| - 1;
      WalkedToOffer(gates[..n], since, ts, from, k);
    }
  }

  lemma NeighboursInOrder(gates: seq<Gate>, k: nat)
    requires Ascending(gates, GateTime) && k < |gates|
    ensures k > 0 ==> gates[k - 1].ts <= gates[k].ts
  {
    assert k > 0 ==> GateTime(gates[k - 1]) <= GateTime(gates[k]);
  }

  lemma LaterThan(gates: seq<Gate>, ts: Time, k: nat)
    requires Ascending(gates, GateTime) && k <= |gates|
    requires (forall i :: 0 <= i < k ==> gates[i].ts <= ts) && (k < |gates| ==> ts < gates[k].ts)
    ensures Separates(gates, GateTime, ts, k)
  {
    assert forall i, j :: 0 <= i < j < |gates| ==> GateTime(gates[i]) <= GateTime(gates[j]);
  }

  /** A gate on offer at one candle is not on offer at any later one, and it is never in the future. */
  lemma EachGateOfferedOnce(gates: seq<Gate>, times: seq<Time>, i: nat, j: nat, g: nat)
    requires forall a, b :: 0 <= a < b < |times| ==> times[a] <= times[b]
    requires i < j < |times|
    requires IsGateFor(gates, if i == 0 then None else Some(times[i - 1]), times[i], g)
    ensures gates[g].ts <= times[i]
    ensures !IsGateFor(gates, Some(times[j - 1]), times[j], g)
  {
    assert times[i] <= times[j - 1];
  }

  class EventFeed {
    const signatures: seq<Signature>
    const gates: seq<Gate>
    var sigIdx: nat
    var gateIdx: nat
    var currentHazard: real
    var currentGate: Option<nat>   // the slot of the gate on offer
    ghost var seen: Option<Time>   // the time of the last candle

    ghost predicate Valid()
      reads this
    {
      && Ascending(signatures, SignatureTime) && Ascending(gates, GateTime)
      && Merged(signatures, seen, sigIdx, currentHazard)
      && if seen.None? then gateIdx == 0 else Separates(gates, GateTime, seen.value, gateIdx)
    }

    constructor (signatures: seq<Signature>, gates: seq<Gate>)
      requires Ascending(signatures, SignatureTime) && Ascending(gates, GateTime)
      ensures Valid() && seen == None
      ensures this.signatures == signatures && this.gates == gates
    {
      this.signatures, this.gates := signatures, gates;
      sigIdx, gateIdx, currentHazard, currentGate, seen := 0, 0, NO_HAZARD, None, None;
    }

    /** Advance both cursors to a candle that is not earlier than the last one. */
    method AlignEvents(candleTs: Time)
      requires Valid() && (seen.Some? ==> seen.value <= candleTs)
      modifies this
      ensures Valid() && seen == Some(candleTs)
      ensures currentHazard == HazardAt(signatures, candleTs)
      ensures currentGate == Offered(gates, old(seen), candleTs)
    {
      sigIdx, currentHazard := Advance(signatures, candleTs, seen, sigIdx, currentHazard);
      AdvanceGate(candleTs);
      seen := Some(candleTs);
    }

    method AdvanceGate(candleTs: Time)
      requires Ascending(gates, GateTime) && gateIdx <= |gates|
      requires if seen.None? then gateIdx == 0
               else seen.value <= candleTs && Separates(gates, GateTime, seen.value, gateIdx)
      modifies this`gateIdx, this`currentGate
      ensures Separates(gates, GateTime, candleTs, gateIdx)
      ensures currentGate == Offered(gates, seen, candleTs)
    {
      hide Offered, Ascending;
      ghost var from := gateIdx;
      currentGate := None;
      while gateIdx < |gates| && gates[gateIdx].ts <= candleTs
        invariant from <= gateIdx <= |gates|
        invariant forall i :: 0 <= i < gateIdx ==> gates[i].ts <= candleTs
        invariant currentGate == if from < gateIdx && candleTs - gates[gateIdx - 1].ts <= MAX_GATE_AGE
                                 then Some(gateIdx - 1) else None
      {
        NeighboursInOrder(gates, gateIdx);
        if candleTs - gates[gateIdx].ts <= MAX_GATE_AGE {
          currentGate := Some(gateIdx);
        }
        gateIdx := gateIdx + 1;
      }
      LaterThan(gates, candleTs, gateIdx);
      WalkedToOffer(gates, seen, candleTs, from, gateIdx);
    }
  }
}
