/** Cash and ticket conservation of the position tracker, over every sequence of operations. */
module CashConservation {
  import opened Common
  import opened Tpsl
  import opened PositionTracker

  function CostsOf(ts: seq<Ticket>): real {
    if ts == [] then 0.0 else CostsOf(ts[..|ts| - 1]) + ts[|ts| - 1].entryCost
  }

  function Pnl(record: TradeRecord): real {
    record.pnl
  }

  function PnlOf(log: seq<TradeRecord>): real {
    SumBy(log, Pnl)
  }

  ghost function CostMap(v: TrackerV): map<Inst, real> {
    map i | i in v.tickets :: CostsOf(v.tickets[i])
  }

  ghost function CountMap(v: TrackerV): map<Inst, real> {
    map i | i in v.tickets :: |v.tickets[i]| as real
  }

  /** Entry costs already paid for tickets that are still open. */
  ghost function OpenCosts(v: TrackerV): real {
    Total(CostMap(v))
  }

  ghost function OpenCount(v: TrackerV): real {
    Total(CountMap(v))
  }

  ghost predicate NoEmptyTickets(v: TrackerV) {
    forall i, k :: i in v.tickets && 0 <= k < |v.tickets[i]| ==> v.tickets[i][k].units != 0
  }

  /** `entered` tickets so far: all of them are open or logged, and cash is accounted for. */
  ghost predicate Balanced(v: TrackerV, entered: nat) {
    && v.realized == PnlOf(v.log) - OpenCosts(v)
    && entered as real == |v.log| as real + OpenCount(v)
    && NoEmptyTickets(v)
  }

  // ---------------------------------------------------------------- sums over one list

  lemma {:induction false} CostsWithout(ts: seq<Ticket>, i: nat)
    requires i < |ts|
    ensures CostsOf(RemoveAt(ts, i)) == CostsOf(ts) - ts[i].entryCost
  {
    var n := |ts| - 1;
    if i < n {
      CostsWithout(ts[..n], i);
      assert RemoveAt(ts, i)[..n - 1] == RemoveAt(ts[..n], i);
    } else {
      assert RemoveAt(ts, i) == ts[..n];
    }
  }

  lemma CostsAfter(v: TrackerV, w: TrackerV, inst: Inst)
    requires w.tickets == v.tickets[inst := w.TicketsOf(inst)]
    ensures OpenCosts(w) == OpenCosts(v) - CostsOf(v.TicketsOf(inst)) + CostsOf(w.TicketsOf(inst))
    ensures OpenCount(w) == OpenCount(v) - |v.TicketsOf(inst)| as real + |w.TicketsOf(inst)| as real
  {
    hide Total;
    assert CostMap(w) == CostMap(v)[inst := CostsOf(w.TicketsOf(inst))];
    TotalUpdate(CostMap(v), inst, CostsOf(w.TicketsOf(inst)));
    assert CountMap(w) == CountMap(v)[inst := |w.TicketsOf(inst)| as real];
    TotalUpdate(CountMap(v), inst, |w.TicketsOf(inst)| as real);
  }

  // ---------------------------------------------------------------- every operation conserves

  lemma OpenConserves(v: TrackerV, entered: nat, inst: Inst, units: int, price: real, time: Time, isBundle: bool)
    requires Balanced(v, entered)
    ensures Balanced(v.Open(inst, units, price, time, isBundle), if units == 0 then entered else entered + 1)
  {
    if units != 0 {
      var w := v.Open(inst, units, price, time, isBundle);
      assert w.TicketsOf(inst)[..|v.TicketsOf(inst)|] == v.TicketsOf(inst);
      CostsAfter(v, w, inst);
    }
  }

  lemma CloseConserves(v: TrackerV, entered: nat, inst: Inst, i: int, c: Closing)
    requires Balanced(v, entered)
    ensures Balanced(v.Close(inst, i, c), entered)
  {
    var ts := v.TicketsOf(inst);
    if 0 <= i < |ts| {
      var w := v.Close(inst, i, c);
      CostsWithout(ts, i);
      CostsAfter(v, w, inst);
      assert w.log[..|v.log|] == v.log;
    }
  }

  lemma {:induction false} CloseAllConserves(v: TrackerV, entered: nat, inst: Inst, c: Closing)
    requires Balanced(v, entered)
    ensures Balanced(v.CloseAll(inst, c), entered)
    decreases |v.TicketsOf(inst)|
  {
    if v.TicketsOf(inst) != [] {
      CloseConserves(v, entered, inst, 0, c);
      CloseAllConserves(v.Close(inst, 0, c), entered, inst, c);
    }
  }

  lemma MarkConserves(v: TrackerV, entered: nat, inst: Inst, price: real, high: real, low: real)
    requires Balanced(v, entered)
    ensures Balanced(v.Mark(inst, price, high, low), entered)
  {
    if inst in v.tickets {
      RestatedCosts(v.tickets[inst], MarkAll(inst, v.tickets[inst], price, high, low));
      CostsAfter(v, v.Mark(inst, price, high, low), inst);
    }
  }

  /** Rewriting anything but the entry costs of a list leaves their sum alone. */
  lemma {:induction false} RestatedCosts(ts: seq<Ticket>, us: seq<Ticket>)
    requires |ts| == |us| && forall k :: 0 <= k < |ts| ==> ts[k].entryCost == us[k].entryCost
    ensures CostsOf(ts) == CostsOf(us)
  {
    if ts != [] {
      RestatedCosts(ts[..|ts| - 1], us[..|us| - 1]);
    }
  }

  /** Whether a synchronization closes everything and starts afresh. */
  predicate Refills(v: TrackerV, inst: Inst, target: int) {
    var current := v.NetUnits(inst);
    (current > 0 && target < 0) || (current < 0 && target > 0) || Abs(target) < Abs(current)
  }

  function SyncOpens(v: TrackerV, inst: Inst, target: int): nat {
    if (if Refills(v, inst, target) then target else target - v.NetUnits(inst)) != 0 then 1 else 0
  }

  lemma SyncConserves(v: TrackerV, entered: nat, inst: Inst, target: int, price: real, time: Time, isBundle: bool)
    requires Balanced(v, entered)
    ensures Balanced(v.SyncToNet(inst, target, price, time, isBundle), entered + SyncOpens(v, inst, target))
  {
    hide Balanced;
    if Refills(v, inst, target) {
      var c := Closing(price, time, PositionSync, price);
      CloseAllConserves(v, entered, inst, c);
      OpenConserves(v.CloseAll(inst, c), entered, inst, target, price, time, isBundle);
    } else {
      OpenConserves(v, entered, inst, target - v.NetUnits(inst), price, time, isBundle);
    }
  }

  // ---------------------------------------------------------------- whole runs

  datatype Op =
    | OpenOp(inst: Inst, units: int, price: real, time: Time, isBundle: bool)
    | CloseOp(inst: Inst, i: int, c: Closing)
    | CloseAllOp(inst: Inst, c: Closing)
    | SyncOp(inst: Inst, target: int, price: real, time: Time, isBundle: bool)
    | MarkOp(inst: Inst, price: real, high: real, low: real)

  function Apply(v: TrackerV, op: Op): TrackerV {
    match op
    case OpenOp(inst, units, price, time, isBundle) => v.Open(inst, units, price, time, isBundle)
    case CloseOp(inst, i, c) => v.Close(inst, i, c)
    case CloseAllOp(inst, c) => v.CloseAll(inst, c)
    case SyncOp(inst, target, price, time, isBundle) => v.SyncToNet(inst, target, price, time, isBundle)
    case MarkOp(inst, price, high, low) => v.Mark(inst, price, high, low)
  }

  /** How many tickets an operation opens. */
  function Opens(v: TrackerV, op: Op): nat {
    match op
    case OpenOp(_, units, _, _, _) => if units != 0 then 1 else 0
    case SyncOp(inst, target, _, _, _) => SyncOpens(v, inst, target)
    case _ => 0
  }

  function Run(v: TrackerV, ops: seq<Op>): TrackerV {
    if ops == [] then v else Apply(Run(v, ops[..|ops| - 1]), ops[|ops| - 1])
  }

  function Opened(v: TrackerV, ops: seq<Op>): nat {
    if ops == [] then 0
    else Opened(v, ops[..|ops| - 1]) + Opens(Run(v, ops[..|ops| - 1]), ops[|ops| - 1])
  }

  lemma StepConserves(v: TrackerV, entered: nat, op: Op)
    requires Balanced(v, entered)
    ensures Balanced(Apply(v, op), entered + Opens(v, op))
  {
    hide Balanced, TrackerV.Open, TrackerV.Close, TrackerV.CloseAll, TrackerV.Mark, TrackerV.SyncToNet;
    match op
    case OpenOp(inst, units, price, time, isBundle) =>
      OpenConserves(v, entered, inst, units, price, time, isBundle);
    case CloseOp(inst, i, c) => CloseConserves(v, entered, inst, i, c);
    case CloseAllOp(inst, c) => CloseAllConserves(v, entered, inst, c);
    case MarkOp(inst, price, high, low) => MarkConserves(v, entered, inst, price, high, low);
    case SyncOp(inst, target, price, time, isBundle) => SyncConserves(v, entered, inst, target, price, time, isBundle);
  }

  /** From an empty tracker, cash and tickets are conserved by every sequence of operations. */
  lemma {:induction false} EveryRunIsBalanced(costBps: real, ops: seq<Op>)
    ensures Balanced(Run(EmptyTracker(costBps), ops), Opened(EmptyTracker(costBps), ops))
  {
    var v := EmptyTracker(costBps);
    if ops == [] {
      assert CostMap(v) == map[] && CountMap(v) == map[];
    } else {
      var before := ops[..|ops| - 1];
      EveryRunIsBalanced(costBps, before);
      StepConserves(Run(v, before), Opened(v, before), ops[|ops| - 1]);
    }
  }

  // ---------------------------------------------------------------- liquidation

  function ExitCostsOf(inst: Inst, ts: seq<Ticket>, price: real, bps: real): real {
    if ts == [] then 0.0 else ExitCost(inst, ts[0], price, bps) + ExitCostsOf(inst, ts[1..], price, bps)
  }

  lemma {:induction false} UnrealizedFromFront(inst: Inst, ts: seq<Ticket>, price: real)
    requires ts != []
    ensures UnrealizedOf(inst, ts, price) == GrossUsd(inst, ts[0], price) + UnrealizedOf(inst, ts[1..], price)
  {
    var n := |ts| - 1;
    if n > 0 {
      UnrealizedFromFront(inst, ts[..n], price);
      assert ts[1..][..n - 1] == ts[..n][1..];
    } else {
      assert ts[..n] == [] && ts[1..] == [];
    }
  }

  /** Liquidating an instrument leaves no ticket in it and turns its unrealized profit into cash,
      less exactly the exit commissions. */
  lemma {:induction false} LiquidationCostsOnlyCommissions(v: TrackerV, inst: Inst, c: Closing)
    requires NoEmptyTickets(v)
    ensures var w := v.CloseAll(inst, c);
            && w.TicketsOf(inst) == []
            && w.realized + w.Unrealized(inst, c.price)
               == v.realized + v.Unrealized(inst, c.price) - ExitCostsOf(inst, v.TicketsOf(inst), c.price, v.costBps)
    decreases |v.TicketsOf(inst)|
  {
    var ts := v.TicketsOf(inst);
    if ts != [] {
      UnrealizedFromFront(inst, ts, c.price);
      assert RemoveAt(ts, 0) == ts[1..];
      LiquidationCostsOnlyCommissions(v.Close(inst, 0, c), inst, c);
    }
  }
}
