/** The ticket book: open tickets per instrument, realized cash and the log of closed trades. */
module PositionTracker {
  import opened Common
  import opened Pricing
  import opened Tpsl

  datatype Ticket = Ticket(
    units: int,
    entryPrice: real,
    entryTime: Time,
    entryCost: real,
    isBundle: bool,
    tpsl: TpslState,
    maxAdverse: real,
    maxFavorable: real)

  datatype TradeRecord = TradeRecord(
    instrument: Inst,
    entryTime: Time,
    exitTime: Time,
    direction: Side,
    units: nat,
    entryPrice: real,
    exitPrice: real,
    pnl: real,
    commission: real,
    mae: real,
    mfe: real,
    exitReason: ExitReason,
    triggerPrice: real,
    isBundle: bool)

  /** When, at which price and why a ticket is closed. */
  datatype Closing = Closing(price: real, time: Time, reason: ExitReason, trigger: real)

  function NetOfTickets(ts: seq<Ticket>): int {
    if ts == [] then 0 else NetOfTickets(ts[..|ts| - 1]) + ts[|ts| - 1].units
  }

  /** Profit in the quote currency. */
  function Gross(t: Ticket, price: real): real {
    if t.units > 0 then (price - t.entryPrice) * Abs(t.units) as real
    else (t.entryPrice - price) * Abs(t.units) as real
  }

  function GrossUsd(inst: Inst, t: Ticket, price: real): real {
    ConvertToUsd(inst, Gross(t, price), price)
  }

  function ExitCost(inst: Inst, t: Ticket, price: real, bps: real): real {
    Commission(inst, price, Abs(t.units), bps)
  }

  function RecordOf(inst: Inst, t: Ticket, c: Closing, bps: real): TradeRecord {
    var commission := t.entryCost + ExitCost(inst, t, c.price, bps);
    TradeRecord(inst, t.entryTime, c.time, if t.units > 0 then 1 else -1, Abs(t.units), t.entryPrice, c.price,
                GrossUsd(inst, t, c.price) - commission, commission, AbsR(t.maxAdverse), MaxR(0.0, t.maxFavorable),
                c.reason, c.trigger, t.isBundle)
  }

  /** A ticket after a price is seen: the best and worst dollar profit so far, and the peak of its stop state. */
  function MarkOne(inst: Inst, t: Ticket, price: real, high: real, low: real): Ticket {
    var usd := GrossUsd(inst, t, price);
    t.(maxFavorable := MaxR(t.maxFavorable, usd), maxAdverse := MinR(t.maxAdverse, usd),
       tpsl := t.tpsl.UpdatePeak(if t.units > 0 then high else low))
  }

  function MarkAll(inst: Inst, ts: seq<Ticket>, price: real, high: real, low: real): (r: seq<Ticket>)
    ensures |r| == |ts|
    ensures forall k :: 0 <= k < |r| ==> r[k] == MarkOne(inst, ts[k], price, high, low)
  {
    seq(|ts|, k requires 0 <= k < |ts| => MarkOne(inst, ts[k], price, high, low))
  }

  /** The tickets that hold anything. */
  function Holding(ts: seq<Ticket>): seq<Ticket> {
    if ts == [] then []
    else Holding(ts[..|ts| - 1]) + (if ts[|ts| - 1].units != 0 then [ts[|ts| - 1]] else [])
  }

  lemma {:induction false} AllHold(ts: seq<Ticket>)
    requires forall k :: 0 <= k < |ts| ==> ts[k].units != 0
    ensures Holding(ts) == ts
  {
    if ts != [] {
      AllHold(ts[..|ts| - 1]);
    }
  }

  function UnrealizedOf(inst: Inst, ts: seq<Ticket>, price: real): real {
    if ts == [] then 0.0
    else UnrealizedOf(inst, ts[..|ts| - 1], price) + GrossUsd(inst, ts[|ts| - 1], price)
  }

  /** The value of the tracker. */
  datatype TrackerV = TrackerV(tickets: map<Inst, seq<Ticket>>, realized: real, log: seq<TradeRecord>, costBps: real) {
    function TicketsOf(inst: Inst): seq<Ticket> {
      if inst in tickets then tickets[inst] else []
    }

    function NetUnits(inst: Inst): int {
      NetOfTickets(TicketsOf(inst))
    }

    function Open(inst: Inst, units: int, price: real, time: Time, isBundle: bool): TrackerV {
      if units == 0 then this
      else
        var cost := Commission(inst, price, Abs(units), costBps);
        var ticket := Ticket(units, price, time, cost, isBundle, Reset(price, if units > 0 then 1 else -1), 0.0, 0.0);
        this.(tickets := tickets[inst := TicketsOf(inst) + [ticket]], realized := realized - cost)
    }

    /** Whether closing slot `i` produces a trade record. */
    predicate Closable(inst: Inst, i: int) {
      0 <= i < |TicketsOf(inst)| && TicketsOf(inst)[i].units != 0
    }

    function Close(inst: Inst, i: int, c: Closing): TrackerV {
      var ts := TicketsOf(inst);
      if i < 0 || i >= |ts| then this
      else
        var popped := this.(tickets := tickets[inst := RemoveAt(ts, i)]);
        if ts[i].units == 0 then popped
        else popped.(realized := realized - ExitCost(inst, ts[i], c.price, costBps) + GrossUsd(inst, ts[i], c.price),
                     log := log + [RecordOf(inst, ts[i], c, costBps)])
    }

    function CloseAll(inst: Inst, c: Closing): TrackerV
      decreases |TicketsOf(inst)|
    {
      if TicketsOf(inst) == [] then this else Close(inst, 0, c).CloseAll(inst, c)
    }

    function SyncToNet(inst: Inst, target: int, price: real, time: Time, isBundle: bool): TrackerV {
      var current := NetUnits(inst);
      if current == target then this
      else
        var sameSide := current == 0 || target == 0 || (current > 0 <==> target > 0);
        if !sameSide || Abs(target) < Abs(current) then
          CloseAll(inst, Closing(price, time, PositionSync, price)).Open(inst, target, price, time, isBundle)
        else
          Open(inst, target - current, price, time, isBundle)
    }

    function Mark(inst: Inst, price: real, high: real, low: real): TrackerV {
      if inst in tickets then this.(tickets := tickets[inst := MarkAll(inst, tickets[inst], price, high, low)])
      else this
    }

    /** Put a new list in place of what is on file; nothing is realized and nothing is logged. */
    function Replace(inst: Inst, ts: seq<Ticket>): TrackerV {
      this.(tickets := if Holding(ts) != [] then tickets[inst := Holding(ts)] else tickets - {inst})
    }

    function Unrealized(inst: Inst, price: real): real {
      UnrealizedOf(inst, TicketsOf(inst), price)
    }
  }

  const NO_TICKETS: map<Inst, seq<Ticket>> := map[]

  function EmptyTracker(costBps: real): TrackerV {
    TrackerV(NO_TICKETS, 0.0, [], MaxR(0.0, costBps))
  }

  class TPSLPositionTracker {
    var realized: real
    var tradeLog: seq<TradeRecord>
    const costBps: real
    var tickets: map<Inst, seq<Ticket>>

    ghost function View(): TrackerV
      reads this
    {
      TrackerV(tickets, realized, tradeLog, costBps)
    }

    constructor (costBps: real)
      ensures View() == EmptyTracker(costBps)
    {
      realized, tradeLog, tickets := 0.0, [], NO_TICKETS;
      this.costBps := MaxR(0.0, costBps);
    }

    function GetTickets(inst: Inst): seq<Ticket>
      reads this
      ensures GetTickets(inst) == View().TicketsOf(inst)
    {
      if inst in tickets then tickets[inst] else []
    }

    method NetUnits(inst: Inst) returns (net: int)
      ensures net == View().NetUnits(inst)
    {
      var ts := GetTickets(inst);
      net := 0;
      for k := 0 to |ts|
        invariant net == NetOfTickets(ts[..k])
      {
        assert ts[..k + 1][..k] == ts[..k];
        net := net + ts[k].units;
      }
      assert ts[..|ts|] == ts;
    }

    method ReplaceTickets(inst: Inst, ts: seq<Ticket>)
      modifies this`tickets
      ensures View() == old(View()).Replace(inst, ts)
    {
      var normalized := [];
      for k := 0 to |ts|
        invariant normalized == Holding(ts[..k])
      {
        assert ts[..k + 1][..k] == ts[..k];
        if ts[k].units != 0 {
          normalized := normalized + [ts[k]];
        }
      }
      assert ts[..|ts|] == ts;
      if normalized != [] {
        tickets := tickets[inst := normalized];
      } else {
        tickets := tickets - {inst};
      }
    }

    method OpenPosition(inst: Inst, units: int, price: real, time: Time, isBundle: bool)
      modifies this
      ensures View() == old(View()).Open(inst, units, price, time, isBundle)
    {
      if units == 0 {
        return;
      }
      var cost := Commission(inst, price, Abs(units), costBps);
      realized := realized - cost;
      var direction: Side := if units > 0 then 1 else -1;
      var ticket := Ticket(units, price, time, cost, isBundle, Reset(price, direction), 0.0, 0.0);
      if inst !in tickets {
        tickets := tickets[inst := []];
      }
      tickets := tickets[inst := tickets[inst] + [ticket]];
    }

    method CloseTicket(inst: Inst, i: int, c: Closing) returns (record: Option<TradeRecord>)
      modifies this
      ensures View() == old(View()).Close(inst, i, c)
      ensures record.Some? <==> old(View()).Closable(inst, i)
      ensures record.Some? ==> tradeLog == old(tradeLog) + [record.value]
    {
      hide NetOfTickets, ConvertToUsd, Commission;
      record := None;
      var ts := GetTickets(inst);
      if i < 0 || i >= |ts| {
        return;
      }
      var ticket := ts[i];
      tickets := tickets[inst := RemoveAt(ts, i)];
      if ticket.units == 0 {
        return;
      }
      var exitCost := Commission(inst, c.price, Abs(ticket.units), costBps);
      realized := realized - exitCost;
      var direction: Side, gross;
      if ticket.units > 0 {
        direction, gross := 1, (c.price - ticket.entryPrice) * Abs(ticket.units) as real;
      } else {
        direction, gross := -1, (ticket.entryPrice - c.price) * Abs(ticket.units) as real;
      }
      assert gross == Gross(ticket, c.price);
      var grossUsd := ConvertToUsd(inst, gross, c.price);
      assert exitCost == ExitCost(inst, ticket, c.price, costBps) && grossUsd == GrossUsd(inst, ticket, c.price);
      hide ExitCost, GrossUsd;
      realized := realized + grossUsd;
      var commission := ticket.entryCost + exitCost;
      record := Some(TradeRecord(inst, ticket.entryTime, c.time, direction, Abs(ticket.units), ticket.entryPrice,
                                 c.price, grossUsd - commission, commission, AbsR(ticket.maxAdverse),
                                 MaxR(0.0, ticket.maxFavorable), c.reason, c.trigger, ticket.isBundle));
      tradeLog := tradeLog + [record.value];
    }

    method ClosePosition(inst: Inst, c: Closing)
      modifies this
      ensures View() == old(View()).CloseAll(inst, c)
    {
      while GetTickets(inst) != []
        invariant View().CloseAll(inst, c) == old(View()).CloseAll(inst, c)
        decreases |GetTickets(inst)|
      {
        var _ := CloseTicket(inst, 0, c);
      }
    }

    method SyncToNetPosition(inst: Inst, target: int, price: real, time: Time, isBundle: bool)
      modifies this
      ensures View() == old(View()).SyncToNet(inst, target, price, time, isBundle)
    {
      hide TrackerV.CloseAll, NetOfTickets, GrossUsd, ExitCost;
      var current := NetUnits(inst);
      if current == target {
        return;
      }
      var sameSide := current == 0 || target == 0 || (current > 0 <==> target > 0);
      if !sameSide || Abs(target) < Abs(current) {
        ClosePosition(inst, Closing(price, time, PositionSync, price));
        current := 0;
      }
      var delta := target - current;
      if delta != 0 {
        OpenPosition(inst, delta, price, time, isBundle);
      }
    }

    method Mark(inst: Inst, price: real, high: real, low: real)
      modifies this
      ensures View() == old(View()).Mark(inst, price, high, low)
    {
      if inst !in tickets {
        return;
      }
      var before := tickets[inst];
      var ts := before;
      for k := 0 to |ts|
        invariant |ts| == |before|
        invariant forall j :: 0 <= j < k ==> ts[j] == MarkOne(inst, before[j], price, high, low)
        invariant forall j :: k <= j < |ts| ==> ts[j] == before[j]
      {
        var ticket := ts[k];
        hide GrossUsd;
        var usd := GrossUsd(inst, ticket, price);
        ticket := ticket.(maxFavorable := MaxR(ticket.maxFavorable, usd));
        ticket := ticket.(maxAdverse := MinR(ticket.maxAdverse, usd));
        ticket := ticket.(tpsl := ticket.tpsl.UpdatePeak(if ticket.units > 0 then high else low));
        ts := ts[k := ticket];
      }
      assert ts == MarkAll(inst, before, price, high, low);
      tickets := tickets[inst := ts];
    }

    method Unrealized(inst: Inst, price: real) returns (total: real)
      ensures total == View().Unrealized(inst, price)
    {
      var ts := GetTickets(inst);
      total := 0.0;
      for k := 0 to |ts|
        invariant total == UnrealizedOf(inst, ts[..k], price)
      {
        assert ts[..k + 1][..k] == ts[..k];
        total := total + GrossUsd(inst, ts[k], price);
      }
      assert ts[..|ts|] == ts;
    }
  }
}
