/** The exit passes: what the closing loop takes out of the lists, and when that leaves the books in agreement. */
module ExitAgreement {
  import opened Common
  import opened Tpsl
  import opened TradeState
  import opened PositionTracker
  import opened RiskLimits
  import opened Books
  import opened Agreement

  // ---------------------------------------------------------------- the closing loop

  /** The venue closes slot `k` when asked to: the backtest always does, a broker if it says so. */
  predicate GivesUp(venue: Venue, k: int) {
    venue.Live? ==> venue.closeAnswers(k).Filled?
  }

  /** Which slots a venue gives up. */
  function Gone(exits: seq<Option<Exit>>, venue: Venue): (r: seq<bool>)
    ensures |r| == |exits|
    ensures forall k :: 0 <= k < |r| ==> (r[k] <==> exits[k].Some? && GivesUp(venue, k))
  {
    seq(|exits|, k requires 0 <= k < |exits| => exits[k].Some? && GivesUp(venue, k))
  }

  /** What the closing loop relies on: the slots agree. */
  ghost predicate SweepOk(s: Sweep, inst: Inst) {
    SameSlots(s.trades, s.books.tracker.TicketsOf(inst)) && s.books.risk.WellFormed() && !s.aborted
  }

  /** One slot closed, or refused, in a sweep that is in order. */
  lemma CloseOneSlot(s: Sweep, venue: Venue, inst: Inst, i: nat, exit: Exit, time: Time)
    requires SweepOk(s, inst) && i < |s.trades|
    ensures var (books, ok) := VenueClose(s.books, venue, inst, i, Closing(exit.price, time, exit.reason, exit.price));
            && (ok <==> (venue.Live? ==> venue.closeAnswers(i).Filled?))
            && (!ok ==> books == s.books)
            && (ok ==> books.tracker.TicketsOf(inst) == RemoveAt(s.books.tracker.TicketsOf(inst), i))
            && SweepOk(Sweep(books, if ok then RemoveAt(s.trades, i) else s.trades, s.closedAny || ok, false), inst)
            && OnlyTouches(s.books, books, inst)
            && books.store == s.books.store
            && (venue.Simulated? ==> books.risk == s.books.risk)
  {
    hide NetOfTickets, GrossUsd, ExitCost, UsdNotional, Abs;
    var tickets := s.books.tracker.TicketsOf(inst);
    assert SameTrade(s.trades[i], tickets[i]);
    SlotsWithout(s.trades, tickets, i);
    hide SameSlots;
  }

  /** `t` is `s` with the slots in `gone` below `n` taken out of both lists, and nothing else changed. */
  ghost predicate SweptTo(s: Sweep, t: Sweep, venue: Venue, inst: Inst, gone: seq<bool>, n: nat)
    requires n <= |gone| && n <= |s.trades| && n <= |s.books.tracker.TicketsOf(inst)|
  {
    && SweepOk(t, inst)
    && t.trades == KeepBelow(s.trades, gone, n)
    && t.books.tracker.TicketsOf(inst) == KeepBelow(s.books.tracker.TicketsOf(inst), gone, n)
    && (t.closedAny <==> s.closedAny || exists k :: 0 <= k < n && gone[k])
    && (!t.closedAny ==> t == s)
    && OnlyTouches(s.books, t.books, inst)
    && t.books.store == s.books.store
    && (venue.Simulated? ==> t.books.risk == s.books.risk)
  }

  /** A slot below `n` that is given up was entered at zero. */
  ghost predicate ZeroAmong(trades: seq<Trade>, gone: seq<bool>, n: nat) {
    exists k :: 0 <= k < n && k < |trades| && k < |gone| && gone[k] && trades[k].entryPrice == 0.0
  }

  /** The closing loop takes exactly the slots it should out of both lists, if none of them was entered at zero. */
  lemma {:induction false} CloseDownSweeps(s: Sweep, venue: Venue, inst: Inst, exits: seq<Option<Exit>>, time: Time,
                                           n: nat)
    requires n <= |exits| && n <= |s.trades|
    requires SweepOk(s, inst) && !ZeroAmong(s.trades, Gone(exits, venue), n)
    ensures SweptTo(s, CloseDown(s, venue, inst, exits, time, n), venue, inst, Gone(exits, venue), n)
    decreases n
  {
    hide VenueClose, KeepBelow, OnlyTouches;
    var gone := Gone(exits, venue);
    var tickets := s.books.tracker.TicketsOf(inst);
    if n == 0 {
      KeepBelowNothing(s.trades, gone);
      KeepBelowNothing(tickets, gone);
      OnlyTouchesNothing(s.books, inst);
    } else {
      var i := n - 1;
      KeepBelowStep(s.trades, gone, n);
      KeepBelowStep(tickets, gone, n);
      if exits[i].None? {
        CloseDownSweeps(s, venue, inst, exits, time, i);
      } else {
        var exit := exits[i].value;
        CloseOneSlot(s, venue, inst, i, exit, time);
        var (books, ok) := VenueClose(s.books, venue, inst, i, Closing(exit.price, time, exit.reason, exit.price));
        var next := if ok then Sweep(books, RemoveAt(s.trades, i), true, false) else s.(books := books);
        assert ok ==> gone[i];
        CloseDownSweeps(next, venue, inst, exits, time, i);
        OnlyTouchesChains(s.books, books, CloseDown(s, venue, inst, exits, time, n).books, inst);
      }
    }
  }

  /** Otherwise it raises with at least one ticket gone, and the stored trades as they were. */
  lemma {:induction false} CloseDownAborts(s: Sweep, venue: Venue, inst: Inst, exits: seq<Option<Exit>>, time: Time,
                                           n: nat)
    requires n <= |exits| && n <= |s.trades|
    requires SweepOk(s, inst) && ZeroAmong(s.trades, Gone(exits, venue), n)
    ensures var t := CloseDown(s, venue, inst, exits, time, n);
            && t.aborted && t.books.store == s.books.store && t.books.risk.WellFormed()
            && |t.books.tracker.TicketsOf(inst)| < |s.books.tracker.TicketsOf(inst)|
            && OnlyTouches(s.books, t.books, inst)
    decreases n
  {
    hide VenueClose, OnlyTouches;
    var i, gone := n - 1, Gone(exits, venue);
    if exits[i].None? {
      CloseDownAborts(s, venue, inst, exits, time, i);
    } else {
      var exit := exits[i].value;
      CloseOneSlot(s, venue, inst, i, exit, time);
      var (books, ok) := VenueClose(s.books, venue, inst, i, Closing(exit.price, time, exit.reason, exit.price));
      assert ok <==> gone[i];
      if !ok || s.trades[i].entryPrice != 0.0 {
        var next := if ok then Sweep(books, RemoveAt(s.trades, i), true, false) else s.(books := books);
        CloseDownAborts(next, venue, inst, exits, time, i);
        OnlyTouchesChains(s.books, books, CloseDown(s, venue, inst, exits, time, n).books, inst);
      }
    }
  }

  // ---------------------------------------------------------------- the stop and target pass

  lemma SyncRiskAgrees(b: Books, venue: Venue, inst: Inst, price: real, fallback: real)
    requires b.risk.WellFormed()
    ensures var c := SyncRisk(b, venue, inst, price, fallback);
            && c.risk.NetUnits(inst) == b.tracker.NetUnits(inst)
            && c.risk.WellFormed()
            && c.store == b.store && c.tracker == b.tracker
            && OnlyTouches(b, c, inst)
  {
  }

  /** Storing the surviving trades and syncing the inventory completes a sweep. */
  lemma FinishedSweepAgrees(b: Books, s: Sweep, venue: Venue, inst: Inst, price: real, fallback: real)
    requires Agree(b) && SweepOk(s, inst)
    requires OnlyTouches(b, s.books, inst) && s.books.store == b.store
    ensures var stored := s.books.(store := StoreTrades(s.books.store, inst, s.trades));
            var c := SyncRisk(stored, venue, inst, price, fallback);
            Agree(c) && OnlyTouches(b, c, inst)
  {
    var stored := s.books.(store := StoreTrades(s.books.store, inst, s.trades));
    SyncRiskAgrees(stored, venue, inst, price, fallback);
    var c := SyncRisk(stored, venue, inst, price, fallback);
    OnlyTouchesChains(b, stored, c, inst);
    AgreeFromOne(b, c, inst);
  }

  lemma CheckedAgrees(b: Books, inst: Inst, high: real, low: real, cfg: TpslConfig, scalping: bool)
    requires Agree(b)
    ensures Agree(Checked(b, inst, high, low, cfg, scalping))
    ensures OnlyTouches(b, Checked(b, inst, high, low, cfg, scalping), inst)
  {
    var c := Checked(b, inst, high, low, cfg, scalping);
    var ts, us := b.tracker.TicketsOf(inst), c.tracker.TicketsOf(inst);
    assert InstAgrees(b, inst);
    forall k | 0 <= k < |ts|
      ensures SameTrade(b.store.TradesOf(inst)[k], us[k])
    {
      CheckerKeepsIdentity(high, low, ts[k].tpsl, cfg, scalping);
      assert SameTrade(b.store.TradesOf(inst)[k], ts[k]);
    }
    SameNet(b.store.TradesOf(inst), ts);
    SameNet(b.store.TradesOf(inst), us);
    AgreeFromOne(b, c, inst);
  }

  /** No exit of the checker belongs to a trade entered at zero: it leaves those alone. */
  lemma CheckerSparesZero(b: Books, venue: Venue, inst: Inst, high: real, low: real, cfg: TpslConfig, scalping: bool,
                          n: nat)
    requires InstAgrees(b, inst)
    ensures var exits := ExitsOf(b.tracker.TicketsOf(inst), high, low, cfg, scalping);
            !ZeroAmong(b.store.TradesOf(inst), Gone(exits, venue), n)
  {
    var trades, tickets := b.store.TradesOf(inst), b.tracker.TicketsOf(inst);
    var exits := ExitsOf(tickets, high, low, cfg, scalping);
    forall k | 0 <= k < |trades| && exits[k].Some?
      ensures trades[k].entryPrice != 0.0
    {
      assert SameTrade(trades[k], tickets[k]);
    }
  }

  /** A stop-loss/take-profit pass keeps the books in agreement, whatever the broker refuses or fills. It never
      raises: what the checker fires on has an entry price. */
  lemma TpslPassAgrees(b: Books, venue: Venue, inst: Inst, high: real, low: real, time: Time, cfg: TpslConfig,
                       scalping: bool)
    requires Agree(b)
    ensures var (c, ending) := TpslPass(b, venue, inst, high, low, time, cfg, scalping);
            Agree(c) && OnlyTouches(b, c, inst) && !ending.Aborted?
  {
    if b.tracker.NetUnits(inst) != 0 && cfg.Active() {
      CheckedAgrees(b, inst, high, low, cfg, scalping);
      var exits := ExitsOf(b.tracker.TicketsOf(inst), high, low, cfg, scalping);
      var checked := Checked(b, inst, high, low, cfg, scalping);
      if AnyExit(exits) {
        assert InstAgrees(b, inst) && InstAgrees(checked, inst);
        var start := Sweep(checked, b.store.TradesOf(inst), false, false);
        CheckerSparesZero(b, venue, inst, high, low, cfg, scalping, |exits|);
        hide IntraCandle, Checked, ZeroAmong;
        CloseDownSweeps(start, venue, inst, exits, time, |exits|);
        var s := CloseDown(start, venue, inst, exits, time, |exits|);
        if s.closedAny {
          OnlyTouchesChains(b, checked, s.books, inst);
          var left := s.books.tracker.TicketsOf(inst);
          var price := LowestExitPrice(exits);
          hide Agree;
          FinishedSweepAgrees(b, s, venue, inst, price, if left != [] then left[0].entryPrice else price);
        }
      }
    }
  }

  // ---------------------------------------------------------------- the expiry pass

  lemma AgedSlotsAgree(trades: seq<Trade>, tickets: seq<Ticket>, secs: int)
    requires SameSlots(trades, tickets)
    ensures SameSlots(AgeAll(trades, secs), tickets)
  {
    forall k | 0 <= k < |trades|
      ensures SameTrade(AgeAll(trades, secs)[k], tickets[k])
    {
      assert SameTrade(trades[k], tickets[k]);
    }
  }

  /** A slot that one more tick expires, and that the venue gives up, was entered at zero. */
  ghost predicate ZeroExpires(b: Books, venue: Venue, inst: Inst, tickSecs: int) {
    var trades := b.store.TradesOf(inst);
    b.risk.NetUnits(inst) != 0
    && exists k :: 0 <= k < |trades| && ExpiresAtZero(trades[k], tickSecs) && GivesUp(venue, k)
  }

  predicate ExpiresAtZero(trade: Trade, tickSecs: int) {
    trade.Aged(tickSecs).Expired() && trade.entryPrice == 0.0
  }

  lemma ZeroExpiresIsZeroAmong(b: Books, venue: Venue, inst: Inst, price: real, tickSecs: int)
    requires b.risk.NetUnits(inst) != 0
    ensures var aged := AgeAll(b.store.TradesOf(inst), tickSecs);
            ZeroExpires(b, venue, inst, tickSecs) <==> ZeroAmong(aged, Gone(ExpiriesOf(aged, price), venue), |aged|)
  {
    var trades := b.store.TradesOf(inst);
    var aged := AgeAll(trades, tickSecs);
    var gone := Gone(ExpiriesOf(aged, price), venue);
    if ZeroExpires(b, venue, inst, tickSecs) {
      var k :| 0 <= k < |trades| && ExpiresAtZero(trades[k], tickSecs) && GivesUp(venue, k);
      assert gone[k] && aged[k].entryPrice == 0.0;
    }
    if ZeroAmong(aged, gone, |aged|) {
      var k :| 0 <= k < |aged| && gone[k] && aged[k].entryPrice == 0.0;
      assert ExpiresAtZero(trades[k], tickSecs);
    }
  }

  /** An expiry sweep in full: the aged survivors are stored and the inventory follows. */
  lemma ExpirySweepAgrees(b: Books, venue: Venue, inst: Inst, price: real, time: Time, tickSecs: int)
    requires Agree(b) && !ZeroExpires(b, venue, inst, tickSecs)
    ensures var (c, ending) := ExpiryPass(b, venue, inst, price, time, tickSecs);
            Agree(c) && OnlyTouches(b, c, inst) && !ending.Aborted?
  {
    var trades := b.store.TradesOf(inst);
    assert InstAgrees(b, inst);
    if b.risk.NetUnits(inst) != 0 && trades != [] {
      var aged := AgeAll(trades, tickSecs);
      AgedSlotsAgree(trades, b.tracker.TicketsOf(inst), tickSecs);
      ZeroExpiresIsZeroAmong(b, venue, inst, price, tickSecs);
      var exits := ExpiriesOf(aged, price);
      hide ZeroAmong, ZeroExpires;
      if !AnyExit(exits) {
        AgreeFromOne(b, b.(store := b.store.Replace(inst, aged)), inst);
      } else {
        var start := Sweep(b, aged, false, false);
        CloseDownSweeps(start, venue, inst, exits, time, |exits|);
        var s := CloseDown(start, venue, inst, exits, time, |exits|);
        if s.closedAny {
          FinishedSweepAgrees(b, s, venue, inst, price, price);
        }
      }
    }
  }

  /** An expiry sweep cut short: a ticket is gone and its trade is still listed. */
  lemma ExpirySweepSplits(b: Books, venue: Venue, inst: Inst, price: real, time: Time, tickSecs: int)
    requires Agree(b) && ZeroExpires(b, venue, inst, tickSecs)
    ensures var (c, ending) := ExpiryPass(b, venue, inst, price, time, tickSecs);
            && !InstAgrees(c, inst) && OnlyTouches(b, c, inst) && ending.Aborted?
            && c.store == b.store && c.risk.WellFormed()
  {
    var trades := b.store.TradesOf(inst);
    assert InstAgrees(b, inst);
    var aged := AgeAll(trades, tickSecs);
    AgedSlotsAgree(trades, b.tracker.TicketsOf(inst), tickSecs);
    ZeroExpiresIsZeroAmong(b, venue, inst, price, tickSecs);
    var exits, gone := ExpiriesOf(aged, price), Gone(ExpiriesOf(aged, price), venue);
    var k :| 0 <= k < |aged| && gone[k] && aged[k].entryPrice == 0.0;
    assert exits[k].Some?;
    CloseDownAborts(Sweep(b, aged, false, false), venue, inst, exits, time, |exits|);
  }

  /** A hold-expiry pass leaves agreeing books in agreement if and only if no slot it expires, and the venue
      gives up, was entered at zero; if one was, the pass raises. */
  lemma ExpiryPassAgrees(b: Books, venue: Venue, inst: Inst, price: real, time: Time, tickSecs: int)
    requires Agree(b)
    ensures var (c, ending) := ExpiryPass(b, venue, inst, price, time, tickSecs);
            && (Agree(c) <==> !ZeroExpires(b, venue, inst, tickSecs))
            && (ending.Aborted? <==> ZeroExpires(b, venue, inst, tickSecs))
            && OnlyTouches(b, c, inst)
  {
    var c := ExpiryPass(b, venue, inst, price, time, tickSecs).0;
    if ZeroExpires(b, venue, inst, tickSecs) {
      ExpirySweepSplits(b, venue, inst, price, time, tickSecs);
      assert Agree(c) ==> InstAgrees(c, inst);
    } else {
      ExpirySweepAgrees(b, venue, inst, price, time, tickSecs);
    }
  }

  lemma {:induction false} CloseDownKeepsStore(s: Sweep, venue: Venue, inst: Inst, exits: seq<Option<Exit>>,
                                               time: Time, n: nat)
    requires n <= |exits|
    ensures CloseDown(s, venue, inst, exits, time, n).books.store == s.books.store
    decreases n
  {
    hide IntraCandle;
    if n > 0 {
      var i := n - 1;
      if exits[i].Some? && i < |s.trades| {
        var exit := exits[i].value;
        var (books, ok) := VenueClose(s.books, venue, inst, i, Closing(exit.price, time, exit.reason, exit.price));
        var next := if ok then Sweep(books, RemoveAt(s.trades, i), true, false) else s.(books := books);
        assert books.store == s.books.store;
        hide VenueClose;
        CloseDownKeepsStore(next, venue, inst, exits, time, i);
      } else {
        CloseDownKeepsStore(s, venue, inst, exits, time, i);
      }
    }
  }

  lemma ExpiryKeepsWellFormed(b: Books, venue: Venue, inst: Inst, price: real, time: Time, tickSecs: int)
    requires b.store.WellFormed()
    ensures ExpiryPass(b, venue, inst, price, time, tickSecs).0.store.WellFormed()
  {
    var aged := AgeAll(b.store.TradesOf(inst), tickSecs);
    var exits := ExpiriesOf(aged, price);
    CloseDownKeepsStore(Sweep(b, aged, false, false), venue, inst, exits, time, |exits|);
    hide CloseDown;
  }

  // ---------------------------------------------------------------- the inventory after exits

  /** The slot is the lowest with an exit. */
  predicate IsLowestExit(exits: seq<Option<Exit>>, k: nat) {
    k < |exits| && exits[k].Some? && forall j :: 0 <= j < k ==> exits[j].None?
  }

  lemma {:induction false} LowestExitIsFound(exits: seq<Option<Exit>>, k: nat)
    requires IsLowestExit(exits, k)
    ensures LowestExitPrice(exits) == exits[k].value.price
  {
    if k > 0 {
      LowestExitIsFound(exits[1..], k - 1);
    }
  }

  /** A live close is logged at the price the broker reports, if it reports one, and at the price asked otherwise; the
      inventory moves by what was filled, which is all of the ticket unless the broker says so. */
  lemma LiveCloseTakesTheFill(b: Books, answers: int -> Answer, inst: Inst, i: int, c: Closing)
    requires b.tracker.Closable(inst, i) && answers(i).Filled?
    ensures var (after, closed) := VenueClose(b, Live(answers), inst, i, c);
            var reported := answers(i).price;
            && closed && |after.tracker.log| == |b.tracker.log| + 1
            && after.tracker.log[|b.tracker.log|].exitPrice
               == (if reported == None || reported == Some(0.0) then c.price else reported.value)
            && after.risk.NetUnits(inst)
               == b.risk.NetUnits(inst)
                  + match answers(i).units
                    case Some(filled) => filled
                    case None => 0 - b.tracker.TicketsOf(inst)[i].units
  {
    hide GrossUsd, ExitCost, UsdNotional;
  }

  /** A simulated pass that closed something leaves what remains valued at the exit price of the lowest slot that had
      one, if that is not zero. */
  lemma ExitPassRevalues(b: Books, inst: Inst, high: real, low: real, time: Time, cfg: TpslConfig, scalping: bool,
                         k: nat)
    requires b.risk.WellFormed()
    requires TpslPass(b, Simulated, inst, high, low, time, cfg, scalping).1.Closed?
    requires IsLowestExit(ExitsOf(b.tracker.TicketsOf(inst), high, low, cfg, scalping), k)
    requires ExitsOf(b.tracker.TicketsOf(inst), high, low, cfg, scalping)[k].value.price != 0.0
    ensures var c := TpslPass(b, Simulated, inst, high, low, time, cfg, scalping).0;
            var price := ExitsOf(b.tracker.TicketsOf(inst), high, low, cfg, scalping)[k].value.price;
            var size := Abs(c.tracker.NetUnits(inst)) as real;
            && c.risk.NetUnits(inst) == c.tracker.NetUnits(inst)
            && c.risk.ExposureOf(inst) == if inst == "USD" || "USD_" <= inst then size else size * price
  {
    hide CloseDown, Checked, IntraCandle, NetOfTickets, LowestExitPrice;
    LowestExitIsFound(ExitsOf(b.tracker.TicketsOf(inst), high, low, cfg, scalping), k);
  }
}
