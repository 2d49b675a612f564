/** Paging through a candle source and filling its gaps: one bar per grid slot, real where an answer had
    a candle and a repetition of the last close where none had. */
module CandleFiller {
  import opened Common

  datatype Quote = Quote(time: Time, close: real)

  /** A bar of the output: a candle of the market, or padding. */
  datatype Bar = Real(time: Time, close: real) | Pad(time: Time, close: real)

  // ---------------------------------------------------------------- the source

  /** Answers to requests for the candles from one time up to another. A source need not answer the same
      request the same way twice, so its answers are numbered. */
  type Connector = (nat, Time, Time) -> seq<Quote>

  ghost predicate Proper(r: seq<Quote>, from: Time, to: Time, slot: nat) {
    && (forall i, j :: 0 <= i < j < |r| ==> r[i].time < r[j].time)
    && (forall k :: 0 <= k < |r| ==> from <= r[k].time < to && OnGrid(r[k].time, slot))
  }

  /** All that is asked of a source: answers are ascending, on the grid and inside the range. They may be empty
      at any time, as they are when a request fails, and need not fit one another. */
  ghost predicate WellBehaved(fetch: Connector, slot: nat) {
    forall n: nat, from, to :: from < to ==> Proper(fetch(n, from, to), from, to, slot)
  }

  /** An answer seen against a market: all its candles are the market's, and none of the market's is skipped up
      to the last of them. */
  ghost predicate Answers(r: seq<Quote>, market: map<Time, real>, from: Time, to: Time) {
    && (forall i, j :: 0 <= i < j < |r| ==> r[i].time < r[j].time)
    && (forall k :: 0 <= k < |r| ==> from <= r[k].time < to && r[k].time in market && market[r[k].time] == r[k].close)
    && (forall t :: t in market && from <= t < to && (r == [] || t <= r[|r| - 1].time) ==>
          exists k :: 0 <= k < |r| && r[k].time == t)
  }

  function Times(slot: nat, q: int): Time {
    slot * q
  }

  ghost predicate OnGrid(t: Time, slot: nat) {
    exists q :: t == Times(slot, q)
  }

  ghost predicate OnGridMarket(market: map<Time, real>, slot: nat) {
    forall t :: t in market ==> OnGrid(t, slot)
  }

  lemma GridOrder(a: Time, b: Time, slot: nat)
    requires slot > 0 && OnGrid(a, slot) && OnGrid(b, slot)
    ensures a < b ==> a + slot <= b
  {
    var p :| a == Times(slot, p);
    var q :| b == Times(slot, q);
    if a < b {
      if q <= p {
        TimesMonotone(slot, q, p);
        assert false;
      }
      TimesMonotone(slot, p + 1, q);
      assert Times(slot, p + 1) == Times(slot, p) + slot;
    }
  }

  lemma NextOnGrid(t: Time, slot: nat)
    requires OnGrid(t, slot)
    ensures OnGrid(t + slot, slot)
  {
    var q :| t == Times(slot, q);
    assert t + slot == Times(slot, q + 1);
  }

  // ---------------------------------------------------------------- the output

  ghost predicate Contiguous(bars: seq<Bar>, slot: nat) {
    forall k :: 0 <= k < |bars| - 1 ==> bars[k + 1].time == bars[k].time + slot
  }

  /** A bar is the market's candle of its slot if the range has one there, and repeats the close before it if not. */
  ghost predicate RightBar(bar: Bar, before: Option<real>, market: map<Time, real>, start: Time) {
    if start <= bar.time && bar.time in market then bar == Real(bar.time, market[bar.time])
    else bar.Pad? && before == Some(bar.close)
  }

  function CloseBefore(bars: seq<Bar>, k: nat, known: Option<real>): Option<real>
    requires k <= |bars|
  {
    if k > 0 then Some(bars[k - 1].close) else known
  }

  ghost predicate Faithful(bars: seq<Bar>, market: map<Time, real>, start: Time, known: Option<real>) {
    forall k :: 0 <= k < |bars| ==> RightBar(bars[k], CloseBefore(bars, k, known), market, start)
  }

  lemma OneMoreBar(bars: seq<Bar>, bar: Bar, market: map<Time, real>, start: Time, slot: nat, known: Option<real>)
    requires Contiguous(bars, slot) && Faithful(bars, market, start, known)
    requires RightBar(bar, CloseBefore(bars, |bars|, known), market, start)
    requires bars != [] ==> bar.time == bars[|bars| - 1].time + slot
    ensures Contiguous(bars + [bar], slot) && Faithful(bars + [bar], market, start, known)
  {
    hide RightBar;
    var longer := bars + [bar];
    forall k | 0 <= k < |longer|
      ensures RightBar(longer[k], CloseBefore(longer, k, known), market, start)
    {
      assert CloseBefore(longer, k, known) == CloseBefore(bars, k, known);
      assert k < |bars| ==> RightBar(bars[k], CloseBefore(bars, k, known), market, start);
    }
  }

  /** `t` is the earliest candle of the market from `start` on. */
  ghost predicate IsFirst(market: map<Time, real>, start: Time, t: Time) {
    start <= t && t in market && forall u :: u in market && start <= u ==> t <= u
  }

  /** The bars so far, with `next` the slot after them and `last` the close to repeat. */
  ghost predicate Filled(bars: seq<Bar>, market: map<Time, real>, start: Time, slot: nat, first: Option<Time>,
                         known: Option<real>, next: Time, last: real)
  {
    && Contiguous(bars, slot) && Faithful(bars, market, start, known) && OnGrid(next, slot)
    && if bars == [] then first == Some(next) && known == Some(last)
       else
         && next == bars[|bars| - 1].time + slot && last == bars[|bars| - 1].close
         && match first case Some(t) => bars[0].time == t case None => IsFirst(market, start, bars[0].time)
  }

  lemma FilledReal(bars: seq<Bar>, market: map<Time, real>, start: Time, slot: nat, first: Option<Time>,
                   known: Option<real>, next: Time, last: real)
    requires Filled(bars, market, start, slot, first, known, next, last)
    requires start <= next && next in market
    ensures Filled(bars + [Real(next, market[next])], market, start, slot, first, known, next + slot, market[next])
  {
    OneMoreBar(bars, Real(next, market[next]), market, start, slot, known);
    NextOnGrid(next, slot);
  }

  lemma FilledPad(bars: seq<Bar>, market: map<Time, real>, start: Time, slot: nat, first: Option<Time>,
                  known: Option<real>, next: Time, last: real)
    requires Filled(bars, market, start, slot, first, known, next, last)
    requires !(start <= next && next in market)
    ensures Filled(bars + [Pad(next, last)], market, start, slot, first, known, next + slot, last)
  {
    OneMoreBar(bars, Pad(next, last), market, start, slot, known);
    NextOnGrid(next, slot);
  }

  lemma FilledShape(bars: seq<Bar>, market: map<Time, real>, start: Time, slot: nat, first: Option<Time>,
                    known: Option<real>, next: Time, last: real)
    requires Filled(bars, market, start, slot, first, known, next, last)
    ensures OnGrid(next, slot)
    ensures if bars == [] then first == Some(next) else next == bars[|bars| - 1].time + slot
  {
  }

  /** Pad every slot from `next` up to, not including, `to`. */
  method PadUpTo(bars: seq<Bar>, ghost market: map<Time, real>, ghost start: Time, slot: nat,
                 ghost first: Option<Time>, ghost known: Option<real>, next: Time, to: Time, last: real)
    returns (bars': seq<Bar>, next': Time)
    requires slot > 0 && Filled(bars, market, start, slot, first, known, next, last)
    requires forall t :: t in market && start <= t ==> !(next <= t < to)
    ensures Filled(bars', market, start, slot, first, known, next', last)
    ensures to <= next' && next <= next'
    ensures if to <= next then next' == next && bars' == bars else bars' != [] && next' < to + slot
    ensures OnGrid(to, slot) && next <= to ==> next' == to
  {
    hide Filled, OnGrid;
    bars', next' := bars, next;
    FilledShape(bars, market, start, slot, first, known, next, last);
    while next' < to
      invariant Filled(bars', market, start, slot, first, known, next', last)
      invariant next <= next' && (next' == next || next' < to + slot)
      invariant next' == next ==> bars' == bars
      invariant to <= next ==> next' == next
      invariant next' != next ==> bars' != []
      invariant OnGrid(next', slot)
    {
      FilledPad(bars', market, start, slot, first, known, next', last);
      NextOnGrid(next', slot);
      bars' := bars' + [Pad(next', last)];
      next' := next' + slot;
    }
    if OnGrid(to, slot) && next <= to < next' {
      GridOrder(to, next', slot);
    }
  }

  // ---------------------------------------------------------------- the pager

  /** Every candle before `current` is out, and `next` is not a whole slot past it. */
  ghost predicate CaughtUp(market: map<Time, real>, start: Time, slot: nat, current: Time, next: Time) {
    next < current + slot && forall t :: t in market && start <= t < current ==> t < next
  }

  ghost predicate NothingBefore(market: map<Time, real>, start: Time, current: Time) {
    forall t :: t in market && start <= t ==> current <= t
  }

  /** What the output must be: from the first slot to the last one before `end`, nothing left out. */
  ghost predicate Complete(bars: seq<Bar>, market: map<Time, real>, start: Time, end: Time, slot: nat,
                           first: Option<Time>, known: Option<real>)
  {
    && Contiguous(bars, slot) && Faithful(bars, market, start, known)
    && (forall k :: 0 <= k < |bars| ==> bars[k].time < end)
    && (bars != [] ==> end <= bars[|bars| - 1].time + slot)
    && (bars != [] ==> match first case Some(t) => bars[0].time == t case None => IsFirst(market, start, bars[0].time))
    && (bars == [] ==> match first case Some(t) => end <= t case None => NothingBefore(market, start, end))
  }

  // ---------------------------------------------------------------- what was asked and what came back

  datatype Call = Call(from: Time, to: Time)

  function AnswerTo(fetch: Connector, calls: seq<Call>, n: nat): seq<Quote>
    requires n < |calls|
  {
    fetch(n, calls[n].from, calls[n].to)
  }

  function AsMarket(r: seq<Quote>): map<Time, real> {
    if r == [] then map[] else AsMarket(r[..|r| - 1])[r[|r| - 1].time := r[|r| - 1].close]
  }

  /** Every candle that came back, whichever request it answered. */
  function Got(fetch: Connector, calls: seq<Call>): map<Time, real> {
    if calls == [] then map[]
    else Got(fetch, calls[..|calls| - 1]) + AsMarket(AnswerTo(fetch, calls, |calls| - 1))
  }

  /** Where the paging stands: after the last candle of the last answer, or at the end of a page without any. */
  function Position(fetch: Connector, calls: seq<Call>, start: Time, slot: nat): Time {
    if calls == [] then start
    else
      var r := AnswerTo(fetch, calls, |calls| - 1);
      if r == [] then calls[|calls| - 1].to else r[|r| - 1].time + slot
  }

  predicate IsPage(fetch: Connector, calls: seq<Call>, n: nat, start: Time, end: Time, step: nat, slot: nat)
    requires n < |calls|
  {
    var at := Position(fetch, calls[..n], start, slot);
    at < end && calls[n] == Call(at, if at + step < end then at + step else end)
  }

  /** Each request starts where the paging stood, and asks for one step or what is left. */
  ghost predicate Paged(fetch: Connector, calls: seq<Call>, start: Time, end: Time, step: nat, slot: nat) {
    forall n :: 0 <= n < |calls| ==> IsPage(fetch, calls, n, start, end, step, slot)
  }

  lemma PagedBefore(fetch: Connector, calls: seq<Call>, start: Time, end: Time, step: nat, slot: nat)
    requires calls != [] && Paged(fetch, calls, start, end, step, slot)
    ensures Paged(fetch, calls[..|calls| - 1], start, end, step, slot)
    ensures IsPage(fetch, calls, |calls| - 1, start, end, step, slot)
  {
    var shorter := calls[..|calls| - 1];
    forall n | 0 <= n < |shorter|
      ensures IsPage(fetch, shorter, n, start, end, step, slot)
    {
      assert IsPage(fetch, calls, n, start, end, step, slot);
      assert shorter[..n] == calls[..n];
    }
  }

  lemma OnePageMore(fetch: Connector, calls: seq<Call>, start: Time, end: Time, step: nat, slot: nat)
    requires Paged(fetch, calls, start, end, step, slot) && Position(fetch, calls, start, slot) < end
    ensures var at := Position(fetch, calls, start, slot);
            var to := if at + step < end then at + step else end;
            var r := fetch(|calls|, at, to);
            && Paged(fetch, calls + [Call(at, to)], start, end, step, slot)
            && Position(fetch, calls + [Call(at, to)], start, slot) == if r == [] then to else r[|r| - 1].time + slot
  {
    var at := Position(fetch, calls, start, slot);
    var longer := calls + [Call(at, if at + step < end then at + step else end)];
    forall n | 0 <= n < |longer|
      ensures IsPage(fetch, longer, n, start, end, step, slot)
    {
      assert longer[..n] == calls[..n];
      assert n < |calls| ==> IsPage(fetch, calls, n, start, end, step, slot);
      assert calls[..|calls|] == calls;
    }
  }

  /** All the requests that follow `calls`, up to the end: what a source answers decides what it is asked next. */
  ghost function Onward(fetch: Connector, calls: seq<Call>, start: Time, end: Time, step: nat, slot: nat)
    : (all: seq<Call>)
    requires step > 0 && slot > 0 && WellBehaved(fetch, slot) && Paged(fetch, calls, start, end, step, slot)
    ensures Paged(fetch, all, start, end, step, slot) && end <= Position(fetch, all, start, slot)
    decreases end - Position(fetch, calls, start, slot)
  {
    var at := Position(fetch, calls, start, slot);
    if end <= at then calls
    else
      var to := if at + step < end then at + step else end;
      OnePageMore(fetch, calls, start, end, step, slot);
      assert Proper(fetch(|calls|, at, to), at, to, slot);
      Onward(fetch, calls + [Call(at, to)], start, end, step, slot)
  }

  ghost function AllCalls(fetch: Connector, start: Time, end: Time, step: nat, slot: nat): (all: seq<Call>)
    requires step > 0 && slot > 0 && WellBehaved(fetch, slot)
    ensures Paged(fetch, all, start, end, step, slot) && end <= Position(fetch, all, start, slot)
  {
    Onward(fetch, [], start, end, step, slot)
  }

  lemma OnwardStep(fetch: Connector, calls: seq<Call>, start: Time, end: Time, step: nat, slot: nat)
    requires step > 0 && slot > 0 && WellBehaved(fetch, slot) && Paged(fetch, calls, start, end, step, slot)
    ensures var at := Position(fetch, calls, start, slot);
            var longer := calls + [Call(at, if at + step < end then at + step else end)];
            if end <= at then Onward(fetch, calls, start, end, step, slot) == calls
            else Paged(fetch, longer, start, end, step, slot)
                 && Onward(fetch, calls, start, end, step, slot) == Onward(fetch, longer, start, end, step, slot)
  {
    hide Paged, Position;
    if Position(fetch, calls, start, slot) < end {
      OnePageMore(fetch, calls, start, end, step, slot);
    }
  }

  lemma {:induction false} AsMarketHolds(r: seq<Quote>, from: Time, to: Time, slot: nat)
    requires Proper(r, from, to, slot)
    ensures forall t :: t in AsMarket(r) <==> exists k :: 0 <= k < |r| && r[k].time == t
    ensures forall k :: 0 <= k < |r| ==> AsMarket(r)[r[k].time] == r[k].close
  {
    if r != [] {
      var n := |r| - 1;
      AsMarketHolds(r[..n], from, to, slot);
      assert AsMarket(r) == AsMarket(r[..n])[r[n].time := r[n].close];
      hide AsMarket;
      forall t | t in AsMarket(r)
        ensures exists k :: 0 <= k < |r| && r[k].time == t
      {
        if t != r[n].time {
          assert t in AsMarket(r[..n]);
          var k :| 0 <= k < |r[..n]| && r[..n][k].time == t;
          assert r[k].time == t;
        }
      }
      forall k | 0 <= k < |r|
        ensures r[k].time in AsMarket(r) && AsMarket(r)[r[k].time] == r[k].close
      {
        assert k < n ==> r[..n][k].time == r[k].time;
      }
    }
  }

  /** What has come back lies on the grid, between the start and where the paging stands. */
  lemma {:induction false} GotBelowPosition(fetch: Connector, calls: seq<Call>, start: Time, end: Time, step: nat,
                                            slot: nat)
    requires step > 0 && slot > 0 && WellBehaved(fetch, slot) && Paged(fetch, calls, start, end, step, slot)
    ensures forall t :: t in Got(fetch, calls) ==>
            start <= t < Position(fetch, calls, start, slot) && t < end && OnGrid(t, slot)
    ensures start <= Position(fetch, calls, start, slot)
  {
    hide OnGrid;
    if calls != [] {
      var n := |calls| - 1;
      PagedBefore(fetch, calls, start, end, step, slot);
      GotBelowPosition(fetch, calls[..n], start, end, step, slot);
      var r := AnswerTo(fetch, calls, n);
      assert Proper(r, calls[n].from, calls[n].to, slot);
      AsMarketHolds(r, calls[n].from, calls[n].to, slot);
      forall t | t in Got(fetch, calls)
        ensures start <= t < Position(fetch, calls, start, slot) && t < end && OnGrid(t, slot)
      {
        if t in AsMarket(r) {
          var k :| 0 <= k < |r| && r[k].time == t;
          assert k < |r| - 1 ==> r[k].time < r[|r| - 1].time;
        }
      }
    }
  }

  /** Nothing that came back is lost or changed by what comes later. */
  lemma {:induction false} EveryQuoteIsGot(fetch: Connector, calls: seq<Call>, start: Time, end: Time, step: nat,
                                           slot: nat, n: nat, k: nat)
    requires step > 0 && slot > 0 && WellBehaved(fetch, slot) && Paged(fetch, calls, start, end, step, slot)
    requires n < |calls| && k < |AnswerTo(fetch, calls, n)|
    ensures var q := AnswerTo(fetch, calls, n)[k]; q.time in Got(fetch, calls) && Got(fetch, calls)[q.time] == q.close
    decreases |calls|
  {
    var m := |calls| - 1;
    PagedBefore(fetch, calls, start, end, step, slot);
    GotBelowPosition(fetch, calls[..m], start, end, step, slot);
    var r := AnswerTo(fetch, calls, m);
    assert Proper(r, calls[m].from, calls[m].to, slot);
    AsMarketHolds(r, calls[m].from, calls[m].to, slot);
    if n < m {
      assert AnswerTo(fetch, calls[..m], n) == AnswerTo(fetch, calls, n);
      EveryQuoteIsGot(fetch, calls[..m], start, end, step, slot, n, k);
    }
  }

  /** And nothing is made up. */
  lemma {:induction false} EveryGotIsAQuote(fetch: Connector, calls: seq<Call>, start: Time, end: Time, step: nat,
                                            slot: nat, t: Time) returns (n: nat, k: nat)
    requires step > 0 && slot > 0 && WellBehaved(fetch, slot) && Paged(fetch, calls, start, end, step, slot)
    requires t in Got(fetch, calls)
    ensures n < |calls| && k < |AnswerTo(fetch, calls, n)|
    ensures AnswerTo(fetch, calls, n)[k] == Quote(t, Got(fetch, calls)[t])
    decreases |calls|
  {
    var m := |calls| - 1;
    PagedBefore(fetch, calls, start, end, step, slot);
    var r := AnswerTo(fetch, calls, m);
    assert Proper(r, calls[m].from, calls[m].to, slot);
    AsMarketHolds(r, calls[m].from, calls[m].to, slot);
    if t in AsMarket(r) {
      k :| 0 <= k < |r| && r[k].time == t;
      n := m;
    } else {
      n, k := EveryGotIsAQuote(fetch, calls[..m], start, end, step, slot, t);
    }
  }

  /** `first` and `known` let a caller resume: the next slot due, no later than `start`, and the close before it. */
  method IterCandles(fetch: Connector, start: Time, end: Time, step: nat, slot: nat, first: Option<Time>,
                     known: Option<real>)
    returns (bars: seq<Bar>)
    requires step > 0 && slot > 0 && WellBehaved(fetch, slot)
    requires first.Some? <==> known.Some?
    requires first.Some? ==> OnGrid(first.value, slot) && first.value <= start
    ensures Complete(bars, Got(fetch, AllCalls(fetch, start, end, step, slot)), start, end, slot, first, known)
  {
    hide Filled, OnGrid, OnGridMarket, Got, Paged, Position, Answers, Complete, Onward;
    bars := [];
    ghost var calls: seq<Call> := [];
    ghost var got := Got(fetch, calls);
    NothingGot(fetch, start, end, step, slot);
    var current, next, last := start, first, known;
    var n := 0;
    StartFilled(got, start, slot, first, known);
    while current < end
      invariant Paged(fetch, calls, start, end, step, slot) && n == |calls|
      invariant Onward(fetch, calls, start, end, step, slot) == AllCalls(fetch, start, end, step, slot)
      invariant got == Got(fetch, calls) && current == Position(fetch, calls, start, slot)
      invariant start <= current && (next.Some? <==> last.Some?)
      invariant next.None? ==> bars == [] && first.None? && NothingBefore(got, start, current)
      invariant next.Some? ==> Filled(bars, got, start, slot, first, known, next.value, last.value)
      invariant next.Some? ==> CaughtUp(got, start, slot, current, next.value)
      invariant next.Some? && bars != [] ==> bars[|bars| - 1].time < end
      decreases end - current
    {
      var chunkEnd := if current + step < end then current + step else end;
      var quotes := fetch(n, current, chunkEnd);
      assert Proper(quotes, current, chunkEnd, slot);
      OnePageMore(fetch, calls, start, end, step, slot);
      OnwardStep(fetch, calls, start, end, step, slot);
      AnswerArrives(fetch, calls, Call(current, chunkEnd), start, end, step, slot, bars, first, known, next, last);
      calls := calls + [Call(current, chunkEnd)];
      n := n + 1;
      got := Got(fetch, calls);
      if quotes == [] {
        if next.Some? {
          var slotDue;
          bars, slotDue := PadUpTo(bars, got, start, slot, first, known, next.value, chunkEnd, last.value);
          next := Some(slotDue);
          FilledShape(bars, got, start, slot, first, known, slotDue, last.value);
        }
        current := chunkEnd;
      } else {
        bars, next, last := FillChunk(quotes, got, start, end, slot, first, known, current, chunkEnd, bars, next, last);
        current := quotes[|quotes| - 1].time + slot;
      }
    }
    if next.Some? {
      var slotDue;
      FilledShape(bars, got, start, slot, first, known, next.value, last.value);
      GotBelowPosition(fetch, calls, start, end, step, slot);
      bars, slotDue := PadUpTo(bars, got, start, slot, first, known, next.value, end, last.value);
      next := Some(slotDue);
      FilledShape(bars, got, start, slot, first, known, next.value, last.value);
    } else {
      GotBelowPosition(fetch, calls, start, end, step, slot);
    }
    OnwardStep(fetch, calls, start, end, step, slot);
    FinishedIsComplete(bars, got, start, end, slot, first, known, next, last);
  }

  lemma NothingGot(fetch: Connector, start: Time, end: Time, step: nat, slot: nat)
    ensures Paged(fetch, [], start, end, step, slot) && Position(fetch, [], start, slot) == start
    ensures NothingBefore(Got(fetch, []), start, start)
  {
  }

  predicate SameAt(m: map<Time, real>, n: map<Time, real>, t: Time) {
    (t in m <==> t in n) && (t in m ==> m[t] == n[t])
  }

  lemma NothingToMerge(before: map<Time, real>)
    ensures before + AsMarket([]) == before
  {
  }

  /** Merging an answer with candles from before its range. */
  lemma AnswerFits(r: seq<Quote>, before: map<Time, real>, from: Time, to: Time, slot: nat)
    requires Proper(r, from, to, slot) && forall t :: t in before ==> t < from
    ensures var got := before + AsMarket(r);
            && Answers(r, got, from, to)
            && (forall t :: t < from ==> SameAt(before, got, t))
            && (r == [] ==> got == before && forall t :: t in got ==> !(from <= t < to))
  {
    hide OnGrid, AsMarket;
    AsMarketHolds(r, from, to, slot);
    NothingToMerge(before);
  }

  /** One more answer is an answer out of all that has come back, and adds nothing before its page. */
  lemma AnswerIsNew(fetch: Connector, calls: seq<Call>, call: Call, start: Time, end: Time, step: nat, slot: nat)
    requires step > 0 && slot > 0 && WellBehaved(fetch, slot)
    requires Paged(fetch, calls, start, end, step, slot) && Paged(fetch, calls + [call], start, end, step, slot)
    ensures var got, r := Got(fetch, calls + [call]), fetch(|calls|, call.from, call.to);
            && OnGridMarket(got, slot) && Answers(r, got, call.from, call.to)
            && (forall t :: t < call.from ==> SameAt(Got(fetch, calls), got, t))
            && (r == [] ==> got == Got(fetch, calls) && forall t :: t in got ==> !(call.from <= t < call.to))
  {
    hide OnGrid, Paged, WellBehaved, Answers, SameAt, Proper, AsMarket, Position;
    var longer := calls + [call];
    assert longer[..|longer| - 1] == calls;
    PagedBefore(fetch, longer, start, end, step, slot);
    AnswerIsProper(fetch, longer, |calls|, start, end, step, slot);
    GotBelowPosition(fetch, calls, start, end, step, slot);
    GotBelowPosition(fetch, longer, start, end, step, slot);
    AnswerFits(AnswerTo(fetch, longer, |calls|), Got(fetch, calls), call.from, call.to, slot);
  }

  lemma AnswerIsProper(fetch: Connector, calls: seq<Call>, n: nat, start: Time, end: Time, step: nat, slot: nat)
    requires step > 0 && WellBehaved(fetch, slot) && n < |calls| && IsPage(fetch, calls, n, start, end, step, slot)
    ensures Proper(AnswerTo(fetch, calls, n), calls[n].from, calls[n].to, slot)
    ensures calls[n].from == Position(fetch, calls[..n], start, slot)
  {
    hide OnGrid, Proper;
  }

  /** What was filled before an answer arrives stays right. */
  lemma AnswerArrives(fetch: Connector, calls: seq<Call>, call: Call, start: Time, end: Time, step: nat, slot: nat,
                      bars: seq<Bar>, first: Option<Time>, known: Option<real>, next: Option<Time>,
                      last: Option<real>)
    requires step > 0 && slot > 0 && WellBehaved(fetch, slot)
    requires Paged(fetch, calls, start, end, step, slot) && Paged(fetch, calls + [call], start, end, step, slot)
    requires next.Some? <==> last.Some?
    requires next.None? ==> bars == [] && NothingBefore(Got(fetch, calls), start, call.from)
    requires next.Some? ==> Filled(bars, Got(fetch, calls), start, slot, first, known, next.value, last.value)
    requires next.Some? ==> CaughtUp(Got(fetch, calls), start, slot, call.from, next.value)
    ensures var got, r := Got(fetch, calls + [call]), fetch(|calls|, call.from, call.to);
            && OnGridMarket(got, slot) && Answers(r, got, call.from, call.to)
            && (next.None? ==> NothingBefore(got, start, call.from))
            && (next.Some? ==> Filled(bars, got, start, slot, first, known, next.value, last.value))
            && (next.Some? ==> CaughtUp(got, start, slot, call.from, next.value))
            && (r == [] ==> got == Got(fetch, calls) && forall t :: t in got ==> !(call.from <= t < call.to))
  {
    hide Filled, OnGrid, OnGridMarket, Answers, Got, Paged, WellBehaved;
    AnswerIsNew(fetch, calls, call, start, end, step, slot);
    var before, got := Got(fetch, calls), Got(fetch, calls + [call]);
    assert forall t :: t < call.from ==> (t in got <==> t in before) && (t in got ==> got[t] == before[t]) by {
      forall t | t < call.from
        ensures (t in got <==> t in before) && (t in got ==> got[t] == before[t])
      {
        assert SameAt(before, got, t);
      }
    }
    if next.Some? {
      FilledStays(bars, before, got, start, slot, first, known, next.value, last.value, call.from);
    }
  }

  /** Candles from the current position on do not touch what was filled before it. */
  lemma FilledStays(bars: seq<Bar>, before: map<Time, real>, got: map<Time, real>, start: Time, slot: nat,
                    first: Option<Time>, known: Option<real>, next: Time, last: real, current: Time)
    requires slot > 0 && Filled(bars, before, start, slot, first, known, next, last) && next < current + slot
    requires forall t :: t < current ==> (t in got <==> t in before) && (t in got ==> got[t] == before[t])
    ensures Filled(bars, got, start, slot, first, known, next, last)
  {
    hide OnGrid;
    ContiguousIsAscending(bars, slot);
    forall k | 0 <= k < |bars|
      ensures RightBar(bars[k], CloseBefore(bars, k, known), got, start)
    {
      assert RightBar(bars[k], CloseBefore(bars, k, known), before, start);
      assert bars[k].time < current;
    }
  }

  lemma StartFilled(market: map<Time, real>, start: Time, slot: nat, first: Option<Time>, known: Option<real>)
    requires first.Some? && known.Some? ==> OnGrid(first.value, slot)
    ensures first.Some? && known.Some? ==> Filled([], market, start, slot, first, known, first.value, known.value)
  {
  }

  lemma FinishedIsComplete(bars: seq<Bar>, market: map<Time, real>, start: Time, end: Time, slot: nat,
                           first: Option<Time>, known: Option<real>, next: Option<Time>, last: Option<real>)
    requires next.None? ==> bars == [] && first.None? && NothingBefore(market, start, end)
    requires next.Some? ==> last.Some? && end <= next.value
    requires next.Some? ==> Filled(bars, market, start, slot, first, known, next.value, last.value)
    requires bars != [] ==> bars[|bars| - 1].time < end
    ensures Complete(bars, market, start, end, slot, first, known)
  {
    if next.Some? {
      ContiguousIsAscending(bars, slot);
    }
  }

  /** One non-empty answer: pad up to each candle, then emit it. */
  method FillChunk(quotes: seq<Quote>, ghost market: map<Time, real>, ghost start: Time, ghost end: Time, slot: nat,
                   ghost first: Option<Time>, ghost known: Option<real>, ghost current: Time, ghost chunkEnd: Time,
                   bars0: seq<Bar>, next0: Option<Time>, last0: Option<real>)
    returns (bars: seq<Bar>, next: Option<Time>, last: Option<real>)
    requires slot > 0 && OnGridMarket(market, slot)
    requires Answers(quotes, market, current, chunkEnd) && quotes != []
    requires start <= current < chunkEnd <= end && (next0.Some? <==> last0.Some?)
    requires next0.None? ==> bars0 == [] && first.None? && NothingBefore(market, start, current)
    requires next0.Some? ==> Filled(bars0, market, start, slot, first, known, next0.value, last0.value)
    requires next0.Some? ==> CaughtUp(market, start, slot, current, next0.value)
    ensures next == Some(quotes[|quotes| - 1].time + slot) && last.Some?
    ensures Filled(bars, market, start, slot, first, known, next.value, last.value)
    ensures CaughtUp(market, start, slot, quotes[|quotes| - 1].time + slot, next.value)
    ensures bars != [] && bars[|bars| - 1].time < end
  {
    hide Filled, OnGrid, OnGridMarket, Answers;
    bars, next, last := bars0, next0, last0;
    if next.Some? {
      FilledShape(bars, market, start, slot, first, known, next.value, last.value);
    }
    for k := 0 to |quotes|
      invariant k == 0 ==> bars == bars0 && next == next0 && last == last0
      invariant k > 0 ==> next == Some(quotes[k - 1].time + slot) && last.Some?
      invariant k > 0 ==> bars != [] && bars[|bars| - 1].time == quotes[k - 1].time
      invariant k > 0 ==> Filled(bars, market, start, slot, first, known, next.value, last.value)
    {
      var q := quotes[k];
      QuoteIsMarket(quotes, market, current, chunkEnd, k);
      GapIsEmpty(quotes, market, start, slot, current, chunkEnd, next, k);
      if next.None? {
        bars := [Real(q.time, q.close)];
        StartsHere(quotes, market, start, slot, current, chunkEnd, first, known);
      } else {
        var slotDue;
        bars, slotDue := PadUpTo(bars, market, start, slot, first, known, next.value, q.time, last.value);
        FilledReal(bars, market, start, slot, first, known, q.time, last.value);
        bars := bars + [Real(q.time, q.close)];
      }
      last, next := Some(q.close), Some(q.time + slot);
    }
    QuoteIsMarket(quotes, market, current, chunkEnd, |quotes| - 1);
  }

  lemma QuoteIsMarket(quotes: seq<Quote>, market: map<Time, real>, current: Time, chunkEnd: Time, k: nat)
    requires Answers(quotes, market, current, chunkEnd) && k < |quotes|
    ensures current <= quotes[k].time < chunkEnd
    ensures quotes[k].time in market && market[quotes[k].time] == quotes[k].close
  {
  }

  /** No candle of the market falls between the slot due and the next quote. */
  lemma GapIsEmpty(quotes: seq<Quote>, market: map<Time, real>, start: Time, slot: nat, current: Time, chunkEnd: Time,
                   next: Option<Time>, k: nat)
    requires slot > 0 && OnGridMarket(market, slot) && Answers(quotes, market, current, chunkEnd) && k < |quotes|
    requires k == 0 && next.Some? ==> OnGrid(next.value, slot) && CaughtUp(market, start, slot, current, next.value)
    requires k > 0 ==> next == Some(quotes[k - 1].time + slot)
    ensures OnGrid(quotes[k].time, slot)
    ensures next.Some? ==> next.value <= quotes[k].time
    ensures next.Some? ==> forall t :: t in market && start <= t ==> !(next.value <= t < quotes[k].time)
  {
    if next.Some? {
      if k == 0 {
        GridOrder(quotes[0].time, next.value, slot);
      } else {
        GridOrder(quotes[k - 1].time, quotes[k].time, slot);
      }
      hide OnGrid, OnGridMarket;
      forall t | t in market && start <= t
        ensures !(next.value <= t < quotes[k].time)
      {
        if current <= t <= quotes[|quotes| - 1].time {
          var j :| 0 <= j < |quotes| && quotes[j].time == t;
          assert j < k ==> j <= k - 1;
        }
      }
    }
  }

  /** The very first bar is the earliest candle of the market. */
  lemma StartsHere(quotes: seq<Quote>, market: map<Time, real>, start: Time, slot: nat, current: Time, chunkEnd: Time,
                   first: Option<Time>, known: Option<real>)
    requires slot > 0 && OnGridMarket(market, slot) && Answers(quotes, market, current, chunkEnd) && quotes != []
    requires first.None? && start <= current && NothingBefore(market, start, current)
    ensures var q := quotes[0];
            Filled([Real(q.time, q.close)], market, start, slot, first, known, q.time + slot, q.close)
  {
    var q := quotes[0];
    NextOnGrid(q.time, slot);
    forall u | u in market && start <= u
      ensures q.time <= u
    {
      if current <= u <= quotes[|quotes| - 1].time {
        var k :| 0 <= k < |quotes| && quotes[k].time == u;
        assert k > 0 ==> q.time < quotes[k].time;
      }
    }
  }

  lemma {:induction false} ContiguousIsAscending(bars: seq<Bar>, slot: nat)
    requires Contiguous(bars, slot)
    ensures forall k :: 0 <= k < |bars| ==> bars[k].time <= bars[|bars| - 1].time
  {
    if |bars| > 1 {
      var n := |bars| - 1;
      ContiguousIsAscending(bars[..n], slot);
      assert bars[n].time == bars[n - 1].time + slot;
    }
  }

  // ---------------------------------------------------------------- what a complete output means

  /** Every candle of the market in the range is in the output, in exactly one place. */
  lemma EveryCandleOnce(bars: seq<Bar>, market: map<Time, real>, start: Time, end: Time, slot: nat,
                        first: Option<Time>, known: Option<real>, t: Time) returns (k: nat)
    requires slot > 0 && OnGridMarket(market, slot)
    requires first.Some? ==> OnGrid(first.value, slot) && first.value <= start
    requires Complete(bars, market, start, end, slot, first, known)
    requires t in market && start <= t < end
    ensures k < |bars| && bars[k] == Real(t, market[t])
    ensures forall j :: 0 <= j < |bars| && bars[j].time == t ==> j == k
  {
    k := FindSlot(bars, slot, t);
    assert RightBar(bars[k], CloseBefore(bars, k, known), market, start);
    forall j | 0 <= j < |bars| && j != k
      ensures bars[j].time != t
    {
      SlotTimes(bars, slot, if j < k then j else k, if j < k then k else j);
    }
  }

  lemma {:induction false} SlotTimes(bars: seq<Bar>, slot: nat, i: nat, j: nat)
    requires slot > 0 && Contiguous(bars, slot) && i < j < |bars|
    ensures bars[i].time < bars[j].time
    decreases j
  {
    assert bars[j].time == bars[j - 1].time + slot;
    if i < j - 1 {
      SlotTimes(bars, slot, i, j - 1);
    }
  }

  lemma {:induction false} FindSlot(bars: seq<Bar>, slot: nat, t: Time) returns (k: nat)
    requires slot > 0 && Contiguous(bars, slot) && bars != []
    requires OnGrid(bars[0].time, slot) && OnGrid(t, slot)
    requires bars[0].time <= t < bars[|bars| - 1].time + slot
    ensures k < |bars| && bars[k].time == t
    decreases |bars|
  {
    if t == bars[0].time {
      k := 0;
    } else {
      GridOrder(bars[0].time, t, slot);
      if |bars| == 1 {
        assert false;
      }
      NextOnGrid(bars[0].time, slot);
      assert bars[1].time == bars[0].time + slot;
      forall j | 0 <= j < |bars[1..]| - 1
        ensures bars[1..][j + 1].time == bars[1..][j].time + slot
      {
        assert bars[j + 2].time == bars[j + 1].time + slot;
      }
      var rest := FindSlot(bars[1..], slot, t);
      k := rest + 1;
    }
  }

  // ---------------------------------------------------------------- a source that serves one market

  /** A source behind which there is one market on the grid: it may cut an answer short, but returns something
      if there is something. */
  ghost predicate Serves(fetch: Connector, market: map<Time, real>) {
    forall n: nat, from, to :: from < to ==> Answers(fetch(n, from, to), market, from, to)
  }

  lemma ServingIsWellBehaved(fetch: Connector, market: map<Time, real>, slot: nat)
    requires Serves(fetch, market) && OnGridMarket(market, slot)
    ensures WellBehaved(fetch, slot)
  {
    hide OnGrid;
    forall n: nat, from, to | from < to
      ensures Proper(fetch(n, from, to), from, to, slot)
    {
      assert Answers(fetch(n, from, to), market, from, to);
    }
  }

  /** What has come back is the market up to where the paging stands. */
  lemma {:induction false} GotIsTheMarket(fetch: Connector, market: map<Time, real>, calls: seq<Call>, start: Time,
                                          end: Time, step: nat, slot: nat, t: Time)
    requires step > 0 && slot > 0 && Serves(fetch, market) && OnGridMarket(market, slot)
    requires Paged(fetch, calls, start, end, step, slot)
    ensures var got := Got(fetch, calls);
            && (t in got <==> t in market && start <= t < Position(fetch, calls, start, slot))
            && (t in got ==> got[t] == market[t])
    decreases |calls|
  {
    hide OnGrid;
    ServingIsWellBehaved(fetch, market, slot);
    GotBelowPosition(fetch, calls, start, end, step, slot);
    if calls != [] {
      var n := |calls| - 1;
      PagedBefore(fetch, calls, start, end, step, slot);
      GotIsTheMarket(fetch, market, calls[..n], start, end, step, slot, t);
      var r := AnswerTo(fetch, calls, n);
      assert Proper(r, calls[n].from, calls[n].to, slot) && Answers(r, market, calls[n].from, calls[n].to);
      AsMarketHolds(r, calls[n].from, calls[n].to, slot);
      if t in market && calls[n].from <= t < Position(fetch, calls, start, slot) && r != [] {
        assert OnGrid(t, slot) && OnGrid(r[|r| - 1].time, slot);
        GridOrder(r[|r| - 1].time, t, slot);
        assert t <= r[|r| - 1].time;
      }
    }
  }

  /** From a source that serves a market, the filler's output is complete for that market. */
  lemma ServedOutputIsComplete(fetch: Connector, market: map<Time, real>, calls: seq<Call>, bars: seq<Bar>,
                               start: Time, end: Time, step: nat, slot: nat, first: Option<Time>, known: Option<real>)
    requires step > 0 && slot > 0 && Serves(fetch, market) && OnGridMarket(market, slot)
    requires Paged(fetch, calls, start, end, step, slot) && end <= Position(fetch, calls, start, slot)
    requires Complete(bars, Got(fetch, calls), start, end, slot, first, known)
    ensures Complete(bars, market, start, end, slot, first, known)
  {
    hide OnGrid, Got, Paged, Serves, Complete, OnGridMarket, Position;
    var got := Got(fetch, calls);
    forall t | start <= t < end
      ensures SameAt(got, market, t)
    {
      GotIsTheMarket(fetch, market, calls, start, end, step, slot, t);
    }
    CompleteWhereSame(bars, got, market, start, end, slot, first, known);
  }

  /** Completeness looks at the range only. */
  lemma CompleteWhereSame(bars: seq<Bar>, got: map<Time, real>, market: map<Time, real>, start: Time, end: Time,
                          slot: nat, first: Option<Time>, known: Option<real>)
    requires Complete(bars, got, start, end, slot, first, known)
    requires forall t :: start <= t < end ==> SameAt(got, market, t)
    ensures Complete(bars, market, start, end, slot, first, known)
  {
    forall k | 0 <= k < |bars|
      ensures RightBar(bars[k], CloseBefore(bars, k, known), market, start)
    {
      assert RightBar(bars[k], CloseBefore(bars, k, known), got, start);
      assert start <= bars[k].time ==> SameAt(got, market, bars[k].time);
    }
    forall t | t in market && start <= t < end
      ensures t in got
    {
      assert SameAt(got, market, t);
    }
  }

  // ---------------------------------------------------------------- the integrity check

  predicate OffStep(times: seq<Time>, step: int, k: nat) {
    0 < k < |times| && times[k] - times[k - 1] != step
  }

  /** The places below `n` that do not follow the one before by exactly one step. */
  function GapsUpTo(times: seq<Time>, step: int, n: nat): set<nat>
    requires n <= |times|
  {
    set k: nat | k < n && OffStep(times, step, k)
  }

  /** The integrity check counts the neighbours that are not one step apart. */
  method CountGaps(times: seq<Time>, step: int) returns (gaps: nat)
    ensures gaps == |GapsUpTo(times, step, |times|)|
  {
    gaps := 0;
    var last: Option<Time> := None;
    for n := 0 to |times|
      invariant last == if n == 0 then None else Some(times[n - 1])
      invariant gaps == |GapsUpTo(times, step, n)|
    {
      assert GapsUpTo(times, step, n + 1)
             == GapsUpTo(times, step, n) + (if OffStep(times, step, n) then {n} else {});
      if last.Some? && times[n] - last.value != step {
        gaps := gaps + 1;
      }
      last := Some(times[n]);
    }
  }

  /** What the filler writes passes that check. */
  lemma OutputHasNoGaps(bars: seq<Bar>, slot: nat, times: seq<Time>)
    requires Contiguous(bars, slot)
    requires |times| == |bars| && forall k :: 0 <= k < |bars| ==> times[k] == bars[k].time
    ensures GapsUpTo(times, slot, |times|) == {}
  {
    forall k | 0 < k < |times|
      ensures times[k] - times[k - 1] == slot
    {
      var j := k - 1;
      assert bars[j + 1].time == bars[j].time + slot;
    }
  }
}
