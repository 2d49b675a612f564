/** A step keeps agreement unless an expiring trade was entered at zero or an order was filled in part; a run
    keeps it throughout if and only if none of its steps does either. */
module RunAgreement {
  import opened Books
  import opened Agreement
  import opened ExitAgreement
  import opened OrderAgreement

  // ---------------------------------------------------------------- one step

  /** The two ways a step can split agreeing books: it raises over a zero entry price, or its order is filled in
      part. */
  ghost predicate Splits(b: Books, e: Event) {
    match e
    case TpslCheck(_, _, _, _, _, _, _) => false
    case ExpiryCheck(inst, venue, _, _, tickSecs) => ZeroExpires(b, venue, inst, tickSecs)
    case Allocation(inst, limits, r, w, tickSecs) => ZeroExpires(b, w.venue, inst, tickSecs) || FillsInPart(b, e)
    case MarkPrices(_, _, _, _) => false
  }

  /** An allocation whose order goes to the broker and comes back filled otherwise than asked. */
  ghost predicate FillsInPart(b: Books, e: Event)
    requires e.Allocation?
  {
    var expired := ExpiryPass(b, e.weather.venue, e.inst, e.request.price, e.request.now, e.tickSecs).0;
    !FillsPlan(expired, e.limits, e.inst, Gated(e.request, e.weather.blocked), e.weather.order)
  }

  /** From agreeing books, a step leads to agreeing books if and only if it does neither. Either way it touches
      no instrument but its own. */
  lemma StepAgrees(b: Books, e: Event)
    requires Agree(b)
    ensures Agree(Step(b, e)) <==> !Splits(b, e)
    ensures OnlyTouches(b, Step(b, e), e.inst)
  {
    match e
    case TpslCheck(inst, venue, high, low, time, cfg, scalping) =>
      TpslPassAgrees(b, venue, inst, high, low, time, cfg, scalping);
    case ExpiryCheck(inst, venue, price, time, tickSecs) =>
      ExpiryPassAgrees(b, venue, inst, price, time, tickSecs);
    case Allocation(inst, limits, r, w, tickSecs) =>
      ExpiryPassAgrees(b, w.venue, inst, r.price, r.now, tickSecs);
      if !ZeroExpires(b, w.venue, inst, tickSecs) {
        var expired := ExpiryPass(b, w.venue, inst, r.price, r.now, tickSecs).0;
        TransactAgrees(expired, limits, inst, Gated(r, w.blocked), w.order);
        hide ExpiryPass, Transact, FillsPlan, Agree;
        OnlyTouchesChains(b, expired, Step(b, e), inst);
      }
    case MarkPrices(inst, price, high, low) =>
      MarkAgrees(b, inst, price, high, low);
  }

  // ---------------------------------------------------------------- whole runs

  ghost predicate NoStepSplits(b: Books, events: seq<Event>) {
    forall n :: 0 <= n < |events| ==> !Splits(Run(b, events[..n]), events[n])
  }

  ghost predicate AgreesThroughout(b: Books, events: seq<Event>) {
    forall n :: 0 <= n <= |events| ==> Agree(Run(b, events[..n]))
  }

  /** From agreeing books, a run agrees in every state it passes through if and only if none of its steps splits the
      books. */
  lemma {:induction false} RunAgreesIffNoStepSplits(b: Books, events: seq<Event>)
    requires Agree(b)
    ensures AgreesThroughout(b, events) <==> NoStepSplits(b, events)
  {
    hide Step, Agree, Splits;
    if events != [] {
      var n := |events| - 1;
      var shorter := events[..n];
      RunAgreesIffNoStepSplits(b, shorter);
      assert forall k :: 0 <= k <= n ==> events[..k] == shorter[..k];
      assert events[..|events|] == events && shorter[..n] == shorter;
      if AgreesThroughout(b, shorter) {
        assert Agree(Run(b, shorter[..n]));
        StepAgrees(Run(b, shorter), events[n]);
      }
      LongerRun(b, events);
    }
  }

  /** Both properties of a run are those of its beginning and of its last step. */
  lemma LongerRun(b: Books, events: seq<Event>)
    requires events != []
    ensures var n := |events| - 1;
            && (AgreesThroughout(b, events) <==> AgreesThroughout(b, events[..n]) && Agree(Run(b, events)))
            && (NoStepSplits(b, events) <==> NoStepSplits(b, events[..n]) && !Splits(Run(b, events[..n]), events[n]))
  {
    hide Agree, Splits, Run, AgreesThroughout, NoStepSplits;
    LongerAgreement(b, events);
    LongerPeace(b, events);
  }

  lemma LongerAgreement(b: Books, events: seq<Event>)
    requires events != []
    ensures AgreesThroughout(b, events) <==>
            AgreesThroughout(b, events[..|events| - 1]) && Agree(Run(b, events))
  {
    hide Agree, Run;
    var n := |events| - 1;
    var shorter := events[..n];
    assert events[..n + 1] == events;
    assert forall k :: 0 <= k <= n ==> events[..k] == shorter[..k];
  }

  lemma LongerPeace(b: Books, events: seq<Event>)
    requires events != []
    ensures var n := |events| - 1;
            NoStepSplits(b, events) <==> NoStepSplits(b, events[..n]) && !Splits(Run(b, events[..n]), events[n])
  {
    hide Splits, Run;
    var n := |events| - 1;
    var shorter := events[..n];
    assert forall k :: 0 <= k < n ==> events[..k] == shorter[..k] && events[k] == shorter[k];
  }
}
