/** The live loop: engine steps with a reconcile against the broker every now and then. A reconcile can make books
    agree that did not, and can take agreement away from books that did. */
module LiveRuns {
  import opened Common
  import opened Books
  import opened Agreement
  import opened RunAgreement
  import opened Reconcile

  datatype LiveEvent = EngineStep(event: Event) | ReconcileRound(round: Round)

  /** One turn of the loop, which does nothing without enabled instruments. What a reconcile rebuilds depends on the
      broker's dictionary, so the next state is a relation. */
  ghost predicate Turn(b: Books, e: LiveEvent, c: Books) {
    match e
    case EngineStep(event) => c == Step(b, event)
    case ReconcileRound(round) =>
      && round.enabled != [] && "" !in round.enabled
      && exists broker :: Reconciled(b, c, round, broker)
  }

  /** A run is the sequence of the states it passes through. */
  ghost predicate LiveRun(states: seq<Books>, events: seq<LiveEvent>) {
    && |states| == |events| + 1
    && forall n :: 0 <= n < |events| ==> Turn(states[n], events[n], states[n + 1])
  }

  /** A completed reconcile leaves agreeing books, whatever they were before. */
  ghost predicate Heals(b: Books, round: Round)
    requires round.Completes()
  {
    && (forall inst :: inst in round.enabled ==> OneSided(round.Held(inst)))
    && (forall inst :: inst !in round.enabled ==> Vacant(b, inst))
  }

  /** Agreement is lost to a step that splits the books, to a completed reconcile that meets a hedge at the broker or
      something held outside the enabled instruments, and to one that was called off with something held inside. */
  ghost predicate LosesAgreement(b: Books, e: LiveEvent) {
    match e
    case EngineStep(event) => Splits(b, event)
    case ReconcileRound(round) =>
      if round.Completes() then !Heals(b, round)
      else exists inst :: inst in round.enabled && b.store.TradesOf(inst) != []
  }

  lemma CompletedReconcileHeals(b: Books, round: Round, c: Books)
    requires Turn(b, ReconcileRound(round), c) && round.Completes()
    ensures Agree(c) <==> Heals(b, round)
  {
    hide Reconciled, Agree, OneSided;
    var broker :| Reconciled(b, c, round, broker);
    ReconcileRestoresAgreement(b, c, round, broker);
  }

  lemma CalledOffReconcileAgrees(b: Books, round: Round, c: Books)
    requires Agree(b) && Turn(b, ReconcileRound(round), c) && !round.Completes()
    ensures Agree(c) <==> forall inst :: inst in round.enabled ==> b.store.TradesOf(inst) == []
  {
    hide InstAgrees;
    var broker :| Reconciled(b, c, round, broker);
    forall inst
      ensures inst in round.enabled ==> (InstAgrees(c, inst) <==> b.store.TradesOf(inst) == [])
      ensures inst !in round.enabled ==> InstAgrees(c, inst)
    {
      assert InstAgrees(b, inst);
      if inst in round.enabled {
        CalledOffReconcileSplits(b, c, round, broker, inst);
      } else {
        CalledOffReconcileKeeps(b, c, round, broker, inst);
      }
    }
  }

  lemma CalledOffReconcileKeeps(b: Books, c: Books, round: Round, broker: map<Inst, seq<BrokerTrade>>, inst: Inst)
    requires Reconciled(b, c, round, broker) && !round.Completes() && inst !in round.enabled && InstAgrees(b, inst)
    ensures InstAgrees(c, inst)
  {
    assert SameTrades(b.store, c.store, inst);
  }

  lemma TurnAgrees(b: Books, e: LiveEvent, c: Books)
    requires Agree(b) && Turn(b, e, c)
    ensures Agree(c) <==> !LosesAgreement(b, e)
  {
    hide Agree, Step, Splits, Reconciled, Heals;
    match e
    case EngineStep(event) => StepAgrees(b, event);
    case ReconcileRound(round) =>
      if round.Completes() {
        CompletedReconcileHeals(b, round, c);
      } else {
        CalledOffReconcileAgrees(b, round, c);
      }
  }

  /** From agreeing books, a live run agrees in every state it passes through if and only if none of its turns loses
      agreement in one of these ways. */
  lemma LiveRunAgreesIffNothingLosesIt(states: seq<Books>, events: seq<LiveEvent>)
    requires LiveRun(states, events) && Agree(states[0])
    ensures (forall n :: 0 <= n < |states| ==> Agree(states[n]))
            <==> forall n :: 0 <= n < |events| ==> !LosesAgreement(states[n], events[n])
  {
    hide Agree, LosesAgreement, Turn;
    if forall n :: 0 <= n < |states| ==> Agree(states[n]) {
      forall n | 0 <= n < |events|
        ensures !LosesAgreement(states[n], events[n])
      {
        assert Agree(states[n + 1]);
        TurnAgrees(states[n], events[n], states[n + 1]);
      }
    }
    if forall n :: 0 <= n < |events| ==> !LosesAgreement(states[n], events[n]) {
      forall n | 0 <= n < |states|
        ensures Agree(states[n])
      {
        AgreesUpTo(states, events, n);
      }
    }
  }

  lemma {:induction false} AgreesUpTo(states: seq<Books>, events: seq<LiveEvent>, n: nat)
    requires LiveRun(states, events) && Agree(states[0]) && n < |states|
    requires forall k :: 0 <= k < n ==> !LosesAgreement(states[k], events[k])
    ensures Agree(states[n])
  {
    hide Agree, LosesAgreement, Turn;
    if n > 0 {
      AgreesUpTo(states, events, n - 1);
      TurnAgrees(states[n - 1], events[n - 1], states[n]);
    }
  }

  /** Agreement that was lost comes back with the next completed reconcile that heals, and lasts as above. */
  lemma AgreementComesBack(states: seq<Books>, events: seq<LiveEvent>, k: nat, n: nat)
    requires LiveRun(states, events) && k < n < |states|
    requires events[k].ReconcileRound? && events[k].round.Completes() && Heals(states[k], events[k].round)
    requires forall i :: k < i < n ==> !LosesAgreement(states[i], events[i])
    ensures Agree(states[n])
  {
    hide Agree, LosesAgreement, Turn, Heals;
    CompletedReconcileHeals(states[k], events[k].round, states[k + 1]);
    assert LiveRun(states[k + 1..], events[k + 1..]);
    AgreesUpTo(states[k + 1..], events[k + 1..], n - k - 1);
  }
}
