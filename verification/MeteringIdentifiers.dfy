/** Corrections and usage events share the ledger's event_id. What happens when a
    correction takes the identifier of an event that is not yet priced. */
module MeteringIdentifiers {
  import opened Wrappers
  import opened Pricing
  import opened MeteringModel
  import opened MeteringSafety
  import opened MeteringAggregate

  lemma CarriedStep(w: World, m: Move, id: LedgerId)
    requires Carried(w.adjustments, id)
    ensures Carried(Step(w, m).adjustments, id)
  {
    hide Apply, Step, Consume;
    AdjustmentsGrow(w, m);
    var i :| 0 <= i < |w.adjustments| && w.adjustments[i].id == id;
    assert Step(w, m).adjustments[i].id == id;
  }

  lemma AdjustmentsGrow(w: World, m: Move)
    ensures w.adjustments <= Step(w, m).adjustments
  {
    hide Apply, Consume, MarkPublished, MarkRetry, Claim, Deliver, Crash, OpenSession, Commit, CloseSession,
         SameEvents, NewRows;
    if IsDelivery(m) {
      DeliveryFrame(w, m);
    } else if m.ConsumeMove? {
      ConsumeAdjustsNothing(w, m.session);
    }
  }

  lemma ConsumeAdjustsNothing(w: World, s: SessionId)
    ensures Consume(w, s).adjustments == w.adjustments
  {
    hide Process, AwaitCommit, CloseSession;
    if s in w.sessions && w.sessions[s].position < |w.topic| {
      var event := w.topic[w.sessions[s].position];
      ProcessAdjustsNothing(w, event);
      SessionsFrame(Process(w, event).0, s, w.sessions[s].position);
    }
  }

  lemma ProcessAdjustsNothing(w: World, event: UsageEvent)
    ensures Process(w, event).0.adjustments == w.adjustments
  {
    hide Effective, CalculateAmountMicros, Eligible, Trusted, Carried;
  }

  lemma CarriedIsUnpriced(w: World, e: EventId)
    requires Inv(w) && Carried(w.adjustments, OfEvent(e))
    ensures e !in w.ledger
  {
    hide ExecutionInv, OutboxInv, TopicInv, RelayInv, OffsetInv, LedgerInv, ResultHolds, InRange;
  }

  /** An event whose identifier a correction took is never priced, in any later state of
      any run; so its request never finishes. */
  lemma {:induction false} CarriedIsNeverPriced(w: World, moves: seq<Move>, e: EventId)
    requires Inv(w) && Carried(w.adjustments, OfEvent(e)) && e in w.outbox
    ensures e !in Run(w, moves).ledger && !Finished(Run(w, moves), w.outbox[e].event.request)
    decreases |moves|
  {
    hide Inv, Step, Carried;
    if moves == [] {
      CarriedIsUnpriced(w, e);
      assert !Complete(w, w.outbox[e].event.request);
    } else {
      StepKeeps(w, moves[0]);
      CarriedStep(w, moves[0], OfEvent(e));
      OutboxStays(w, moves[0], e);
      CarriedIsNeverPriced(Step(w, moves[0]), moves[1..], e);
    }
  }

  lemma OutboxStays(w: World, m: Move, e: EventId)
    requires Inv(w) && e in w.outbox
    ensures e in Step(w, m).outbox && Step(w, m).outbox[e].event == w.outbox[e].event
  {
    hide ExecutionInv, OutboxInv, TopicInv, RelayInv, LedgerInv, OffsetInv, AdjustmentInv, Apply, Consume,
         MarkPublished, MarkRetry, Claim, Deliver, Crash, OpenSession, Commit, CloseSession, NewRows, ValidUsage;
    if IsDelivery(m) {
      DeliveryFrame(w, m);
    } else {
      match m
      case CompleteMove(a, usage, observedAt, forRetry) =>
        if a in w.attempts && !w.attempts[a].ended {
          Unused(w, a);
          CompleteKeepsOutbox(w.attempts, w.outbox, a,
                              w.attempts[a].(ended := true, usage := usage, observedAt := observedAt));
        }
      case ConsumeMove(s) => ConsumeFrame(w, s);
      case _ =>
    }
  }

  lemma TopicGrows(w: World, m: Move)
    ensures w.topic <= Step(w, m).topic
  {
    hide Apply, Consume, MarkPublished, MarkRetry, Claim, Deliver, Crash, OpenSession, Commit, CloseSession, SameEvents,
         NewRows;
    if IsDelivery(m) {
      DeliveryFrame(w, m);
    } else if m.ConsumeMove? {
      ConsumeFrame(w, m.session);
    }
  }

  lemma {:induction false} TopicOnlyGrows(w: World, moves: seq<Move>)
    ensures w.topic <= Run(w, moves).topic
    decreases |moves|
  {
    hide Step;
    if moves != [] {
      TopicGrows(w, moves[0]);
      TopicOnlyGrows(Step(w, moves[0]), moves[1..]);
    }
  }

  lemma RecordIsUnpassed(w: World, k: nat)
    requires Inv(w) && k < |w.topic| && w.topic[k].id !in w.ledger
    ensures w.offset <= k
    ensures forall s :: s in w.sessions ==>
              w.sessions[s].position <= k && (w.sessions[s].processed ==> w.sessions[s].position < k)
  {
    hide ExecutionInv, OutboxInv, TopicInv, RelayInv, LedgerInv, AdjustmentInv;
  }

  lemma RecordIsInOutbox(w: World, k: nat)
    requires Inv(w) && k < |w.topic|
    ensures w.topic[k].id in w.outbox
  {
    hide ExecutionInv, OutboxInv, RelayInv, LedgerInv, AdjustmentInv, OffsetInv;
  }

  /** One such correction stops the consumer for good: in every later state of every run
      the committed offset and every session stay at or before the record of the event. */
  lemma CarriedStopsTheConsumer(w: World, moves: seq<Move>, k: nat)
    requires Inv(w) && k < |w.topic| && Carried(w.adjustments, OfEvent(w.topic[k].id))
    ensures var w' := Run(w, moves);
            && w'.offset <= k && k < |w'.topic| && w'.topic[k] == w.topic[k]
            && forall s :: s in w'.sessions ==>
                 w'.sessions[s].position <= k && (w'.sessions[s].processed ==> w'.sessions[s].position < k)
  {
    hide Inv, Run, Carried;
    RecordIsInOutbox(w, k);
    CarriedIsNeverPriced(w, moves, w.topic[k].id);
    EveryRunIsSafe(w, moves);
    TopicOnlyGrows(w, moves);
    RecordIsUnpassed(Run(w, moves), k);
  }

  // ---- one such run -----------------------------------------------------------------

  const PRICED_EVENT := EventId(0, InputTokens)
  const WAITING_EVENT := EventId(0, OutputTokens)
  const INPUT_RATE := PriceRate(InputTokens, TokenUnit, 1, 1)
  const ONE_RATE := Version(0, 0, 0, map[InputTokens := INPUT_RATE])
  const BOTH_TYPES: Usage := map[InputTokens := 1, OutputTokens := 1]
  const INPUT_EVENT := UsageEvent(PRICED_EVENT, 0, 0, 1, 0)
  const OUTPUT_EVENT := UsageEvent(WAITING_EVENT, 0, 0, 1, 0)

  /** A correction of the priced event, under the identifier of the waiting one. */
  const COLLISION := Command(0, OfEvent(WAITING_EVENT), 0, OfEvent(PRICED_EVENT), 2, 2, 0)

  /** A correction of that correction. */
  const SECOND := Command(0, Chosen(1), 1, OfEvent(WAITING_EVENT), 3, 3, 0)

  const MOVES: seq<Move> := [
    StartRequestMove(0, 0), StartAttemptMove(0, 0, 0), PriceMove(0, ONE_RATE), CompleteMove(0, BOTH_TYPES, 0, false),
    ClaimMove(1, 0, 9, {}, {PRICED_EVENT}), DeliverMove(1, PRICED_EVENT, true),
    OpenMove(0), ConsumeMove(0), AdjustMove(COLLISION)]

  const ATTEMPT := AttemptRow(0, 0, true, BOTH_TYPES, 0)
  const TAKEN := OutboxRow(INPUT_EVENT, Publishing(1, 9), 0)
  const WAITING := OutboxRow(OUTPUT_EVENT, Pending(0), 0)
  const RUNNING := World(map[0 := RequestRow(0, [0], false)], map[0 := AttemptRow(0, 0, false, map[], 0)],
                         map[0 := ONE_RATE],
                         map[], map[], [], map[], 0, map[], map[], [])
  const ENDED := RUNNING.(requests := map[0 := RequestRow(0, [0], true)], attempts := map[0 := ATTEMPT],
                          outbox := map[PRICED_EVENT := OutboxRow(INPUT_EVENT, Pending(0), 0),
                                        WAITING_EVENT := WAITING])
  const SENT := ENDED.(outbox := map[PRICED_EVENT := TAKEN, WAITING_EVENT := WAITING],
                       relays := map[1 := map[PRICED_EVENT := true]], topic := [INPUT_EVENT])
  const PRICED := SENT.(sessions := map[0 := Session(0, true)],
                        receipts := map[PRICED_EVENT := INPUT_EVENT],
                        ledger := map[PRICED_EVENT := LedgerRow(INPUT_EVENT, 0, 1)])
  const CORRECTED := PRICED.(adjustments := [Adjustment(OfEvent(WAITING_EVENT), PRICED_EVENT, 0, 0, 0, 2, 2, 1, 1)])

  lemma RunsOn(w: World, moves: seq<Move>, k: nat)
    requires k < |moves|
    ensures Run(w, moves[k..]) == Run(Step(w, moves[k]), moves[k + 1..])
  {
    hide Step;
    assert moves[k..][1..] == moves[k + 1..];
  }

  lemma Starts()
    ensures Step(Step(Step(EMPTY, MOVES[0]), MOVES[1]), MOVES[2]) == RUNNING
  {
    var asked := EMPTY.(requests := map[0 := RequestRow(0, [], false)]);
    assert Step(EMPTY, MOVES[0]) == asked;
    assert [] + [0] == [0];
    assert asked.requests[0 := RequestRow(0, [0], false)] == RUNNING.requests;
    assert Step(asked, MOVES[1]) == RUNNING.(prices := map[]);
    assert ONE_RATE.Valid();
  }

  lemma UsageIsValid()
    ensures ValidUsage(BOTH_TYPES) && Billable(BOTH_TYPES) == {InputTokens, OutputTokens}
  {
    assert InputTokens in DIMENSIONS && OutputTokens in DIMENSIONS by {
      assert DIMENSIONS[0] == InputTokens && DIMENSIONS[1] == OutputTokens;
    }
  }

  lemma NewRowsOfBoth()
    ensures NewRows(0, ATTEMPT) == ENDED.outbox
  {
    hide NewRows;
    UsageIsValid();
    NewRowsAre(0, ATTEMPT);
    var rows := NewRows(0, ATTEMPT);
    forall e ensures e in rows <==> e == PRICED_EVENT || e == WAITING_EVENT {
    }
  }

  lemma Ends()
    ensures Step(RUNNING, MOVES[3]) == ENDED
  {
    hide NewRows, ValidUsage, Billable;
    UsageIsValid();
    NewRowsOfBoth();
    var row := RUNNING.attempts[0].(ended := true, usage := BOTH_TYPES, observedAt := 0);
    assert row == ATTEMPT;
    assert RUNNING.outbox + NewRows(0, ATTEMPT) == ENDED.outbox;
    assert RUNNING.attempts[0 := ATTEMPT] == ENDED.attempts;
    assert RUNNING.requests[0 := RUNNING.requests[0].(terminal := true)] == ENDED.requests;
    assert CompleteAttempt(RUNNING, 0, BOTH_TYPES, 0, false) == ENDED;
  }

  lemma ClaimOne(w: World, lease: LeaseId, now: int, expires: int, e: EventId)
    requires w.relays == map[] && Claimable(w.outbox, e, now)
    ensures Claim(w, lease, now, expires, {}, {e})
         == w.(outbox := w.outbox[e := w.outbox[e].(status := Publishing(lease, expires))],
               relays := map[lease := map[e := false]])
  {
    var w' := Claim(w, lease, now, expires, {}, {e});
    assert Reclaimed(w.outbox, {}, now) == w.outbox;
    assert Taken(w.outbox, {e}, lease, expires) == w.outbox[e := w.outbox[e].(status := Publishing(lease, expires))];
    assert w'.relays[lease] == map[e := false];
  }

  lemma DeliverOne(w: World, lease: LeaseId, e: EventId)
    requires InHand(w, lease, e) && e in w.outbox
    ensures Deliver(w, lease, e, true)
         == w.(topic := w.topic + [w.outbox[e].event], relays := w.relays[lease := w.relays[lease][e := true]])
  {
  }

  const CLAIMED := ENDED.(outbox := SENT.outbox, relays := map[1 := map[PRICED_EVENT := false]])

  lemma Claims()
    ensures Step(ENDED, MOVES[4]) == CLAIMED
  {
    hide Claim, Deliver;
    ClaimOne(ENDED, 1, 0, 9, PRICED_EVENT);
    assert ENDED.outbox[PRICED_EVENT := TAKEN] == SENT.outbox;
  }

  lemma Sends()
    ensures Step(Step(ENDED, MOVES[4]), MOVES[5]) == SENT
  {
    hide Claim, Deliver;
    Claims();
    var hand := CLAIMED.relays[1];
    assert hand[PRICED_EVENT := true] == map[PRICED_EVENT := true];
    assert CLAIMED.relays[1 := hand[PRICED_EVENT := true]] == SENT.relays;
    DeliverOne(CLAIMED, 1, PRICED_EVENT);
  }

  lemma InputIsPriced(w: World)
    requires w.prices == map[0 := ONE_RATE]
    ensures Effective(w.prices, INPUT_EVENT) == Some(0) && CalculateAmountMicros(1, INPUT_RATE) == Amount(1)
    ensures !Priceable(w, OUTPUT_EVENT)
  {
    assert IsEffective(w.prices, INPUT_EVENT, 0);
  }

  const READY := SENT.(sessions := map[0 := Session(0, false)])

  lemma Opens()
    ensures Step(SENT, MOVES[6]) == READY
  {
    assert SENT.sessions[0 := Session(0, false)] == READY.sessions;
  }

  lemma Inserts()
    ensures Process(READY, INPUT_EVENT) == (PRICED.(sessions := READY.sessions), Inserted(LedgerRow(INPUT_EVENT, 0, 1)))
  {
    hide Effective, CalculateAmountMicros;
    InputIsPriced(READY);
    assert READY.receipts[PRICED_EVENT := INPUT_EVENT] == PRICED.receipts;
    assert READY.ledger[PRICED_EVENT := LedgerRow(INPUT_EVENT, 0, 1)] == PRICED.ledger;
  }

  lemma Prices()
    ensures Step(Step(SENT, MOVES[6]), MOVES[7]) == PRICED
  {
    hide Process, Effective;
    Opens();
    Inserts();
    assert READY.sessions[0 := Session(0, true)] == PRICED.sessions;
  }

  lemma Corrects()
    ensures Apply(PRICED, COLLISION) == (CORRECTED, Appended(CORRECTED.adjustments[0]))
            && Step(PRICED, MOVES[8]) == CORRECTED
  {
    assert TargetsUsage(PRICED, COLLISION);
    assert CurrentQuantity(PRICED, PRICED_EVENT) == 1 && CurrentAmount(PRICED, PRICED_EVENT) == 1;
    assert FindKey(PRICED.adjustments, 0, 0).None? && !Carried(PRICED.adjustments, COLLISION.id);
    assert [] + [CORRECTED.adjustments[0]] == CORRECTED.adjustments;
  }

  lemma ReachedPriced()
    ensures Run(ENDED, MOVES[4..]) == CORRECTED
  {
    hide Step, Run;
    RunsOn(ENDED, MOVES, 4);
    RunsOn(Step(ENDED, MOVES[4]), MOVES, 5);
    Sends();
    RunsOn(SENT, MOVES, 6);
    RunsOn(Step(SENT, MOVES[6]), MOVES, 7);
    Prices();
    RunsOn(PRICED, MOVES, 8);
    Corrects();
    RunsOut(CORRECTED);
    assert MOVES[9..] == [];
  }

  lemma RunsOut(w: World)
    ensures Run(w, []) == w
  {
  }

  lemma ReachedEnded()
    ensures Run(EMPTY, MOVES) == Run(ENDED, MOVES[4..])
  {
    hide Step, Run;
    assert MOVES[0..] == MOVES;
    RunsOn(EMPTY, MOVES, 0);
    RunsOn(Step(EMPTY, MOVES[0]), MOVES, 1);
    RunsOn(Step(Step(EMPTY, MOVES[0]), MOVES[1]), MOVES, 2);
    Starts();
    RunsOn(RUNNING, MOVES, 3);
    Ends();
  }

  lemma Reached()
    ensures Run(EMPTY, MOVES) == CORRECTED && Inv(CORRECTED)
  {
    hide Step, Run, Inv;
    ReachedEnded();
    ReachedPriced();
    EmptyIsSafe();
    EveryRunIsSafe(EMPTY, MOVES);
  }

  /** The barrier of a terminal request opens while one of its events has no price. */
  lemma BarrierOpensEarly()
    ensures var w := Run(EMPTY, MOVES);
            && 0 in w.requests && w.requests[0].terminal && BarrierOpen(w, 0) && !Complete(w, 0)
            && WAITING_EVENT in w.outbox && WAITING_EVENT !in w.ledger && StandsIn(w, WAITING_EVENT)
  {
    hide Run, Inv;
    Reached();
    assert CORRECTED.outbox[WAITING_EVENT].event.request == 0;
    assert CORRECTED.adjustments[0].id == OfEvent(WAITING_EVENT) && CORRECTED.adjustments[0].target.attempt == 0;
  }

  /** A price that comes later is of no use to the event: its record conflicts. */
  lemma LatePriceConflicts()
    ensures var rate := PriceRate(OutputTokens, TokenUnit, 1, 1);
            var late := CORRECTED.(prices := CORRECTED.prices[1 := Version(0, 0, 0, map[OutputTokens := rate])]);
            Process(late, OUTPUT_EVENT).1 == EventConflict && late.outbox[WAITING_EVENT].event == OUTPUT_EVENT
  {
    var rate := PriceRate(OutputTokens, TokenUnit, 1, 1);
    var late := CORRECTED.(prices := CORRECTED.prices[1 := Version(0, 0, 0, map[OutputTokens := rate])]);
    OutputIsPriced(late.prices);
    hide Effective, IsEffective, CalculateAmountMicros;
    assert CORRECTED.adjustments[0].id == OfEvent(WAITING_EVENT);
    assert Carried(late.adjustments, OfEvent(WAITING_EVENT));
  }

  lemma OutputIsPriced(prices: map<VersionId, Version>)
    requires var rate := PriceRate(OutputTokens, TokenUnit, 1, 1);
             prices == map[0 := ONE_RATE, 1 := Version(0, 0, 0, map[OutputTokens := rate])]
    ensures Effective(prices, OUTPUT_EVENT) == Some(1)
    ensures CalculateAmountMicros(1, PriceRate(OutputTokens, TokenUnit, 1, 1)) == Amount(1)
  {
    assert IsEffective(prices, OUTPUT_EVENT, 1);
  }

  /** A correction cannot be corrected. */
  lemma CorrectionIsNoTarget()
    ensures SECOND.Valid() && Apply(CORRECTED, SECOND) == (CORRECTED, InvalidTarget)
  {
    assert CORRECTED.adjustments[0].id == SECOND.target;
    assert FindKey(CORRECTED.adjustments, 0, 1).None?;
  }
}
