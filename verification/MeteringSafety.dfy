/** What every run of the metering pipeline keeps, whatever crashes, reclaims,
    redeliveries, restarts and corrections it contains. */
module MeteringSafety {
  import opened Sums
  import opened Pricing
  import opened MeteringModel

  // ---- invariants -------------------------------------------------------------------

  /** Requests list their attempts once each; only ended attempts carry usage. */
  ghost predicate ExecutionInv(requests: map<RequestId, RequestRow>, attempts: map<AttemptId, AttemptRow>) {
    && (forall a :: a in attempts ==> attempts[a].request in requests && a in requests[attempts[a].request].attempts)
    && (forall a :: a in attempts ==>
          ValidUsage(attempts[a].usage) && (!attempts[a].ended ==> attempts[a].usage == map[]))
    && (forall r, i :: r in requests && 0 <= i < |requests[r].attempts| ==>
          requests[r].attempts[i] in attempts && attempts[requests[r].attempts[i]].request == r)
    && (forall r, i, j :: r in requests && 0 <= i < j < |requests[r].attempts| ==>
          requests[r].attempts[i] != requests[r].attempts[j])
  }

  /** The outbox is exactly the positive usage of the ended attempts. */
  ghost predicate OutboxInv(attempts: map<AttemptId, AttemptRow>, outbox: map<EventId, OutboxRow>) {
    && (forall e :: e in outbox <==> e.attempt in attempts && e.tokenType in Billable(attempts[e.attempt].usage))
    && (forall e :: e in outbox ==> e.tokenType in attempts[e.attempt].usage
                                    && outbox[e].event == EventOf(e.attempt, attempts[e.attempt], e.tokenType))
  }

  /** Every record is an outbox event, unchanged. */
  ghost predicate TopicInv(outbox: map<EventId, OutboxRow>, topic: seq<UsageEvent>) {
    forall i :: 0 <= i < |topic| ==> topic[i].id in outbox && topic[i] == outbox[topic[i].id].event
  }

  ghost predicate OnTopic(topic: seq<UsageEvent>, e: EventId) {
    exists i :: 0 <= i < |topic| && topic[i].id == e
  }

  /** Whatever is marked published, or was acknowledged, is on the topic. */
  ghost predicate RelayInv(outbox: map<EventId, OutboxRow>, relays: map<LeaseId, map<EventId, bool>>,
                           topic: seq<UsageEvent>) {
    && (forall e :: e in outbox && outbox[e].status.Published? ==> OnTopic(topic, e))
    && (forall l, e :: l in relays && e in relays[l] && relays[l][e] ==> OnTopic(topic, e))
  }

  ghost predicate Priced(prices: map<VersionId, Version>, row: LedgerRow) {
    && Eligible(prices, row.event, row.version)
    && CalculateAmountMicros(row.event.quantity, prices[row.version].rates[row.event.id.tokenType])
       == Amount(row.amount)
  }

  /** Receipts and ledger rows come in pairs, and each row is the priced event. */
  ghost predicate LedgerInv(prices: map<VersionId, Version>, outbox: map<EventId, OutboxRow>, receipts: map<EventId,
                            UsageEvent>, ledger: map<EventId, LedgerRow>) {
    && receipts.Keys == ledger.Keys
    && (forall v :: v in prices ==> prices[v].Valid())
    && (forall e :: e in ledger ==>
          e in outbox && receipts[e] == outbox[e].event == ledger[e].event && Priced(prices, ledger[e]))
  }

  ghost predicate ProcessedBelow(topic: seq<UsageEvent>, ledger: map<EventId, LedgerRow>, n: nat) {
    n <= |topic| && forall i :: 0 <= i < n ==> topic[i].id in ledger
  }

  /** Everything below the committed offset, and below any session, is priced. */
  ghost predicate OffsetInv(topic: seq<UsageEvent>, ledger: map<EventId, LedgerRow>, sessions: map<SessionId, Session>,
                            offset: nat) {
    && ProcessedBelow(topic, ledger, offset)
    && forall s :: s in sessions ==>
         ProcessedBelow(topic, ledger, if sessions[s].processed then sessions[s].position + 1 else sessions[s].position)
  }

  /** The first k corrections bring each target to the result its last one asked for. */
  ghost predicate AdjustmentInv(requests: map<RequestId, RequestRow>, ledger: map<EventId, LedgerRow>,
                                adjustments: seq<Adjustment>) {
    && (forall i :: 0 <= i < |adjustments| ==>
          && adjustments[i].target in ledger && ledger[adjustments[i].target].event.request in requests
          && requests[ledger[adjustments[i].target].event.request].scope == adjustments[i].scope
          && ValidDelta(adjustments[i]) && ResultHolds(ledger, adjustments, i))
    && (forall i, j :: 0 <= i < j < |adjustments| ==>
          adjustments[i].id != adjustments[j].id
          && (adjustments[i].scope != adjustments[j].scope || adjustments[i].key != adjustments[j].key))
    && (forall i :: 0 <= i < |adjustments| && adjustments[i].id.OfEvent? ==> adjustments[i].id.event !in ledger)
    && (forall e :: e in ledger ==> InRange(ledger, adjustments, e))
  }

  /** A correction that changes something, within the exact-integer range. */
  predicate ValidDelta(x: Adjustment) {
    && -(MAXIMUM_EXACT as int) <= x.quantityDelta <= MAXIMUM_EXACT
    && -(MAXIMUM_EXACT as int) <= x.amountDelta <= MAXIMUM_EXACT
    && (x.quantityDelta != 0 || x.amountDelta != 0)
  }

  ghost predicate ResultHolds(ledger: map<EventId, LedgerRow>, adjustments: seq<Adjustment>, i: nat)
    requires i < |adjustments|
  {
    var x := adjustments[i];
    && x.target in ledger
    && x.correctedQuantity == ledger[x.target].event.quantity + SumBy(adjustments[..i + 1], QuantityOn(x.target))
    && x.correctedAmount == ledger[x.target].amount + SumBy(adjustments[..i + 1], AmountOn(x.target))
  }

  ghost predicate InRange(ledger: map<EventId, LedgerRow>, adjustments: seq<Adjustment>, e: EventId)
    requires e in ledger
  {
    && 0 <= ledger[e].event.quantity + SumBy(adjustments, QuantityOn(e)) <= MAXIMUM_EXACT
    && 0 <= ledger[e].amount + SumBy(adjustments, AmountOn(e)) <= MAXIMUM_EXACT
  }

  ghost predicate Inv(w: World) {
    && ExecutionInv(w.requests, w.attempts)
    && OutboxInv(w.attempts, w.outbox)
    && TopicInv(w.outbox, w.topic)
    && RelayInv(w.outbox, w.relays, w.topic)
    && LedgerInv(w.prices, w.outbox, w.receipts, w.ledger)
    && OffsetInv(w.topic, w.ledger, w.sessions, w.offset)
    && AdjustmentInv(w.requests, w.ledger, w.adjustments)
  }

  // ---- execution moves ---------------------------------------------------------------

  /** Corrections look at nothing of a request but its scope. */
  lemma RequestsMove(requests: map<RequestId, RequestRow>, requests': map<RequestId, RequestRow>,
                     ledger: map<EventId, LedgerRow>, adjustments: seq<Adjustment>)
    requires AdjustmentInv(requests, ledger, adjustments)
    requires forall r :: r in requests ==> r in requests' && requests'[r].scope == requests[r].scope
    ensures AdjustmentInv(requests', ledger, adjustments)
  {
    hide ResultHolds, InRange;
  }

  lemma StartKeepsExecution(requests: map<RequestId, RequestRow>, attempts: map<AttemptId, AttemptRow>, r: RequestId,
                            a: AttemptId, d: DeploymentId)
    requires ExecutionInv(requests, attempts) && r in requests && a !in attempts
    ensures ExecutionInv(requests[r := requests[r].(attempts := requests[r].attempts + [a])],
                         attempts[a := AttemptRow(r, d, false, map[], 0)])
  {
    var requests' := requests[r := requests[r].(attempts := requests[r].attempts + [a])];
    assert requests'[r].attempts[|requests[r].attempts|] == a;
    assert forall x :: x in requests[r].attempts ==> x in requests'[r].attempts;
  }

  lemma StartKeepsOutbox(attempts: map<AttemptId, AttemptRow>, outbox: map<EventId, OutboxRow>, r: RequestId,
                         a: AttemptId, d: DeploymentId)
    requires OutboxInv(attempts, outbox) && a !in attempts
    ensures OutboxInv(attempts[a := AttemptRow(r, d, false, map[], 0)], outbox)
  {
  }

  lemma StartAttemptKeeps(w: World, r: RequestId, a: AttemptId, d: DeploymentId)
    requires Inv(w)
    ensures Inv(StartAttempt(w, r, a, d))
  {
    hide ExecutionInv, OutboxInv, TopicInv, RelayInv, LedgerInv, OffsetInv, AdjustmentInv;
    if r in w.requests && !w.requests[r].terminal && a !in w.attempts {
      StartKeepsExecution(w.requests, w.attempts, r, a, d);
      StartKeepsOutbox(w.attempts, w.outbox, r, a, d);
      RequestsMove(w.requests, StartAttempt(w, r, a, d).requests, w.ledger, w.adjustments);
    }
  }

  lemma OutboxGrows(outbox: map<EventId, OutboxRow>, more: map<EventId, OutboxRow>, w: World)
    requires outbox == w.outbox + more && w.outbox.Keys !! more.Keys
    requires forall e :: e in more ==> more[e].status.Pending?
    requires TopicInv(w.outbox, w.topic) && RelayInv(w.outbox, w.relays, w.topic)
             && LedgerInv(w.prices, w.outbox, w.receipts, w.ledger)
    ensures TopicInv(outbox, w.topic) && RelayInv(outbox, w.relays, w.topic)
            && LedgerInv(w.prices, outbox, w.receipts, w.ledger)
  {
    hide Priced;
  }

  lemma NewRowsAre(a: AttemptId, row: AttemptRow)
    ensures forall e :: e in NewRows(a, row) <==> e.attempt == a && e.tokenType in Billable(row.usage)
    ensures forall e :: e in NewRows(a, row) ==>
              NewRows(a, row)[e] == OutboxRow(EventOf(a, row, e.tokenType), Pending(row.observedAt), 0)
  {
    forall e: EventId | e.attempt == a && e.tokenType in Billable(row.usage) ensures e in NewRows(a, row) {
      assert e == EventId(a, e.tokenType);
    }
  }

  lemma CompleteKeepsExecution(requests: map<RequestId, RequestRow>, attempts: map<AttemptId, AttemptRow>, a: AttemptId,
                               row: AttemptRow)
    requires ExecutionInv(requests, attempts) && a in attempts && ValidUsage(row.usage)
    requires row.request == attempts[a].request && row.ended
    ensures ExecutionInv(requests, attempts[a := row])
  {
  }

  lemma TerminalKeepsExecution(requests: map<RequestId, RequestRow>, attempts: map<AttemptId, AttemptRow>, r: RequestId)
    requires ExecutionInv(requests, attempts) && r in requests
    ensures ExecutionInv(requests[r := requests[r].(terminal := true)], attempts)
  {
  }

  lemma CompleteKeepsOutbox(attempts: map<AttemptId, AttemptRow>, outbox: map<EventId, OutboxRow>, a: AttemptId,
                            row: AttemptRow)
    requires OutboxInv(attempts, outbox) && a in attempts && attempts[a].usage == map[]
    ensures outbox.Keys !! NewRows(a, row).Keys
    ensures OutboxInv(attempts[a := row], outbox + NewRows(a, row))
  {
    hide NewRows;
    NewRowsAre(a, row);
  }

  lemma CompleteKeeps(w: World, a: AttemptId, usage: Usage, observedAt: int, forRetry: bool)
    requires Inv(w)
    ensures Inv(CompleteAttempt(w, a, usage, observedAt, forRetry))
  {
    hide OutboxInv, TopicInv, RelayInv, LedgerInv, OffsetInv, AdjustmentInv, NewRows, ValidUsage, ExecutionInv;
    var w' := CompleteAttempt(w, a, usage, observedAt, forRetry);
    if w' != w {
      var row := w.attempts[a].(ended := true, usage := usage, observedAt := observedAt);
      Unused(w, a);
      CompleteKeepsExecution(w.requests, w.attempts, a, row);
      if !forRetry {
        TerminalKeepsExecution(w.requests, w'.attempts, row.request);
      }
      CompleteKeepsOutbox(w.attempts, w.outbox, a, row);
      NewRowsAre(a, row);
      OutboxGrows(w'.outbox, NewRows(a, row), w);
      RequestsMove(w.requests, w'.requests, w.ledger, w.adjustments);
    }
  }

  lemma Unused(w: World, a: AttemptId)
    requires ExecutionInv(w.requests, w.attempts) && a in w.attempts && !w.attempts[a].ended
    ensures w.attempts[a].usage == map[]
  {
  }

  lemma PriceKeeps(w: World, id: VersionId, version: Version)
    requires Inv(w) && id !in w.prices && version.Valid()
    ensures Inv(w.(prices := w.prices[id := version]))
  {
    hide ExecutionInv, OutboxInv, TopicInv, RelayInv, OffsetInv, AdjustmentInv;
  }

  lemma EndRequestKeeps(w: World, r: RequestId)
    requires Inv(w) && r in w.requests
    ensures Inv(w.(requests := w.requests[r := w.requests[r].(terminal := true)]))
  {
    hide ExecutionInv, OutboxInv, TopicInv, RelayInv, LedgerInv, OffsetInv, AdjustmentInv;
    TerminalKeepsExecution(w.requests, w.attempts, r);
    RequestsMove(w.requests, w.requests[r := w.requests[r].(terminal := true)], w.ledger, w.adjustments);
  }

  lemma StartRequestKeeps(w: World, r: RequestId, scope: nat)
    requires Inv(w) && r !in w.requests
    ensures Inv(w.(requests := w.requests[r := RequestRow(scope, [], false)]))
  {
    hide OutboxInv, TopicInv, RelayInv, LedgerInv, OffsetInv, ResultHolds, InRange;
  }

  // ---- relay moves -------------------------------------------------------------------

  /** Rows keep their events and become published only when on the topic. */
  ghost predicate SameEvents(outbox: map<EventId, OutboxRow>, outbox': map<EventId, OutboxRow>) {
    outbox.Keys == outbox'.Keys && forall e :: e in outbox ==> outbox'[e].event == outbox[e].event
  }

  lemma OutboxMoves(w: World, outbox: map<EventId, OutboxRow>)
    requires SameEvents(w.outbox, outbox) && OutboxInv(w.attempts, w.outbox) && TopicInv(w.outbox, w.topic)
    requires LedgerInv(w.prices, w.outbox, w.receipts, w.ledger)
    ensures OutboxInv(w.attempts, outbox) && TopicInv(outbox, w.topic)
            && LedgerInv(w.prices, outbox, w.receipts, w.ledger)
  {
    hide Priced;
  }

  lemma ClaimKeeps(w: World, lease: LeaseId, now: int, expires: int, reclaim: set<EventId>, take: set<EventId>)
    requires Inv(w)
    ensures Inv(Claim(w, lease, now, expires, reclaim, take))
  {
    hide ExecutionInv, OutboxInv, TopicInv, LedgerInv, OffsetInv, AdjustmentInv, OnTopic;
    var w' := Claim(w, lease, now, expires, reclaim, take);
    OutboxMoves(w, w'.outbox);
  }

  lemma DeliverKeeps(w: World, lease: LeaseId, e: EventId, acknowledged: bool)
    requires Inv(w)
    ensures Inv(Deliver(w, lease, e, acknowledged))
  {
    hide ExecutionInv, LedgerInv, AdjustmentInv;
    var w' := Deliver(w, lease, e, acknowledged);
    if w' != w {
      assert w'.topic[|w.topic|].id == e;
      forall x | OnTopic(w.topic, x) ensures OnTopic(w'.topic, x) {
        var i :| 0 <= i < |w.topic| && w.topic[i].id == x;
        assert w'.topic[i].id == x;
      }
      assert OnTopic(w'.topic, e);
    }
  }

  lemma LetGo(outbox: map<EventId, OutboxRow>, relays: map<LeaseId, map<EventId, bool>>, topic: seq<UsageEvent>,
              lease: LeaseId, e: EventId)
    requires RelayInv(outbox, relays, topic) && lease in relays
    ensures RelayInv(outbox, relays[lease := relays[lease] - {e}], topic)
  {
    hide OnTopic;
  }

  lemma RowMoves(outbox: map<EventId, OutboxRow>, relays: map<LeaseId, map<EventId, bool>>, topic: seq<UsageEvent>,
                 e: EventId, row: OutboxRow)
    requires RelayInv(outbox, relays, topic) && e in outbox && row.event == outbox[e].event
    requires row.status.Published? ==> OnTopic(topic, e)
    ensures RelayInv(outbox[e := row], relays, topic) && SameEvents(outbox, outbox[e := row])
  {
    hide OnTopic;
  }

  lemma Acknowledged(w: World, lease: LeaseId, e: EventId)
    requires RelayInv(w.outbox, w.relays, w.topic) && InHand(w, lease, e) && w.relays[lease][e]
    ensures OnTopic(w.topic, e)
  {
  }

  lemma MarkPublishedKeeps(w: World, lease: LeaseId, e: EventId)
    requires Inv(w)
    ensures Inv(MarkPublished(w, lease, e))
  {
    hide ExecutionInv, OutboxInv, TopicInv, RelayInv, LedgerInv, OffsetInv, AdjustmentInv, SameEvents, OnTopic;
    if InHand(w, lease, e) && w.relays[lease][e] {
      LetGo(w.outbox, w.relays, w.topic, lease, e);
      if Owns(w, lease, e) {
        var row := w.outbox[e].(status := Published);
        Acknowledged(w, lease, e);
        RowMoves(w.outbox, w.relays[lease := w.relays[lease] - {e}], w.topic, e, row);
        OutboxMoves(w, w.outbox[e := row]);
      }
    }
  }

  lemma MarkRetryKeeps(w: World, lease: LeaseId, e: EventId, at: int)
    requires Inv(w)
    ensures Inv(MarkRetry(w, lease, e, at))
  {
    hide ExecutionInv, OutboxInv, TopicInv, RelayInv, LedgerInv, OffsetInv, AdjustmentInv, SameEvents, OnTopic;
    if InHand(w, lease, e) && !w.relays[lease][e] {
      LetGo(w.outbox, w.relays, w.topic, lease, e);
      if Owns(w, lease, e) {
        var row := OutboxRow(w.outbox[e].event, Pending(at), w.outbox[e].publishAttempts + 1);
        RowMoves(w.outbox, w.relays[lease := w.relays[lease] - {e}], w.topic, e, row);
        OutboxMoves(w, w.outbox[e := row]);
      }
    }
  }

  lemma CrashKeeps(w: World, lease: LeaseId)
    requires Inv(w)
    ensures Inv(Crash(w, lease))
  {
    hide ExecutionInv, OutboxInv, TopicInv, LedgerInv, OffsetInv, AdjustmentInv, OnTopic;
  }

  /** A relay whose lease was reclaimed, or whose row another relay holds, cannot
      advance the row: it only lets go of the event. */
  lemma LostLeaseCannotAdvance(w: World, lease: LeaseId, e: EventId, at: int)
    requires !Owns(w, lease, e)
    ensures MarkPublished(w, lease, e).outbox == w.outbox == MarkRetry(w, lease, e, at).outbox
    ensures MarkPublished(w, lease, e).topic == w.topic == MarkRetry(w, lease, e, at).topic
  {
  }

  // ---- consumer moves ----------------------------------------------------------------

  lemma InsertKeepsLedger(prices: map<VersionId, Version>, outbox: map<EventId, OutboxRow>, receipts: map<EventId,
                          UsageEvent>,
                          ledger: map<EventId, LedgerRow>, row: LedgerRow)
    requires LedgerInv(prices, outbox, receipts, ledger) && Priced(prices, row)
    requires row.event.id in outbox && outbox[row.event.id].event == row.event
    ensures LedgerInv(prices, outbox, receipts[row.event.id := row.event], ledger[row.event.id := row])
  {
    hide Priced;
  }

  lemma InsertKeepsOffsets(w: World, row: LedgerRow)
    requires OffsetInv(w.topic, w.ledger, w.sessions, w.offset)
    ensures OffsetInv(w.topic, w.ledger[row.event.id := row], w.sessions, w.offset)
  {
  }

  lemma PricedInRange(prices: map<VersionId, Version>, row: LedgerRow)
    requires Priced(prices, row)
    ensures 1 <= row.event.quantity <= MAXIMUM_EXACT && row.amount <= MAXIMUM_EXACT
  {
  }

  lemma InsertKeepsAdjustments(w: World, row: LedgerRow)
    requires AdjustmentInv(w.requests, w.ledger, w.adjustments) && row.event.id !in w.ledger
    requires !Carried(w.adjustments, OfEvent(row.event.id))
    requires 1 <= row.event.quantity <= MAXIMUM_EXACT && row.amount <= MAXIMUM_EXACT
    ensures AdjustmentInv(w.requests, w.ledger[row.event.id := row], w.adjustments)
  {
    var e := row.event.id;
    SumSeqZero(w.adjustments, QuantityOn(e));
    SumSeqZero(w.adjustments, AmountOn(e));
    var ledger := w.ledger[e := row];
    forall i | 0 <= i < |w.adjustments| ensures ResultHolds(ledger, w.adjustments, i) {
      assert ResultHolds(w.ledger, w.adjustments, i);
    }
    forall x | x in ledger ensures InRange(ledger, w.adjustments, x) {
      assert x in w.ledger ==> InRange(w.ledger, w.adjustments, x);
    }
  }

  /** Some version prices the event. */
  ghost predicate Priceable(w: World, event: UsageEvent) {
    exists v :: IsEffective(w.prices, event, v)
      && CalculateAmountMicros(event.quantity, w.prices[v].rates[event.id.tokenType]).Amount?
  }

  /** Processing keeps the invariant. A record of the topic is priced once, recognised
      ever after, or waits for a price, unless a correction carries its identifier: then
      it is never priced, and conflicts as soon as there is a price for it. */
  lemma ProcessIsSafe(w: World, event: UsageEvent)
    requires Inv(w) && event.id in w.outbox && w.outbox[event.id].event == event
    ensures var (w', o) := Process(w, event);
            && Inv(w') && !o.ReceiptWithoutLedger?
            && (o.Replayed? <==> event.id in w.ledger)
            && (o.Inserted? <==>
                  event.id !in w.ledger && Priceable(w, event) && !Carried(w.adjustments, OfEvent(event.id)))
            && (o.EventConflict? <==>
                  event.id !in w.ledger && Priceable(w, event) && Carried(w.adjustments, OfEvent(event.id)))
            && (o.PriceUnavailable? <==> event.id !in w.ledger && !Priceable(w, event))
            && (o.Inserted? || o.Replayed? ==>
                  event.id in w'.ledger && o.row == w'.ledger[event.id] && o.row.event == event)
            && (o.Inserted? <==> event.id !in w.ledger && event.id in w'.ledger)
            && (!o.Inserted? ==> w' == w)
            && (o.Inserted? ==>
                  w' == w.(receipts := w.receipts[event.id := event], ledger := w.ledger[event.id := o.row]))
  {
    hide ExecutionInv, OutboxInv, TopicInv, RelayInv, OffsetInv, AdjustmentInv, Effective, CalculateAmountMicros,
         Trusted, Carried, IsEffective;
    var (w', o) := Process(w, event);
    EventIsTrusted(w, event);
    EffectivePrice(w, event);
    if o.Inserted? {
      var row := o.row;
      assert Priced(w.prices, row);
      PricedInRange(w.prices, row);
      InsertKeepsLedger(w.prices, w.outbox, w.receipts, w.ledger, row);
      InsertKeepsOffsets(w, row);
      InsertKeepsAdjustments(w, row);
    }
  }

  lemma EventIsTrusted(w: World, event: UsageEvent)
    requires Inv(w) && event.id in w.outbox && w.outbox[event.id].event == event
    ensures Trusted(w, event)
  {
    hide TopicInv, RelayInv, OffsetInv, AdjustmentInv, LedgerInv;
  }

  lemma EffectivePrice(w: World, event: UsageEvent)
    ensures var v := Effective(w.prices, event);
            && (v.Some? ==> Eligible(w.prices, event, v.value))
            && (Priceable(w, event)
                <==> v.Some?
                     && CalculateAmountMicros(event.quantity, w.prices[v.value].rates[event.id.tokenType]).Amount?)
  {
    hide CalculateAmountMicros;
    if Effective(w.prices, event).Some? {
      var v := Effective(w.prices, event).value;
      assert IsEffective(w.prices, event, v);
      forall u | IsEffective(w.prices, event, u) ensures u == v {
        EffectiveIsUnique(w.prices, event, u, v);
      }
    }
  }

  lemma EffectiveIsUnique(prices: map<VersionId, Version>, event: UsageEvent, u: VersionId, v: VersionId)
    requires IsEffective(prices, event, u) && IsEffective(prices, event, v)
    ensures u == v
  {
  }

  /** A new ledger row is priced at the latest version that was in force when the
      usage was seen, and only the lack of any such price keeps an event waiting. */
  lemma PricedAtLatestVersion(w: World, event: UsageEvent)
    requires Inv(w) && event.id in w.outbox && w.outbox[event.id].event == event && event.id !in w.ledger
    ensures var o := Process(w, event).1;
            && (o.Inserted? ==> IsEffective(w.prices, event, o.row.version))
            && (o.PriceUnavailable? <==> !Priceable(w, event))
  {
    hide TopicInv, RelayInv, OffsetInv, AdjustmentInv, CalculateAmountMicros, Priced;
    assert Trusted(w, event);
    if Effective(w.prices, event).Some? {
      var v := Effective(w.prices, event).value;
      assert IsEffective(w.prices, event, v);
      forall u | IsEffective(w.prices, event, u) ensures u == v {
        EffectiveIsUnique(w.prices, event, u, v);
      }
    }
  }

  lemma SessionAdvances(w: World, s: SessionId, p: nat)
    requires Inv(w) && s in w.sessions && !w.sessions[s].processed && w.sessions[s].position == p
    requires p < |w.topic| && w.topic[p].id in w.ledger
    ensures Inv(w.(sessions := w.sessions[s := Session(p, true)]))
  {
    hide ExecutionInv, OutboxInv, TopicInv, RelayInv, LedgerInv, AdjustmentInv;
  }

  lemma ConsumeKeeps(w: World, s: SessionId)
    requires Inv(w)
    ensures Inv(Consume(w, s))
  {
    hide ExecutionInv, OutboxInv, RelayInv, LedgerInv, OffsetInv, AdjustmentInv, Process;
    if s in w.sessions && !w.sessions[s].processed && w.sessions[s].position < |w.topic| {
      var p := w.sessions[s].position;
      var event := w.topic[p];
      ProcessIsSafe(w, event);
      var (after, o) := Process(w, event);
      if o.Inserted? || o.Replayed? {
        SessionAdvances(after, s, p);
      } else {
        CommitKeeps(after, s);
      }
    }
  }

  lemma CommitKeeps(w: World, s: SessionId)
    requires Inv(w)
    ensures Inv(Commit(w, s)) && Inv(OpenSession(w, s)) && Inv(CloseSession(w, s))
  {
    hide ExecutionInv, OutboxInv, TopicInv, RelayInv, LedgerInv, AdjustmentInv;
  }

  // ---- corrections -------------------------------------------------------------------

  lemma AppendKeepsResults(ledger: map<EventId, LedgerRow>, adjustments: seq<Adjustment>, row: Adjustment, i: nat)
    requires i < |adjustments| && ResultHolds(ledger, adjustments, i)
    ensures ResultHolds(ledger, adjustments + [row], i)
  {
    assert (adjustments + [row])[..i + 1] == adjustments[..i + 1];
  }

  lemma AppendHolds(w: World, c: Command, row: Adjustment)
    requires c.target.OfEvent? && c.target.event in w.ledger && c.Valid() && row.target == c.target.event
    requires row.correctedQuantity == c.correctedQuantity && row.correctedAmount == c.correctedAmount
    requires row.quantityDelta == c.correctedQuantity - CurrentQuantity(w, c.target.event)
    requires row.amountDelta == c.correctedAmount - CurrentAmount(w, c.target.event)
    ensures ResultHolds(w.ledger, w.adjustments + [row], |w.adjustments|)
    ensures InRange(w.ledger, w.adjustments + [row], c.target.event)
  {
    var all := w.adjustments + [row];
    assert all[..|w.adjustments| + 1] == all;
    SumAppend(w.adjustments, row, QuantityOn(c.target.event));
    SumAppend(w.adjustments, row, AmountOn(c.target.event));
  }

  lemma AppendKeepsOthers(ledger: map<EventId, LedgerRow>, adjustments: seq<Adjustment>, row: Adjustment, e: EventId)
    requires e in ledger && InRange(ledger, adjustments, e) && row.target != e
    ensures InRange(ledger, adjustments + [row], e)
  {
    SumAppend(adjustments, row, QuantityOn(e));
    SumAppend(adjustments, row, AmountOn(e));
  }

  lemma AppendKeeps(w: World, c: Command, row: Adjustment)
    requires AdjustmentInv(w.requests, w.ledger, w.adjustments) && c.Valid()
    requires Apply(w, c).1 == Appended(row)
    ensures AdjustmentInv(w.requests, w.ledger, w.adjustments + [row])
  {
    hide ResultHolds, InRange;
    var all := w.adjustments + [row];
    AppendHolds(w, c, row);
    forall i | 0 <= i < |all| ensures all[i].target in w.ledger && ResultHolds(w.ledger, all, i) {
      if i < |w.adjustments| {
        AppendKeepsResults(w.ledger, w.adjustments, row, i);
      }
    }
    forall e | e in w.ledger ensures InRange(w.ledger, all, e) {
      if e != c.target.event {
        AppendKeepsOthers(w.ledger, w.adjustments, row, e);
      }
    }
  }

  lemma ChainIsSound(w: World, e: EventId)
    requires Inv(w) && e in w.ledger
    ensures 1 <= w.ledger[e].event.quantity <= MAXIMUM_EXACT && w.ledger[e].amount <= MAXIMUM_EXACT
    ensures 0 <= CurrentQuantity(w, e) <= MAXIMUM_EXACT && 0 <= CurrentAmount(w, e) <= MAXIMUM_EXACT
  {
    hide ExecutionInv, OutboxInv, TopicInv, RelayInv, OffsetInv, ResultHolds, Priced, CalculateAmountMicros;
    PricedInRange(w.prices, w.ledger[e]);
    assert InRange(w.ledger, w.adjustments, e);
  }

  ghost predicate AppliedTruth(w: World, c: Command, w': World, o: Applied) {
    && (o.Appended? <==> w' != w)
    && (o.Appended? || o.AlreadyApplied? ==>
          o.row in w'.adjustments && Agrees(o.row, c) && o.row.key == c.key && o.row.scope == c.scope)
    && (o.Appended? ==> c.target.OfEvent? && c.target.event in w'.ledger
                        && CurrentQuantity(w', c.target.event) == c.correctedQuantity
                        && CurrentAmount(w', c.target.event) == c.correctedAmount)
  }

  lemma AppendIsTrue(w: World, c: Command)
    requires c.Valid() && Apply(w, c).1.Appended?
    ensures AppliedTruth(w, c, Apply(w, c).0, Apply(w, c).1)
  {
    var (w', o) := Apply(w, c);
    SumAppend(w.adjustments, o.row, QuantityOn(c.target.event));
    SumAppend(w.adjustments, o.row, AmountOn(c.target.event));
    assert w'.adjustments[|w.adjustments|] == o.row;
  }

  /** A correction keeps the chain: the target's current values are those asked for, the
      writer's doubts about its own chain are idle, so that a target is invalid exactly
      if it is a correction, and a replayed or conflicting key appends nothing. */
  lemma ApplyIsSafe(w: World, c: Command)
    requires Inv(w) && c.Valid()
    ensures var (w', o) := Apply(w, c);
            && Inv(w') && AppliedTruth(w, c, w', o)
            && (o.InvalidTarget? <==>
                  FindKey(w.adjustments, c.scope, c.key).None? && TargetsCorrection(w.adjustments, c))
  {
    hide ExecutionInv, OutboxInv, TopicInv, RelayInv, OffsetInv, LedgerInv, AdjustmentInv, CurrentQuantity,
         CurrentAmount;
    var (w', o) := Apply(w, c);
    if TargetsUsage(w, c) {
      ChainIsSound(w, c.target.event);
      UsageIsNoCorrection(w, c);
    }
    if o.Appended? {
      AppendKeeps(w, c, o.row);
      AppendIsTrue(w, c);
    }
  }

  lemma UsageIsNoCorrection(w: World, c: Command)
    requires AdjustmentInv(w.requests, w.ledger, w.adjustments) && TargetsUsage(w, c)
    ensures !TargetsCorrection(w.adjustments, c)
  {
    hide ResultHolds, InRange;
  }

  /** Sending the same correction again returns it and appends nothing. */
  lemma ReplayAppendsNothing(w: World, c: Command)
    requires Inv(w) && c.Valid() && Apply(w, c).1.Appended?
    ensures var (w', o) := Apply(w, c);
            Apply(w', c) == (w', AlreadyApplied(o.row))
  {
    hide Inv;
    var (w', o) := Apply(w, c);
    assert w'.adjustments[|w'.adjustments| - 1] == o.row;
  }

  // ---- runs --------------------------------------------------------------------------

  lemma StepKeeps(w: World, m: Move)
    requires Inv(w)
    ensures Inv(Step(w, m))
  {
    hide Inv, Apply, StartAttempt, CompleteAttempt, Claim, Deliver, MarkPublished, MarkRetry, Crash, OpenSession,
         Consume, Commit, CloseSession;
    match m
    case StartRequestMove(r, scope) => if r !in w.requests { StartRequestKeeps(w, r, scope); }
    case StartAttemptMove(r, a, d) => StartAttemptKeeps(w, r, a, d);
    case CompleteMove(a, usage, observedAt, forRetry) => CompleteKeeps(w, a, usage, observedAt, forRetry);
    case EndRequestMove(r) => if r in w.requests { EndRequestKeeps(w, r); }
    case PriceMove(id, version) => if id !in w.prices && version.Valid() { PriceKeeps(w, id, version); }
    case ClaimMove(lease, now, expires, reclaim, take) => ClaimKeeps(w, lease, now, expires, reclaim, take);
    case DeliverMove(lease, e, acknowledged) => DeliverKeeps(w, lease, e, acknowledged);
    case PublishedMove(lease, e) => MarkPublishedKeeps(w, lease, e);
    case RetryMove(lease, e, at) => MarkRetryKeeps(w, lease, e, at);
    case CrashMove(lease) => CrashKeeps(w, lease);
    case OpenMove(s) => CommitKeeps(w, s);
    case ConsumeMove(s) => ConsumeKeeps(w, s);
    case CommitMove(s) => CommitKeeps(w, s);
    case CloseMove(s) => CommitKeeps(w, s);
    case AdjustMove(c) => if c.Valid() { ApplyIsSafe(w, c); }
  }

  lemma {:induction false} EveryRunIsSafe(w: World, moves: seq<Move>)
    requires Inv(w)
    ensures Inv(Run(w, moves))
    decreases |moves|
  {
    hide Inv, Step;
    if moves != [] {
      StepKeeps(w, moves[0]);
      EveryRunIsSafe(Step(w, moves[0]), moves[1..]);
    }
  }

  lemma EmptyIsSafe()
    ensures Inv(EMPTY)
  {
  }

  /** After any run at all from an empty system: what is marked published is on
      the topic; receipts and ledger rows are paired, one per event, each holding
      the event as its attempt reported it and its exact price; every record below
      the committed offset has one; and every corrected value is in range. */
  lemma EveryRunChargesOnce(moves: seq<Move>)
    ensures var w := Run(EMPTY, moves);
            && (forall e :: e in w.outbox && w.outbox[e].status.Published? ==> OnTopic(w.topic, e))
            && (forall e :: e in w.receipts <==> e in w.ledger)
            && (forall e :: e in w.ledger ==>
                  && e.attempt in w.attempts && e.tokenType in w.attempts[e.attempt].usage
                  && w.ledger[e].event == EventOf(e.attempt, w.attempts[e.attempt], e.tokenType)
                  && Priced(w.prices, w.ledger[e]))
            && w.offset <= |w.topic| && (forall i :: 0 <= i < w.offset ==> w.topic[i].id in w.ledger)
            && (forall e :: e in w.ledger ==>
                  0 <= CurrentQuantity(w, e) <= MAXIMUM_EXACT && 0 <= CurrentAmount(w, e) <= MAXIMUM_EXACT)
  {
    hide ExecutionInv, Priced, ResultHolds;
    EmptyIsSafe();
    EveryRunIsSafe(EMPTY, moves);
    var w := Run(EMPTY, moves);
    forall e | e in w.ledger
      ensures 0 <= CurrentQuantity(w, e) <= MAXIMUM_EXACT && 0 <= CurrentAmount(w, e) <= MAXIMUM_EXACT
    {
      ChainIsSound(w, e);
    }
  }

  // ---- leases ------------------------------------------------------------------------

  /** Reclaiming an event takes it from the relay that held it. */
  lemma ReclaimTakesTheLease(w: World, lease: LeaseId, now: int, expires: int, reclaim: set<EventId>,
                             take: set<EventId>, e: EventId, held: LeaseId)
    requires lease !in w.relays && held in w.relays && e in reclaim
    requires forall x :: x in reclaim ==> Reclaimable(w, x, now)
    requires forall x :: x in take ==> Claimable(Reclaimed(w.outbox, reclaim, now), x, now)
    ensures !Owns(Claim(w, lease, now, expires, reclaim, take), held, e)
  {
  }

  lemma ProcessFrame(w: World, event: UsageEvent)
    ensures Process(w, event).0.relays == w.relays && Process(w, event).0.outbox == w.outbox
    ensures Process(w, event).0.topic == w.topic
  {
    hide Effective, CalculateAmountMicros, Eligible, Trusted;
  }

  lemma ConsumeFrame(w: World, s: SessionId)
    ensures Consume(w, s).relays == w.relays && Consume(w, s).outbox == w.outbox && Consume(w, s).topic == w.topic
  {
    hide Process, AwaitCommit, CloseSession;
    if s in w.sessions && w.sessions[s].position < |w.topic| {
      var event := w.topic[w.sessions[s].position];
      ProcessFrame(w, event);
      SessionsFrame(Process(w, event).0, s, w.sessions[s].position);
    }
  }

  lemma SessionsFrame(w: World, s: SessionId, position: nat)
    ensures AwaitCommit(w, s, position) == w.(sessions := AwaitCommit(w, s, position).sessions)
    ensures CloseSession(w, s) == w.(sessions := CloseSession(w, s).sessions)
  {
  }

  lemma ApplyFrame(w: World, c: Command)
    requires c.Valid()
    ensures Apply(w, c).0.relays == w.relays && Apply(w, c).0.outbox == w.outbox
  {
    hide CurrentQuantity, CurrentAmount, FindKey, Agrees;
  }

  predicate IsRelayMove(m: Move) {
    m.ClaimMove? || m.DeliverMove? || m.PublishedMove? || m.RetryMove? || m.CrashMove? || m.CompleteMove?
  }

  lemma QuietMove(w: World, m: Move)
    requires !IsRelayMove(m)
    ensures Step(w, m).relays == w.relays && Step(w, m).outbox == w.outbox
  {
    hide Consume, Apply;
    match m
    case ConsumeMove(s) => ConsumeFrame(w, s);
    case AdjustMove(c) => if c.Valid() { ApplyFrame(w, c); }
    case _ =>
  }

  lemma CompletionTakesNoLease(w: World, a: AttemptId, usage: Usage, observedAt: int, forRetry: bool, lease: LeaseId,
                               e: EventId)
    requires !Owns(w, lease, e)
    ensures !Owns(CompleteAttempt(w, a, usage, observedAt, forRetry), lease, e)
    ensures CompleteAttempt(w, a, usage, observedAt, forRetry).relays == w.relays
  {
    hide NewRows, ValidUsage;
    if a in w.attempts {
      NewRowsAre(a, w.attempts[a].(ended := true, usage := usage, observedAt := observedAt));
    }
  }

  lemma ClaimTakesFreshLease(w: World, lease': LeaseId, now: int, expires: int, reclaim: set<EventId>,
                             take: set<EventId>, lease: LeaseId, e: EventId)
    requires lease in w.relays && !Owns(w, lease, e)
    ensures var w' := Claim(w, lease', now, expires, reclaim, take);
            lease in w'.relays && !Owns(w', lease, e)
  {
  }

  /** At most the row of x changed, and to no lease at all. */
  ghost predicate OnlyFrees(w: World, w': World, x: EventId) {
    && w.relays.Keys == w'.relays.Keys
    && (w'.outbox == w.outbox
        || (x in w.outbox && exists row: OutboxRow :: !row.status.Publishing? && w'.outbox == w.outbox[x := row]))
  }

  lemma NoLeaseAfter(w: World, w': World, x: EventId, lease: LeaseId, e: EventId)
    requires OnlyFrees(w, w', x) && lease in w.relays && !Owns(w, lease, e)
    ensures lease in w'.relays && !Owns(w', lease, e)
  {
  }

  lemma PublishedEffect(w: World, lease: LeaseId, x: EventId)
    ensures OnlyFrees(w, MarkPublished(w, lease, x), x)
  {
    if InHand(w, lease, x) && w.relays[lease][x] {
      var done := Forget(w, lease, x);
      assert done.relays.Keys == w.relays.Keys;
      if Owns(w, lease, x) {
        var row := w.outbox[x].(status := Published);
        assert MarkPublished(w, lease, x) == done.(outbox := w.outbox[x := row]);
      }
    }
  }

  lemma RetryEffect(w: World, lease: LeaseId, x: EventId, at: int)
    ensures OnlyFrees(w, MarkRetry(w, lease, x, at), x)
  {
    if InHand(w, lease, x) && !w.relays[lease][x] {
      var done := Forget(w, lease, x);
      assert done.relays.Keys == w.relays.Keys;
      if Owns(w, lease, x) {
        var row := OutboxRow(w.outbox[x].event, Pending(at), w.outbox[x].publishAttempts + 1);
        assert MarkRetry(w, lease, x, at) == done.(outbox := w.outbox[x := row]);
      }
    }
  }

  lemma PublishedTakesNoLease(w: World, other: LeaseId, x: EventId, lease: LeaseId, e: EventId)
    requires lease in w.relays && !Owns(w, lease, e)
    ensures var w' := MarkPublished(w, other, x);
            lease in w'.relays && !Owns(w', lease, e)
  {
    hide Owns;
    PublishedEffect(w, other, x);
    NoLeaseAfter(w, MarkPublished(w, other, x), x, lease, e);
  }

  lemma RetryTakesNoLease(w: World, other: LeaseId, x: EventId, at: int, lease: LeaseId, e: EventId)
    requires lease in w.relays && !Owns(w, lease, e)
    ensures var w' := MarkRetry(w, other, x, at);
            lease in w'.relays && !Owns(w', lease, e)
  {
    hide Owns;
    RetryEffect(w, other, x, at);
    NoLeaseAfter(w, MarkRetry(w, other, x, at), x, lease, e);
  }

  lemma DeliveryTakesNoLease(w: World, other: LeaseId, x: EventId, acknowledged: bool, lease: LeaseId, e: EventId)
    requires lease in w.relays && !Owns(w, lease, e)
    ensures var w' := Deliver(w, other, x, acknowledged);
            lease in w'.relays && !Owns(w', lease, e)
  {
  }

  lemma CrashTakesNoLease(w: World, other: LeaseId, lease: LeaseId, e: EventId)
    requires lease in w.relays && !Owns(w, lease, e)
    ensures var w' := Crash(w, other);
            lease in w'.relays && !Owns(w', lease, e)
  {
  }

  lemma LostStaysLostStep(w: World, m: Move, lease: LeaseId, e: EventId)
    requires lease in w.relays && !Owns(w, lease, e)
    ensures lease in Step(w, m).relays && !Owns(Step(w, m), lease, e)
  {
    hide Consume, Apply, CompleteAttempt, Claim, MarkPublished, MarkRetry, Deliver, Crash, StartAttempt, Commit,
         OpenSession, CloseSession;
    match m
    case CompleteMove(a, usage, observedAt, forRetry) => CompletionTakesNoLease(w, a, usage, observedAt, forRetry,
                                                                                lease, e);
    case ClaimMove(l, now, expires, reclaim, take) => ClaimTakesFreshLease(w, l, now, expires, reclaim, take, lease, e);
    case DeliverMove(l, x, acknowledged) => DeliveryTakesNoLease(w, l, x, acknowledged, lease, e);
    case PublishedMove(l, x) => PublishedTakesNoLease(w, l, x, lease, e);
    case RetryMove(l, x, at) => RetryTakesNoLease(w, l, x, at, lease, e);
    case CrashMove(l) => CrashTakesNoLease(w, l, lease, e);
    case _ => QuietMove(w, m);
  }

  /** A lease once lost never comes back, so its relay can never again advance
      the row, however long it lingers. */
  lemma {:induction false} LostStaysLost(w: World, moves: seq<Move>, lease: LeaseId, e: EventId)
    requires lease in w.relays && !Owns(w, lease, e)
    ensures lease in Run(w, moves).relays && !Owns(Run(w, moves), lease, e)
    decreases |moves|
  {
    hide Step, Owns;
    if moves != [] {
      LostStaysLostStep(w, moves[0], lease, e);
      LostStaysLost(Step(w, moves[0]), moves[1..], lease, e);
    }
  }

  /** Whatever happens after an event was reclaimed, the relay that had held it can mark it
      neither published nor to be retried: in every later state of every run, its marks
      change no row. */
  lemma ReclaimedRelayIsPowerless(w: World, lease: LeaseId, now: int, expires: int, reclaim: set<EventId>,
                                  take: set<EventId>,
                                  e: EventId, held: LeaseId, moves: seq<Move>, at: int)
    requires lease !in w.relays && held in w.relays && e in reclaim
    requires forall x :: x in reclaim ==> Reclaimable(w, x, now)
    requires forall x :: x in take ==> Claimable(Reclaimed(w.outbox, reclaim, now), x, now)
    ensures var later := Run(Claim(w, lease, now, expires, reclaim, take), moves);
            && MarkPublished(later, held, e).outbox == later.outbox == MarkRetry(later, held, e, at).outbox
            && MarkPublished(later, held, e).topic == later.topic == MarkRetry(later, held, e, at).topic
  {
    hide Owns, Run, MarkPublished, MarkRetry;
    var w' := Claim(w, lease, now, expires, reclaim, take);
    ReclaimTakesTheLease(w, lease, now, expires, reclaim, take, e, held);
    LostStaysLost(w', moves, held, e);
    LostLeaseCannotAdvance(Run(w', moves), held, e, at);
  }
}
