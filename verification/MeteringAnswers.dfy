/** What the writers of the metering tables answer and leave behind, in terms of the rows
    and of what the caller sent, and what a whole run charges for. */
module MeteringAnswers {
  import opened Wrappers
  import opened Sums
  import opened Pricing
  import opened MeteringModel
  import opened MeteringSafety
  import opened MeteringCost
  import opened MeteringAggregate

  // 2^53 - 1
  const EXACT: nat := 0x20_0000_0000_0000 - 1

  // ---- attempts -------------------------------------------------------------------

  /** Usage that an attempt may report: token counts in the exact-integer range. */
  predicate Reportable(usage: Usage) {
    forall t :: t in usage ==>
      !t.ImageInput? && !t.ImageOutput? && !t.UnknownTokens? && 0 <= usage[t] <= EXACT
  }

  predicate OpenRequest(w: World, r: RequestId) {
    r in w.requests && !w.requests[r].terminal
  }

  predicate OpenAttempt(w: World, a: AttemptId) {
    a in w.attempts && !w.attempts[a].ended
  }

  /** The completion takes effect. */
  predicate CanEnd(w: World, a: AttemptId, usage: Usage, forRetry: bool) {
    OpenAttempt(w, a) && Reportable(usage) && (forRetry || OpenRequest(w, w.attempts[a].request))
  }

  /** An attempt starts exactly on an open request and under a new identifier, last among
      the attempts of the request. */
  lemma StartIsExact(w: World, r: RequestId, a: AttemptId, d: DeploymentId)
    ensures var w' := StartAttempt(w, r, a, d);
            if OpenRequest(w, r) && a !in w.attempts then
              && w'.attempts == w.attempts[a := AttemptRow(r, d, false, map[], 0)]
              && w'.requests == w.requests[r := RequestRow(w.requests[r].scope, w.requests[r].attempts + [a], false)]
              && w' == w.(attempts := w'.attempts, requests := w'.requests)
            else w' == w
  {
  }

  /** What one completion leaves of the attempt and its events. */
  ghost predicate Completed(w: World, w': World, a: AttemptId, usage: Usage, at: int, forRetry: bool)
    requires a in w.attempts
  {
    var AttemptRow(r, d, _, _, _) := w.attempts[a];
    && w'.attempts == w.attempts[a := AttemptRow(r, d, true, usage, at)]
    && (forRetry ==> w'.requests == w.requests)
    && (!forRetry ==> r in w.requests
                      && w'.requests == w.requests[r := RequestRow(w.requests[r].scope, w.requests[r].attempts, true)])
    && (forall t :: EventId(a, t) in w'.outbox <==> t in usage && usage[t] > 0)
    && (forall t :: t in usage && usage[t] > 0 ==>
          w'.outbox[EventId(a, t)] == OutboxRow(UsageEvent(EventId(a, t), r, d, usage[t], at), Pending(at), 0))
    && (forall e: EventId :: e.attempt != a ==> (e in w'.outbox <==> e in w.outbox))
    && (forall e: EventId :: e.attempt != a && e in w.outbox ==> w'.outbox[e] == w.outbox[e])
    && w' == w.(attempts := w'.attempts, requests := w'.requests, outbox := w'.outbox)
  }

  /** A completion records the usage it carries, with one event for each positive dimension
      and for no other; one that cannot take effect changes nothing. */
  lemma CompleteIsExact(w: World, a: AttemptId, usage: Usage, at: int, forRetry: bool)
    requires Inv(w)
    ensures var w' := CompleteAttempt(w, a, usage, at, forRetry);
            if CanEnd(w, a, usage, forRetry) then Completed(w, w', a, usage, at, forRetry) else w' == w
  {
    hide ExecutionInv, TopicInv, RelayInv, LedgerInv, OffsetInv, AdjustmentInv, NewRows, ValidUsage;
    UsageIsValid(usage);
    if CanEnd(w, a, usage, forRetry) {
      Unused(w, a);
      var row := AttemptRow(w.attempts[a].request, w.attempts[a].deployment, true, usage, at);
      NewRowsAre(a, row);
      NoneBefore(w, a);
    }
  }

  lemma NoneBefore(w: World, a: AttemptId)
    requires OutboxInv(w.attempts, w.outbox) && a in w.attempts && w.attempts[a].usage == map[]
    ensures forall t :: EventId(a, t) !in w.outbox
  {
  }

  lemma UsageIsValid(usage: Usage)
    ensures ValidUsage(usage) ==> forall t :: t in usage && usage[t] != 0 ==> usage[t] > 0
    ensures ValidUsage(usage) <==> Reportable(usage)
  {
    forall t: TokenType ensures t in DIMENSIONS <==> !t.ImageInput? && !t.ImageOutput? && !t.UnknownTokens? {
      assert DIMENSIONS[0] == InputTokens && DIMENSIONS[1] == OutputTokens && DIMENSIONS[2] == CacheRead;
      assert DIMENSIONS[3] == CacheWrite && DIMENSIONS[4] == Reasoning && DIMENSIONS[5] == AudioInput;
      assert DIMENSIONS[6] == AudioOutput;
    }
  }

  // ---- corrections ----------------------------------------------------------------

  /** A correction under this key in this scope. */
  predicate UsesKey(w: World, i: nat, c: Command) {
    i < |w.adjustments| && w.adjustments[i].scope == c.scope && w.adjustments[i].key == c.key
  }

  /** The target is this usage row, of a request of the caller's scope. */
  predicate SeesUsage(w: World, e: EventId, c: Command) {
    && c.target == OfEvent(e) && e in w.ledger && w.ledger[e].event.request in w.requests
    && w.requests[w.ledger[e].event.request].scope == c.scope
  }

  predicate SeesCorrection(w: World, i: nat, c: Command) {
    i < |w.adjustments| && w.adjustments[i].id == c.target && w.adjustments[i].scope == c.scope
  }

  /** The identifier belongs to a row already. */
  predicate IdTaken(w: World, id: LedgerId) {
    (exists i :: 0 <= i < |w.adjustments| && w.adjustments[i].id == id) || (id.OfEvent? && id.event in w.ledger)
  }

  /** The quantity and the amount that a usage row stands at. */
  ghost predicate StandsAt(w: World, e: EventId, quantity: int, amount: int)
    requires e in w.ledger
  {
    CurrentQuantity(w, e) == quantity && CurrentAmount(w, e) == amount
  }

  /** A command under a used key repeats the correction, or conflicts with it. */
  lemma RepeatIsExact(w: World, c: Command, i: nat)
    requires Inv(w) && c.Valid() && UsesKey(w, i, c)
    ensures var x := w.adjustments[i];
            var same := x.id == c.id && OfEvent(x.target) == c.target && x.evidence == c.evidence
                        && x.correctedQuantity == c.correctedQuantity && x.correctedAmount == c.correctedAmount;
            Apply(w, c) == (w, if same then AlreadyApplied(x) else AdjustmentConflict)
  {
    hide ExecutionInv, OutboxInv, TopicInv, RelayInv, OffsetInv, LedgerInv, ResultHolds, InRange;
    var found := FindKey(w.adjustments, c.scope, c.key);
    var j :| 0 <= j < |w.adjustments| && w.adjustments[j] == found.value;
    assert i == j;
  }

  /** Under a new key: no change exactly if both current values are asked for; else a
      conflict exactly if the identifier is taken; else exactly this correction is
      appended, its target stands at what was asked for and every other row where it did. */
  lemma ApplyIsExact(w: World, c: Command, e: EventId)
    requires Inv(w) && c.Valid() && (forall i :: !UsesKey(w, i, c)) && SeesUsage(w, e, c)
    ensures var (w', o) := Apply(w, c);
            var quantity, amount := CurrentQuantity(w, e), CurrentAmount(w, e);
            && (o.NoChange? <==> quantity == c.correctedQuantity && amount == c.correctedAmount)
            && (o.AdjustmentConflict? <==> !o.NoChange? && IdTaken(w, c.id))
            && (o.Appended? <==> !o.NoChange? && !IdTaken(w, c.id))
            && (!o.Appended? ==> w' == w)
            && (o.Appended? ==>
                  && o.row == Adjustment(c.id, e, c.key, c.scope, c.evidence, c.correctedQuantity, c.correctedAmount,
                                         c.correctedQuantity - quantity, c.correctedAmount - amount)
                  && w' == w.(adjustments := w.adjustments + [o.row])
                  && StandsAt(w', e, c.correctedQuantity, c.correctedAmount)
                  && forall f :: f in w.ledger && f != e ==>
                       StandsAt(w', f, CurrentQuantity(w, f), CurrentAmount(w, f)))
  {
    hide ExecutionInv, OutboxInv, TopicInv, RelayInv, OffsetInv, LedgerInv, AdjustmentInv, QuantityOn, AmountOn, SumBy;
    KeyIsNew(w, c);
    ChainIsSound(w, e);
    var (w', o) := Apply(w, c);
    if o.Appended? {
      AppendIsTrue(w, c);
      forall f | f in w.ledger && f != e ensures StandsAt(w', f, CurrentQuantity(w, f), CurrentAmount(w, f)) {
        OthersStand(w, o.row, f);
      }
    }
  }

  lemma KeyIsNew(w: World, c: Command)
    requires forall i :: !UsesKey(w, i, c)
    ensures FindKey(w.adjustments, c.scope, c.key).None?
  {
    var found := FindKey(w.adjustments, c.scope, c.key);
    if found.Some? {
      var j :| 0 <= j < |w.adjustments| && w.adjustments[j] == found.value;
      assert UsesKey(w, j, c);
    }
  }

  lemma OthersStand(w: World, x: Adjustment, f: EventId)
    requires f in w.ledger && x.target != f
    ensures StandsAt(w.(adjustments := w.adjustments + [x]), f, CurrentQuantity(w, f), CurrentAmount(w, f))
  {
    SumAppend(w.adjustments, x, QuantityOn(f));
    SumAppend(w.adjustments, x, AmountOn(f));
  }

  /** A row that no correction is about stands at what it was priced at. */
  lemma UncorrectedStands(w: World, e: EventId)
    requires e in w.ledger && forall i :: 0 <= i < |w.adjustments| ==> w.adjustments[i].target != e
    ensures StandsAt(w, e, w.ledger[e].event.quantity, w.ledger[e].amount)
  {
    SumSeqZero(w.adjustments, QuantityOn(e));
    SumSeqZero(w.adjustments, AmountOn(e));
  }

  /** Any other target is invalid exactly if it is a correction that the caller can see,
      and else not found. */
  lemma BadTargetIsExact(w: World, c: Command)
    requires c.Valid() && (forall i :: !UsesKey(w, i, c)) && forall e :: !SeesUsage(w, e, c)
    ensures Apply(w, c) == (w, if exists i :: SeesCorrection(w, i, c) then InvalidTarget else TargetNotFound)
  {
    KeyIsNew(w, c);
    if TargetsUsage(w, c) {
      assert SeesUsage(w, c.target.event, c);
    }
    if TargetsCorrection(w.adjustments, c) {
      var i :| 0 <= i < |w.adjustments| && w.adjustments[i].id == c.target && w.adjustments[i].scope == c.scope;
      assert SeesCorrection(w, i, c);
    }
  }

  // ---- prices ---------------------------------------------------------------------

  /** The version has a token rate for the event and was in force when its usage was seen. */
  predicate InForce(w: World, v: VersionId, event: UsageEvent) {
    && v in w.prices && w.prices[v].deployment == event.deployment && w.prices[v].effectiveAt <= event.observedAt
    && event.id.tokenType in w.prices[v].rates && w.prices[v].rates[event.id.tokenType].unit == TokenUnit
  }

  ghost predicate IsLatest(w: World, v: VersionId, event: UsageEvent) {
    && InForce(w, v, event)
    && forall u: VersionId :: InForce(w, u, event) && u != v ==>
         && w.prices[u].effectiveAt <= w.prices[v].effectiveAt
         && (w.prices[u].effectiveAt == w.prices[v].effectiveAt ==> u < v)
  }

  lemma LatestIsEffective(w: World, v: VersionId, event: UsageEvent)
    ensures IsLatest(w, v, event) <==> IsEffective(w.prices, event, v)
  {
    if IsLatest(w, v, event) {
      forall u | Eligible(w.prices, event, u) && u != v ensures Later(w.prices, v, u) {
        assert InForce(w, u, event);
      }
    }
    if IsEffective(w.prices, event, v) {
      forall u: VersionId | InForce(w, u, event) && u != v
        ensures w.prices[u].effectiveAt <= w.prices[v].effectiveAt
        ensures w.prices[u].effectiveAt == w.prices[v].effectiveAt ==> u < v
      {
        assert Eligible(w.prices, event, u);
      }
    }
  }

  /** An unpriced event whose identifier no correction took is priced exactly if the latest
      version in force has a price for it in range; its row then locks that version and the
      ceiling of the price at its rate. */
  lemma PriceIsExact(w: World, event: UsageEvent, v: VersionId, a: int)
    requires Inv(w) && event.id in w.outbox && w.outbox[event.id].event == event && event.id !in w.ledger
    requires !(exists i :: 0 <= i < |w.adjustments| && w.adjustments[i].id == OfEvent(event.id))
    requires IsLatest(w, v, event)
    requires var rate := w.prices[v].rates[event.id.tokenType];
             IsCeiling(a, event.quantity, rate.unitPriceMicros, rate.unitQuantity)
    ensures var (w', o) := Process(w, event);
            if a <= EXACT then
              && a >= 0 && o == Inserted(LedgerRow(event, v, a))
              && w' == w.(receipts := w.receipts[event.id := event], ledger := w.ledger[event.id := o.row])
            else o.PriceUnavailable? && w' == w
  {
    hide ExecutionInv, TopicInv, RelayInv, OffsetInv, AdjustmentInv, CalculateAmountMicros, IsCeiling;
    LatestIsEffective(w, v, event);
    EventIsTrusted(w, event);
    EffectiveIs(w, v, event);
    EventInRange(w, event);
    var rate := w.prices[v].rates[event.id.tokenType];
    assert rate.Valid() by { assert w.prices[v].Valid(); }
    ChargeIsCeiling(event.quantity, rate, a);
  }

  /** And it waits exactly as long as no version is in force for it. */
  lemma NoPriceIsExact(w: World, event: UsageEvent)
    requires Inv(w) && event.id in w.outbox && w.outbox[event.id].event == event && event.id !in w.ledger
    requires forall v :: !InForce(w, v, event)
    ensures Process(w, event) == (w, PriceUnavailable)
  {
    hide ExecutionInv, TopicInv, RelayInv, OffsetInv, AdjustmentInv, OutboxInv, CalculateAmountMicros;
    var v := Effective(w.prices, event);
    if v.Some? {
      EffectiveInForce(w, event);
    }
  }

  /** In any state, a record whose request or deployment is not that of its attempt waits
      too, and one that was processed before is only compared with its receipt. */
  lemma ForeignRecordIsExact(w: World, event: UsageEvent)
    ensures event.id in w.receipts ==>
              Process(w, event) == (w, if event.id !in w.ledger then ReceiptWithoutLedger
                                       else if event == w.receipts[event.id] then Replayed(w.ledger[event.id])
                                       else EventConflict)
    ensures event.id !in w.receipts && event.id.attempt !in w.attempts ==> Process(w, event) == (w, PriceUnavailable)
    ensures event.id !in w.receipts && event.request !in w.requests ==> Process(w, event) == (w, PriceUnavailable)
    ensures event.id !in w.receipts && event.id.attempt in w.attempts ==>
              var row := w.attempts[event.id.attempt];
              row.request != event.request || row.deployment != event.deployment ==>
                Process(w, event) == (w, PriceUnavailable)
  {
    hide Effective, CalculateAmountMicros, Eligible, Carried;
  }

  lemma EffectiveInForce(w: World, event: UsageEvent)
    requires Effective(w.prices, event).Some?
    ensures InForce(w, Effective(w.prices, event).value, event)
  {
    assert IsEffective(w.prices, event, Effective(w.prices, event).value);
  }

  lemma EffectiveIs(w: World, v: VersionId, event: UsageEvent)
    requires IsEffective(w.prices, event, v)
    ensures Effective(w.prices, event) == Some(v)
  {
    var u := Effective(w.prices, event).value;
    assert IsEffective(w.prices, event, u);
    EffectiveIsUnique(w.prices, event, u, v);
  }

  lemma EventInRange(w: World, event: UsageEvent)
    requires Inv(w) && event.id in w.outbox && w.outbox[event.id].event == event
    ensures 1 <= event.quantity <= MAXIMUM_EXACT
  {
    hide TopicInv, RelayInv, OffsetInv, AdjustmentInv, LedgerInv;
    var usage := w.attempts[event.id.attempt].usage;
    assert ValidUsage(usage) && event.id.tokenType in usage && event.quantity == usage[event.id.tokenType];
  }

  // ---- relay and consumer -----------------------------------------------------------

  /** The row as a claim finds it: a reclaimed one is available again, at once. */
  function Found(w: World, e: EventId, now: int, reclaim: set<EventId>): OutboxRow
    requires e in w.outbox
  {
    var row := w.outbox[e];
    if e in reclaim then OutboxRow(row.event, Pending(now), row.publishAttempts + 1) else row
  }

  predicate CanReclaim(w: World, e: EventId, now: int) {
    e in w.outbox && match w.outbox[e].status case Publishing(_, expires) => expires <= now case _ => false
  }

  predicate CanTake(w: World, e: EventId, now: int, reclaim: set<EventId>) {
    e in w.outbox && match Found(w, e, now, reclaim).status case Pending(at) => at <= now case _ => false
  }

  /** A claim takes effect exactly if all it reclaims had run out and all it takes is
      available then; it moves those rows and no others, and hands over what it took. */
  lemma ClaimIsExact(w: World, lease: LeaseId, now: int, expires: int, reclaim: set<EventId>, take: set<EventId>)
    ensures var w' := Claim(w, lease, now, expires, reclaim, take);
            if lease !in w.relays && (forall e :: e in reclaim ==> CanReclaim(w, e, now))
               && (forall e :: e in take ==> CanTake(w, e, now, reclaim)) then
              && w'.outbox.Keys == w.outbox.Keys
              && (forall e :: e in w.outbox ==>
                    var row := Found(w, e, now, reclaim);
                    w'.outbox[e] == if e in take then OutboxRow(row.event, Publishing(lease, expires),
                                                                row.publishAttempts) else row)
              && w'.relays == w.relays[lease := map e | e in take :: false]
              && w' == w.(outbox := w'.outbox, relays := w'.relays)
            else w' == w
  {
    hide CanReclaim, CanTake, Reclaimable, Claimable, Reclaimed, Found;
    forall e | e in reclaim ensures Reclaimable(w, e, now) <==> CanReclaim(w, e, now) {
      ReclaimableIff(w, e, now);
    }
    var rows := Reclaimed(w.outbox, reclaim, now);
    if forall e :: e in reclaim ==> CanReclaim(w, e, now) {
      forall e ensures e in rows <==> e in w.outbox
               ensures e in w.outbox ==> rows[e] == Found(w, e, now, reclaim)
               ensures Claimable(rows, e, now) <==> CanTake(w, e, now, reclaim)
      {
        ClaimableIff(w, e, now, reclaim);
      }
      assert rows.Keys == w.outbox.Keys;
    } else {
      var e :| e in reclaim && !CanReclaim(w, e, now);
      assert !Reclaimable(w, e, now);
    }
  }

  lemma ReclaimableIff(w: World, e: EventId, now: int)
    ensures Reclaimable(w, e, now) <==> CanReclaim(w, e, now)
  {
  }

  lemma ClaimableIff(w: World, e: EventId, now: int, reclaim: set<EventId>)
    ensures var rows := Reclaimed(w.outbox, reclaim, now);
            && (e in rows <==> e in w.outbox) && (e in w.outbox ==> rows[e] == Found(w, e, now, reclaim))
            && (Claimable(rows, e, now) <==> CanTake(w, e, now, reclaim))
  {
  }

  /** What the relay has in hand and whether it heard the broker. */
  predicate Holds(w: World, lease: LeaseId, e: EventId, heard: bool) {
    lease in w.relays && e in w.relays[lease] && w.relays[lease][e] == heard
  }

  /** The row is published under this lease. */
  predicate UnderLease(w: World, lease: LeaseId, e: EventId) {
    e in w.outbox && match w.outbox[e].status case Publishing(owner, _) => owner == lease case _ => false
  }

  /** Delivery puts the event in hand on the topic, whether or not the relay hears of it. */
  lemma DeliveryIsExact(w: World, lease: LeaseId, e: EventId, acknowledged: bool)
    ensures var w' := Deliver(w, lease, e, acknowledged);
            if e in w.outbox && (Holds(w, lease, e, false) || Holds(w, lease, e, true)) then
              && w'.topic == w.topic + [w.outbox[e].event] && w' == w.(topic := w'.topic, relays := w'.relays)
              && w'.relays == if acknowledged then w.relays[lease := w.relays[lease][e := true]] else w.relays
            else w' == w
  {
  }

  /** A mark forgets the event; it moves the row exactly under the lease of the relay. */
  ghost predicate Marked(w: World, w': World, lease: LeaseId, e: EventId, row: OutboxRow)
    requires lease in w.relays
  {
    && w'.relays == w.relays[lease := w.relays[lease] - {e}]
    && w'.outbox == (if UnderLease(w, lease, e) then w.outbox[e := row] else w.outbox)
    && w' == w.(outbox := w'.outbox, relays := w'.relays)
  }

  /** Only what the relay heard of is marked as published. */
  lemma PublishedIsExact(w: World, lease: LeaseId, e: EventId)
    ensures var w' := MarkPublished(w, lease, e);
            if Holds(w, lease, e, true) then
              Marked(w, w', lease, e, if e in w.outbox then OutboxRow(w.outbox[e].event, Published,
                                                                      w.outbox[e].publishAttempts)
                                      else OutboxRow(UsageEvent(e, 0, 0, 0, 0), Published, 0))
            else w' == w
  {
  }

  /** And only what it did not hear of is put back, once more, for a later time. */
  lemma RetryIsExact(w: World, lease: LeaseId, e: EventId, at: int)
    ensures var w' := MarkRetry(w, lease, e, at);
            if Holds(w, lease, e, false) then
              Marked(w, w', lease, e, if e in w.outbox then OutboxRow(w.outbox[e].event, Pending(at),
                                                                      w.outbox[e].publishAttempts + 1)
                                      else OutboxRow(UsageEvent(e, 0, 0, 0, 0), Published, 0))
            else w' == w
  {
  }

  /** A session starts at the committed offset, takes the next record, and commits past a
      record exactly once it is processed; a record that is not priced ends it. */
  lemma SessionIsExact(w: World, s: SessionId)
    ensures OpenSession(w, s) == w.(sessions := w.sessions[s := Session(w.offset, false)])
    ensures CloseSession(w, s) == w.(sessions := w.sessions - {s})
    ensures Commit(w, s)
         == if s in w.sessions && w.sessions[s].processed
            then w.(offset := w.sessions[s].position + 1,
                    sessions := w.sessions[s := Session(w.sessions[s].position + 1, false)])
            else w
    ensures s !in w.sessions || w.sessions[s].processed || w.sessions[s].position >= |w.topic| ==> Consume(w, s) == w
    ensures s in w.sessions && !w.sessions[s].processed && w.sessions[s].position < |w.topic| ==>
              var (after, o) := Process(w, w.topic[w.sessions[s].position]);
              Consume(w, s) == after.(sessions := if o.Inserted? || o.Replayed?
                                                  then after.sessions[s := Session(w.sessions[s].position, true)]
                                                  else after.sessions - {s})
  {
    hide Process;
  }

  // ---- whole runs -----------------------------------------------------------------

  /** The move ends the attempt and takes effect. */
  predicate Ends(w: World, m: Move, a: AttemptId) {
    m.CompleteMove? && m.attempt == a && CanEnd(w, a, m.usage, m.forRetry)
  }

  /** The usage, and when it was seen, that the run reports for an attempt. */
  ghost function Told(w: World, moves: seq<Move>, a: AttemptId): Option<(Usage, int)>
    decreases |moves|
  {
    if moves == [] then None
    else if Ends(w, moves[0], a) then Some((moves[0].usage, moves[0].observedAt))
    else Told(Step(w, moves[0]), moves[1..], a)
  }

  /** No move but its own start and end touches the row of an attempt. */
  lemma RowStays(w: World, m: Move, a: AttemptId)
    requires Inv(w) && a in w.attempts && !Ends(w, m, a)
    ensures a in Step(w, m).attempts && Step(w, m).attempts[a] == w.attempts[a]
  {
    hide Inv, Apply, Consume, MarkPublished, MarkRetry, Claim, Deliver, Crash, OpenSession, Commit, CloseSession,
         SameEvents, CompleteAttempt;
    if IsDelivery(m) {
      DeliveryFrame(w, m);
    } else if m.ConsumeMove? {
      ConsumeKeepsAttempts(w, m.session);
    } else if m.CompleteMove? {
      CompleteIsExact(w, m.attempt, m.usage, m.observedAt, m.forRetry);
    }
  }

  lemma ConsumeKeepsAttempts(w: World, s: SessionId)
    ensures Consume(w, s).attempts == w.attempts && Consume(w, s).requests == w.requests
  {
    hide Process, AwaitCommit, CloseSession;
    if s in w.sessions && w.sessions[s].position < |w.topic| {
      var event := w.topic[w.sessions[s].position];
      ProcessKeepsAttempts(w, event);
      SessionsFrame(Process(w, event).0, s, w.sessions[s].position);
    }
  }

  lemma ProcessKeepsAttempts(w: World, event: UsageEvent)
    ensures Process(w, event).0.attempts == w.attempts && Process(w, event).0.requests == w.requests
  {
    hide Effective, CalculateAmountMicros, Eligible, Trusted, Carried;
  }

  lemma {:induction false} EndedRowStays(w: World, moves: seq<Move>, a: AttemptId)
    requires Inv(w) && a in w.attempts && w.attempts[a].ended
    ensures a in Run(w, moves).attempts && Run(w, moves).attempts[a] == w.attempts[a]
    decreases |moves|
  {
    hide Inv, Step;
    if moves != [] {
      StepKeeps(w, moves[0]);
      RowStays(w, moves[0], a);
      EndedRowStays(Step(w, moves[0]), moves[1..], a);
    }
  }

  lemma NewRowIsOpen(w: World, m: Move, a: AttemptId)
    requires Inv(w) && a !in w.attempts && a in Step(w, m).attempts
    ensures !Step(w, m).attempts[a].ended && Step(w, m).attempts[a].usage == map[]
  {
    hide Inv, Apply, Consume, MarkPublished, MarkRetry, Claim, Deliver, Crash, OpenSession, Commit, CloseSession,
         SameEvents, CompleteAttempt;
    if IsDelivery(m) {
      DeliveryFrame(w, m);
    } else if m.ConsumeMove? {
      ConsumeKeepsAttempts(w, m.session);
    } else if m.CompleteMove? {
      CompleteIsExact(w, m.attempt, m.usage, m.observedAt, m.forRetry);
    }
  }

  /** After any run an attempt has exactly the usage that the run reported for it, and has
      ended exactly if the run reported any. */
  lemma {:induction false} UsageIsAsTold(w: World, moves: seq<Move>, a: AttemptId)
    requires Inv(w) && (a in w.attempts ==> !w.attempts[a].ended && w.attempts[a].usage == map[])
    ensures var w', told := Run(w, moves), Told(w, moves, a);
            if told.Some? then a in w'.attempts && w'.attempts[a].ended
                               && (w'.attempts[a].usage, w'.attempts[a].observedAt) == told.value
            else a in w'.attempts ==> !w'.attempts[a].ended && w'.attempts[a].usage == map[]
    decreases |moves|
  {
    hide Inv, Step, CanEnd;
    if moves != [] {
      var m := moves[0];
      StepKeeps(w, m);
      if Ends(w, m, a) {
        EndIsRecorded(w, m, a);
        EndedRowStays(Step(w, m), moves[1..], a);
      } else {
        if a in w.attempts {
          RowStays(w, m, a);
        } else if a in Step(w, m).attempts {
          NewRowIsOpen(w, m, a);
        }
        UsageIsAsTold(Step(w, m), moves[1..], a);
      }
    }
  }

  lemma EndIsRecorded(w: World, m: Move, a: AttemptId)
    requires Inv(w) && Ends(w, m, a)
    ensures var row := Step(w, m).attempts;
            a in row && row[a].ended && row[a].usage == m.usage && row[a].observedAt == m.observedAt
  {
    hide Inv, CompleteAttempt;
    CompleteIsExact(w, a, m.usage, m.observedAt, m.forRetry);
  }

  /** The dimensions that the run reported as used. */
  ghost function UsedIn(moves: seq<Move>, a: AttemptId): set<TokenType> {
    var told := Told(EMPTY, moves, a);
    if told.None? then {} else set t | t in told.value.0 && told.value.0[t] > 0
  }

  /** The charges for what the run reported of an attempt. */
  ghost function ToldCharge(moves: seq<Move>, w: World, c: Currency): AttemptId -> int {
    (a: AttemptId) => SumSet(UsedIn(moves, a), DimensionCharge(w, a, c))
  }

  lemma BillableIsUsed(moves: seq<Move>, a: AttemptId)
    requires a in Run(EMPTY, moves).attempts
    ensures Billable(Run(EMPTY, moves).attempts[a].usage) == UsedIn(moves, a)
  {
    hide Run, Inv, Told;
    var w := Run(EMPTY, moves);
    EmptyIsSafe();
    EveryRunIsSafe(EMPTY, moves);
    UsageIsAsTold(EMPTY, moves, a);
    UsageInRange(w, a);
  }

  lemma UsageInRange(w: World, a: AttemptId)
    requires Inv(w) && a in w.attempts
    ensures forall t :: t in w.attempts[a].usage ==> 0 <= w.attempts[a].usage[t] <= MAXIMUM_EXACT
  {
    hide OutboxInv, TopicInv, RelayInv, OffsetInv, AdjustmentInv, LedgerInv;
    assert ValidUsage(w.attempts[a].usage);
  }

  /** Everything that the run reported of the request's attempts has its ledger row. */
  ghost predicate AllToldIsPriced(moves: seq<Move>, w: World, r: RequestId)
    requires r in w.requests
  {
    forall i, t :: 0 <= i < |w.requests[r].attempts| && t in UsedIn(moves, w.requests[r].attempts[i]) ==>
      EventId(w.requests[r].attempts[i], t) in w.ledger
  }

  lemma PricedAsTold(moves: seq<Move>, r: RequestId)
    requires r in Run(EMPTY, moves).requests
    ensures AllToldIsPriced(moves, Run(EMPTY, moves), r) <==> EveryDimensionPriced(Run(EMPTY, moves), r)
  {
    hide Run, Inv, UsedIn, Billable;
    var w := Run(EMPTY, moves);
    EmptyIsSafe();
    EveryRunIsSafe(EMPTY, moves);
    forall i | 0 <= i < |w.requests[r].attempts|
      ensures w.requests[r].attempts[i] in w.attempts
      ensures Billable(w.attempts[w.requests[r].attempts[i]].usage) == UsedIn(moves, w.requests[r].attempts[i])
    {
      AttemptIsKnown(w, r, i);
      BillableIsUsed(moves, w.requests[r].attempts[i]);
    }
  }

  /** The cost of a request after any run, in each currency, is the charge for every
      dimension that its attempts' completions carried, and its corrections; and behind the
      barrier all of that is priced if and only if no correction stands in for an event. */
  lemma RunIsCharged(moves: seq<Move>, r: RequestId, facts: seq<Fact>, c: Currency)
    requires r in Run(EMPTY, moves).requests && IsLedgerOf(facts, Run(EMPTY, moves), r)
    ensures var w := Run(EMPTY, moves);
            SumBy(facts, InCurrency(c)) == SumBy(w.requests[r].attempts, ToldCharge(moves, w, c))
                                           + SumBy(w.adjustments, CorrectionOn(w, Events(w, r), c))
    ensures BarrierOpen(Run(EMPTY, moves), r) ==>
              (AllToldIsPriced(moves, Run(EMPTY, moves), r) <==> NothingStandsIn(Run(EMPTY, moves), r))
  {
    hide Run, Inv, IsLedgerOf, SumBy, UsedIn, CorrectionOn, BarrierOpen, EveryDimensionPriced, NothingStandsIn,
         AllToldIsPriced;
    PricedAsTold(moves, r);
    var w := Run(EMPTY, moves);
    EmptyIsSafe();
    EveryRunIsSafe(EMPTY, moves);
    AggregateIsExact(w, r, facts, c);
    var attempts := w.requests[r].attempts;
    forall i | 0 <= i < |attempts| ensures AttemptCharge(w, c)(attempts[i]) == ToldCharge(moves, w, c)(attempts[i]) {
      AttemptIsKnown(w, r, i);
      BillableIsUsed(moves, attempts[i]);
    }
    SumSeqAgree(attempts, AttemptCharge(w, c), ToldCharge(moves, w, c));
  }

  lemma AttemptIsKnown(w: World, r: RequestId, i: nat)
    requires Inv(w) && r in w.requests && i < |w.requests[r].attempts|
    ensures w.requests[r].attempts[i] in w.attempts
  {
    hide OutboxInv, TopicInv, RelayInv, OffsetInv, AdjustmentInv, LedgerInv;
  }

  /** Each such charge is the price, rounded up, of the quantity that the completion
      carried, at the rate of a version that was in force when the usage was seen. */
  lemma ChargeIsForTheReport(moves: seq<Move>, e: EventId)
    requires e in Run(EMPTY, moves).ledger
    ensures var w, told := Run(EMPTY, moves), Told(EMPTY, moves, e.attempt);
            var row := w.ledger[e];
            && told.Some? && e.tokenType in told.value.0 && row.event.id == e && InForce(w, row.version, row.event)
            && row.event.observedAt == told.value.1 && row.event.quantity == told.value.0[e.tokenType] > 0
            && var rate := w.prices[row.version].rates[e.tokenType];
               IsCeiling(row.amount, told.value.0[e.tokenType], rate.unitPriceMicros, rate.unitQuantity)
  {
    hide Run, Inv, Told, CalculateAmountMicros, IsCeiling;
    var w := Run(EMPTY, moves);
    EmptyIsSafe();
    EveryRunIsSafe(EMPTY, moves);
    RowIsOfAttempt(w, e);
    UsageIsAsTold(EMPTY, moves, e.attempt);
    PriceIsLocked(w, e);
    var row := w.ledger[e];
    AmountIsCeiling(row.event.quantity, w.prices[row.version].rates[e.tokenType], row.amount);
  }

  lemma RowIsOfAttempt(w: World, e: EventId)
    requires Inv(w) && e in w.ledger
    ensures e.attempt in w.attempts && e.tokenType in w.attempts[e.attempt].usage
    ensures w.ledger[e].event == EventOf(e.attempt, w.attempts[e.attempt], e.tokenType)
    ensures w.ledger[e].event.quantity > 0
  {
    hide TopicInv, RelayInv, OffsetInv, AdjustmentInv, Priced;
    assert ValidUsage(w.attempts[e.attempt].usage);
  }

  lemma AmountIsCeiling(quantity: int, rate: PriceRate, amount: nat)
    requires CalculateAmountMicros(quantity, rate) == Amount(amount)
    ensures IsCeiling(amount, quantity, rate.unitPriceMicros, rate.unitQuantity)
  {
    hide IsCeiling, CalculateAmountMicros;
    ChargedIsInRange(quantity, rate);
    var a := CeilingExists(quantity, rate.unitPriceMicros, rate.unitQuantity);
    ChargeIsCeiling(quantity, rate, a);
  }
}
