/** The metering tables and topic as they are changed in place: relay batches,
    the consumer's process-then-commit loop, corrections and the aggregate. */
module MeteringStore {
  import opened Wrappers
  import opened Sums
  import opened Pricing
  import opened MeteringModel
  import opened MeteringSafety
  import opened MeteringAggregate

  // ---- usage events of one attempt ----------------------------------------------

  /** Exactly one event for each positive dimension. */
  ghost predicate IsEventsOf(events: seq<UsageEvent>, a: AttemptId, row: AttemptRow, dimensions: seq<TokenType>) {
    && (forall i :: 0 <= i < |events| ==>
          var t := events[i].id.tokenType;
          t in dimensions && t in Billable(row.usage) && events[i] == EventOf(a, row, t))
    && (forall i, j :: 0 <= i < j < |events| ==> events[i].id != events[j].id)
    && (forall t :: t in dimensions && t in Billable(row.usage) ==>
          exists i :: 0 <= i < |events| && events[i].id.tokenType == t)
  }

  lemma EventsGrow(events: seq<UsageEvent>, a: AttemptId, row: AttemptRow, dimensions: seq<TokenType>, t: TokenType)
    requires IsEventsOf(events, a, row, dimensions) && t !in dimensions
    ensures t in Billable(row.usage) ==> IsEventsOf(events + [EventOf(a, row, t)], a, row, dimensions + [t])
    ensures t !in Billable(row.usage) ==> IsEventsOf(events, a, row, dimensions + [t])
  {
    if t in Billable(row.usage) {
      var all := events + [EventOf(a, row, t)];
      assert all[|events|].id.tokenType == t;
      forall u | u in dimensions && u in Billable(row.usage)
        ensures exists i :: 0 <= i < |all| && all[i].id.tokenType == u
      {
        var i :| 0 <= i < |events| && events[i].id.tokenType == u;
        assert all[i].id.tokenType == u;
      }
    }
  }

  lemma DimensionsAreDistinct(k: nat)
    requires k < |DIMENSIONS|
    ensures DIMENSIONS[k] !in DIMENSIONS[..k] && DIMENSIONS[..k + 1] == DIMENSIONS[..k] + [DIMENSIONS[k]]
  {
  }

  lemma NoEventsYet(a: AttemptId, row: AttemptRow)
    ensures IsEventsOf([], a, row, [])
  {
  }

  /** NewUsageEvents: refuses a dimension out of range, skips missing and zero ones. */
  method NewUsageEvents(a: AttemptId, row: AttemptRow) returns (r: Option<seq<UsageEvent>>)
    requires forall t :: t in row.usage ==> t in DIMENSIONS
    ensures r.Some? <==> ValidUsage(row.usage)
    ensures r.Some? ==> IsEventsOf(r.value, a, row, DIMENSIONS)
  {
    hide IsEventsOf;
    var events: seq<UsageEvent> := [];
    var k := 0;
    NoEventsYet(a, row);
    assert DIMENSIONS[..0] == [];
    while k < |DIMENSIONS|
      invariant 0 <= k <= |DIMENSIONS| && IsEventsOf(events, a, row, DIMENSIONS[..k])
      invariant forall j :: 0 <= j < k && DIMENSIONS[j] in row.usage ==> 0 <= row.usage[DIMENSIONS[j]] <= MAXIMUM_EXACT
    {
      var t := DIMENSIONS[k];
      DimensionsAreDistinct(k);
      EventsGrow(events, a, row, DIMENSIONS[..k], t);
      if t in row.usage && row.usage[t] != 0 {
        if row.usage[t] < 0 || row.usage[t] > MAXIMUM_EXACT { return None; }
        events := events + [EventOf(a, row, t)];
      }
      k := k + 1;
    }
    assert DIMENSIONS[..k] == DIMENSIONS;
    r := Some(events);
  }

  // ---- retry delay ----------------------------------------------------------------

  function Doubled(d: nat, n: nat): nat {
    if n == 0 then d else 2 * Doubled(d, n - 1)
  }

  lemma {:induction false} DoublingGrows(d: nat, m: nat, n: nat)
    requires m <= n
    ensures Doubled(d, m) <= Doubled(d, n)
  {
    if m < n {
      DoublingGrows(d, m, n - 1);
    }
  }

  /** Exponential back-off, capped: never below the minimum, never above the
      maximum, and exactly the doubled delay in between. */
  method RetryDelay(minimum: nat, maximum: nat, publishAttempts: nat) returns (delay: nat)
    requires 1 <= minimum <= maximum
    ensures delay == if Doubled(minimum, publishAttempts) > maximum then maximum else Doubled(minimum, publishAttempts)
    ensures minimum <= delay <= maximum
  {
    delay := minimum;
    DoublingGrows(minimum, 0, publishAttempts);
    var attempt := 0;
    while attempt < publishAttempts && delay < maximum
      invariant 0 <= attempt <= publishAttempts && minimum <= delay <= maximum && delay == Doubled(minimum, attempt)
    {
      DoublingGrows(minimum, attempt + 1, publishAttempts);
      if delay > maximum / 2 { return maximum; }
      delay := delay * 2;
      attempt := attempt + 1;
    }
    DoublingGrows(minimum, attempt, publishAttempts);
  }

  // ---- the store ------------------------------------------------------------------

  /** How one claimed event fares: what others do first, whether the broker stored
      it, whether the relay heard so, what others do then, and the relay's clock. */
  datatype Fate = Fate(before: seq<Move>, delivered: bool, acknowledged: bool, after: seq<Move>, at: int)

  datatype Batch = Batch(claimed: nat, published: nat, retried: nat, failed: bool)

  class Store {
    var requests: map<RequestId, RequestRow>
    var attempts: map<AttemptId, AttemptRow>
    var prices: map<VersionId, Version>
    var outbox: map<EventId, OutboxRow>
    var relays: map<LeaseId, map<EventId, bool>>
    var topic: seq<UsageEvent>
    var sessions: map<SessionId, Session>
    var offset: nat
    var receipts: map<EventId, UsageEvent>
    var ledger: map<EventId, LedgerRow>
    var adjustments: seq<Adjustment>

    constructor ()
      ensures View() == EMPTY
    {
      requests, attempts, prices, outbox, relays := map[], map[], map[], map[], map[];
      topic, sessions, offset, receipts, ledger, adjustments := [], map[], 0, map[], map[], [];
    }

    ghost function View(): World
      reads this
    {
      World(requests, attempts, prices, outbox, relays, topic, sessions, offset, receipts, ledger, adjustments)
    }

    // ---- relay ----

    method ReclaimExpired(reclaim: set<EventId>, now: int)
      requires reclaim <= outbox.Keys
      modifies `outbox
      ensures outbox == Reclaimed(old(outbox), reclaim, now)
    {
      var left := reclaim;
      while left != {}
        invariant left <= reclaim && outbox == Reclaimed(old(outbox), reclaim - left, now)
        decreases |left|
      {
        var e :| e in left;
        outbox := outbox[e := OutboxRow(outbox[e].event, Pending(now), outbox[e].publishAttempts + 1)];
        left := left - {e};
      }
      assert reclaim - left == reclaim;
    }

    method TakeAvailable(take: set<EventId>, lease: LeaseId, expires: int)
      requires take <= outbox.Keys
      modifies `outbox
      ensures outbox == Taken(old(outbox), take, lease, expires)
    {
      var left := take;
      while left != {}
        invariant left <= take && outbox == Taken(old(outbox), take - left, lease, expires)
        decreases |left|
      {
        var e :| e in left;
        outbox := outbox[e := outbox[e].(status := Publishing(lease, expires))];
        left := left - {e};
      }
      assert take - left == take;
    }

    /** One claim transaction over the rows it managed to lock. */
    method ClaimBatch(lease: LeaseId, now: int, expires: int, reclaim: set<EventId>, take: set<EventId>)
      requires lease !in relays && (forall e :: e in reclaim ==> Reclaimable(View(), e, now))
      requires forall e :: e in take ==> Claimable(Reclaimed(outbox, reclaim, now), e, now)
      modifies this
      ensures View() == Claim(old(View()), lease, now, expires, reclaim, take)
    {
      ReclaimExpired(reclaim, now);
      TakeAvailable(take, lease, expires);
      relays := relays[lease := map e | e in take :: false];
    }

    method Publish(lease: LeaseId, e: EventId, acknowledged: bool)
      modifies this
      ensures View() == Deliver(old(View()), lease, e, acknowledged)
    {
      if lease !in relays || e !in relays[lease] || e !in outbox { return; }
      topic := topic + [outbox[e].event];
      if acknowledged {
        relays := relays[lease := relays[lease][e := true]];
      }
    }

    /** The guarded update; its row count tells whether the lease still held. */
    method MarkAsPublished(lease: LeaseId, e: EventId) returns (updated: bool)
      requires lease in relays && e in relays[lease] && relays[lease][e]
      modifies this
      ensures View() == MarkPublished(old(View()), lease, e)
      ensures updated <==> Owns(old(View()), lease, e)
    {
      updated := e in outbox && outbox[e].status.Publishing? && outbox[e].status.lease == lease;
      if updated {
        outbox := outbox[e := outbox[e].(status := Published)];
      }
      relays := relays[lease := relays[lease] - {e}];
    }

    method MarkForRetry(lease: LeaseId, e: EventId, availableAt: int) returns (updated: bool)
      requires lease in relays && e in relays[lease] && !relays[lease][e]
      modifies this
      ensures View() == MarkRetry(old(View()), lease, e, availableAt)
      ensures updated <==> Owns(old(View()), lease, e)
    {
      updated := e in outbox && outbox[e].status.Publishing? && outbox[e].status.lease == lease;
      if updated {
        outbox := outbox[e := OutboxRow(outbox[e].event, Pending(availableAt), outbox[e].publishAttempts + 1)];
      }
      relays := relays[lease := relays[lease] - {e}];
    }

    // ---- consumer ----

    /** selectEffectiveRate: the latest version in force with a rate for the event. */
    method SelectRate(event: UsageEvent) returns (v: Option<VersionId>)
      ensures v == Effective(prices, event)
    {
      v := None;
      var left := prices.Keys;
      while left != {}
        invariant left <= prices.Keys
        invariant v.Some? ==> v.value !in left && Eligible(prices, event, v.value)
        invariant forall u :: u in prices && u !in left && Eligible(prices, event, u) ==>
                    v.Some? && (u == v.value || Later(prices, v.value, u))
        decreases |left|
      {
        var u :| u in left;
        if Eligible(prices, event, u) && (v.None? || Later(prices, u, v.value)) {
          v := Some(u);
        }
        left := left - {u};
      }
      EffectiveIs(prices, event, v);
    }

    /** One consumer transaction. */
    method ProcessRecord(event: UsageEvent) returns (o: Processed)
      modifies this
      ensures (View(), o) == Process(old(View()), event)
    {
      hide Effective, IsEffective, CalculateAmountMicros;
      if event.id in receipts {
        if event.id !in ledger { return ReceiptWithoutLedger; }
        if receipts[event.id] != event { return EventConflict; }
        return Replayed(ledger[event.id]);
      }
      if event.id.attempt !in attempts || event.request !in requests
         || attempts[event.id.attempt].request != event.request
         || attempts[event.id.attempt].deployment != event.deployment { return PriceUnavailable; }
      var v := SelectRate(event);
      if v.None? { return PriceUnavailable; }
      EffectiveIsEligible(prices, event);
      var price := CalculateAmountMicros(event.quantity, prices[v.value].rates[event.id.tokenType]);
      if !price.Amount? { return PriceUnavailable; }
      var carried := IdIsUsed(OfEvent(event.id));
      if event.id in ledger || carried { return EventConflict; }
      var row := LedgerRow(event, v.value, price.micros);
      receipts := receipts[event.id := event];
      ledger := ledger[event.id := row];
      o := Inserted(row);
    }

    method OpenAt(s: SessionId)
      modifies this
      ensures View() == OpenSession(old(View()), s)
    {
      sessions := sessions[s := Session(offset, false)];
    }

    method Close(s: SessionId)
      modifies this
      ensures View() == CloseSession(old(View()), s)
    {
      sessions := sessions - {s};
    }

    /** Process the session's next record, if there is one. */
    method ConsumeNext(s: SessionId)
      modifies this
      ensures View() == Consume(old(View()), s)
    {
      hide Process;
      if s !in sessions || sessions[s].processed || sessions[s].position >= |topic| { return; }
      var position := sessions[s].position;
      var o := ProcessRecord(topic[position]);
      if o.Inserted? || o.Replayed? {
        sessions := sessions[s := Session(position, true)];
      } else {
        sessions := sessions - {s};
      }
    }

    method CommitNext(s: SessionId)
      modifies this
      ensures View() == Commit(old(View()), s)
    {
      if s !in sessions || !sessions[s].processed { return; }
      offset := sessions[s].position + 1;
      sessions := sessions[s := Session(offset, false)];
    }

    // ---- execution ----

    /** The terminal transition of an attempt and its usage events, in one transaction. */
    method Complete(a: AttemptId, usage: Usage, observedAt: int, forRetry: bool)
      requires forall t :: t in usage ==> t in DIMENSIONS
      modifies this
      ensures View() == CompleteAttempt(old(View()), a, usage, observedAt, forRetry)
    {
      hide NewRows, IsEventsOf, ValidUsage;
      if a !in attempts || attempts[a].ended { return; }
      var row := attempts[a].(ended := true, usage := usage, observedAt := observedAt);
      var events := NewUsageEvents(a, row);
      if events.None? { return; }
      if !forRetry && (row.request !in requests || requests[row.request].terminal) { return; }
      InsertEvents(a, row, events.value);
      attempts := attempts[a := row];
      if !forRetry {
        requests := requests[row.request := requests[row.request].(terminal := true)];
      }
    }

    method InsertEvents(a: AttemptId, row: AttemptRow, events: seq<UsageEvent>)
      requires IsEventsOf(events, a, row, DIMENSIONS) && forall t :: t in row.usage ==> t in DIMENSIONS
      modifies `outbox
      ensures outbox == old(outbox) + NewRows(a, row)
    {
      var i := 0;
      assert events[..0] == [];
      while i < |events|
        invariant 0 <= i <= |events| && outbox == WithEvents(old(outbox), events[..i])
      {
        assert events[..i + 1][..i] == events[..i];
        outbox := outbox[events[i].id := OutboxRow(events[i], Pending(events[i].observedAt), 0)];
        i := i + 1;
      }
      assert events[..i] == events;
      AllEventsInserted(outbox, old(outbox), a, row, events);
    }

    // ---- corrections ----

    /** The sums of the corrections of one target. */
    method SumCorrections(e: EventId) returns (quantity: int, amount: int)
      ensures quantity == SumBy(adjustments, QuantityOn(e)) && amount == SumBy(adjustments, AmountOn(e))
    {
      quantity, amount := 0, 0;
      var i := 0;
      while i < |adjustments|
        invariant 0 <= i <= |adjustments|
        invariant quantity == SumBy(adjustments[..i], QuantityOn(e)) && amount == SumBy(adjustments[..i], AmountOn(e))
      {
        assert adjustments[..i + 1] == adjustments[..i] + [adjustments[i]];
        SumAppend(adjustments[..i], adjustments[i], QuantityOn(e));
        SumAppend(adjustments[..i], adjustments[i], AmountOn(e));
        if adjustments[i].target == e {
          quantity, amount := quantity + adjustments[i].quantityDelta, amount + adjustments[i].amountDelta;
        }
        i := i + 1;
      }
      assert adjustments[..i] == adjustments;
    }

    /** Whether a correction took the identifier. */
    method IdIsUsed(id: LedgerId) returns (used: bool)
      ensures used <==> Carried(adjustments, id)
    {
      var i := 0;
      while i < |adjustments|
        invariant 0 <= i <= |adjustments| && forall j :: 0 <= j < i ==> adjustments[j].id != id
      {
        if adjustments[i].id == id { return true; }
        i := i + 1;
      }
      used := false;
    }

    method IsCorrection(c: Command) returns (found: bool)
      ensures found <==> TargetsCorrection(adjustments, c)
    {
      var i := 0;
      while i < |adjustments|
        invariant 0 <= i <= |adjustments|
        invariant forall j :: 0 <= j < i ==> adjustments[j].id != c.target || adjustments[j].scope != c.scope
      {
        if adjustments[i].id == c.target && adjustments[i].scope == c.scope { return true; }
        i := i + 1;
      }
      found := false;
    }

    /** One correction, under the row lock of its target. */
    method ApplyCorrection(c: Command) returns (o: Applied)
      requires c.Valid()
      modifies this
      ensures (View(), o) == Apply(old(View()), c)
    {
      hide FindKey;
      var earlier := FindKey(adjustments, c.scope, c.key);
      if earlier.Some? {
        return if Agrees(earlier.value, c) then AlreadyApplied(earlier.value) else AdjustmentConflict;
      }
      if !(c.target.OfEvent? && c.target.event in ledger && ledger[c.target.event].event.request in requests
           && requests[ledger[c.target.event].event.request].scope == c.scope) {
        var correction := IsCorrection(c);
        return if correction then InvalidTarget else TargetNotFound;
      }
      var target := ledger[c.target.event];
      var dq, da := SumCorrections(c.target.event);
      var quantity, amount := target.event.quantity + dq, target.amount + da;
      if target.event.quantity < 1 || target.event.quantity > MAXIMUM_EXACT || target.amount > MAXIMUM_EXACT
         || quantity < 0 || quantity > MAXIMUM_EXACT || amount < 0 || amount > MAXIMUM_EXACT { return InvalidTarget; }
      if quantity == c.correctedQuantity && amount == c.correctedAmount { return NoChange; }
      var used := IdIsUsed(c.id);
      if used || (c.id.OfEvent? && c.id.event in ledger) { return AdjustmentConflict; }
      var row := Adjustment(c.id, c.target.event, c.key, c.scope, c.evidence, c.correctedQuantity, c.correctedAmount,
                            c.correctedQuantity - quantity, c.correctedAmount - amount);
      adjustments := adjustments + [row];
      o := Appended(row);
    }

    // ---- everybody else ----

    method Perform(m: Move)
      modifies this
      ensures View() == Step(old(View()), m)
    {
      hide Step;
      if IsDelivery(m) {
        PerformDelivery(m);
      } else {
        PerformExecution(m);
      }
    }

    method PerformExecution(m: Move)
      requires !IsDelivery(m)
      modifies this
      ensures View() == Step(old(View()), m)
    {
      hide StartAttempt, CompleteAttempt, Consume, Version.Valid;
      match m
      case StartRequestMove(r, scope) =>
        if r !in requests { requests := requests[r := RequestRow(scope, [], false)]; }
      case StartAttemptMove(r, a, d) => Start(r, a, d);
      case CompleteMove(a, usage, observedAt, forRetry) =>
        if forall t :: t in usage ==> t in DIMENSIONS {
          Complete(a, usage, observedAt, forRetry);
        } else {
          StrangeUsage(View(), a, usage, observedAt, forRetry);
        }
      case EndRequestMove(r) =>
        if r in requests { requests := requests[r := requests[r].(terminal := true)]; }
      case PriceMove(id, version) =>
        if id !in prices && version.Valid() { prices := prices[id := version]; }
      case ConsumeMove(s) => ConsumeNext(s);
    }

    method PerformDelivery(m: Move)
      requires IsDelivery(m)
      modifies this
      ensures View() == Step(old(View()), m)
    {
      hide Claim, Deliver, MarkPublished, MarkRetry, Crash, OpenSession, Commit, CloseSession, Apply, Command.Valid;
      match m
      case ClaimMove(lease, now, expires, reclaim, take) => TryClaim(lease, now, expires, reclaim, take);
      case DeliverMove(lease, e, acknowledged) => Publish(lease, e, acknowledged);
      case PublishedMove(lease, e) => TryMark(lease, e, true, 0);
      case RetryMove(lease, e, at) => TryMark(lease, e, false, at);
      case CrashMove(lease) => Stop(lease);
      case OpenMove(s) => OpenAt(s);
      case CommitMove(s) => CommitNext(s);
      case CloseMove(s) => Close(s);
      case AdjustMove(c) => if c.Valid() { var _ := ApplyCorrection(c); }
    }

    method Start(r: RequestId, a: AttemptId, d: DeploymentId)
      modifies this
      ensures View() == StartAttempt(old(View()), r, a, d)
    {
      if r !in requests || requests[r].terminal || a in attempts { return; }
      requests := requests[r := requests[r].(attempts := requests[r].attempts + [a])];
      attempts := attempts[a := AttemptRow(r, d, false, map[], 0)];
    }

    method TryClaim(lease: LeaseId, now: int, expires: int, reclaim: set<EventId>, take: set<EventId>)
      modifies this
      ensures View() == Claim(old(View()), lease, now, expires, reclaim, take)
    {
      if lease in relays { return; }
      if exists e :: e in reclaim && !(e in outbox && outbox[e].status.Publishing? && outbox[e].status.expires <= now) {
        return;
      }
      if exists e :: e in take && !Claimable(Reclaimed(outbox, reclaim, now), e, now) { return; }
      ClaimBatch(lease, now, expires, reclaim, take);
    }

    method TryMark(lease: LeaseId, e: EventId, published: bool, at: int)
      modifies this
      ensures View() == if published then MarkPublished(old(View()), lease, e) else MarkRetry(old(View()), lease, e, at)
    {
      if lease !in relays || e !in relays[lease] || relays[lease][e] != published { return; }
      if published {
        var _ := MarkAsPublished(lease, e);
      } else {
        var _ := MarkForRetry(lease, e, at);
      }
    }

    method Stop(lease: LeaseId)
      modifies this
      ensures View() == Crash(old(View()), lease)
    {
      if lease in relays { relays := relays[lease := map[]]; }
    }

    method Others(moves: seq<Move>)
      modifies this
      ensures View() == Run(old(View()), moves)
    {
      hide Step;
      var i := 0;
      assert moves[0..] == moves;
      while i < |moves|
        invariant 0 <= i <= |moves| && Run(View(), moves[i..]) == Run(old(View()), moves)
      {
        assert moves[i..][1..] == moves[i + 1..];
        Perform(moves[i]);
        i := i + 1;
      }
    }
  }

  function WithEvents(outbox: map<EventId, OutboxRow>, events: seq<UsageEvent>): map<EventId, OutboxRow> {
    if events == [] then outbox
    else
      var last := events[|events| - 1];
      WithEvents(outbox, events[..|events| - 1])[last.id := OutboxRow(last, Pending(last.observedAt), 0)]
  }

  lemma {:induction false} InsertedAt(outbox: map<EventId, OutboxRow>, events: seq<UsageEvent>, e: EventId)
    requires forall i, j :: 0 <= i < j < |events| ==> events[i].id != events[j].id
    ensures e in WithEvents(outbox, events) <==> e in outbox || exists i :: 0 <= i < |events| && events[i].id == e
    ensures forall i :: 0 <= i < |events| && events[i].id == e ==>
              WithEvents(outbox, events)[e] == OutboxRow(events[i], Pending(events[i].observedAt), 0)
    ensures e in outbox && (forall i :: 0 <= i < |events| ==> events[i].id != e) ==>
              WithEvents(outbox, events)[e] == outbox[e]
  {
    if events != [] {
      InsertedAt(outbox, events[..|events| - 1], e);
    }
  }

  lemma AllEventsInserted(outbox': map<EventId, OutboxRow>, outbox: map<EventId, OutboxRow>, a: AttemptId,
                          row: AttemptRow, events: seq<UsageEvent>)
    requires IsEventsOf(events, a, row, DIMENSIONS) && (forall t :: t in row.usage ==> t in DIMENSIONS)
    requires outbox' == WithEvents(outbox, events)
    ensures outbox' == outbox + NewRows(a, row)
  {
    hide NewRows, WithEvents;
    NewRowsAre(a, row);
    var all := outbox + NewRows(a, row);
    forall e
      ensures e in outbox' <==> e in all
      ensures e in outbox' ==> outbox'[e] == all[e]
    {
      InsertedAt(outbox, events, e);
      if e in NewRows(a, row) {
        var i :| 0 <= i < |events| && events[i].id.tokenType == e.tokenType;
        assert events[i].id == e;
      }
    }
  }

  lemma EffectiveIs(prices: map<VersionId, Version>, event: UsageEvent, v: Option<VersionId>)
    requires v.Some? ==> Eligible(prices, event, v.value)
    requires forall u :: Eligible(prices, event, u) ==> v.Some? && (u == v.value || Later(prices, v.value, u))
    ensures Effective(prices, event) == v
  {
    if v.Some? {
      assert IsEffective(prices, event, v.value);
    }
  }

  lemma EffectiveIsEligible(prices: map<VersionId, Version>, event: UsageEvent)
    requires Effective(prices, event).Some?
    ensures Eligible(prices, event, Effective(prices, event).value)
  {
  }

  lemma StrangeUsage(w: World, a: AttemptId, usage: Usage, observedAt: int, forRetry: bool)
    requires exists t :: t in usage && t !in DIMENSIONS
    ensures CompleteAttempt(w, a, usage, observedAt, forRetry) == w
  {
  }
}
