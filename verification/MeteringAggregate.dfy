/** The aggregate of a request against the whole pipeline: behind the completeness
    barrier it is the priced usage of every attempt plus every correction. */
module MeteringAggregate {
  import opened Wrappers
  import opened Sums
  import opened Pricing
  import opened MeteringModel
  import opened MeteringSafety
  import opened MeteringCost

  // ---- what the snapshot reads ---------------------------------------------------

  ghost function Events(w: World, r: RequestId): set<EventId> {
    set e | e in w.ledger && w.ledger[e].event.request == r
  }

  function CurrencyOf(w: World, e: EventId): Currency {
    if e in w.ledger && w.ledger[e].version in w.prices then w.prices[w.ledger[e].version].currency else 0
  }

  /** The event a ledger row prices or corrects. */
  function Subject(w: World, id: RowId): EventId {
    match id
    case UsageRow(e) => e
    case CorrectionRow(i) => if i < |w.adjustments| then w.adjustments[i].target else EventId(0, UnknownTokens)
  }

  /** The event_id of a ledger row. */
  function EventIdOf(w: World, id: RowId): LedgerId {
    match id
    case UsageRow(e) => OfEvent(e)
    case CorrectionRow(i) => if i < |w.adjustments| then w.adjustments[i].id else Chosen(0)
  }

  function FactOf(w: World, id: RowId): Fact {
    var e := Subject(w, id);
    var quantity := match id
                    case UsageRow(_) => if e in w.ledger then w.ledger[e].event.quantity else 0
                    case CorrectionRow(i) => if i < |w.adjustments| then w.adjustments[i].quantityDelta else 0;
    var amount := match id
                  case UsageRow(_) => if e in w.ledger then w.ledger[e].amount else 0
                  case CorrectionRow(i) => if i < |w.adjustments| then w.adjustments[i].amountDelta else 0;
    Fact(id, EventIdOf(w, id), Some(e.attempt), CurrencyOf(w, e), quantity, amount)
  }

  ghost function UsageRows(w: World, r: RequestId): set<RowId> {
    set e | e in Events(w, r) :: UsageRow(e)
  }

  ghost function CorrectionRows(w: World, r: RequestId, n: nat): set<RowId> {
    set i | 0 <= i < n && i < |w.adjustments| && w.adjustments[i].target in Events(w, r) :: CorrectionRow(i)
  }

  ghost function RowsOf(w: World, r: RequestId): set<RowId> {
    UsageRows(w, r) + CorrectionRows(w, r, |w.adjustments|)
  }

  /** loadLedger: every row of the request once, in whatever order. */
  ghost predicate IsLedgerOf(facts: seq<Fact>, w: World, r: RequestId) {
    && (forall i :: 0 <= i < |facts| ==> facts[i].id in RowsOf(w, r) && facts[i] == FactOf(w, facts[i].id))
    && (forall i, j :: 0 <= i < j < |facts| ==> facts[i].id != facts[j].id)
    && (forall id :: id in RowsOf(w, r) ==> exists i :: 0 <= i < |facts| && facts[i].id == id)
  }

  function AttemptFacts(w: World, r: RequestId): seq<AttemptFact>
    requires r in w.requests
  {
    var ids := w.requests[r].attempts;
    seq(|ids|,
        i requires 0 <= i < |ids| => AttemptFact(ids[i], i + 1, ids[i] in w.attempts && w.attempts[ids[i]].ended))
  }

  /** A correction of the same attempt carries the event's identifier, so that the join of
      outbox and ledger takes its row for the event's. */
  predicate StandsIn(w: World, e: EventId) {
    exists i :: 0 <= i < |w.adjustments| && StandsInAs(w.adjustments[i], e)
  }

  predicate StandsInAs(x: Adjustment, e: EventId) {
    x.id == OfEvent(e) && x.target.attempt == e.attempt
  }

  /** outboxComplete: every usage event of the request joins a ledger row. */
  ghost predicate BarrierOpen(w: World, r: RequestId) {
    forall e :: e in w.outbox && w.outbox[e].event.request == r ==> e in w.ledger || StandsIn(w, e)
  }

  /** No correction stands in for an event of the request: a look at the corrections tells. */
  ghost predicate NothingStandsIn(w: World, r: RequestId) {
    forall e :: e in w.outbox && w.outbox[e].event.request == r ==> !StandsIn(w, e)
  }

  /** Every usage event of the request is priced. */
  ghost predicate Complete(w: World, r: RequestId) {
    forall e :: e in w.outbox && w.outbox[e].event.request == r ==> e in w.ledger
  }

  // ---- what it should say --------------------------------------------------------

  ghost function Charge(w: World, c: Currency): EventId -> int {
    (e: EventId) => if e in w.ledger && CurrencyOf(w, e) == c then w.ledger[e].amount else 0
  }

  ghost function DimensionCharge(w: World, a: AttemptId, c: Currency): TokenType -> int {
    (t: TokenType) => Charge(w, c)(EventId(a, t))
  }

  /** The price of every positive dimension that the attempt reported. */
  ghost function AttemptCharge(w: World, c: Currency): AttemptId -> int {
    (a: AttemptId) => if a in w.attempts then SumSet(Billable(w.attempts[a].usage), DimensionCharge(w, a, c)) else 0
  }

  ghost function CorrectionOn(w: World, events: set<EventId>, c: Currency): Adjustment -> int {
    (x: Adjustment) => if x.target in events && CurrencyOf(w, x.target) == c then x.amountDelta else 0
  }

  ghost function OnEvents(w: World, events: set<EventId>, c: Currency): Fact -> int {
    (f: Fact) => if Subject(w, f.id) in events && f.currency == c then f.amount else 0
  }

  ghost function RowValue(w: World, events: set<EventId>, c: Currency): RowId -> int {
    (id: RowId) => OnEvents(w, events, c)(FactOf(w, id))
  }

  ghost function CurrentIn(w: World, c: Currency): EventId -> int {
    (e: EventId) => if e in w.ledger && CurrencyOf(w, e) == c then CurrentAmount(w, e) else 0
  }

  ghost function CorrectionsAt(w: World, adjustments: seq<Adjustment>, c: Currency): EventId -> int {
    (e: EventId) => if CurrencyOf(w, e) == c then SumBy(adjustments, AmountOn(e)) else 0
  }

  // ---- rows and events -----------------------------------------------------------

  lemma FactsAreRows(facts: seq<Fact>, w: World, r: RequestId, events: set<EventId>, c: Currency)
    requires IsLedgerOf(facts, w, r)
    ensures SumBy(facts, OnEvents(w, events, c)) == SumSet(RowsOf(w, r), RowValue(w, events, c))
  {
    hide RowsOf, FactOf, OnEvents;
    var ids := seq(|facts|, i requires 0 <= i < |facts| => facts[i].id);
    forall i | 0 <= i < |facts| ensures OnEvents(w, events, c)(facts[i]) == RowValue(w, events, c)(ids[i]) {
    }
    SumMatch(facts, ids, OnEvents(w, events, c), RowValue(w, events, c));
    SumDistinct(ids, RowValue(w, events, c));
    assert Elements(ids) == RowsOf(w, r) by {
      forall id | id in RowsOf(w, r) ensures id in ids {
        var i :| 0 <= i < |facts| && facts[i].id == id;
        assert ids[i] == id;
      }
    }
  }

  lemma CorrectionValue(w: World, events: set<EventId>, c: Currency, i: nat)
    requires i < |w.adjustments|
    ensures RowValue(w, events, c)(CorrectionRow(i)) == CorrectionOn(w, events, c)(w.adjustments[i])
  {
    var f := FactOf(w, CorrectionRow(i));
    assert OnEvents(w, events, c)(f) == if Subject(w, f.id) in events && f.currency == c then f.amount else 0;
  }

  lemma UsageValueIs(w: World, events: set<EventId>, c: Currency, e: EventId)
    requires e in w.ledger
    ensures UsageValue(w, events, c)(e) == if e in events then Charge(w, c)(e) else 0
  {
    var f := FactOf(w, UsageRow(e));
    assert OnEvents(w, events, c)(f) == if Subject(w, f.id) in events && f.currency == c then f.amount else 0;
    assert RowValue(w, events, c)(UsageRow(e)) == OnEvents(w, events, c)(f);
  }

  lemma {:induction false} CorrectionRowsSum(w: World, r: RequestId, events: set<EventId>, c: Currency, n: nat)
    requires n <= |w.adjustments| && events <= Events(w, r)
    ensures SumSet(CorrectionRows(w, r, n), RowValue(w, events, c))
            == SumBy(w.adjustments[..n], CorrectionOn(w, events, c))
  {
    hide Events, RowValue, SumSet;
    if n == 0 {
      SumSetZero(CorrectionRows(w, r, 0), RowValue(w, events, c));
    } else {
      var x := w.adjustments[n - 1];
      CorrectionRowsSum(w, r, events, c, n - 1);
      assert w.adjustments[..n] == w.adjustments[..n - 1] + [x];
      SumAppend(w.adjustments[..n - 1], x, CorrectionOn(w, events, c));
      var before := CorrectionRows(w, r, n - 1);
      CorrectionValue(w, events, c, n - 1);
      if x.target in Events(w, r) {
        assert CorrectionRows(w, r, n) == before + {CorrectionRow(n - 1)};
        SumSetInsert(before, CorrectionRow(n - 1), RowValue(w, events, c));
      } else {
        assert CorrectionRows(w, r, n) == before;
      }
    }
  }

  ghost function ToRow(): EventId -> RowId { (e: EventId) => UsageRow(e) }

  ghost function UsageValue(w: World, events: set<EventId>, c: Currency): EventId -> int {
    (e: EventId) => RowValue(w, events, c)(UsageRow(e))
  }

  lemma UsageRowsSum(w: World, r: RequestId, events: set<EventId>, c: Currency)
    requires events <= Events(w, r)
    ensures SumSet(UsageRows(w, r), RowValue(w, events, c)) == SumSet(events, Charge(w, c))
  {
    hide RowValue, Charge, SumSet;
    SumSetImage(Events(w, r), UsageRows(w, r), ToRow(), RowValue(w, events, c), UsageValue(w, events, c));
    forall e | e in Events(w, r) ensures UsageValue(w, events, c)(e) == if e in events then Charge(w, c)(e) else 0 {
      UsageValueIs(w, events, c, e);
    }
    SumSetPart(Events(w, r), events, UsageValue(w, events, c), Charge(w, c));
  }

  /** The rows about some events add up to their charges and their corrections. */
  lemma FactsSum(facts: seq<Fact>, w: World, r: RequestId, events: set<EventId>, c: Currency)
    requires IsLedgerOf(facts, w, r) && events <= Events(w, r)
    ensures SumBy(facts, OnEvents(w, events, c))
            == SumSet(events, Charge(w, c)) + SumBy(w.adjustments, CorrectionOn(w, events, c))
  {
    hide IsLedgerOf, Events;
    FactsAreRows(facts, w, r, events, c);
    SumSetUnion(UsageRows(w, r), CorrectionRows(w, r, |w.adjustments|), RowValue(w, events, c));
    UsageRowsSum(w, r, events, c);
    CorrectionRowsSum(w, r, events, c, |w.adjustments|);
    assert w.adjustments[..|w.adjustments|] == w.adjustments;
  }

  // ---- current amounts -----------------------------------------------------------

  /** Adding corrections one by one is adding them event by event. */
  lemma {:induction false} CorrectionsByEvent(w: World, adjustments: seq<Adjustment>, events: set<EventId>, c: Currency)
    ensures SumBy(adjustments, CorrectionOn(w, events, c)) == SumSet(events, CorrectionsAt(w, adjustments, c))
  {
    if adjustments == [] {
      SumSetZero(events, CorrectionsAt(w, adjustments, c));
    } else {
      var init, x := adjustments[..|adjustments| - 1], adjustments[|adjustments| - 1];
      assert adjustments == init + [x];
      CorrectionsByEvent(w, init, events, c);
      SumAppend(init, x, CorrectionOn(w, events, c));
      CorrectionLands(w, init, x, events, c);
    }
  }

  lemma CorrectionLands(w: World, init: seq<Adjustment>, x: Adjustment, events: set<EventId>, c: Currency)
    ensures SumSet(events, CorrectionsAt(w, init + [x], c))
            == SumSet(events, CorrectionsAt(w, init, c)) + CorrectionOn(w, events, c)(x)
  {
    hide SumSet;
    forall e: EventId
      ensures CorrectionsAt(w, init + [x], c)(e) == CorrectionsAt(w, init, c)(e) + if x.target == e
              && CurrencyOf(w, e) == c then x.amountDelta else 0
    {
      SumAppend(init, x, AmountOn(e));
    }
    if x.target in events {
      SumSetRemove(events, x.target, CorrectionsAt(w, init + [x], c));
      SumSetRemove(events, x.target, CorrectionsAt(w, init, c));
      SumSetAgree(events - {x.target}, CorrectionsAt(w, init + [x], c), CorrectionsAt(w, init, c));
    } else {
      SumSetAgree(events, CorrectionsAt(w, init + [x], c), CorrectionsAt(w, init, c));
    }
  }

  lemma CurrentSum(w: World, events: set<EventId>, c: Currency)
    requires forall e :: e in events ==> e in w.ledger
    ensures SumSet(events, CurrentIn(w, c))
            == SumSet(events, Charge(w, c)) + SumBy(w.adjustments, CorrectionOn(w, events, c))
  {
    CorrectionsByEvent(w, w.adjustments, events, c);
    SumSetAdd(events, CurrentIn(w, c), Charge(w, c), CorrectionsAt(w, w.adjustments, c));
  }

  /** Corrections never make the total of any events negative. */
  lemma NeverNegative(facts: seq<Fact>, w: World, r: RequestId, events: set<EventId>, c: Currency)
    requires Inv(w) && IsLedgerOf(facts, w, r) && events <= Events(w, r)
    ensures 0 <= SumBy(facts, OnEvents(w, events, c)) == SumSet(events, CurrentIn(w, c))
  {
    hide Inv, IsLedgerOf, SumSet, SumBy;
    FactsSum(facts, w, r, events, c);
    CurrentSum(w, events, c);
    forall e | e in events ensures 0 <= CurrentIn(w, c)(e) {
      ChainIsSound(w, e);
    }
    SumSetBound(events, CurrentIn(w, c));
  }

  // ---- attempt by attempt --------------------------------------------------------

  ghost function EventsAt(w: World, r: RequestId, a: AttemptId): set<EventId> {
    set e | e in Events(w, r) && e.attempt == a
  }

  ghost function EventsUpTo(w: World, r: RequestId, n: nat): set<EventId>
    requires r in w.requests && n <= |w.requests[r].attempts|
  {
    set e | e in Events(w, r) && e.attempt in w.requests[r].attempts[..n]
  }

  lemma EventBelongs(w: World, r: RequestId, e: EventId)
    requires Inv(w) && r in w.requests && e in Events(w, r)
    ensures e.attempt in w.attempts && w.attempts[e.attempt].request == r && e.attempt in w.requests[r].attempts
    ensures e.tokenType in Billable(w.attempts[e.attempt].usage)
  {
    hide TopicInv, RelayInv, OffsetInv, AdjustmentInv, Priced, ValidUsage;
    assert e in w.outbox;
  }

  lemma EventsOfAttempt(w: World, r: RequestId, a: AttemptId, c: Currency)
    requires Inv(w) && r in w.requests && a in w.requests[r].attempts
    ensures SumSet(EventsAt(w, r, a), Charge(w, c)) == AttemptCharge(w, c)(a)
  {
    hide TopicInv, RelayInv, OffsetInv, AdjustmentInv, LedgerInv, ValidUsage, SumSet;
    assert a in w.attempts && w.attempts[a].request == r;
    var billable := Billable(w.attempts[a].usage);
    var priced := set t | t in billable && EventId(a, t) in w.ledger;
    forall t | t in priced ensures EventId(a, t) in EventsAt(w, r, a) {
      var e := EventId(a, t);
      assert e in w.outbox && w.outbox[e].event.request == r;
      LedgerKeepsEvent(w, e);
    }
    forall e | e in EventsAt(w, r, a) ensures e.tokenType in priced && e == EventId(a, e.tokenType) {
      EventBelongs(w, r, e);
    }
    var named := (t: TokenType) => EventId(a, t);
    forall e | e in EventsAt(w, r, a) ensures exists t :: t in priced && named(t) == e {
      assert named(e.tokenType) == e;
    }
    SumSetImage(priced, EventsAt(w, r, a), named, Charge(w, c), DimensionCharge(w, a, c));
    SumSetPart(billable, priced, DimensionCharge(w, a, c), DimensionCharge(w, a, c));
  }

  lemma LedgerKeepsEvent(w: World, e: EventId)
    requires LedgerInv(w.prices, w.outbox, w.receipts, w.ledger) && e in w.ledger
    ensures e in w.outbox && w.ledger[e].event == w.outbox[e].event
  {
  }

  lemma UpToGrows(w: World, r: RequestId, n: nat)
    requires ExecutionInv(w.requests, w.attempts) && r in w.requests && n < |w.requests[r].attempts|
    ensures var a := w.requests[r].attempts[n];
            && EventsUpTo(w, r, n + 1) == EventsUpTo(w, r, n) + EventsAt(w, r, a)
            && EventsUpTo(w, r, n) !! EventsAt(w, r, a)
  {
    hide Events;
    var attempts := w.requests[r].attempts;
    assert attempts[..n + 1] == attempts[..n] + [attempts[n]];
  }

  lemma {:induction false} EventsByAttempt(w: World, r: RequestId, n: nat, c: Currency)
    requires Inv(w) && r in w.requests && n <= |w.requests[r].attempts|
    ensures SumSet(EventsUpTo(w, r, n), Charge(w, c)) == SumBy(w.requests[r].attempts[..n], AttemptCharge(w, c))
  {
    hide ExecutionInv, OutboxInv, TopicInv, RelayInv, OffsetInv, AdjustmentInv, LedgerInv, SumSet, AttemptCharge,
         Charge, EventsAt;
    var attempts := w.requests[r].attempts;
    if n == 0 {
      SumSetZero(EventsUpTo(w, r, 0), Charge(w, c));
    } else {
      var a := attempts[n - 1];
      EventsByAttempt(w, r, n - 1, c);
      EventsOfAttempt(w, r, a, c);
      assert attempts[..n] == attempts[..n - 1] + [a];
      SumAppend(attempts[..n - 1], a, AttemptCharge(w, c));
      UpToGrows(w, r, n - 1);
      SumSetUnion(EventsUpTo(w, r, n - 1), EventsAt(w, r, a), Charge(w, c));
    }
  }

  lemma FactsConcern(facts: seq<Fact>, w: World, r: RequestId)
    requires IsLedgerOf(facts, w, r)
    ensures forall i :: 0 <= i < |facts| ==>
              Subject(w, facts[i].id) in Events(w, r) && facts[i].attempt == Some(Subject(w, facts[i].id).attempt)
  {
    forall i | 0 <= i < |facts|
      ensures Subject(w, facts[i].id) in Events(w, r) && facts[i].attempt == Some(Subject(w, facts[i].id).attempt)
    {
      assert facts[i].id in RowsOf(w, r);
    }
  }

  /** What the request costs in one currency: the locked price of every priced
      dimension of all its attempts, and all its corrections. */
  ghost function Due(w: World, r: RequestId, c: Currency): int
    requires r in w.requests
  {
    SumBy(w.requests[r].attempts, AttemptCharge(w, c)) + SumBy(w.adjustments, CorrectionOn(w, Events(w, r), c))
  }

  /** Every positive dimension that any attempt of the request reported is priced. */
  ghost predicate EveryDimensionPriced(w: World, r: RequestId)
    requires r in w.requests
  {
    forall i :: 0 <= i < |w.requests[r].attempts| ==> AttemptPriced(w, w.requests[r].attempts[i])
  }

  ghost predicate AttemptPriced(w: World, a: AttemptId) {
    a in w.attempts && forall t :: t in Billable(w.attempts[a].usage) ==> EventId(a, t) in w.ledger
  }

  lemma CompleteIsPriced(w: World, r: RequestId)
    requires Inv(w) && r in w.requests
    ensures Complete(w, r) <==> EveryDimensionPriced(w, r)
  {
    hide TopicInv, RelayInv, OffsetInv, AdjustmentInv, LedgerInv, ValidUsage;
    if EveryDimensionPriced(w, r) {
      forall e | e in w.outbox && w.outbox[e].event.request == r ensures e in w.ledger {
        var k :| 0 <= k < |w.requests[r].attempts| && w.requests[r].attempts[k] == e.attempt;
        assert AttemptPriced(w, w.requests[r].attempts[k]);
        assert EventId(e.attempt, e.tokenType) == e;
      }
    }
    if Complete(w, r) {
      forall i | 0 <= i < |w.requests[r].attempts| ensures AttemptPriced(w, w.requests[r].attempts[i]) {
        var a := w.requests[r].attempts[i];
        forall t | t in Billable(w.attempts[a].usage) ensures EventId(a, t) in w.ledger {
          assert EventId(a, t) in w.outbox;
        }
      }
    }
  }

  /** The identifiers of corrections and of priced events are disjoint. */
  lemma StandInIsUnpriced(w: World, e: EventId)
    requires Inv(w) && StandsIn(w, e)
    ensures e !in w.ledger
  {
    hide ExecutionInv, OutboxInv, TopicInv, RelayInv, OffsetInv, LedgerInv, ResultHolds, InRange, ValidDelta;
    var i :| 0 <= i < |w.adjustments| && StandsInAs(w.adjustments[i], e);
    assert w.adjustments[i].id == OfEvent(e);
  }

  /** Behind the barrier, a request is complete if and only if no correction stands in for
      one of its events. */
  lemma BarrierIsTrueIff(w: World, r: RequestId)
    requires Inv(w) && BarrierOpen(w, r)
    ensures Complete(w, r) <==> NothingStandsIn(w, r)
  {
    hide Inv, StandsIn;
    forall e | e in w.outbox && w.outbox[e].event.request == r && StandsIn(w, e) ensures e !in w.ledger {
      StandInIsUnpriced(w, e);
    }
  }

  /** Per currency, the total of the rows of a request is what is due; and behind the
      barrier that covers every positive dimension of every attempt if and only if no
      correction stands in for one of its events. */
  lemma AggregateIsExact(w: World, r: RequestId, facts: seq<Fact>, c: Currency)
    requires Inv(w) && r in w.requests && IsLedgerOf(facts, w, r)
    ensures SumBy(facts, InCurrency(c)) == Due(w, r, c)
    ensures BarrierOpen(w, r) ==> (EveryDimensionPriced(w, r) <==> NothingStandsIn(w, r))
  {
    hide ExecutionInv, OutboxInv, TopicInv, RelayInv, OffsetInv, AdjustmentInv, LedgerInv, SumSet, AttemptCharge,
         Charge, IsLedgerOf, CorrectionOn, EveryDimensionPriced, StandsIn, BarrierOpen, Complete, NothingStandsIn;
    CompleteIsPriced(w, r);
    if BarrierOpen(w, r) {
      BarrierIsTrueIff(w, r);
    }
    FactsConcern(facts, w, r);
    SumSeqAgree(facts, InCurrency(c), OnEvents(w, Events(w, r), c));
    FactsSum(facts, w, r, Events(w, r), c);
    var n := |w.requests[r].attempts|;
    EventsByAttempt(w, r, n, c);
    assert w.requests[r].attempts[..n] == w.requests[r].attempts;
    assert EventsUpTo(w, r, n) == Events(w, r) by {
      forall e | e in Events(w, r) ensures e in EventsUpTo(w, r, n) {
        EventBelongs(w, r, e);
      }
    }
  }

  /** A successful cost lists, in ascending order, exactly what is due in every
      currency that occurs, and lists every currency in which anything is due. */
  ghost predicate ReportsDue(listed: CurrencyTotals, w: World, r: RequestId)
    requires r in w.requests
  {
    && (forall i, j :: 0 <= i < j < |listed| ==> listed[i].0 < listed[j].0)
    && (forall i :: 0 <= i < |listed| ==> listed[i].1 == Due(w, r, listed[i].0))
    && (forall c: Currency :: Due(w, r, c) != 0 ==> Lists(listed, c))
  }

  lemma TotalsReportDue(w: World, r: RequestId, facts: seq<Fact>, listed: CurrencyTotals)
    requires Inv(w) && r in w.requests && IsLedgerOf(facts, w, r) && TotalsHold(listed, facts)
    ensures ReportsDue(listed, w, r)
  {
    hide Inv, IsLedgerOf, BarrierOpen, NothingStandsIn, EveryDimensionPriced, SumBy, AttemptCharge, CorrectionOn;
    var totals :| IsTotal(totals, facts) && InBounds(totals) && IsListing(listed, totals);
    forall c: Currency
      ensures c in totals ==> totals[c] == Due(w, r, c)
      ensures c !in totals ==> Due(w, r, c) == 0
    {
      AggregateIsExact(w, r, facts, c);
      if c !in totals {
        assert !Occurs(facts, c);
        SumSeqZero(facts, InCurrency(c));
      }
    }
  }

  /** Each of those prices is the exact ceiling at the rate locked by the ledger. */
  lemma PriceIsLocked(w: World, e: EventId)
    requires Inv(w) && e in w.ledger
    ensures e.attempt in w.attempts && e.tokenType in w.attempts[e.attempt].usage
    ensures Eligible(w.prices, w.ledger[e].event, w.ledger[e].version)
    ensures CalculateAmountMicros(w.attempts[e.attempt].usage[e.tokenType],
                                  w.prices[w.ledger[e].version].rates[e.tokenType])
         == Amount(w.ledger[e].amount)
  {
    hide ExecutionInv, TopicInv, RelayInv, OffsetInv, AdjustmentInv, CalculateAmountMicros;
  }

  // ---- when it succeeds ----------------------------------------------------------

  lemma RowIsValid(w: World, r: RequestId, id: RowId)
    requires Inv(w) && id in RowsOf(w, r)
    ensures FactOf(w, id).Valid()
  {
    hide ExecutionInv, OutboxInv, TopicInv, RelayInv, OffsetInv, ResultHolds, InRange, Priced;
    match id
    case UsageRow(e) =>
      assert e in Events(w, r);
      PricedInRange(w.prices, w.ledger[e]);
    case CorrectionRow(i) =>
      assert ValidDelta(w.adjustments[i]);
  }

  lemma EventIdsAreDistinct(w: World, r: RequestId, id: RowId, id': RowId)
    requires Inv(w) && id in RowsOf(w, r) && id' in RowsOf(w, r) && id != id'
    ensures EventIdOf(w, id) != EventIdOf(w, id')
  {
    hide ExecutionInv, OutboxInv, TopicInv, RelayInv, OffsetInv, LedgerInv, ResultHolds, InRange;
    if id.CorrectionRow? && id'.CorrectionRow? {
      assert id.index < id'.index || id'.index < id.index;
    }
  }

  lemma FactsAreInOrder(w: World, r: RequestId, facts: seq<Fact>)
    requires Inv(w) && r in w.requests && IsLedgerOf(facts, w, r)
    ensures FactsInOrder(AttemptFacts(w, r), facts) && Distinct(AttemptFacts(w, r))
  {
    hide OutboxInv, TopicInv, RelayInv, OffsetInv, AdjustmentInv, LedgerInv, FactOf, RowsOf, Fact.Valid, Events;
    FactsConcern(facts, w, r);
    var attempts := AttemptFacts(w, r);
    forall i | 0 <= i < |facts| ensures facts[i].Valid() && KnownAttempt(attempts, facts[i].attempt) {
      RowIsValid(w, r, facts[i].id);
      var e := Subject(w, facts[i].id);
      EventBelongs(w, r, e);
      var k :| 0 <= k < |w.requests[r].attempts| && w.requests[r].attempts[k] == e.attempt;
      assert attempts[k].id == e.attempt;
    }
    forall i, j | 0 <= i < j < |facts| ensures facts[i].event != facts[j].event {
      EventIdsAreDistinct(w, r, facts[i].id, facts[j].id);
      FactsCarryIds(w, facts[i].id);
      FactsCarryIds(w, facts[j].id);
    }
  }

  lemma FactsCarryIds(w: World, id: RowId)
    ensures FactOf(w, id).event == EventIdOf(w, id)
  {
  }

  ghost function Only(a: Option<AttemptId>, c: Currency): Fact -> int {
    (f: Fact) => if f.attempt == a && f.currency == c then f.amount else 0
  }

  lemma {:induction false} OfSum(facts: seq<Fact>, a: Option<AttemptId>, c: Currency)
    ensures SumBy(Of(facts, a), InCurrency(c)) == SumBy(facts, Only(a, c))
  {
    if facts != [] {
      var init, f := facts[..|facts| - 1], facts[|facts| - 1];
      OfSum(init, a, c);
      SumAppend(Of(init, a), f, InCurrency(c));
    }
  }

  lemma AttemptSumIsSound(w: World, r: RequestId, facts: seq<Fact>, a: AttemptId, c: Currency)
    requires Inv(w) && r in w.requests && IsLedgerOf(facts, w, r)
    ensures 0 <= SumBy(Of(facts, Some(a)), InCurrency(c))
    ensures Of(facts, None) == []
  {
    hide Inv, IsLedgerOf, SumSet, Of;
    FactsConcern(facts, w, r);
    OfSum(facts, Some(a), c);
    SumSeqAgree(facts, Only(Some(a), c), OnEvents(w, EventsAt(w, r, a), c));
    NeverNegative(facts, w, r, EventsAt(w, r, a), c);
    NoneWithoutAttempt(facts);
  }

  lemma {:induction false} NoneWithoutAttempt(facts: seq<Fact>)
    requires forall i :: 0 <= i < |facts| ==> facts[i].attempt.Some?
    ensures Of(facts, None) == []
  {
    if facts != [] {
      NoneWithoutAttempt(facts[..|facts| - 1]);
    }
  }

  /** In every reachable state the aggregate's checks on attempts and facts hold,
      no total is ever negative, and the amounts are representable exactly when no
      currency total of the request passes the exact-integer range. */
  lemma OnlyOverflowCanFail(w: World, r: RequestId, facts: seq<Fact>)
    requires Inv(w) && r in w.requests && IsLedgerOf(facts, w, r)
    ensures FactsInOrder(AttemptFacts(w, r), facts)
    ensures forall c: Currency :: 0 <= SumBy(facts, InCurrency(c))
    ensures AllRepresentable(AttemptFacts(w, r), facts) <==>
              forall c: Currency :: SumBy(facts, InCurrency(c)) <= MAXIMUM_EXACT
  {
    hide Inv, IsLedgerOf, SumSet, Of, SumBy, AttemptFacts, FactsInOrder, Distinct;
    var attempts := AttemptFacts(w, r);
    FactsAreInOrder(w, r, facts);
    AttemptSumIsSound(w, r, facts, 0, 0);
    forall c: Currency
      ensures 0 <= SumBy(facts, InCurrency(c))
      ensures SumBy(Of(facts, None), InCurrency(c)) == 0
      ensures forall i :: 0 <= i < |attempts| ==>
                0 <= SumBy(Of(facts, Some(attempts[i].id)), InCurrency(c)) <= SumBy(facts, InCurrency(c))
    {
      TotalSplitsByAttempt(attempts, facts, c);
      SumSeqZero(Of(facts, None), InCurrency(c));
      forall i | 0 <= i < |attempts| ensures 0 <= AttemptSum(facts, c)(attempts[i]) {
        AttemptSumIsSound(w, r, facts, attempts[i].id, c);
      }
      SumSeqBound(attempts, AttemptSum(facts, c));
    }
  }

  // ---- a finished request stays as it is ---------------------------------------------

  /** The request has ended, all its attempts have, and all their usage is priced. */
  ghost predicate Finished(w: World, r: RequestId) {
    && r in w.requests && w.requests[r].terminal && Complete(w, r)
    && forall i :: 0 <= i < |w.requests[r].attempts| ==>
         w.requests[r].attempts[i] in w.attempts && w.attempts[w.requests[r].attempts[i]].ended
  }

  ghost predicate SameExecution(w: World, w': World, r: RequestId)
    requires r in w.requests
  {
    && r in w'.requests && w'.requests[r].attempts == w.requests[r].attempts
    && forall i :: 0 <= i < |w.requests[r].attempts| ==>
         var a := w.requests[r].attempts[i];
         a in w.attempts && a in w'.attempts && w'.attempts[a] == w.attempts[a]
  }

  ghost predicate SameLedger(w: World, w': World, r: RequestId) {
    && Events(w', r) == Events(w, r)
    && forall e :: e in Events(w, r) ==> w'.ledger[e] == w.ledger[e] && CurrencyOf(w', e) == CurrencyOf(w, e)
  }

  /** Nothing of the request changed but corrections that were appended. */
  ghost predicate Frozen(w: World, w': World, r: RequestId)
    requires r in w.requests
  {
    SameExecution(w, w', r) && SameLedger(w, w', r) && w.adjustments <= w'.adjustments
  }

  lemma StartStays(w: World, q: RequestId, a: AttemptId, d: DeploymentId, r: RequestId)
    requires Finished(w, r)
    ensures Finished(StartAttempt(w, q, a, d), r) && Frozen(w, StartAttempt(w, q, a, d), r)
  {
    hide Events;
    SameTables(w, StartAttempt(w, q, a, d), r);
  }

  lemma RequestsStay(w: World, q: RequestId, row: RequestRow, r: RequestId)
    requires Finished(w, r) && (q == r ==> row == w.requests[r])
    ensures var w' := w.(requests := w.requests[q := row]);
            Finished(w', r) && Frozen(w, w', r)
  {
    hide Events;
    SameTables(w, w.(requests := w.requests[q := row]), r);
  }

  lemma SameTables(w: World, w': World, r: RequestId)
    requires w'.ledger == w.ledger && w'.prices == w.prices
    ensures SameLedger(w, w', r)
  {
  }

  lemma OpenAttemptIsForeign(w: World, a: AttemptId, r: RequestId)
    requires ExecutionInv(w.requests, w.attempts) && Finished(w, r) && a in w.attempts && !w.attempts[a].ended
    ensures w.attempts[a].request != r && a !in w.requests[r].attempts
  {
  }

  lemma ForeignCompletionStays(w: World, a: AttemptId, row: AttemptRow, requests: map<RequestId, RequestRow>,
                               r: RequestId)
    requires Finished(w, r) && row.request != r && a !in w.requests[r].attempts
    requires r in requests && requests[r] == w.requests[r]
    ensures var w' := w.(attempts := w.attempts[a := row], outbox := w.outbox + NewRows(a, row), requests := requests);
            Finished(w', r) && Frozen(w, w', r)
  {
    hide Events, NewRows;
    NewRowsAre(a, row);
    var w' := w.(attempts := w.attempts[a := row], outbox := w.outbox + NewRows(a, row), requests := requests);
    SameTables(w, w', r);
    assert forall i :: 0 <= i < |w.requests[r].attempts| ==> w.requests[r].attempts[i] != a;
  }

  lemma CompletionStays(w: World, a: AttemptId, usage: Usage, observedAt: int, forRetry: bool, r: RequestId)
    requires Inv(w) && Finished(w, r)
    ensures var w' := CompleteAttempt(w, a, usage, observedAt, forRetry);
            Finished(w', r) && Frozen(w, w', r)
  {
    hide ExecutionInv, TopicInv, RelayInv, LedgerInv, OffsetInv, AdjustmentInv, OutboxInv, NewRows, ValidUsage,
         Complete, SameExecution, SameLedger, Frozen;
    var w' := CompleteAttempt(w, a, usage, observedAt, forRetry);
    DeliverySame(w, r);
    if w' != w {
      OpenAttemptIsForeign(w, a, r);
      ForeignCompletionStays(w, a, w.attempts[a].(ended := true, usage := usage, observedAt := observedAt), w'.requests,
                             r);
    }
  }

  lemma PriceStays(w: World, id: VersionId, version: Version, r: RequestId)
    requires Inv(w) && Finished(w, r) && id !in w.prices
    ensures var w' := w.(prices := w.prices[id := version]);
            Finished(w', r) && Frozen(w, w', r)
  {
    hide ExecutionInv, TopicInv, RelayInv, OffsetInv, AdjustmentInv, OutboxInv;
  }

  lemma DeliveryStays(w: World, w': World, r: RequestId)
    requires Inv(w) && Finished(w, r) && SameEvents(w.outbox, w'.outbox)
    requires w'.requests == w.requests && w'.attempts == w.attempts && w'.prices == w.prices
    requires w'.ledger == w.ledger && w.adjustments <= w'.adjustments
    ensures Finished(w', r) && Frozen(w, w', r)
  {
    hide ExecutionInv, TopicInv, RelayInv, LedgerInv, OffsetInv, AdjustmentInv, OutboxInv, Events;
    SameTables(w, w', r);
  }

  lemma ProcessStays(w: World, event: UsageEvent, r: RequestId)
    requires Inv(w) && Finished(w, r) && event.id in w.outbox && w.outbox[event.id].event == event
    ensures var w' := Process(w, event).0;
            Finished(w', r) && Frozen(w, w', r)
  {
    hide ExecutionInv, TopicInv, RelayInv, LedgerInv, OffsetInv, AdjustmentInv, OutboxInv, Process;
    ProcessIsSafe(w, event);
  }

  /** The moves that touch no more than delivery state, sessions or corrections. */
  predicate IsDelivery(m: Move) {
    || m.ClaimMove? || m.DeliverMove? || m.PublishedMove? || m.RetryMove? || m.CrashMove?
    || m.OpenMove? || m.CommitMove? || m.CloseMove? || m.AdjustMove?
  }

  lemma PublishedFrame(w: World, lease: LeaseId, e: EventId)
    ensures var w' := MarkPublished(w, lease, e);
            w' == w.(outbox := w'.outbox, relays := w'.relays) && SameEvents(w.outbox, w'.outbox)
  {
    if InHand(w, lease, e) && w.relays[lease][e] && Owns(w, lease, e) {
      assert MarkPublished(w, lease, e).outbox == w.outbox[e := w.outbox[e].(status := Published)];
    }
  }

  lemma RetryFrame(w: World, lease: LeaseId, e: EventId, at: int)
    ensures var w' := MarkRetry(w, lease, e, at);
            w' == w.(outbox := w'.outbox, relays := w'.relays) && SameEvents(w.outbox, w'.outbox)
  {
    if InHand(w, lease, e) && !w.relays[lease][e] && Owns(w, lease, e) {
      var row := OutboxRow(w.outbox[e].event, Pending(at), w.outbox[e].publishAttempts + 1);
      assert MarkRetry(w, lease, e, at).outbox == w.outbox[e := row];
    }
  }

  lemma ClaimFrame(w: World, lease: LeaseId, now: int, expires: int, reclaim: set<EventId>, take: set<EventId>)
    ensures var w' := Claim(w, lease, now, expires, reclaim, take);
            w' == w.(outbox := w'.outbox, relays := w'.relays) && SameEvents(w.outbox, w'.outbox)
  {
  }

  lemma SameEventsSame(outbox: map<EventId, OutboxRow>)
    ensures SameEvents(outbox, outbox)
  {
  }

  lemma DeliverFrame(w: World, lease: LeaseId, e: EventId, acknowledged: bool)
    ensures var w' := Deliver(w, lease, e, acknowledged);
            w' == w.(topic := w'.topic, relays := w'.relays) && w.topic <= w'.topic
  {
  }

  lemma CrashFrame(w: World, lease: LeaseId)
    ensures Crash(w, lease) == w.(relays := Crash(w, lease).relays)
  {
  }

  lemma SessionFrame(w: World, s: SessionId)
    ensures OpenSession(w, s) == w.(sessions := OpenSession(w, s).sessions)
    ensures CloseSession(w, s) == w.(sessions := CloseSession(w, s).sessions)
    ensures Commit(w, s) == w.(sessions := Commit(w, s).sessions, offset := Commit(w, s).offset)
  {
  }

  lemma CorrectionFrame(w: World, c: Command)
    requires c.Valid()
    ensures var w' := Apply(w, c).0;
            w' == w.(adjustments := w'.adjustments) && w.adjustments <= w'.adjustments
  {
    hide CurrentQuantity, CurrentAmount, FindKey, Agrees;
  }

  lemma DeliveryFrame(w: World, m: Move)
    requires IsDelivery(m)
    ensures var w' := Step(w, m);
            && w'.requests == w.requests && w'.attempts == w.attempts && w'.prices == w.prices
            && w'.ledger == w.ledger && w.adjustments <= w'.adjustments && SameEvents(w.outbox, w'.outbox)
            && w.topic <= w'.topic
  {
    hide Apply, MarkPublished, MarkRetry, Claim, Deliver, Crash, OpenSession, Commit, CloseSession, SameEvents,
         StartAttempt, CompleteAttempt, Consume;
    SameEventsSame(w.outbox);
    match m
    case ClaimMove(lease, now, expires, reclaim, take) => ClaimFrame(w, lease, now, expires, reclaim, take);
    case DeliverMove(lease, e, acknowledged) => DeliverFrame(w, lease, e, acknowledged);
    case OpenMove(s) => SessionFrame(w, s);
    case CommitMove(s) => SessionFrame(w, s);
    case CloseMove(s) => SessionFrame(w, s);
    case CrashMove(lease) => CrashFrame(w, lease);
    case PublishedMove(lease, e) => PublishedFrame(w, lease, e);
    case RetryMove(lease, e, at) => RetryFrame(w, lease, e, at);
    case AdjustMove(c) => if c.Valid() { CorrectionFrame(w, c); }
    case _ =>
  }

  lemma FinishedStays(w: World, m: Move, r: RequestId)
    requires Inv(w) && Finished(w, r)
    ensures Finished(Step(w, m), r) && Frozen(w, Step(w, m), r)
  {
    hide Inv, Finished, Frozen, StartAttempt, CompleteAttempt, Consume, Apply, MarkPublished, MarkRetry, Claim,
         Deliver, Crash, OpenSession, Commit, CloseSession, Process, SameEvents;
    if IsDelivery(m) {
      DeliveryFrame(w, m);
      DeliveryStays(w, Step(w, m), r);
    } else {
      match m
      case CompleteMove(a, usage, observedAt, forRetry) => CompletionStays(w, a, usage, observedAt, forRetry, r);
      case PriceMove(id, version) =>
        if id !in w.prices { PriceStays(w, id, version, r); }
        DeliverySame(w, r);
      case ConsumeMove(s) => ConsumeStays(w, s, r);
      case StartAttemptMove(q, a, d) => StartStays(w, q, a, d, r);
      case StartRequestMove(q, scope) =>
        DeliverySame(w, r);
        if q !in w.requests { RequestsStay(w, q, RequestRow(scope, [], false), r); }
      case EndRequestMove(q) =>
        DeliverySame(w, r);
        if q in w.requests { RequestsStay(w, q, w.requests[q].(terminal := true), r); }
    }
  }

  lemma DeliverySame(w: World, r: RequestId)
    requires Finished(w, r)
    ensures Frozen(w, w, r) && r in w.requests && w.requests[r].terminal
  {
    hide Events;
  }

  lemma ConsumeStays(w: World, s: SessionId, r: RequestId)
    requires Inv(w) && Finished(w, r)
    ensures Finished(Consume(w, s), r) && Frozen(w, Consume(w, s), r)
  {
    hide ExecutionInv, RelayInv, LedgerInv, OffsetInv, AdjustmentInv, OutboxInv, Process, Events;
    if s in w.sessions && !w.sessions[s].processed && w.sessions[s].position < |w.topic| {
      var event := w.topic[w.sessions[s].position];
      ProcessIsSafe(w, event);
      ProcessStays(w, event, r);
      var after := Process(w, event).0;
      SameTables(after, Consume(w, s), r);
    } else {
      DeliverySame(w, r);
    }
  }

  lemma FrozenChains(w: World, w': World, w'': World, r: RequestId)
    requires r in w.requests && Frozen(w, w', r) && Frozen(w', w'', r)
    ensures Frozen(w, w'', r)
  {
    hide Events;
  }

  lemma {:induction false} FinishedForGood(w: World, moves: seq<Move>, r: RequestId)
    requires Inv(w) && Finished(w, r)
    ensures Inv(Run(w, moves)) && Finished(Run(w, moves), r) && Frozen(w, Run(w, moves), r)
    decreases |moves|
  {
    hide Inv, Step, Frozen, Complete;
    if moves == [] {
      DeliverySame(w, r);
    } else {
      StepKeeps(w, moves[0]);
      FinishedStays(w, moves[0], r);
      FinishedForGood(Step(w, moves[0]), moves[1..], r);
      FrozenChains(w, Step(w, moves[0]), Run(w, moves), r);
    }
  }

  lemma PricedDimension(w: World, r: RequestId, a: AttemptId, t: TokenType)
    requires Inv(w) && Complete(w, r) && a in w.attempts && w.attempts[a].request == r
             && t in Billable(w.attempts[a].usage)
    ensures EventId(a, t) in Events(w, r)
  {
    hide ExecutionInv, TopicInv, RelayInv, LedgerInv, OffsetInv, AdjustmentInv;
    var e := EventId(a, t);
    assert e in w.outbox && w.outbox[e].event.request == r;
    LedgerKeepsEvent(w, e);
  }

  lemma FrozenAttempt(w: World, w': World, r: RequestId, a: AttemptId, c: Currency)
    requires Inv(w) && Complete(w, r) && SameLedger(w, w', r)
    requires a in w.attempts && w.attempts[a].request == r && a in w'.attempts && w'.attempts[a] == w.attempts[a]
    ensures AttemptCharge(w, c)(a) == AttemptCharge(w', c)(a)
  {
    hide Inv, Complete, SumSet;
    forall t | t in Billable(w.attempts[a].usage) ensures DimensionCharge(w, a, c)(t) == DimensionCharge(w', a, c)(t) {
      PricedDimension(w, r, a, t);
      var e := EventId(a, t);
      assert e in Events(w', r);
      assert Charge(w, c)(e) == Charge(w', c)(e);
    }
    SumSetAgree(Billable(w.attempts[a].usage), DimensionCharge(w, a, c), DimensionCharge(w', a, c));
  }

  lemma FrozenCharges(w: World, w': World, r: RequestId, c: Currency)
    requires Inv(w) && Finished(w, r) && Frozen(w, w', r)
    ensures SumBy(w.requests[r].attempts, AttemptCharge(w, c)) == SumBy(w'.requests[r].attempts, AttemptCharge(w', c))
  {
    hide OutboxInv, TopicInv, RelayInv, LedgerInv, OffsetInv, AdjustmentInv, SumSet, Complete, SameLedger,
         AttemptCharge;
    var attempts := w.requests[r].attempts;
    forall i | 0 <= i < |attempts| ensures AttemptCharge(w, c)(attempts[i]) == AttemptCharge(w', c)(attempts[i]) {
      FrozenAttempt(w, w', r, attempts[i], c);
    }
    SumSeqAgree(attempts, AttemptCharge(w, c), AttemptCharge(w', c));
  }

  /** Once a request could be aggregated, its totals never move again except by
      the corrections appended since. */
  lemma OnlyCorrectionsMoveTotals(w: World, moves: seq<Move>, r: RequestId, facts: seq<Fact>, facts': seq<Fact>,
                                  c: Currency)
    requires Inv(w) && Finished(w, r) && IsLedgerOf(facts, w, r) && IsLedgerOf(facts', Run(w, moves), r)
    ensures var w' := Run(w, moves);
            && w.adjustments <= w'.adjustments
            && SumBy(facts', InCurrency(c)) == SumBy(facts, InCurrency(c))
                 + SumBy(w'.adjustments[|w.adjustments|..], CorrectionOn(w', Events(w', r), c))
  {
    hide Inv, IsLedgerOf, Complete, Run, Events;
    var w' := Run(w, moves);
    FinishedForGood(w, moves, r);
    AggregateIsExact(w, r, facts, c);
    AggregateIsExact(w', r, facts', c);
    FrozenCharges(w, w', r, c);
    var since := w'.adjustments[|w.adjustments|..];
    assert w'.adjustments == w.adjustments + since;
    SumConcat(w.adjustments, since, CorrectionOn(w', Events(w', r), c));
    SumSeqAgree(w.adjustments, CorrectionOn(w, Events(w, r), c), CorrectionOn(w', Events(w', r), c));
  }
}
