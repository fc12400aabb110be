/** The metering pipeline: terminal attempts write usage events to an outbox,
    leased relays publish them at least once, consumers price them into a ledger
    exactly once, and corrections append signed deltas. */
module MeteringModel {
  import opened Wrappers
  import opened Sums
  import opened Pricing

  type RequestId = nat
  type AttemptId = nat
  type DeploymentId = nat
  type VersionId = nat
  type LeaseId = nat
  type SessionId = nat
  type Currency = nat

  /** The usage dimensions of one attempt that were reported at all. */
  type Usage = map<TokenType, int>

  // Gateway attempts report these dimensions, in this order.
  const DIMENSIONS: seq<TokenType> :=
    [InputTokens, OutputTokens, CacheRead, CacheWrite, Reasoning, AudioInput, AudioOutput]

  predicate ValidUsage(usage: Usage) {
    forall t :: t in usage ==> t in DIMENSIONS && 0 <= usage[t] <= MAXIMUM_EXACT
  }

  /** Missing and zero dimensions create no billable event. */
  function Billable(usage: Usage): set<TokenType> {
    set t | t in usage && usage[t] != 0
  }

  /** Event identifiers are fresh, so they are named after what they identify:
      one attempt ends once and each of its dimensions makes one event. */
  datatype EventId = EventId(attempt: AttemptId, tokenType: TokenType)

  /** The event_id column of the ledger. Usage rows take the identifier of their event; a
      correction takes whatever its author sends, that of an event included. */
  datatype LedgerId = OfEvent(event: EventId) | Chosen(number: nat)

  datatype UsageEvent = UsageEvent(id: EventId, request: RequestId, deployment: DeploymentId, quantity: int,
                                   observedAt: int)

  datatype RequestRow = RequestRow(scope: nat, attempts: seq<AttemptId>, terminal: bool)

  datatype AttemptRow = AttemptRow(request: RequestId, deployment: DeploymentId, ended: bool, usage: Usage,
                                   observedAt: int)

  datatype Delivery =
    | Pending(availableAt: int)
    | Publishing(lease: LeaseId, expires: int)
    | Published

  datatype OutboxRow = OutboxRow(event: UsageEvent, status: Delivery, publishAttempts: nat)

  /** One published, immutable price snapshot. */
  datatype Version = Version(deployment: DeploymentId, effectiveAt: int, currency: Currency, rates: map<TokenType,
                             PriceRate>)
  {
    predicate Valid() {
      forall t :: t in rates ==> rates[t].Valid() && rates[t].tokenType == t
    }
  }

  datatype LedgerRow = LedgerRow(event: UsageEvent, version: VersionId, amount: nat)

  /** One immutable correction, with the absolute result it asked for. */
  datatype Adjustment = Adjustment(
    id: LedgerId, target: EventId, key: nat, scope: nat, evidence: nat,
    correctedQuantity: nat, correctedAmount: nat, quantityDelta: int, amountDelta: int)

  /** A consumer session: its next record, and whether that one is processed but
      not yet committed. */
  datatype Session = Session(position: nat, processed: bool)

  datatype World = World(
    requests: map<RequestId, RequestRow>,
    attempts: map<AttemptId, AttemptRow>,
    prices: map<VersionId, Version>,
    outbox: map<EventId, OutboxRow>,
    relays: map<LeaseId, map<EventId, bool>>,
    topic: seq<UsageEvent>,
    sessions: map<SessionId, Session>,
    offset: nat,
    receipts: map<EventId, UsageEvent>,
    ledger: map<EventId, LedgerRow>,
    adjustments: seq<Adjustment>)

  const EMPTY := World(map[], map[], map[], map[], map[], [], map[], 0, map[], map[], [])

  // ---- execution: the only source of usage ------------------------------------

  function StartAttempt(w: World, r: RequestId, a: AttemptId, d: DeploymentId): World {
    if r !in w.requests || w.requests[r].terminal || a in w.attempts then w
    else w.(requests := w.requests[r := w.requests[r].(attempts := w.requests[r].attempts + [a])],
            attempts := w.attempts[a := AttemptRow(r, d, false, map[], 0)])
  }

  function EventOf(a: AttemptId, row: AttemptRow, t: TokenType): UsageEvent
    requires t in row.usage
  {
    UsageEvent(EventId(a, t), row.request, row.deployment, row.usage[t], row.observedAt)
  }

  function NewRows(a: AttemptId, row: AttemptRow): map<EventId, OutboxRow> {
    map t | t in Billable(row.usage) :: EventId(a, t) := OutboxRow(EventOf(a, row, t), Pending(row.observedAt), 0)
  }

  /** The single terminal transition of an attempt, with its usage events and,
      unless the request is to be retried, the end of the request. */
  function CompleteAttempt(w: World, a: AttemptId, usage: Usage, observedAt: int, forRetry: bool): World {
    if a !in w.attempts || w.attempts[a].ended || !ValidUsage(usage) then w
    else
      var row := w.attempts[a].(ended := true, usage := usage, observedAt := observedAt);
      if !forRetry && (row.request !in w.requests || w.requests[row.request].terminal) then w
      else w.(attempts := w.attempts[a := row],
              outbox := w.outbox + NewRows(a, row),
              requests := if forRetry then w.requests
                          else w.requests[row.request := w.requests[row.request].(terminal := true)])
  }

  // ---- relay --------------------------------------------------------------------

  predicate Reclaimable(w: World, e: EventId, now: int) {
    e in w.outbox && w.outbox[e].status.Publishing? && w.outbox[e].status.expires <= now
  }

  function Reclaimed(outbox: map<EventId, OutboxRow>, reclaim: set<EventId>, now: int): map<EventId, OutboxRow> {
    map e | e in outbox ::
      if e in reclaim then OutboxRow(outbox[e].event, Pending(now), outbox[e].publishAttempts + 1) else outbox[e]
  }

  predicate Claimable(outbox: map<EventId, OutboxRow>, e: EventId, now: int) {
    e in outbox && outbox[e].status.Pending? && outbox[e].status.availableAt <= now
  }

  function Taken(outbox: map<EventId, OutboxRow>, take: set<EventId>, lease: LeaseId,
                 expires: int): map<EventId, OutboxRow> {
    map e | e in outbox :: if e in take then outbox[e].(status := Publishing(lease, expires)) else outbox[e]
  }

  /** Reclaim some expired leases and claim some available events. Row locks that
      are skipped make any subset possible. */
  function Claim(w: World, lease: LeaseId, now: int, expires: int, reclaim: set<EventId>, take: set<EventId>): World {
    var outbox := Reclaimed(w.outbox, reclaim, now);
    if lease in w.relays || (exists e :: e in reclaim && !Reclaimable(w, e, now))
       || (exists e :: e in take && !Claimable(outbox, e, now)) then w
    else w.(outbox := Taken(outbox, take, lease, expires), relays := w.relays[lease := map e | e in take :: false])
  }

  predicate InHand(w: World, lease: LeaseId, e: EventId) {
    lease in w.relays && e in w.relays[lease]
  }

  /** The broker stores the record; the relay may or may not learn of it. */
  function Deliver(w: World, lease: LeaseId, e: EventId, acknowledged: bool): World {
    if !InHand(w, lease, e) || e !in w.outbox then w
    else w.(topic := w.topic + [w.outbox[e].event],
            relays := if acknowledged then w.relays[lease := w.relays[lease][e := true]] else w.relays)
  }

  predicate Owns(w: World, lease: LeaseId, e: EventId) {
    e in w.outbox && w.outbox[e].status.Publishing? && w.outbox[e].status.lease == lease
  }

  function Forget(w: World, lease: LeaseId, e: EventId): World
    requires lease in w.relays
  {
    w.(relays := w.relays[lease := w.relays[lease] - {e}])
  }

  /** A relay that saw the acknowledgement; the row moves only under its lease. */
  function MarkPublished(w: World, lease: LeaseId, e: EventId): World {
    if !InHand(w, lease, e) || !w.relays[lease][e] then w
    else
      var done := Forget(w, lease, e);
      if !Owns(w, lease, e) then done
      else done.(outbox := w.outbox[e := w.outbox[e].(status := Published)])
  }

  /** A relay that saw a failure; the event may be on the topic all the same. */
  function MarkRetry(w: World, lease: LeaseId, e: EventId, availableAt: int): World {
    if !InHand(w, lease, e) || w.relays[lease][e] then w
    else
      var done := Forget(w, lease, e);
      if !Owns(w, lease, e) then done
      else done.(outbox := w.outbox[e := OutboxRow(w.outbox[e].event, Pending(availableAt),
                                                   w.outbox[e].publishAttempts + 1)])
  }

  function Crash(w: World, lease: LeaseId): World {
    if lease !in w.relays then w else w.(relays := w.relays[lease := map[]])
  }

  // ---- consumer -------------------------------------------------------------------

  /** The version has a usable rate and was in force when the usage was seen. */
  predicate Eligible(prices: map<VersionId, Version>, event: UsageEvent, v: VersionId) {
    && v in prices && prices[v].deployment == event.deployment && prices[v].effectiveAt <= event.observedAt
    && event.id.tokenType in prices[v].rates && prices[v].rates[event.id.tokenType].unit == TokenUnit
  }

  /** Later effective time first, then the larger identifier. */
  predicate Later(prices: map<VersionId, Version>, u: VersionId, v: VersionId)
    requires u in prices && v in prices
  {
    prices[u].effectiveAt > prices[v].effectiveAt || (prices[u].effectiveAt == prices[v].effectiveAt && u > v)
  }

  ghost predicate IsEffective(prices: map<VersionId, Version>, event: UsageEvent, v: VersionId) {
    Eligible(prices, event, v) && forall u :: Eligible(prices, event, u) && u != v ==> Later(prices, v, u)
  }

  ghost function Effective(prices: map<VersionId, Version>, event: UsageEvent): Option<VersionId> {
    if v :| IsEffective(prices, event, v) then Some(v) else None
  }

  datatype Processed =
    | Inserted(row: LedgerRow)
    | Replayed(row: LedgerRow)
    | EventConflict
    | PriceUnavailable
    | ReceiptWithoutLedger

  /** The attribution that the price query joins on. */
  predicate Trusted(w: World, event: UsageEvent) {
    && event.id.attempt in w.attempts && event.request in w.requests
    && w.attempts[event.id.attempt].request == event.request
    && w.attempts[event.id.attempt].deployment == event.deployment
  }

  /** A correction took this identifier. */
  predicate Carried(adjustments: seq<Adjustment>, id: LedgerId) {
    exists i :: 0 <= i < |adjustments| && adjustments[i].id == id
  }

  ghost function Process(w: World, event: UsageEvent): (World, Processed) {
    if event.id in w.receipts then
      if event.id !in w.ledger then (w, ReceiptWithoutLedger)
      else if w.receipts[event.id] != event then (w, EventConflict)
      else (w, Replayed(w.ledger[event.id]))
    else
      var v := Effective(w.prices, event);
      if !Trusted(w, event) || v.None? then (w, PriceUnavailable)
      else
        var price := if Eligible(w.prices, event, v.value)
                     then CalculateAmountMicros(event.quantity, w.prices[v.value].rates[event.id.tokenType])
                     else InvalidPrice;
        if !price.Amount? then (w, PriceUnavailable)
        else if event.id in w.ledger || Carried(w.adjustments, OfEvent(event.id)) then (w, EventConflict)
        else
          var row := LedgerRow(event, v.value, price.micros);
          (w.(receipts := w.receipts[event.id := event], ledger := w.ledger[event.id := row]), Inserted(row))
  }

  function OpenSession(w: World, s: SessionId): World {
    w.(sessions := w.sessions[s := Session(w.offset, false)])
  }

  function CloseSession(w: World, s: SessionId): World {
    w.(sessions := w.sessions - {s})
  }

  /** Process the next record; any error ends the session. */
  ghost function Consume(w: World, s: SessionId): World {
    if s !in w.sessions || w.sessions[s].processed || w.sessions[s].position >= |w.topic| then w
    else
      var (after, o) := Process(w, w.topic[w.sessions[s].position]);
      if o.Inserted? || o.Replayed? then AwaitCommit(after, s, w.sessions[s].position) else CloseSession(after, s)
  }

  function AwaitCommit(w: World, s: SessionId, position: nat): World {
    w.(sessions := w.sessions[s := Session(position, true)])
  }

  /** Commit the processed record; the reply may be lost, which ends the session. */
  function Commit(w: World, s: SessionId): World {
    if s !in w.sessions || !w.sessions[s].processed then w
    else w.(offset := w.sessions[s].position + 1,
            sessions := w.sessions[s := Session(w.sessions[s].position + 1, false)])
  }

  // ---- corrections ----------------------------------------------------------------

  datatype Command = Command(
    scope: nat, id: LedgerId, key: nat, target: LedgerId, correctedQuantity: nat, correctedAmount: nat, evidence: nat)
  {
    predicate Valid()
      ensures Valid() <==> && id != target
                           && correctedQuantity < 0x20_0000_0000_0000 && correctedAmount < 0x20_0000_0000_0000
    {
      id != target && correctedQuantity <= MAXIMUM_EXACT && correctedAmount <= MAXIMUM_EXACT
    }
  }

  datatype Applied =
    | Appended(row: Adjustment)
    | AlreadyApplied(row: Adjustment)
    | AdjustmentConflict
    | TargetNotFound
    | InvalidTarget
    | NoChange

  ghost function QuantityOn(e: EventId): Adjustment -> int {
    (x: Adjustment) => if x.target == e then x.quantityDelta else 0
  }

  ghost function AmountOn(e: EventId): Adjustment -> int {
    (x: Adjustment) => if x.target == e then x.amountDelta else 0
  }

  ghost function CurrentQuantity(w: World, e: EventId): int
    requires e in w.ledger
  {
    w.ledger[e].event.quantity + SumBy(w.adjustments, QuantityOn(e))
  }

  ghost function CurrentAmount(w: World, e: EventId): int
    requires e in w.ledger
  {
    w.ledger[e].amount + SumBy(w.adjustments, AmountOn(e))
  }

  /** The earlier correction under the same key of the same project, if any. */
  function FindKey(adjustments: seq<Adjustment>, scope: nat, key: nat): (r: Option<Adjustment>)
    ensures r.Some? ==> r.value in adjustments && r.value.scope == scope && r.value.key == key
    ensures r.None? ==>
              forall i :: 0 <= i < |adjustments| ==> adjustments[i].scope != scope || adjustments[i].key != key
  {
    if adjustments == [] then None
    else
      var last := adjustments[|adjustments| - 1];
      if last.scope == scope && last.key == key then Some(last)
      else FindKey(adjustments[..|adjustments| - 1], scope, key)
  }

  function Agrees(x: Adjustment, c: Command): bool {
    && x.id == c.id && OfEvent(x.target) == c.target && x.evidence == c.evidence
    && x.correctedQuantity == c.correctedQuantity && x.correctedAmount == c.correctedAmount
  }

  /** The target is a correction that the caller can see. */
  predicate TargetsCorrection(adjustments: seq<Adjustment>, c: Command) {
    exists i :: 0 <= i < |adjustments| && adjustments[i].id == c.target && adjustments[i].scope == c.scope
  }

  /** The target is a usage row that the caller can see. */
  predicate TargetsUsage(w: World, c: Command) {
    && c.target.OfEvent? && c.target.event in w.ledger && w.ledger[c.target.event].event.request in w.requests
    && w.requests[w.ledger[c.target.event].event.request].scope == c.scope
  }

  /** The target's row lock makes the whole correction one step. */
  ghost function Apply(w: World, c: Command): (World, Applied)
    requires c.Valid()
  {
    var earlier := FindKey(w.adjustments, c.scope, c.key);
    if earlier.Some? then
      (w, if Agrees(earlier.value, c) then AlreadyApplied(earlier.value) else AdjustmentConflict)
    else if !TargetsUsage(w, c) then
      (w, if TargetsCorrection(w.adjustments, c) then InvalidTarget else TargetNotFound)
    else
      var e := c.target.event;
      var quantity, amount := CurrentQuantity(w, e), CurrentAmount(w, e);
      if w.ledger[e].event.quantity < 1 || w.ledger[e].event.quantity > MAXIMUM_EXACT
         || w.ledger[e].amount > MAXIMUM_EXACT
         || quantity < 0 || quantity > MAXIMUM_EXACT || amount < 0 || amount > MAXIMUM_EXACT then (w, InvalidTarget)
      else if quantity == c.correctedQuantity && amount == c.correctedAmount then (w, NoChange)
      else if Carried(w.adjustments, c.id) || (c.id.OfEvent? && c.id.event in w.ledger) then (w, AdjustmentConflict)
      else
        var row := Adjustment(c.id, e, c.key, c.scope, c.evidence, c.correctedQuantity, c.correctedAmount,
                              c.correctedQuantity - quantity, c.correctedAmount - amount);
        (w.(adjustments := w.adjustments + [row]), Appended(row))
  }

  // ---- runs -----------------------------------------------------------------------

  datatype Move =
    | StartRequestMove(request: RequestId, scope: nat)
    | StartAttemptMove(request: RequestId, attempt: AttemptId, deployment: DeploymentId)
    | CompleteMove(attempt: AttemptId, usage: Usage, observedAt: int, forRetry: bool)
    | EndRequestMove(request: RequestId)
    | PriceMove(id: VersionId, version: Version)
    | ClaimMove(lease: LeaseId, now: int, expires: int, reclaim: set<EventId>, take: set<EventId>)
    | DeliverMove(lease: LeaseId, event: EventId, acknowledged: bool)
    | PublishedMove(lease: LeaseId, event: EventId)
    | RetryMove(lease: LeaseId, event: EventId, availableAt: int)
    | CrashMove(lease: LeaseId)
    | OpenMove(session: SessionId)
    | ConsumeMove(session: SessionId)
    | CommitMove(session: SessionId)
    | CloseMove(session: SessionId)
    | AdjustMove(command: Command)

  ghost function Step(w: World, m: Move): World {
    match m
    case StartRequestMove(r, scope) => if r in w.requests then w
    else w.(requests := w.requests[r := RequestRow(scope, [], false)])
    case StartAttemptMove(r, a, d) => StartAttempt(w, r, a, d)
    case CompleteMove(a, usage, observedAt, forRetry) => CompleteAttempt(w, a, usage, observedAt, forRetry)
    case EndRequestMove(r) => if r !in w.requests then w
    else w.(requests := w.requests[r := w.requests[r].(terminal := true)])
    case PriceMove(id, version) => if id in w.prices || !version.Valid() then w
    else w.(prices := w.prices[id := version])
    case ClaimMove(lease, now, expires, reclaim, take) => Claim(w, lease, now, expires, reclaim, take)
    case DeliverMove(lease, e, acknowledged) => Deliver(w, lease, e, acknowledged)
    case PublishedMove(lease, e) => MarkPublished(w, lease, e)
    case RetryMove(lease, e, at) => MarkRetry(w, lease, e, at)
    case CrashMove(lease) => Crash(w, lease)
    case OpenMove(s) => OpenSession(w, s)
    case ConsumeMove(s) => Consume(w, s)
    case CommitMove(s) => Commit(w, s)
    case CloseMove(s) => CloseSession(w, s)
    case AdjustMove(c) => if c.Valid() then Apply(w, c).0 else w
  }

  ghost function Run(w: World, moves: seq<Move>): World
    decreases |moves|
  {
    if moves == [] then w else Run(Step(w, moves[0]), moves[1..])
  }
}
