/** The loops that drive the pipeline: one relay batch, one consumer session and
    one aggregation, each among any moves of everybody else. */
module MeteringDrivers {
  import opened Wrappers
  import opened Sums
  import opened Pricing
  import opened MeteringModel
  import opened MeteringSafety
  import opened MeteringCost
  import opened MeteringAggregate
  import opened MeteringStore

  lemma {:induction false} RunConcat(w: World, a: seq<Move>, b: seq<Move>)
    ensures Run(w, a + b) == Run(Run(w, a), b)
    decreases |a|
  {
    hide Step;
    if a == [] {
      assert a + b == b;
    } else {
      assert (a + b)[0] == a[0] && (a + b)[1..] == a[1..] + b;
      RunConcat(Step(w, a[0]), a[1..], b);
    }
  }

  lemma RunOne(w: World, a: seq<Move>, m: Move)
    ensures Run(w, a + [m]) == Step(Run(w, a), m)
  {
    hide Step;
    RunConcat(w, a, [m]);
  }

  // ---- one relay batch --------------------------------------------------------------

  /** Nobody else acts under this relay's lease. */
  predicate ForeignToLease(m: Move, lease: LeaseId) {
    match m
    case ClaimMove(l, _, _, _, _) => l != lease
    case DeliverMove(l, _, _) => l != lease
    case PublishedMove(l, _) => l != lease
    case RetryMove(l, _, _) => l != lease
    case CrashMove(l) => l != lease
    case _ => true
  }

  /** What the relay remembers, and that the rows it remembers stay. */
  ghost predicate SameHand(w: World, w': World, lease: LeaseId) {
    lease in w.relays && lease in w'.relays && w'.relays[lease] == w.relays[lease] && w.outbox.Keys <= w'.outbox.Keys
  }

  lemma MarksKeepOtherHands(w: World, m: Move, lease: LeaseId)
    requires lease in w.relays && ForeignToLease(m, lease) && (m.PublishedMove? || m.RetryMove?)
    ensures SameHand(w, Step(w, m), lease)
  {
    hide MarkPublished, MarkRetry;
    match m
    case PublishedMove(l, e) =>
      PublishedFrame(w, l, e);
      PublishedHand(w, l, e, lease);
    case RetryMove(l, e, at) =>
      RetryFrame(w, l, e, at);
      RetryHand(w, l, e, at, lease);
  }

  lemma PublishedHand(w: World, l: LeaseId, e: EventId, lease: LeaseId)
    requires lease in w.relays && l != lease
    ensures lease in MarkPublished(w, l, e).relays && MarkPublished(w, l, e).relays[lease] == w.relays[lease]
  {
    if InHand(w, l, e) && w.relays[l][e] {
      assert MarkPublished(w, l, e).relays == w.relays[l := w.relays[l] - {e}];
    }
  }

  lemma RetryHand(w: World, l: LeaseId, e: EventId, at: int, lease: LeaseId)
    requires lease in w.relays && l != lease
    ensures lease in MarkRetry(w, l, e, at).relays && MarkRetry(w, l, e, at).relays[lease] == w.relays[lease]
  {
    if InHand(w, l, e) && !w.relays[l][e] {
      assert MarkRetry(w, l, e, at).relays == w.relays[l := w.relays[l] - {e}];
    }
  }

  lemma ForeignKeepsHand(w: World, m: Move, lease: LeaseId)
    requires lease in w.relays && ForeignToLease(m, lease)
    ensures SameHand(w, Step(w, m), lease)
  {
    hide MarkPublished, MarkRetry, CompleteAttempt, StartAttempt, Consume, Apply, Commit, OpenSession, CloseSession,
         Claim, Deliver, Crash;
    if !IsRelayMove(m) {
      QuietMove(w, m);
    } else {
      match m
      case CompleteMove(a, usage, observedAt, forRetry) => CompleteKeepsHand(w, a, usage, observedAt, forRetry, lease);
      case ClaimMove(l, now, expires, reclaim, take) =>
        ClaimFrame(w, l, now, expires, reclaim, take);
        ClaimHand(w, l, now, expires, reclaim, take, lease);
      case PublishedMove(l, e) => MarksKeepOtherHands(w, m, lease);
      case RetryMove(l, e, at) => MarksKeepOtherHands(w, m, lease);
      case DeliverMove(l, e, acknowledged) => DeliverHand(w, l, e, acknowledged, lease);
      case CrashMove(l) => CrashHand(w, l, lease);
    }
  }

  lemma DeliverHand(w: World, l: LeaseId, e: EventId, acknowledged: bool, lease: LeaseId)
    requires lease in w.relays && l != lease
    ensures SameHand(w, Deliver(w, l, e, acknowledged), lease)
  {
  }

  lemma CrashHand(w: World, l: LeaseId, lease: LeaseId)
    requires lease in w.relays && l != lease
    ensures SameHand(w, Crash(w, l), lease)
  {
  }

  lemma CompleteKeepsHand(w: World, a: AttemptId, usage: Usage, observedAt: int, forRetry: bool, lease: LeaseId)
    requires lease in w.relays
    ensures SameHand(w, CompleteAttempt(w, a, usage, observedAt, forRetry), lease)
  {
    hide NewRows, ValidUsage;
  }

  lemma ClaimHand(w: World, l: LeaseId, now: int, expires: int, reclaim: set<EventId>, take: set<EventId>,
                  lease: LeaseId)
    requires lease in w.relays && l != lease
    ensures lease in Claim(w, l, now, expires, reclaim, take).relays
    ensures Claim(w, l, now, expires, reclaim, take).relays[lease] == w.relays[lease]
  {
  }

  lemma {:induction false} OthersKeepHand(w: World, moves: seq<Move>, lease: LeaseId)
    requires lease in w.relays && forall i :: 0 <= i < |moves| ==> ForeignToLease(moves[i], lease)
    ensures SameHand(w, Run(w, moves), lease)
    decreases |moves|
  {
    hide Step, ForeignToLease;
    if moves != [] {
      ForeignKeepsHand(w, moves[0], lease);
      OthersKeepHand(Step(w, moves[0]), moves[1..], lease);
    }
  }

  ghost predicate ProperFate(f: Fate, lease: LeaseId) {
    && (f.acknowledged ==> f.delivered)
    && (forall i :: 0 <= i < |f.before| ==> ForeignToLease(f.before[i], lease))
    && (forall i :: 0 <= i < |f.after| ==> ForeignToLease(f.after[i], lease))
  }

  /** The relay has these events in hand and has not heard of them yet. */
  ghost predicate Holding(w: World, lease: LeaseId, events: seq<EventId>) {
    && lease in w.relays
    && forall j :: 0 <= j < |events| ==>
         events[j] in w.relays[lease] && !w.relays[lease][events[j]] && events[j] in w.outbox
  }

  lemma HandKeepsHolding(w: World, w': World, lease: LeaseId, events: seq<EventId>)
    requires Holding(w, lease, events) && SameHand(w, w', lease)
    ensures Holding(w', lease, events)
  {
  }

  // What becomes of one claimed event: everybody else moves, the broker may store it, and
  // the relay marks it as it heard.
  function Sending(lease: LeaseId, e: EventId, f: Fate): seq<Move> {
    f.before + (if f.delivered then [DeliverMove(lease, e, f.acknowledged)] else []) + f.after
  }

  function Marking(lease: LeaseId, e: EventId, f: Fate, retryAt: int): Move {
    if f.acknowledged then PublishedMove(lease, e) else RetryMove(lease, e, retryAt)
  }

  /** An event to publish, how it fares, and when to retry it if need be. */
  datatype Task = Task(event: EventId, fate: Fate, retryAt: int)

  ghost function MetBy(w: World, lease: LeaseId, task: Task): World {
    Run(w, Sending(lease, task.event, task.fate))
  }

  ghost function MarkedBy(w: World, lease: LeaseId, task: Task): World {
    Step(MetBy(w, lease, task), Marking(lease, task.event, task.fate, task.retryAt))
  }

  datatype Relayed = Relayed(world: World, published: nat, retried: nat, failed: bool)

  /** Task after task, until one finds its row no longer under the lease. */
  ghost function Relaying(w: World, lease: LeaseId, tasks: seq<Task>): Relayed
    decreases |tasks|
  {
    if tasks == [] then Relayed(w, 0, 0, false)
    else if !Owns(MetBy(w, lease, tasks[0]), lease, tasks[0].event)
    then Relayed(MarkedBy(w, lease, tasks[0]), 0, 0, true)
    else
      var rest := Relaying(MarkedBy(w, lease, tasks[0]), lease, tasks[1..]);
      if tasks[0].fate.acknowledged then rest.(published := rest.published + 1) else rest.(retried := rest.retried + 1)
  }

  function Backoff(minimum: nat, maximum: nat, publishAttempts: nat): nat {
    if Doubled(minimum, publishAttempts) > maximum then maximum else Doubled(minimum, publishAttempts)
  }

  /** Each claimed event with the delay that its own attempts so far call for. */
  function TasksOf(outbox: map<EventId, OutboxRow>, take: seq<EventId>, fates: seq<Fate>, minimum: nat,
                   maximum: nat): seq<Task>
    requires |fates| == |take|
  {
    seq(|take|, i requires 0 <= i < |take| =>
      Task(take[i], fates[i],
           fates[i].at + Backoff(minimum, maximum, if take[i] in outbox then outbox[take[i]].publishAttempts else 0)))
  }

  ghost predicate ProperTasks(tasks: seq<Task>, lease: LeaseId) {
    && (forall i :: 0 <= i < |tasks| ==> ProperFate(tasks[i].fate, lease))
    && (forall i, j :: 0 <= i < j < |tasks| ==> tasks[i].event != tasks[j].event)
  }

  function EventsOf(tasks: seq<Task>): seq<EventId> {
    seq(|tasks|, i requires 0 <= i < |tasks| => tasks[i].event)
  }

  /** RelayOnce: the claimed events are relayed one after the other, each published as
      acknowledged or put back for its own delay, and the relay stops exactly at the
      first row that it finds no longer its own. */
  method RelayOnce(store: Store, lease: LeaseId, now: int, expires: int, reclaim: set<EventId>, take: seq<EventId>,
                   fates: seq<Fate>, minimumRetry: nat, maximumRetry: nat)
    returns (b: Batch, ghost tasks: seq<Task>)
    requires 1 <= minimumRetry <= maximumRetry && |fates| == |take|
    requires forall i :: 0 <= i < |fates| ==> ProperFate(fates[i], lease)
    requires forall i, j :: 0 <= i < j < |take| ==> take[i] != take[j]
    requires lease !in store.relays && (forall e :: e in reclaim ==> Reclaimable(store.View(), e, now))
    requires forall i :: 0 <= i < |take| ==> Claimable(Reclaimed(store.outbox, reclaim, now), take[i], now)
    modifies store
    ensures var claimed := Claim(old(store.View()), lease, now, expires, reclaim, set e | e in take);
            && tasks == TasksOf(claimed.outbox, take, fates, minimumRetry, maximumRetry)
            && Relaying(claimed, lease, tasks) == Relayed(store.View(), b.published, b.retried, b.failed)
            && (Inv(old(store.View())) ==> Inv(store.View()) && RelayedWell(claimed, store.View(), lease, tasks, b))
    ensures b.claimed == |take| && b.published + b.retried <= b.claimed
    ensures b.failed <==> b.published + b.retried < b.claimed
  {
    hide Step, Claim, Relaying, TasksOf, Holding, RelayedWell, Inv, Owns, Run, EventsOf;
    ghost var start := store.View();
    var taken := set e | e in take;
    store.ClaimBatch(lease, now, expires, reclaim, taken);
    ghost var claimed := store.View();
    Claimed(start, lease, now, expires, reclaim, take, taken);
    tasks := TasksOf(store.outbox, take, fates, minimumRetry, maximumRetry);
    TasksAre(store.outbox, take, fates, minimumRetry, maximumRetry);
    b := RelayTasks(store, lease, take, fates, minimumRetry, maximumRetry);
    if Inv(start) { RelayKeeps(start, claimed, lease, now, expires, reclaim, taken, tasks, b); }
  }

  /** The loop over the claimed events. */
  method RelayTasks(store: Store, lease: LeaseId, take: seq<EventId>, fates: seq<Fate>, minimumRetry: nat,
                    maximumRetry: nat)
    returns (b: Batch)
    requires 1 <= minimumRetry <= maximumRetry && |fates| == |take| && Holding(store.View(), lease, take)
    requires forall i :: 0 <= i < |fates| ==> ProperFate(fates[i], lease)
    requires forall i, j :: 0 <= i < j < |take| ==> take[i] != take[j]
    modifies store
    ensures Relaying(old(store.View()), lease, TasksOf(old(store.outbox), take, fates, minimumRetry, maximumRetry))
         == Relayed(store.View(), b.published, b.retried, b.failed)
    ensures b.claimed == |take| && b.published + b.retried <= b.claimed
            && (b.failed <==> b.published + b.retried < b.claimed)
  {
    hide Relaying, TasksOf, Holding, ProperFate, Owns, MetBy, MarkedBy, EventsOf;
    var outbox := store.outbox;
    ghost var tasks := TasksOf(outbox, take, fates, minimumRetry, maximumRetry);
    TasksAre(outbox, take, fates, minimumRetry, maximumRetry);
    b := Batch(|take|, 0, 0, false);
    assert take[0..] == take && tasks[0..] == tasks;
    ghost var whole := Relaying(store.View(), lease, tasks);
    var k := 0;
    while k < |take|
      invariant 0 <= k <= |take| && b == Batch(|take|, b.published, b.retried, false) && b.published + b.retried == k
      invariant Holding(store.View(), lease, take[k..])
      invariant var rest := Relaying(store.View(), lease, tasks[k..]);
                whole == rest.(published := rest.published + b.published, retried := rest.retried + b.retried)
    {
      var publishAttempts := if take[k] in outbox then outbox[take[k]].publishAttempts else 0;
      var delay := RetryDelay(minimumRetry, maximumRetry, publishAttempts);
      RelayingStep(store.View(), lease, tasks[k..]);
      assert tasks[k..][0] == tasks[k] && tasks[k..][1..] == tasks[k + 1..] && take[k..][1..] == take[k + 1..];
      assert tasks[k] == Task(take[k], fates[k], fates[k].at + delay);
      var updated := PublishOne(store, lease, take[k..], fates[k], fates[k].at + delay);
      if !updated { return b.(failed := true); }
      if fates[k].acknowledged {
        b := b.(published := b.published + 1);
      } else {
        b := b.(retried := b.retried + 1);
      }
      k := k + 1;
    }
    assert tasks[k..] == [];
    RelayingNone(store.View(), lease);
  }

  lemma TasksAre(outbox: map<EventId, OutboxRow>, take: seq<EventId>, fates: seq<Fate>, minimum: nat, maximum: nat)
    requires |fates| == |take|
    ensures var tasks := TasksOf(outbox, take, fates, minimum, maximum);
            && |tasks| == |take| && EventsOf(tasks) == take
            && (forall i :: 0 <= i < |take| ==>
                  && tasks[i].event == take[i] && tasks[i].fate == fates[i]
                  && tasks[i].retryAt == fates[i].at
                       + Backoff(minimum, maximum, if take[i] in outbox then outbox[take[i]].publishAttempts else 0))
  {
  }

  lemma RelayingStep(w: World, lease: LeaseId, tasks: seq<Task>)
    requires tasks != []
    ensures Relaying(w, lease, tasks)
         == if !Owns(MetBy(w, lease, tasks[0]), lease, tasks[0].event)
         then Relayed(MarkedBy(w, lease, tasks[0]), 0, 0, true)
            else var rest := Relaying(MarkedBy(w, lease, tasks[0]), lease, tasks[1..]);
                 if tasks[0].fate.acknowledged then rest.(published := rest.published + 1)
                 else rest.(retried := rest.retried + 1)
  {
    hide Owns, MetBy, MarkedBy;
  }

  lemma RelayingNone(w: World, lease: LeaseId)
    ensures Relaying(w, lease, []) == Relayed(w, 0, 0, false)
  {
  }

  // ---- what a batch has done ------------------------------------------------------------

  /** The world after the first n tasks. */
  ghost function MarkedAfter(w: World, lease: LeaseId, tasks: seq<Task>, n: nat): World
    requires n <= |tasks|
  {
    if n == 0 then w else MarkedBy(MarkedAfter(w, lease, tasks, n - 1), lease, tasks[n - 1])
  }

  function Heard(tasks: seq<Task>): nat {
    if tasks == [] then 0 else Heard(tasks[..|tasks| - 1]) + if tasks[|tasks| - 1].fate.acknowledged then 1 else 0
  }

  /** The k-th task was marked under the lease: published, or put back until its time. */
  ghost predicate MarkedWell(w: World, lease: LeaseId, tasks: seq<Task>, k: nat)
    requires k < |tasks|
  {
    var before, after := MetBy(MarkedAfter(w, lease, tasks, k), lease, tasks[k]), MarkedAfter(w, lease, tasks, k + 1);
    && Owns(before, lease, tasks[k].event) && tasks[k].event in after.outbox
    && after.outbox[tasks[k].event]
         == if tasks[k].fate.acknowledged then before.outbox[tasks[k].event].(status := Published)
            else OutboxRow(before.outbox[tasks[k].event].event, Pending(tasks[k].retryAt),
                           before.outbox[tasks[k].event].publishAttempts + 1)
  }

  /** Published counts the acknowledged events and retried the others, each was marked
      under the lease, those published are so for good and on the topic, and a failed batch
      ended on a row that was not its own. */
  ghost predicate RelayedWell(claimed: World, end: World, lease: LeaseId, tasks: seq<Task>, b: Batch) {
    var n := b.published + b.retried;
    && n <= |tasks| && b.published == Heard(tasks[..n])
    && (forall k: nat :: k < n ==> MarkedWell(claimed, lease, tasks, k))
    && (forall k: nat :: k < n && tasks[k].fate.acknowledged ==>
          IsPublished(end, tasks[k].event) && OnTopic(end.topic, tasks[k].event))
    && (b.failed <==> n < |tasks|)
    && (b.failed ==> !Owns(MetBy(MarkedAfter(claimed, lease, tasks, n), lease, tasks[n]), lease, tasks[n].event))
  }

  ghost predicate IsPublished(w: World, e: EventId) {
    e in w.outbox && w.outbox[e].status.Published?
  }

  lemma PublishedStaysStep(w: World, m: Move, e: EventId)
    requires Inv(w) && IsPublished(w, e)
    ensures IsPublished(Step(w, m), e)
  {
    hide ExecutionInv, OutboxInv, TopicInv, RelayInv, LedgerInv, OffsetInv, AdjustmentInv, Consume, Apply, Commit,
         OpenSession, CloseSession, StartAttempt, CompleteAttempt, Claim, Deliver, MarkPublished, MarkRetry, Crash;
    if !IsRelayMove(m) {
      QuietMove(w, m);
    } else {
      match m
      case CompleteMove(a, usage, observedAt, forRetry) =>
        CompletionKeepsPublished(w, a, usage, observedAt, forRetry, e);
      case ClaimMove(l, now, expires, reclaim, take) => ClaimKeepsPublished(w, l, now, expires, reclaim, take, e);
      case DeliverMove(l, x, acknowledged) => DeliverFrame(w, l, x, acknowledged);
      case PublishedMove(l, x) => MarksKeepPublished(w, l, x, 0, e);
      case RetryMove(l, x, at) => MarksKeepPublished(w, l, x, at, e);
      case CrashMove(l) => CrashFrame(w, l);
    }
  }

  lemma CompletionKeepsPublished(w: World, a: AttemptId, usage: Usage, observedAt: int, forRetry: bool, e: EventId)
    requires Inv(w) && IsPublished(w, e)
    ensures IsPublished(CompleteAttempt(w, a, usage, observedAt, forRetry), e)
  {
    hide ExecutionInv, OutboxInv, TopicInv, RelayInv, LedgerInv, OffsetInv, AdjustmentInv, NewRows, ValidUsage;
    if a in w.attempts && !w.attempts[a].ended {
      Unused(w, a);
      CompleteKeepsOutbox(w.attempts, w.outbox, a,
                          w.attempts[a].(ended := true, usage := usage, observedAt := observedAt));
    }
  }

  lemma ClaimKeepsPublished(w: World, l: LeaseId, now: int, expires: int, reclaim: set<EventId>, take: set<EventId>,
                            e: EventId)
    requires IsPublished(w, e)
    ensures IsPublished(Claim(w, l, now, expires, reclaim, take), e)
  {
  }

  lemma MarksKeepPublished(w: World, l: LeaseId, x: EventId, at: int, e: EventId)
    requires IsPublished(w, e)
    ensures IsPublished(MarkPublished(w, l, x), e) && IsPublished(MarkRetry(w, l, x, at), e)
  {
  }

  lemma {:induction false} PublishedStays(w: World, moves: seq<Move>, e: EventId)
    requires Inv(w) && IsPublished(w, e)
    ensures Inv(Run(w, moves)) && IsPublished(Run(w, moves), e)
    decreases |moves|
  {
    hide Inv, Step, IsPublished;
    if moves != [] {
      StepKeeps(w, moves[0]);
      PublishedStaysStep(w, moves[0], e);
      PublishedStays(Step(w, moves[0]), moves[1..], e);
    }
  }

  lemma MarkedKeeps(w: World, lease: LeaseId, task: Task)
    requires Inv(w)
    ensures Inv(MetBy(w, lease, task)) && Inv(MarkedBy(w, lease, task))
  {
    hide Inv, Step, Run;
    EveryRunIsSafe(w, Sending(lease, task.event, task.fate));
    StepKeeps(MetBy(w, lease, task), Marking(lease, task.event, task.fate, task.retryAt));
  }

  lemma MarkedStays(w: World, lease: LeaseId, task: Task, e: EventId)
    requires Inv(w) && IsPublished(w, e)
    ensures IsPublished(MarkedBy(w, lease, task), e)
  {
    hide Inv, Step, Run, IsPublished;
    PublishedStays(w, Sending(lease, task.event, task.fate), e);
    PublishedStaysStep(MetBy(w, lease, task), Marking(lease, task.event, task.fate, task.retryAt), e);
  }

  lemma {:induction false} AfterFirst(w: World, lease: LeaseId, tasks: seq<Task>, n: nat)
    requires tasks != [] && n <= |tasks| - 1
    ensures MarkedAfter(w, lease, tasks, n + 1) == MarkedAfter(MarkedBy(w, lease, tasks[0]), lease, tasks[1..], n)
  {
    hide MarkedBy;
    if n > 0 {
      AfterFirst(w, lease, tasks, n - 1);
    }
  }

  /** The task's own event is in hand, not yet heard of before it is sent. */
  lemma MarkIs(w: World, lease: LeaseId, events: seq<EventId>, task: Task)
    requires Holding(w, lease, events) && events != [] && events[0] == task.event && ProperFate(task.fate, lease)
    requires forall i, j :: 0 <= i < j < |events| ==> events[i] != events[j]
    ensures Sent(MetBy(w, lease, task), lease, events, task.fate.acknowledged)
    ensures Holding(MarkedBy(w, lease, task), lease, events[1..])
    ensures Owns(MetBy(w, lease, task), lease, task.event) ==> MarkedWell(w, lease, [task], 0)
  {
    hide Run, Deliver, SameHand, Holding, Sent, ForeignToLease, MarkPublished, MarkRetry, Owns;
    var f, e := task.fate, task.event;
    HoldingLease(w, lease, events);
    OthersKeepHand(w, f.before, lease);
    var met := Run(w, f.before);
    HandKeepsHolding(w, met, lease, events);
    Delivered(met, lease, events, f);
    var sent := if f.delivered then Deliver(met, lease, e, f.acknowledged) else met;
    SentLease(sent, lease, events, f.acknowledged);
    OthersKeepHand(sent, f.after, lease);
    SentStays(sent, Run(sent, f.after), lease, events, f.acknowledged);
    SendingRuns(w, lease, e, f);
    LetGoOf(MetBy(w, lease, task), lease, events, f.acknowledged, task.retryAt);
    if Owns(MetBy(w, lease, task), lease, e) {
      MarkEffect(MetBy(w, lease, task), lease, events, task);
      OneTask(w, lease, task);
    }
  }

  lemma OneTask(w: World, lease: LeaseId, task: Task)
    ensures MarkedAfter(w, lease, [task], 0) == w && MarkedAfter(w, lease, [task], 1) == MarkedBy(w, lease, task)
  {
    hide MarkedBy;
    assert MarkedAfter(w, lease, [task], 1) == MarkedBy(MarkedAfter(w, lease, [task], 0), lease, [task][0]);
  }

  lemma MarkEffect(w: World, lease: LeaseId, events: seq<EventId>, task: Task)
    requires Sent(w, lease, events, task.fate.acknowledged) && events[0] == task.event && Owns(w, lease, task.event)
    ensures var after := Step(w, Marking(lease, task.event, task.fate, task.retryAt));
            && task.event in after.outbox
            && after.outbox[task.event]
                 == if task.fate.acknowledged then w.outbox[task.event].(status := Published)
                    else OutboxRow(w.outbox[task.event].event, Pending(task.retryAt),
                                   w.outbox[task.event].publishAttempts + 1)
  {
    hide Holding;
  }

  lemma SendingRuns(w: World, lease: LeaseId, e: EventId, f: Fate)
    ensures Run(w, Sending(lease, e, f))
         == var met := Run(w, f.before);
            Run(if f.delivered then Deliver(met, lease, e, f.acknowledged) else met, f.after)
  {
    hide Run, Deliver;
    var deliver := if f.delivered then [DeliverMove(lease, e, f.acknowledged)] else [];
    RunConcat(w, f.before + deliver, f.after);
    RunConcat(w, f.before, deliver);
    if f.delivered {
      Runs(Run(w, f.before), DeliverMove(lease, e, f.acknowledged));
    } else {
      assert f.before + deliver == f.before;
    }
  }

  lemma ProperRest(tasks: seq<Task>, lease: LeaseId)
    requires ProperTasks(tasks, lease) && tasks != []
    ensures ProperTasks(tasks[1..], lease) && EventsOf(tasks)[1..] == EventsOf(tasks[1..])
            && EventsOf(tasks)[0] == tasks[0].event
    ensures forall i, j :: 0 <= i < j < |EventsOf(tasks)| ==> EventsOf(tasks)[i] != EventsOf(tasks)[j]
  {
    hide ProperFate;
  }

  lemma MarkedWellLater(w: World, lease: LeaseId, tasks: seq<Task>, k: nat)
    requires tasks != [] && k < |tasks| - 1 && MarkedWell(MarkedBy(w, lease, tasks[0]), lease, tasks[1..], k)
    ensures MarkedWell(w, lease, tasks, k + 1)
  {
    hide MarkedBy, MetBy, MarkedAfter, Owns;
    AfterFirst(w, lease, tasks, k);
    AfterFirst(w, lease, tasks, k + 1);
    assert tasks[1..][k] == tasks[k + 1];
  }

  lemma MarkedWellFirst(w: World, lease: LeaseId, tasks: seq<Task>)
    requires tasks != [] && MarkedWell(w, lease, [tasks[0]], 0)
    ensures MarkedWell(w, lease, tasks, 0)
  {
    hide MarkedBy, MetBy, Owns;
    OneTask(w, lease, tasks[0]);
    AfterFirst(w, lease, tasks, 0);
  }

  lemma {:induction false} HeardFirst(tasks: seq<Task>)
    requires tasks != []
    ensures Heard(tasks) == (if tasks[0].fate.acknowledged then 1 else 0) + Heard(tasks[1..])
    decreases |tasks|
  {
    if |tasks| > 1 {
      HeardFirst(tasks[..|tasks| - 1]);
      assert tasks[..|tasks| - 1][1..] == tasks[1..][..|tasks| - 2];
    }
  }

  /** Relaying leaves published for good what it published. */
  lemma {:induction false} RelayingStays(w: World, lease: LeaseId, tasks: seq<Task>, e: EventId)
    requires Inv(w) && IsPublished(w, e)
    ensures IsPublished(Relaying(w, lease, tasks).world, e)
    decreases |tasks|
  {
    hide Inv, MarkedBy, MetBy, Owns, IsPublished;
    if tasks != [] {
      MarkedKeeps(w, lease, tasks[0]);
      MarkedStays(w, lease, tasks[0], e);
      RelayingStays(MarkedBy(w, lease, tasks[0]), lease, tasks[1..], e);
    }
  }

  lemma {:induction false} RelayingWell(w: World, lease: LeaseId, tasks: seq<Task>)
    requires Inv(w) && ProperTasks(tasks, lease) && Holding(w, lease, EventsOf(tasks))
    ensures var end := Relaying(w, lease, tasks);
            Inv(end.world)
            && RelayedWell(w, end.world, lease, tasks, Batch(|tasks|, end.published, end.retried, end.failed))
    decreases |tasks|
  {
    hide Inv, MarkedBy, MetBy, Owns, Holding, ProperTasks, ProperFate, MarkedAfter, MarkedWell, OnTopic, IsPublished,
         EventsOf, Sent;
    var end := Relaying(w, lease, tasks);
    if tasks != [] {
      var task := tasks[0];
      ProperRest(tasks, lease);
      TaskIsProper(tasks, lease);
      MarkIs(w, lease, EventsOf(tasks), task);
      MarkedKeeps(w, lease, task);
      NoneMarked(w, lease, tasks);
      if Owns(MetBy(w, lease, task), lease, task.event) {
        var after := MarkedBy(w, lease, task);
        RelayingWell(after, lease, tasks[1..]);
        MarkedWellFirst(w, lease, tasks);
        RelayingJoins(w, lease, tasks);
      } else {
        assert tasks[..0] == [];
      }
    } else {
      assert tasks[..0] == [];
    }
  }

  lemma NoneMarked(w: World, lease: LeaseId, tasks: seq<Task>)
    ensures MarkedAfter(w, lease, tasks, 0) == w
  {
  }

  lemma TaskIsProper(tasks: seq<Task>, lease: LeaseId)
    requires ProperTasks(tasks, lease) && tasks != []
    ensures ProperFate(tasks[0].fate, lease) && EventsOf(tasks) != []
  {
  }

  /** The first task and the rest together. */
  lemma RelayingJoins(w: World, lease: LeaseId, tasks: seq<Task>)
    requires Inv(w) && tasks != [] && Owns(MetBy(w, lease, tasks[0]), lease, tasks[0].event)
             && MarkedWell(w, lease, tasks, 0)
    requires var after := MarkedBy(w, lease, tasks[0]);
             var end := Relaying(after, lease, tasks[1..]);
             Inv(end.world)
             && RelayedWell(after, end.world, lease, tasks[1..],
                            Batch(|tasks| - 1, end.published, end.retried, end.failed))
    ensures var end := Relaying(w, lease, tasks);
            RelayedWell(w, end.world, lease, tasks, Batch(|tasks|, end.published, end.retried, end.failed))
  {
    hide Inv, MarkedBy, MetBy, Owns, MarkedAfter, MarkedWell, OnTopic, IsPublished, Relaying, Heard;
    var after, task := MarkedBy(w, lease, tasks[0]), tasks[0];
    var end, rest := Relaying(w, lease, tasks), Relaying(after, lease, tasks[1..]);
    var n := rest.published + rest.retried;
    RelayingStep(w, lease, tasks);
    assert tasks[..n + 1][1..] == tasks[1..][..n] && tasks[..n + 1][0] == task;
    HeardFirst(tasks[..n + 1]);
    forall k: nat | k < n + 1 ensures MarkedWell(w, lease, tasks, k) {
      if k > 0 {
        MarkedWellLater(w, lease, tasks, k - 1);
      }
    }
    forall k: nat | k < n + 1 && tasks[k].fate.acknowledged
      ensures IsPublished(end.world, tasks[k].event) && OnTopic(end.world.topic, tasks[k].event)
    {
      if k == 0 {
        FirstIsPublished(w, lease, tasks);
        PublishedIsOnTopic(end.world, tasks[0].event);
      } else {
        assert tasks[1..][k - 1] == tasks[k];
      }
    }
    if n < |tasks[1..]| {
      AfterFirst(w, lease, tasks, n);
      assert tasks[1..][n] == tasks[n + 1];
    }
  }

  lemma FirstIsPublished(w: World, lease: LeaseId, tasks: seq<Task>)
    requires Inv(w) && tasks != [] && MarkedWell(w, lease, tasks, 0) && tasks[0].fate.acknowledged
    requires Owns(MetBy(w, lease, tasks[0]), lease, tasks[0].event)
    ensures IsPublished(Relaying(w, lease, tasks).world, tasks[0].event)
  {
    hide Inv, MarkedBy, MetBy, Owns;
    var after := MarkedBy(w, lease, tasks[0]);
    AfterFirst(w, lease, tasks, 0);
    assert MarkedAfter(w, lease, tasks, 1) == after;
    MarkedKeeps(w, lease, tasks[0]);
    RelayingStays(after, lease, tasks[1..], tasks[0].event);
  }

  lemma PublishedIsOnTopic(w: World, e: EventId)
    requires Inv(w) && IsPublished(w, e)
    ensures OnTopic(w.topic, e)
  {
    hide ExecutionInv, OutboxInv, TopicInv, LedgerInv, OffsetInv, AdjustmentInv;
  }

  lemma RelayKeeps(start: World, claimed: World, lease: LeaseId, now: int, expires: int, reclaim: set<EventId>,
                   taken: set<EventId>,
                   tasks: seq<Task>, b: Batch)
    requires Inv(start) && claimed == Claim(start, lease, now, expires, reclaim, taken)
    requires ProperTasks(tasks, lease) && Holding(claimed, lease, EventsOf(tasks)) && b.claimed == |tasks|
    requires var end := Relaying(claimed, lease, tasks);
             b.published == end.published && b.retried == end.retried && b.failed == end.failed
    ensures var end := Relaying(claimed, lease, tasks);
            Inv(end.world) && RelayedWell(claimed, end.world, lease, tasks, b)
  {
    hide Inv, Claim, Relaying, RelayedWell, ProperTasks, Holding, EventsOf;
    ClaimKeeps(start, lease, now, expires, reclaim, taken);
    RelayingWell(claimed, lease, tasks);
  }

  lemma Claimed(w: World, lease: LeaseId, now: int, expires: int, reclaim: set<EventId>, take: seq<EventId>,
                taken: set<EventId>)
    requires lease !in w.relays && (forall e :: e in reclaim ==> Reclaimable(w, e, now))
    requires forall i :: 0 <= i < |take| ==> Claimable(Reclaimed(w.outbox, reclaim, now), take[i], now)
    requires taken == set e | e in take
    ensures var m := ClaimMove(lease, now, expires, reclaim, taken);
            && Run(w, [m]) == Claim(w, lease, now, expires, reclaim, taken)
            && Holding(Claim(w, lease, now, expires, reclaim, taken), lease, take)
  {
    var m := ClaimMove(lease, now, expires, reclaim, taken);
    RunOne(w, [], m);
    assert [] + [m] == [m];
  }

  lemma Runs(w: World, m: Move)
    ensures Run(w, [m]) == Step(w, m)
  {
    RunOne(w, [], m);
    assert [] + [m] == [m];
  }

  /** Publish the first event in hand, among the moves of others. */
  method SendOne(store: Store, lease: LeaseId, events: seq<EventId>, fate: Fate)
    requires events != [] && ProperFate(fate, lease) && Holding(store.View(), lease, events)
    requires forall i, j :: 0 <= i < j < |events| ==> events[i] != events[j]
    modifies store
    ensures store.View() == Run(old(store.View()), Sending(lease, events[0], fate))
            && Sent(store.View(), lease, events, fate.acknowledged)
  {
    hide Run, Deliver, SameHand, Holding, Sent, ForeignToLease, Sending;
    ghost var start := store.View();
    HoldingLease(start, lease, events);
    store.Others(fate.before);
    OthersKeepHand(start, fate.before, lease);
    HandKeepsHolding(start, store.View(), lease, events);
    ghost var met := store.View();
    if fate.delivered {
      store.Publish(lease, events[0], fate.acknowledged);
    }
    Delivered(met, lease, events, fate);
    ghost var sent := store.View();
    SentLease(sent, lease, events, fate.acknowledged);
    store.Others(fate.after);
    OthersKeepHand(sent, fate.after, lease);
    SentStays(sent, store.View(), lease, events, fate.acknowledged);
    SendingRuns(start, lease, events[0], fate);
  }

  /** One claimed event: publish it and record what became of it. */
  method PublishOne(store: Store, lease: LeaseId, events: seq<EventId>, fate: Fate,
                    retryAt: int) returns (updated: bool)
    requires events != [] && ProperFate(fate, lease) && Holding(store.View(), lease, events)
    requires forall i, j :: 0 <= i < j < |events| ==> events[i] != events[j]
    modifies store
    ensures store.View() == MarkedBy(old(store.View()), lease, Task(events[0], fate, retryAt))
    ensures updated <==> Owns(MetBy(old(store.View()), lease, Task(events[0], fate, retryAt)), lease, events[0])
    ensures Holding(store.View(), lease, events[1..])
  {
    hide Run, MarkPublished, MarkRetry, Holding, Owns, Sending;
    SendOne(store, lease, events, fate);
    ghost var last := store.View();
    var e := events[0];
    if fate.acknowledged {
      updated := store.MarkAsPublished(lease, e);
    } else {
      updated := store.MarkForRetry(lease, e, retryAt);
    }
    LetGoOf(last, lease, events, fate.acknowledged, retryAt);
  }

  lemma HoldingLease(w: World, lease: LeaseId, events: seq<EventId>)
    requires Holding(w, lease, events)
    ensures lease in w.relays
  {
  }

  lemma SentLease(w: World, lease: LeaseId, events: seq<EventId>, acknowledged: bool)
    requires Sent(w, lease, events, acknowledged)
    ensures lease in w.relays
  {
  }

  /** The first event was sent (and perhaps heard of), the others are untouched. */
  ghost predicate Sent(w: World, lease: LeaseId, events: seq<EventId>, acknowledged: bool) {
    && events != [] && lease in w.relays && events[0] in w.relays[lease] && w.relays[lease][events[0]] == acknowledged
    && Holding(w, lease, events[1..])
  }

  lemma Delivered(w: World, lease: LeaseId, events: seq<EventId>, fate: Fate)
    requires events != [] && Holding(w, lease, events) && (fate.acknowledged ==> fate.delivered)
    requires forall i, j :: 0 <= i < j < |events| ==> events[i] != events[j]
    ensures Sent(if fate.delivered then Deliver(w, lease, events[0], fate.acknowledged)
                 else w, lease, events, fate.acknowledged)
  {
  }

  lemma SentStays(w: World, w': World, lease: LeaseId, events: seq<EventId>, acknowledged: bool)
    requires Sent(w, lease, events, acknowledged) && SameHand(w, w', lease)
    ensures Sent(w', lease, events, acknowledged)
  {
  }

  lemma LetGoOf(w: World, lease: LeaseId, events: seq<EventId>, acknowledged: bool, at: int)
    requires Sent(w, lease, events, acknowledged) && forall i, j :: 0 <= i < j < |events| ==> events[i] != events[j]
    ensures var w' := if acknowledged then MarkPublished(w, lease, events[0]) else MarkRetry(w, lease, events[0], at);
            Holding(w', lease, events[1..])
  {
    hide Owns;
    var e := events[0];
    forall j | 0 <= j < |events[1..]| ensures events[1..][j] != e {
      assert events[1..][j] == events[j + 1];
    }
    if acknowledged {
      assert MarkPublished(w, lease, e).relays == w.relays[lease := w.relays[lease] - {e}];
      PublishedFrame(w, lease, e);
    } else {
      assert MarkRetry(w, lease, e, at).relays == w.relays[lease := w.relays[lease] - {e}];
      RetryFrame(w, lease, e, at);
    }
  }

  // ---- one consumer session ---------------------------------------------------------

  /** Nobody else acts for this session. */
  predicate ForeignToSession(m: Move, s: SessionId) {
    match m
    case OpenMove(q) => q != s
    case ConsumeMove(q) => q != s
    case CommitMove(q) => q != s
    case CloseMove(q) => q != s
    case _ => true
  }

  ghost predicate SameSession(w: World, w': World, s: SessionId) {
    s in w.sessions && s in w'.sessions && w'.sessions[s] == w.sessions[s]
  }

  lemma ProcessKeepsSessions(w: World, event: UsageEvent)
    ensures Process(w, event).0.sessions == w.sessions
  {
    hide Effective, CalculateAmountMicros, Eligible, Trusted;
  }

  lemma ConsumeKeepsSession(w: World, q: SessionId, s: SessionId)
    requires s in w.sessions && q != s
    ensures SameSession(w, Consume(w, q), s)
  {
    hide Process, AwaitCommit, CloseSession;
    if q in w.sessions && w.sessions[q].position < |w.topic| {
      var event := w.topic[w.sessions[q].position];
      ProcessKeepsSessions(w, event);
      TurnsKeepSession(Process(w, event).0, q, w.sessions[q].position, s);
    }
  }

  lemma TurnsKeepSession(w: World, q: SessionId, position: nat, s: SessionId)
    requires s in w.sessions && q != s
    ensures SameSession(w, AwaitCommit(w, q, position), s) && SameSession(w, CloseSession(w, q), s)
  {
  }

  lemma RelayFrame(w: World, m: Move)
    requires !m.OpenMove? && !m.ConsumeMove? && !m.CommitMove? && !m.CloseMove?
    ensures Step(w, m).sessions == w.sessions
  {
    hide Apply, MarkPublished, MarkRetry, Claim, Deliver, Crash, SameEvents, NewRows;
    match m
    case ClaimMove(lease, now, expires, reclaim, take) => ClaimFrame(w, lease, now, expires, reclaim, take);
    case DeliverMove(lease, e, acknowledged) => DeliverFrame(w, lease, e, acknowledged);
    case CrashMove(lease) => CrashFrame(w, lease);
    case PublishedMove(lease, e) => PublishedFrame(w, lease, e);
    case RetryMove(lease, e, at) => RetryFrame(w, lease, e, at);
    case AdjustMove(c) => if c.Valid() { CorrectionFrame(w, c); }
    case _ =>
  }

  lemma ForeignKeepsSession(w: World, m: Move, s: SessionId)
    requires s in w.sessions && ForeignToSession(m, s)
    ensures SameSession(w, Step(w, m), s)
  {
    hide Consume, Apply, MarkPublished, MarkRetry, Claim, Deliver, Crash, CompleteAttempt, StartAttempt;
    match m
    case OpenMove(q) =>
    case ConsumeMove(q) => ConsumeKeepsSession(w, q, s);
    case CommitMove(q) =>
    case CloseMove(q) =>
    case _ => RelayFrame(w, m);
  }

  lemma {:induction false} OthersKeepSession(w: World, moves: seq<Move>, s: SessionId)
    requires s in w.sessions && forall i :: 0 <= i < |moves| ==> ForeignToSession(moves[i], s)
    ensures SameSession(w, Run(w, moves), s)
    decreases |moves|
  {
    hide Step, ForeignToSession;
    if moves != [] {
      ForeignKeepsSession(w, moves[0], s);
      OthersKeepSession(Step(w, moves[0]), moves[1..], s);
    }
  }

  /** What others do before a record is taken and before it is committed. */
  datatype Round = Round(before: seq<Move>, between: seq<Move>)

  ghost predicate ProperRound(r: Round, s: SessionId) {
    && (forall i :: 0 <= i < |r.before| ==> ForeignToSession(r.before[i], s))
    && (forall i :: 0 <= i < |r.between| ==> ForeignToSession(r.between[i], s))
  }

  datatype Turn = Turn(world: World, taken: bool, failed: bool)

  /** One turn of the session: take the next record if there is one, and commit it. */
  ghost function TurnOf(w: World, s: SessionId, round: Round): Turn {
    var met := Run(w, round.before);
    if s !in met.sessions || met.sessions[s].position >= |met.topic| then Turn(met, false, s !in met.sessions)
    else
      var after := Consume(met, s);
      if s !in after.sessions then Turn(after, false, true)
      else Turn(Commit(Run(after, round.between), s), true, false)
  }

  datatype Served = Served(world: World, committed: nat, failed: bool)

  ghost function Serving(w: World, s: SessionId, rounds: seq<Round>): Served
    decreases |rounds|
  {
    if rounds == [] then Served(w, 0, false)
    else
      var turn := TurnOf(w, s, rounds[0]);
      if turn.failed then Served(turn.world, 0, true)
      else
        var rest := Serving(turn.world, s, rounds[1..]);
        rest.(committed := rest.committed + if turn.taken then 1 else 0)
  }

  /** Every record that the session committed is priced, and a session that failed did so
      at the next one: a record that has no price, or that can have none because a
      correction carries its identifier. */
  ghost predicate ServedWell(w: World, first: nat, committed: nat, failed: bool) {
    && ProcessedBelow(w.topic, w.ledger, first + committed)
    && (failed ==>
          && first + committed < |w.topic|
          && var event := w.topic[first + committed];
             event.id !in w.ledger && (!Priceable(w, event) || Carried(w.adjustments, OfEvent(event.id))))
  }

  /** kafkaSession.Run: process, then commit, record by record, until a record fails. */
  method RunSession(store: Store, s: SessionId, rounds: seq<Round>) returns (committed: nat, failed: bool)
    requires forall i :: 0 <= i < |rounds| ==> ProperRound(rounds[i], s)
    modifies store
    ensures Serving(OpenSession(old(store.View()), s), s, rounds) == Served(store.View(), committed, failed)
    ensures committed <= |rounds|
    ensures failed <==> s !in store.sessions
    ensures !failed ==> store.sessions[s] == Session(old(store.offset) + committed, false)
    ensures Inv(old(store.View())) ==>
              Inv(store.View()) && ServedWell(store.View(), old(store.offset), committed, failed)
  {
    hide Run, TurnOf, Inv, ServedWell, ProperRound;
    ghost var start := store.View();
    store.OpenAt(s);
    if Inv(start) { CommitKeeps(start, s); }
    ghost var whole := Serving(store.View(), s, rounds);
    assert rounds[0..] == rounds;
    committed, failed := 0, false;
    var i := 0;
    while i < |rounds|
      invariant 0 <= i <= |rounds| && committed <= i
      invariant s in store.sessions && store.sessions[s] == Session(start.offset + committed, false)
      invariant Inv(start) ==> Inv(store.View())
      invariant var rest := Serving(store.View(), s, rounds[i..]);
                whole == rest.(committed := rest.committed + committed)
    {
      assert rounds[i..][0] == rounds[i] && rounds[i..][1..] == rounds[i + 1..];
      var taken;
      ghost var before := store.View();
      taken, failed := TakeOne(store, s, rounds[i]);
      if Inv(start) { TurnKeeps(before, s, rounds[i]); }
      if failed { return; }
      if taken { committed := committed + 1; }
      i := i + 1;
    }
    if Inv(start) { SessionIsBehind(store.View(), s); }
  }

  lemma SessionIsBehind(w: World, s: SessionId)
    requires Inv(w) && s in w.sessions && !w.sessions[s].processed
    ensures ServedWell(w, w.sessions[s].position, 0, false)
    ensures forall first: nat, n: nat :: first + n == w.sessions[s].position ==> ServedWell(w, first, n, false)
  {
    hide ExecutionInv, OutboxInv, TopicInv, RelayInv, LedgerInv, AdjustmentInv;
  }

  lemma TurnKeeps(w: World, s: SessionId, round: Round)
    requires Inv(w) && s in w.sessions && !w.sessions[s].processed && ProperRound(round, s)
    ensures var turn := TurnOf(w, s, round);
            && Inv(turn.world)
            && (turn.failed ==>
                  forall first: nat, n: nat :: first + n == w.sessions[s].position ==>
                    ServedWell(turn.world, first, n, true))
  {
    hide Inv, Run, Consume, ServedWell, ForeignToSession, Commit;
    OthersKeepSession(w, round.before, s);
    EveryRunIsSafe(w, round.before);
    var met := Run(w, round.before);
    if met.sessions[s].position < |met.topic| {
      ConsumeKeeps(met, s);
      var after := Consume(met, s);
      if s !in after.sessions {
        FailedTurn(met, s);
      } else {
        EveryRunIsSafe(after, round.between);
        CommitKeeps(Run(after, round.between), s);
      }
    }
  }

  lemma FailedTurn(w: World, s: SessionId)
    requires Inv(w) && s in w.sessions && !w.sessions[s].processed && w.sessions[s].position < |w.topic|
             && s !in Consume(w, s).sessions
    ensures forall first: nat, n: nat :: first + n == w.sessions[s].position ==>
              ServedWell(Consume(w, s), first, n, true)
  {
    hide Inv, Consume, CloseSession, ProcessedBelow, Priceable, Carried;
    FailedRecord(w, s);
    Behind(w, s);
    Closed(w, s);
    SamePrice(w, CloseSession(w, s), w.topic[w.sessions[s].position]);
  }

  lemma Closed(w: World, s: SessionId)
    ensures CloseSession(w, s) == w.(sessions := CloseSession(w, s).sessions)
  {
  }

  lemma Behind(w: World, s: SessionId)
    requires Inv(w) && s in w.sessions
    ensures ProcessedBelow(w.topic, w.ledger, w.sessions[s].position)
  {
    hide ExecutionInv, OutboxInv, TopicInv, RelayInv, LedgerInv, AdjustmentInv;
  }

  lemma Recorded(w: World, k: nat)
    requires Inv(w) && k < |w.topic|
    ensures w.topic[k].id in w.outbox && w.outbox[w.topic[k].id].event == w.topic[k]
  {
    hide ExecutionInv, OutboxInv, RelayInv, LedgerInv, AdjustmentInv, OffsetInv;
  }

  /** Only a record without a price, or one that can have none, ends a session. */
  lemma FailedRecord(w: World, s: SessionId)
    requires Inv(w) && s in w.sessions && !w.sessions[s].processed && w.sessions[s].position < |w.topic|
             && s !in Consume(w, s).sessions
    ensures var event := w.topic[w.sessions[s].position];
            && Consume(w, s) == CloseSession(w, s)
            && event.id !in w.ledger && (!Priceable(w, event) || Carried(w.adjustments, OfEvent(event.id)))
  {
    hide Inv, Process, Carried, Priceable, CloseSession, AwaitCommit;
    var event := w.topic[w.sessions[s].position];
    Recorded(w, w.sessions[s].position);
    ProcessIsSafe(w, event);
    TurnIs(Process(w, event).0, s, w.sessions[s].position);
  }

  lemma SamePrice(w: World, w': World, event: UsageEvent)
    requires w.prices == w'.prices
    ensures Priceable(w, event) <==> Priceable(w', event)
  {
  }

  lemma Consumed(w: World, s: SessionId)
    requires s in w.sessions && !w.sessions[s].processed
    ensures var w' := Consume(w, s);
            && (w.sessions[s].position >= |w.topic| ==> w' == w)
            && (w.sessions[s].position < |w.topic| && s in w'.sessions ==>
                  w'.sessions[s] == Session(w.sessions[s].position, true))
  {
    hide Process, AwaitCommit, CloseSession;
    if w.sessions[s].position < |w.topic| {
      var event := w.topic[w.sessions[s].position];
      ProcessKeepsSessions(w, event);
      TurnIs(Process(w, event).0, s, w.sessions[s].position);
    }
  }

  lemma TurnIs(w: World, s: SessionId, position: nat)
    ensures s in AwaitCommit(w, s, position).sessions
    ensures AwaitCommit(w, s, position).sessions[s] == Session(position, true)
    ensures s !in CloseSession(w, s).sessions
  {
  }

  /** Process one record and commit it. */
  method TakeOne(store: Store, s: SessionId, round: Round) returns (taken: bool, failed: bool)
    requires ProperRound(round, s) && s in store.sessions && !store.sessions[s].processed
    modifies store
    ensures TurnOf(old(store.View()), s, round) == Turn(store.View(), taken, failed)
    ensures failed <==> s !in store.sessions
    ensures !failed ==> store.sessions[s] == Session(old(store.sessions[s].position) + (if taken then 1 else 0), false)
  {
    hide Run, Consume, Step, ForeignToSession;
    ghost var start := store.View();
    var position := store.sessions[s].position;
    store.Others(round.before);
    OthersKeepSession(start, round.before, s);
    ghost var met := store.View();
    taken, failed := false, false;
    if position >= |store.topic| { return; }
    store.ConsumeNext(s);
    Consumed(met, s);
    if s !in store.sessions { return false, true; }
    ghost var processed := store.View();
    store.Others(round.between);
    OthersKeepSession(processed, round.between, s);
    store.CommitNext(s);
    taken := true;
  }

  // ---- one aggregation --------------------------------------------------------------

  datatype Aggregated = NotFound | NotTerminal | StillPending | Unavailable | Cost(cost: RequestCost)

  /** outboxComplete: as many joined events as expected ones, which is all of them; and an
      open barrier means that all are priced if and only if no correction stands in for
      one of them. */
  method OutboxComplete(store: Store, r: RequestId) returns (complete: bool)
    ensures complete <==> BarrierOpen(store.View(), r)
    ensures Inv(store.View()) && complete ==> (Complete(store.View(), r) <==> NothingStandsIn(store.View(), r))
    ensures !complete ==> !Complete(store.View(), r)
  {
    hide StandsIn, Inv, NothingStandsIn;
    var expected, priced := 0, 0;
    var left := store.outbox.Keys;
    while left != {}
      invariant left <= store.outbox.Keys && priced <= expected
      invariant expected == priced <==>
                  forall e :: e in store.outbox && e !in left && store.outbox[e].event.request == r ==>
                    e in store.ledger || StandsIn(store.View(), e)
      decreases |left|
    {
      var e :| e in left;
      if store.outbox[e].event.request == r {
        expected := expected + 1;
        var joined := Joined(store, e);
        if joined { priced := priced + 1; }
      }
      left := left - {e};
    }
    complete := expected == priced;
    if Inv(store.View()) && complete {
      BarrierIsTrueIff(store.View(), r);
    }
  }

  /** The join of one event on event_id and attempt, whatever the source of the row. */
  method Joined(store: Store, e: EventId) returns (joined: bool)
    ensures joined <==> e in store.ledger || StandsIn(store.View(), e)
  {
    if e in store.ledger { return true; }
    var i := 0;
    while i < |store.adjustments|
      invariant 0 <= i <= |store.adjustments|
      invariant forall j :: 0 <= j < i ==> !StandsInAs(store.adjustments[j], e)
    {
      if StandsInAs(store.adjustments[i], e) { return true; }
      i := i + 1;
    }
    joined := false;
  }

  /** loadLedger: every usage row and every correction of the request. */
  method LoadLedger(store: Store, r: RequestId) returns (facts: seq<Fact>)
    ensures IsLedgerOf(facts, store.View(), r)
  {
    hide FactOf, Loaded;
    facts := [];
    NothingLoaded(store.View());
    ghost var w := store.View();
    ghost var rows: set<RowId> := {};
    var left := store.ledger.Keys;
    while left != {}
      invariant left <= store.ledger.Keys && Loaded(facts, w, rows)
      invariant forall e :: UsageRow(e) in rows <==> e in Events(w, r) && e !in left
      invariant forall j: nat :: CorrectionRow(j) !in rows
      decreases |left|
    {
      var e :| e in left;
      left := left - {e};
      if store.ledger[e].event.request == r {
        LoadMore(facts, w, rows, UsageRow(e));
        facts := facts + [UsageFact(store, e)];
        rows := rows + {UsageRow(e)};
      }
    }
    var i := 0;
    while i < |store.adjustments|
      invariant 0 <= i <= |store.adjustments| && Loaded(facts, w, rows)
      invariant forall e :: UsageRow(e) in rows <==> e in Events(w, r)
      invariant forall j: nat :: CorrectionRow(j) in rows <==> j < i && w.adjustments[j].target in Events(w, r)
    {
      var x := store.adjustments[i];
      if x.target in store.ledger && store.ledger[x.target].event.request == r {
        LoadMore(facts, w, rows, CorrectionRow(i));
        facts := facts + [CorrectionFact(store, i)];
        rows := rows + {CorrectionRow(i)};
      }
      i := i + 1;
    }
    AllLoaded(facts, w, rows, r);
  }

  ghost predicate Loaded(facts: seq<Fact>, w: World, rows: set<RowId>) {
    && (forall i :: 0 <= i < |facts| ==> facts[i].id in rows && facts[i] == FactOf(w, facts[i].id))
    && (forall i, j :: 0 <= i < j < |facts| ==> facts[i].id != facts[j].id)
    && (forall id :: id in rows ==> exists i :: 0 <= i < |facts| && facts[i].id == id)
  }

  lemma NothingLoaded(w: World)
    ensures Loaded([], w, {})
  {
  }

  lemma LoadMore(facts: seq<Fact>, w: World, rows: set<RowId>, id: RowId)
    requires Loaded(facts, w, rows) && id !in rows
    ensures Loaded(facts + [FactOf(w, id)], w, rows + {id})
  {
    hide FactOf;
    var all := facts + [FactOf(w, id)];
    FactHasId(w, id);
    forall x | x in rows + {id} ensures exists i :: 0 <= i < |all| && all[i].id == x {
      if x == id {
        assert all[|facts|].id == id;
      } else {
        var i :| 0 <= i < |facts| && facts[i].id == x;
        assert all[i].id == x;
      }
    }
  }

  lemma FactHasId(w: World, id: RowId)
    ensures FactOf(w, id).id == id
  {
  }

  lemma AllLoaded(facts: seq<Fact>, w: World, rows: set<RowId>, r: RequestId)
    requires Loaded(facts, w, rows)
    requires forall e :: UsageRow(e) in rows <==> e in Events(w, r)
    requires forall j: nat :: CorrectionRow(j) in rows <==>
               j < |w.adjustments| && w.adjustments[j].target in Events(w, r)
    ensures IsLedgerOf(facts, w, r)
  {
    hide FactOf, Events;
    assert rows == RowsOf(w, r) by {
      forall id ensures id in rows <==> id in RowsOf(w, r) {
        match id
        case UsageRow(e) =>
        case CorrectionRow(j) =>
      }
    }
  }

  function UsageFact(store: Store, e: EventId): Fact
    requires e in store.ledger
    reads store
    ensures UsageFact(store, e) == FactOf(store.View(), UsageRow(e))
  {
    var row := store.ledger[e];
    Fact(UsageRow(e), OfEvent(e), Some(e.attempt), if row.version in store.prices
         then store.prices[row.version].currency else 0,
         row.event.quantity, row.amount)
  }

  function CorrectionFact(store: Store, i: nat): Fact
    requires i < |store.adjustments| && store.adjustments[i].target in store.ledger
    reads store
    ensures CorrectionFact(store, i) == FactOf(store.View(), CorrectionRow(i))
  {
    var x := store.adjustments[i];
    var row := store.ledger[x.target];
    Fact(CorrectionRow(i), x.id, Some(x.target.attempt), if row.version in store.prices
         then store.prices[row.version].currency else 0,
         x.quantityDelta, x.amountDelta)
  }

  /** What the aggregate waits for: the request and all its attempts have ended, and the
      barrier is open. */
  ghost predicate Ready(w: World, r: RequestId) {
    r in w.requests && w.requests[r].terminal && BarrierOpen(w, r) && AllEnded(w, r)
  }

  ghost predicate AllEnded(w: World, r: RequestId)
    requires r in w.requests
  {
    forall i :: 0 <= i < |w.requests[r].attempts| ==>
      w.requests[r].attempts[i] in w.attempts && w.attempts[w.requests[r].attempts[i]].ended
  }

  ghost predicate DueFits(w: World, r: RequestId)
    requires r in w.requests
  {
    forall c: Currency :: Due(w, r, c) <= MAXIMUM_EXACT
  }

  /** Aggregate, in one read-only snapshot. In every reachable state it succeeds exactly
      when the caller's request and all its attempts have ended, the barrier is open and
      what is due fits the exact-integer range; then it reports what is due, in all and
      by attempt. The request is then finished, with all its usage priced, if and only
      if no correction stands in for one of its events. */
  method Aggregate(store: Store, scope: nat, r: RequestId) returns (o: Aggregated, ghost facts: seq<Fact>)
    ensures o.NotFound? <==> r !in store.requests || store.requests[r].scope != scope
    ensures o.NotTerminal? <==> !o.NotFound? && !store.requests[r].terminal
    ensures o.StillPending? <==> !o.NotFound? && !o.NotTerminal? && !BarrierOpen(store.View(), r)
    ensures Inv(store.View()) ==> (o.Cost? <==> !o.NotFound? && Ready(store.View(), r) && DueFits(store.View(), r))
    ensures Inv(store.View()) && o.Cost? ==> ReportsDue(o.cost.totals, store.View(), r)
    ensures o.Cost? ==> IsLedgerOf(facts, store.View(), r) && IsCost(o.cost, AttemptFacts(store.View(), r), facts)
    ensures Inv(store.View()) && o.Cost? ==> (Finished(store.View(), r) <==> NothingStandsIn(store.View(), r))
  {
    hide Inv, Complete, BarrierOpen, NothingStandsIn, Due, ReportsDue, IsLedgerOf, IsCost, AllRepresentable,
         FactsInOrder, Representable, DueFits, AllEnded;
    facts := [];
    if r !in store.requests || store.requests[r].scope != scope { return NotFound, []; }
    if !store.requests[r].terminal { return NotTerminal, []; }
    var ids, rows := store.requests[r].attempts, store.attempts;
    var attempts := seq(|ids|,
                        i requires 0 <= i < |ids| => AttemptFact(ids[i], i + 1, ids[i] in rows && rows[ids[i]].ended));
    var complete := OutboxComplete(store, r);
    if !complete { return StillPending, []; }
    var loaded := LoadLedger(store, r);
    ghost var order;
    var cost;
    cost, order := BuildRequestCost(true, |ids|, attempts, loaded);
    ghost var w := store.View();
    assert attempts == AttemptFacts(w, r);
    SortedAlready(order, attempts);
    if Inv(w) {
      AggregateVerdict(w, r, loaded);
      if cost.Some? {
        CostTotals(cost.value, attempts, loaded);
        TotalsReportDue(w, r, loaded, cost.value.totals);
        FinishedIs(w, r);
      }
    }
    if cost.None? { return Unavailable, loaded; }
    o, facts := Cost(cost.value), loaded;
  }

  lemma FinishedIs(w: World, r: RequestId)
    requires r in w.requests
    ensures Finished(w, r) <==> w.requests[r].terminal && Complete(w, r) && AllEnded(w, r)
  {
  }

  lemma CostTotals(cost: RequestCost, attempts: seq<AttemptFact>, facts: seq<Fact>)
    requires IsCost(cost, attempts, facts)
    ensures TotalsHold(cost.totals, facts)
  {
  }

  lemma AggregateVerdict(w: World, r: RequestId, facts: seq<Fact>)
    requires Inv(w) && r in w.requests && w.requests[r].terminal && IsLedgerOf(facts, w, r)
    ensures FactsInOrder(AttemptFacts(w, r), facts)
    ensures AttemptsInOrder(AttemptFacts(w, r)) && AllRepresentable(AttemptFacts(w, r), facts) <==>
              AllEnded(w, r) && DueFits(w, r)
  {
    hide Inv, IsLedgerOf, AllRepresentable, FactsInOrder, SumBy, AttemptCharge, CorrectionOn, BarrierOpen,
         NothingStandsIn, EveryDimensionPriced;
    OnlyOverflowCanFail(w, r, facts);
    FactsAreInOrder(w, r, facts);
    forall c: Currency ensures Due(w, r, c) == SumBy(facts, InCurrency(c)) {
      AggregateIsExact(w, r, facts, c);
    }
    var attempts := AttemptFacts(w, r);
    assert forall i :: 0 <= i < |attempts| ==> attempts[i].id == w.requests[r].attempts[i];
    if AllEnded(w, r) {
      assert AttemptsInOrder(attempts);
    }
    if AttemptsInOrder(attempts) {
      forall i | 0 <= i < |attempts| ensures attempts[i].ended {
      }
      assert AllEnded(w, r);
    }
  }
}
