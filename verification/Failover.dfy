/** The recorder as it changes its rows, and the non-streaming failover loop that
    drives it through one request. */
module Failover {
  import opened Wrappers
  import opened Execution

  // ---- classification of failures -------------------------------------------------

  datatype Failure =
    | CallerCancelled
    | ProviderCancelled(hasId: bool)
    | ProviderError(retryable: bool, hasId: bool)
    | TimedOut | AdapterUnavailable | TransportError | ProtocolError | OtherError

  /** attemptOutcomeForError */
  function OutcomeForError(f: Failure): Outcome {
    match f
    case CallerCancelled => Outcome(AttemptCancelled, RequestCancelled, false, false, CancelledCategory, true)
    case ProviderCancelled(hasId) => Outcome(AttemptCancelled, RequestCancelled, true, hasId, CancelledCategory, true)
    case ProviderError(retryable, hasId) =>
      Outcome(if retryable then AttemptRetryableFailed
              else AttemptFailed, RequestFailed, true, hasId, OtherCategory, true)
    case TimedOut => Outcome(AttemptRetryableFailed, RequestFailed, false, false, OtherCategory, true)
    case AdapterUnavailable => Outcome(AttemptFailed, RequestFailed, false, false, OtherCategory, true)
    case TransportError => Outcome(AttemptRetryableFailed, RequestFailed, false, false, OtherCategory, true)
    case ProtocolError => Outcome(AttemptFailed, RequestFailed, true, false, OtherCategory, true)
    case OtherError => Outcome(AttemptFailed, RequestFailed, false, false, OtherCategory, true)
  }

  /** What the executor and the projection of its result came to. */
  datatype Executed =
    | Delivered(hasId: bool)
    | Broken(failure: Failure, validResult: bool, resultHasId: bool)

  /** failedOutcomeWithKnownUsage */
  function FailedOutcome(e: Executed): Outcome
    requires e.Broken?
  {
    var o := OutcomeForError(e.failure);
    if e.validResult then o.(headers := true, providerId := e.resultHasId) else o
  }

  const SUCCESS := Outcome(AttemptSucceeded, RequestSucceeded, true, false, NoCategory, false)

  function RetryOutcome(e: Executed): Outcome
    requires e.Broken?
  {
    FailedOutcome(e).(attempt := AttemptRetryableFailed, request := Running)
  }

  /** What an attempt and its request are to be recorded as when the attempt fails and is
      not tried again. */
  predicate EndsAs(f: Failure, attempt: AttemptStatus, request: RequestStatus) {
    match f
    case CallerCancelled => attempt.AttemptCancelled? && request.RequestCancelled?
    case ProviderCancelled(_) => attempt.AttemptCancelled? && request.RequestCancelled?
    case ProviderError(retryable, _) =>
      request.RequestFailed? && (if retryable then attempt.AttemptRetryableFailed? else attempt.AttemptFailed?)
    case TimedOut => attempt.AttemptRetryableFailed? && request.RequestFailed?
    case TransportError => attempt.AttemptRetryableFailed? && request.RequestFailed?
    case AdapterUnavailable => attempt.AttemptFailed? && request.RequestFailed?
    case ProtocolError => attempt.AttemptFailed? && request.RequestFailed?
    case OtherError => attempt.AttemptFailed? && request.RequestFailed?
  }

  /** The provider was seen to answer. */
  predicate Answered(e: Executed) {
    match e
    case Delivered(_) => true
    case Broken(f, validResult, _) => validResult || f.ProviderCancelled? || f.ProviderError? || f.ProtocolError?
  }

  /** The provider gave its answer an identifier. */
  predicate Identified(e: Executed) {
    match e
    case Delivered(hasId) => hasId
    case Broken(_, true, resultHasId) => resultHasId
    case Broken(ProviderCancelled(hasId), false, _) => hasId
    case Broken(ProviderError(_, hasId), false, _) => hasId
    case Broken(_, false, _) => false
  }

  /** Every outcome the driver builds passes the recorder's validation, so no call
      is refused for what it says, and says what the failure was. */
  lemma OutcomesAreValid(e: Executed, a: RouteAttempt)
    requires a.status == Connecting
    ensures e.Delivered? ==> SUCCESS.(providerId := e.hasId).Valid() && MayEnd(a, SUCCESS.(providerId := e.hasId))
    ensures e.Broken? ==> && FailedOutcome(e).Valid() && MayEnd(a, FailedOutcome(e))
                          && FailedOutcome(e).request.Terminal() && FailedOutcome(e).request != RequestSucceeded
                          && FailedOutcome(e).attempt.Terminal() && FailedOutcome(e).attempt != AttemptSucceeded
                          && RetryOutcome(e).Valid() && MayEnd(a, RetryOutcome(e))
    ensures e.Broken? ==> && EndsAs(e.failure, FailedOutcome(e).attempt, FailedOutcome(e).request)
                          && RetryOutcome(e).attempt == AttemptRetryableFailed && RetryOutcome(e).request == Running
                          && FailedOutcome(e).headers == RetryOutcome(e).headers == Answered(e)
                          && FailedOutcome(e).providerId == RetryOutcome(e).providerId == Identified(e)
  {
  }

  datatype Action = NoRetry | RetryAllowed | DifferentDeploymentOnly

  /** retry.Classify, with an oracle for the class of the failure: the attempt
      limit overrides any wish to go on. */
  function Classify(wanted: Option<Action>, attemptNumber: nat, maximum: nat): (r: Option<Action>)
    ensures r.Some? <==> wanted.Some? && 1 <= attemptNumber <= maximum
    ensures r.Some? && r.value != NoRetry ==> r == wanted && attemptNumber < maximum
  {
    if attemptNumber < 1 || attemptNumber > maximum || wanted.None? then None
    else if attemptNumber >= maximum then Some(NoRetry)
    else wanted
  }

  datatype Selection = Selected(deployment: DeploymentId) | NoCandidate | SelectionError | DecisionUnrecorded

  /** Everything the loop cannot choose: the store, routing, providers, retry
      policy, the waiter and the caller. */
  datatype Env = Env(
    link: nat -> Link,
    select: (nat, seq<DeploymentId>) -> Selection,
    execute: nat -> Executed,
    wanted: nat -> Option<Action>,
    decisionRecorded: nat -> bool,
    waits: nat -> bool,
    callerGone: bool)

  datatype Reply = Response | Refused

  // ---- the recorder -------------------------------------------------------------------

  class Recorder {
    var request: GatewayRequest
    var attempts: seq<RouteAttempt>

    constructor (request: GatewayRequest)
      ensures View() == State(request, [])
    {
      this.request, attempts := request, [];
    }

    function View(): State
      reads this
    {
      State(request, attempts)
    }

    method Fail(h: GatewayRequest, status: RequestStatus, link: Link) returns (r: Option<GatewayRequest>)
      modifies this
      ensures (View(), r) == FailRequest(old(View()), h, status, link)
    {
      if h.status.Terminal() || (status != RequestFailed && status != RequestCancelled) || link == Down { return None; }
      if request.status != h.status || request.version != h.version { return None; }
      request := request.(status := status, version := request.version + 1);
      r := Answer(link, request);
    }

    method Start(h: GatewayRequest, d: DeploymentId, link: Link) returns (r: Option<(GatewayRequest, RouteAttempt)>)
      modifies this
      ensures (View(), r) == StartAttempt(old(View()), h, d, link)
    {
      if (h.status != Routing && h.status != Running) || link == Down { return None; }
      if request.status != h.status || request.version != h.version
         || request.attemptCount != h.attemptCount { return None; }
      request := GatewayRequest(Running, request.attemptCount + 1, request.version + 1);
      var attempt := RouteAttempt(|attempts|, h.attemptCount + 1, d, Connecting, 2);
      attempts := attempts + [attempt];
      r := Answer(link, (request, attempt));
    }

    method Complete(h: GatewayRequest, a: RouteAttempt, o: Outcome, link: Link) returns (r: Option<GatewayRequest>)
      modifies this
      ensures (View(), r) == CompleteAttempt(old(View()), h, a, o, link)
    {
      if h.status != Running || !o.Valid() || o.request == Running || !MayEnd(a, o) || link == Down { return None; }
      if !Holds(View(), a) || request.status != Running || request.version != h.version { return None; }
      attempts := attempts[a.id := Ended(attempts[a.id], o)];
      request := request.(status := o.request, version := request.version + 1);
      r := Answer(link, request);
    }

    method CompleteThenRetry(h: GatewayRequest, a: RouteAttempt, o: Outcome,
                             link: Link) returns (r: Option<RouteAttempt>)
      modifies this
      ensures (View(), r) == CompleteForRetry(old(View()), h, a, o, link)
    {
      if h.status != Running || !o.Valid() || o.attempt != AttemptRetryableFailed || o.request != Running
         || !MayEnd(a, o) || link == Down {
        return None;
      }
      if !Holds(View(), a) { return None; }
      attempts := attempts[a.id := Ended(attempts[a.id], o)];
      r := Answer(link, attempts[a.id]);
    }
  }

  // ---- what the driver guarantees ---------------------------------------------------------

  /** Between attempts: everything so far failed retryably. */
  ghost predicate BetweenAttempts(s: State) {
    Inv(s) && !s.request.status.Terminal() && s.request.status != Authorized
    && forall i :: 0 <= i < |s.attempts| ==> s.attempts[i].status == AttemptRetryableFailed
  }

  /** The end of a cleanly recorded request: it and all its attempts are terminal,
      only the last may have succeeded, and it did exactly if the request did. */
  ghost predicate Concluded(s: State, reply: Reply) {
    && Inv(s) && s.request.status.Terminal()
    && (forall i :: 0 <= i < |s.attempts| ==> s.attempts[i].status.Terminal())
    && (forall i :: 0 <= i < |s.attempts| - 1 ==> s.attempts[i].status != AttemptSucceeded)
    && (reply == Response <==> s.request.status == RequestSucceeded)
    && (s.request.status == RequestSucceeded <==>
          s.attempts != [] && s.attempts[|s.attempts| - 1].status == AttemptSucceeded)
  }

  /** Each attempt that had to go elsewhere did. */
  ghost predicate Avoids(attempts: seq<RouteAttempt>, actions: seq<Action>) {
    && |actions| == |attempts|
    && forall i, j :: 0 <= j < i < |attempts| && actions[i] == DifferentDeploymentOnly ==>
         attempts[j].deployment != attempts[i].deployment
  }

  lemma FailConcludes(s: State, status: RequestStatus)
    requires BetweenAttempts(s) && (status == RequestFailed || status == RequestCancelled)
    ensures var (s', r) := FailRequest(s, s.request, status, Up);
            r.Some? && Concluded(s', Refused) && s'.attempts == s.attempts && s'.request.status == status
  {
  }

  /** With one open attempt at the end. */
  ghost predicate InAttempt(s: State, a: RouteAttempt) {
    && Inv(s) && s.request.status == Running && |s.attempts| >= 1 && a == s.attempts[|s.attempts| - 1]
       && a.status == Connecting
    && forall i :: 0 <= i < |s.attempts| - 1 ==> s.attempts[i].status == AttemptRetryableFailed
  }

  lemma StartOpens(s: State, d: DeploymentId)
    requires BetweenAttempts(s)
    ensures var (s', r) := StartAttempt(s, s.request, d, Up);
            && r.Some? && r.value.0 == s'.request && InAttempt(s', r.value.1)
            && s'.attempts == s.attempts + [r.value.1] && r.value.1.deployment == d
            && r.value.1.version == 2 && s'.request.status == Running
  {
  }

  lemma CompleteConcludes(s: State, a: RouteAttempt, o: Outcome)
    requires InAttempt(s, a) && o.Valid() && MayEnd(a, o) && o.request.Terminal()
    requires o.attempt == AttemptSucceeded <==> o.request == RequestSucceeded
    ensures var (s', r) := CompleteAttempt(s, s.request, a, o, Up);
            && r.Some? && Concluded(s', if o.request == RequestSucceeded then Response else Refused)
            && |s'.attempts| == |s.attempts| && s'.request.status == o.request
            && s'.attempts == s.attempts[|s.attempts| - 1 := RouteAttempt(a.id, a.number, a.deployment, o.attempt,
                                                                          a.version + if o.headers then 2 else 1)]
            && forall i :: 0 <= i < |s.attempts| ==> s'.attempts[i].deployment == s.attempts[i].deployment
  {
  }

  lemma RetryReturns(s: State, a: RouteAttempt, o: Outcome)
    requires InAttempt(s, a) && o.Valid() && MayEnd(a, o) && o.attempt == AttemptRetryableFailed && o.request == Running
    ensures var (s', r) := CompleteForRetry(s, s.request, a, o, Up);
            && r.Some? && BetweenAttempts(s') && s'.request == s.request && |s'.attempts| == |s.attempts|
            && s'.attempts == s.attempts[|s.attempts| - 1 := RouteAttempt(a.id, a.number, a.deployment, o.attempt,
                                                                          a.version + if o.headers then 2 else 1)]
            && forall i :: 0 <= i < |s.attempts| ==> s'.attempts[i].deployment == s.attempts[i].deployment
  {
  }

  // ---- the loop ---------------------------------------------------------------------------

  /** The deployments tried so far, each once. */
  ghost predicate Covers(attempted: seq<DeploymentId>, attempts: seq<RouteAttempt>) {
    forall i :: 0 <= i < |attempts| ==> attempts[i].deployment in attempted
  }

  function NextSelection(env: Env, round: nat, attempted: seq<DeploymentId>, action: Action): Selection {
    var s := env.select(round, attempted);
    if s.Selected? && action == DifferentDeploymentOnly && s.deployment in attempted then SelectionError
    else if s.NoCandidate? && action == RetryAllowed then env.select(round, [])
    else s
  }

  function WithDeployment(attempted: seq<DeploymentId>, d: DeploymentId): (tried: seq<DeploymentId>)
    ensures attempted <= tried && forall x :: x in tried <==> x in attempted || x == d
    ensures d in attempted ==> tried == attempted
  {
    if d in attempted then attempted else attempted + [d]
  }

  /** How attempt n ends, when nothing fails to be recorded. */
  datatype AttemptEnd = Delivers | Stops | Continues(action: Action)

  function EndOf(env: Env, maximum: nat, n: nat): AttemptEnd {
    if env.execute(n).Delivered? then Delivers
    else
      var decision := Classify(env.wanted(n), n, maximum);
      if decision.None? || decision.value == NoRetry || !env.decisionRecorded(n) then Stops
      else Continues(decision.value)
  }

  /** The deployments that attempts n, n + 1, ... should go to, and whether the last
      of them should deliver. */
  function Course(env: Env, maximum: nat, n: nat, d: DeploymentId,
                  attempted: seq<DeploymentId>): (seq<DeploymentId>, bool)
    requires 1 <= n <= maximum
    decreases maximum - n
  {
    match EndOf(env, maximum, n)
    case Delivers => ([d], true)
    case Stops => ([d], false)
    case Continues(action) =>
      var tried := WithDeployment(attempted, d);
      var next := NextSelection(env, n, tried, action);
      if !env.waits(n) || !next.Selected? then ([d], false)
      else
        var (rest, delivered) := Course(env, maximum, n + 1, next.deployment, tried);
        ([d] + rest, delivered)
  }

  ghost predicate Follows(attempts: seq<RouteAttempt>, deployments: seq<DeploymentId>) {
    |attempts| == |deployments| && forall i :: 0 <= i < |attempts| ==> attempts[i].deployment == deployments[i]
  }

  /** One more attempt, to deployment d; earlier ones went where they went. */
  ghost predicate Extends(before: seq<RouteAttempt>, after: seq<RouteAttempt>, d: DeploymentId) {
    && |after| == |before| + 1 && after[|before|].deployment == d
    && forall i :: 0 <= i < |before| ==> after[i].deployment == before[i].deployment
  }

  lemma ExtendsAll(before: seq<RouteAttempt>, after: seq<RouteAttempt>, d: DeploymentId, actions: seq<Action>,
                   action: Action,
                   attempted: seq<DeploymentId>, made: seq<DeploymentId>)
    requires Extends(before, after, d) && Avoids(before, actions) && Covers(attempted, before) && Follows(before, made)
    requires action == DifferentDeploymentOnly ==> d !in attempted
    ensures Avoids(after, actions + [action]) && Covers(WithDeployment(attempted, d), after)
            && Follows(after, made + [d])
  {
  }

  /** What the whole request should come to. */
  function WholeCourse(env: Env, maximum: nat): (seq<DeploymentId>, bool)
    requires 1 <= maximum
  {
    var first := env.select(0, []);
    if first.Selected? then Course(env, maximum, 1, first.deployment, []) else ([], false)
  }

  // ---- what is left when a call to the recorder fails ---------------------------------------

  /** How many calls a request makes when all are answered: two for each attempt, and
      one more to end a request between attempts. */
  function CleanCalls(env: Env, maximum: nat): nat
    requires 1 <= maximum
  {
    var n := |WholeCourse(env, maximum).0|;
    2 * n + if n == 0 || EndOf(env, maximum, n).Continues? then 1 else 0
  }

  /** The first unanswered call from k on, or n. */
  function FirstLoss(env: Env, k: nat, n: nat): (bad: nat)
    requires k <= n
    ensures k <= bad <= n && (bad < n ==> env.link(bad) != Up)
    ensures forall i :: k <= i < bad ==> env.link(i) == Up
    decreases n - k
  {
    if k == n || env.link(k) != Up then k else FirstLoss(env, k + 1, n)
  }

  /** How many attempts are on record when call `bad` is the first unanswered one:
      calls alternate between starting and ending an attempt. */
  function Started(env: Env, maximum: nat, bad: nat): (n: nat)
    requires 1 <= maximum && bad < CleanCalls(env, maximum)
    ensures n <= |WholeCourse(env, maximum).0|
  {
    if bad / 2 == |WholeCourse(env, maximum).0| then bad / 2
    else if bad % 2 == 1 || env.link(bad) == Lost then bad / 2 + 1
    else bad / 2
  }

  /** Whether the request still ends: its end was written and only the reply lost, or
      its attempt was never started and the failure written instead. */
  predicate EndsDespite(env: Env, maximum: nat, bad: nat)
    requires 1 <= maximum
  {
    if bad / 2 == |WholeCourse(env, maximum).0| then env.link(bad) == Lost
    else if bad % 2 == 1 then env.link(bad) == Lost && !EndOf(env, maximum, bad / 2 + 1).Continues?
    else env.link(bad) == Down && env.link(bad + 1) != Down
  }

  /** The first attempts of the course are on record, and the request has ended exactly
      if it could. */
  ghost predicate Aftermath(env: Env, maximum: nat, s: State, bad: nat)
    requires 1 <= maximum && bad < CleanCalls(env, maximum)
  {
    && Follows(s.attempts, WholeCourse(env, maximum).0[..Started(env, maximum, bad)])
    && (s.request.status.Terminal() <==> EndsDespite(env, maximum, bad))
    && EarlierEnded(s)
  }

  /** Only the last attempt may be open. */
  ghost predicate EarlierEnded(s: State) {
    forall i :: 0 <= i < |s.attempts| - 1 ==> s.attempts[i].status.Terminal()
  }

  /** The log of calls, as the recorder served them over the environment's links from
      the given one on. */
  ghost predicate Served(env: Env, first: nat, before: State, after: State, log: seq<(Call, Link)>) {
    && after == ServeAll(before, log) && Disciplined(before, log)
    && forall k :: 0 <= k < |log| ==> log[k].1 == env.link(first + k)
  }

  /** An attempt whose first or second call went unanswered. */
  ghost predicate BrokenOff(env: Env, maximum: nat, d: DeploymentId, calls: nat, before: State, after: State) {
    EarlierEnded(after) && match env.link(calls)
    case Down => after.attempts == before.attempts && (after.request.status.Terminal() <==> env.link(calls + 1) != Down)
    case Lost => Extends(before.attempts, after.attempts, d) && !after.request.status.Terminal()
    case Up =>
      && Extends(before.attempts, after.attempts, d) && env.link(calls + 1) != Up
      && (after.request.status.Terminal() <==>
            env.link(calls + 1) == Lost && !EndOf(env, maximum, |after.attempts|).Continues?)
  }

  lemma ServedTwice(env: Env, calls: nat, s: State, one: Call, two: Call)
    requires StartsAlone(s, one, env.link(calls)) && !two.StartCall?
    ensures var during := Serve(s, one, env.link(calls));
            Served(env, calls, s, Serve(during, two, env.link(calls + 1)),
                   [(one, env.link(calls)), (two, env.link(calls + 1))])
  {
    var log := [(one, env.link(calls)), (two, env.link(calls + 1))];
    var during := Serve(s, one, env.link(calls));
    assert log[1..] == [log[1]] && log[1..][1..] == [];
    assert ServeAll(during, log[1..]) == Serve(during, two, env.link(calls + 1));
    assert Disciplined(during, log[1..]);
  }

  lemma ServedOnce(env: Env, calls: nat, s: State, call: Call)
    requires !call.StartCall?
    ensures Served(env, calls, s, Serve(s, call, env.link(calls)), [(call, env.link(calls))])
  {
    var log := [(call, env.link(calls))];
    assert log[1..] == [];
    assert ServeAll(s, log) == ServeAll(Serve(s, call, env.link(calls)), []);
  }

  lemma ServedMore(env: Env, first: State, middle: State, last: State, log: seq<(Call, Link)>, more: seq<(Call, Link)>)
    requires Served(env, 0, first, middle, log) && Served(env, |log|, middle, last, more)
    ensures Served(env, 0, first, last, log + more)
  {
    ServeAllJoins(first, log, more);
  }

  lemma StartsBetween(s: State, d: DeploymentId, link: Link)
    requires BetweenAttempts(s)
    ensures StartsAlone(s, StartCall(s.request, d), link)
  {
  }

  /** A start that goes unanswered is followed by an attempt to fail the request. */
  lemma StartBreaksOff(env: Env, maximum: nat, s: State, d: DeploymentId, calls: nat)
    requires BetweenAttempts(s) && env.link(calls) != Up
    ensures var (during, r) := StartAttempt(s, s.request, d, env.link(calls));
            r.None? && BrokenOff(env, maximum, d, calls, s,
                                 FailRequest(during, s.request, RequestFailed, env.link(calls + 1)).0)
  {
    hide EndOf;
  }

  lemma EndBreaksOff(env: Env, maximum: nat, before: State, s: State, a: RouteAttempt, d: DeploymentId, o: Outcome,
                     calls: nat)
    requires InAttempt(s, a) && s.attempts == before.attempts + [a] && a.deployment == d && o.Valid() && MayEnd(a, o)
    requires env.link(calls) == Up && env.link(calls + 1) != Up
    ensures o.request.Terminal() && !EndOf(env, maximum, |s.attempts|).Continues? ==>
              BrokenOff(env, maximum, d, calls, before, CompleteAttempt(s, s.request, a, o, env.link(calls + 1)).0)
    ensures o.request == Running && EndOf(env, maximum, |s.attempts|).Continues? ==>
              BrokenOff(env, maximum, d, calls, before, CompleteForRetry(s, s.request, a, o, env.link(calls + 1)).0)
  {
    hide EndOf;
  }

  /** selectNext: avoid what was tried, unless a plain retry finds nothing else. */
  method SelectNext(env: Env, round: nat, attempted: seq<DeploymentId>, action: Action) returns (s: Selection)
    requires action != NoRetry
    ensures s == NextSelection(env, round, attempted, action)
    ensures action == RetryAllowed ==>
              var first := env.select(round, attempted);
              s == if first.NoCandidate? then env.select(round, []) else first
    ensures action == DifferentDeploymentOnly ==>
              var first := env.select(round, attempted);
              s == if first.Selected? && first.deployment in attempted then SelectionError else first
    ensures s.Selected? && action == DifferentDeploymentOnly ==> s.deployment !in attempted
  {
    s := env.select(round, attempted);
    if s.Selected? {
      if action == DifferentDeploymentOnly && s.deployment in attempted { return SelectionError; }
      return;
    }
    if !s.NoCandidate? || action != RetryAllowed { return; }
    s := env.select(round, []);
  }

  /** Attempt number n, the last on record, went to deployment d and is on record as what
      it was, and so is the request. */
  ghost predicate AttemptRecorded(env: Env, maximum: nat, d: DeploymentId, end: AttemptEnd, s: State) {
    && s.attempts != []
    && var n := |s.attempts|;
       var last := s.attempts[n - 1];
    && last.number == n && last.deployment == d && last.version == (if Answered(env.execute(n)) then 4 else 3)
    && (end.Delivers? <==> env.execute(n).Delivered?)
    && (end.Continues? <==> env.execute(n).Broken? && n < maximum && env.decisionRecorded(n) && env.wanted(n).Some?
                            && env.wanted(n).value != NoRetry)
    && match end
       case Delivers => last.status == AttemptSucceeded && s.request.status == RequestSucceeded
       case Stops => EndsAs(env.execute(n).failure, last.status, s.request.status)
       case Continues(action) =>
         last.status == AttemptRetryableFailed && s.request.status == Running && Some(action) == env.wanted(n)
  }

  lemma EndIsRecorded(env: Env, maximum: nat, during: State, a: RouteAttempt, o: Outcome, end: AttemptEnd, s: State)
    requires during.attempts != [] && a.number == |during.attempts| && a.version == 2 && 1 <= a.number
    requires s.attempts == during.attempts[a.number - 1 := RouteAttempt(a.id, a.number, a.deployment, o.attempt,
                                                                        a.version + if o.headers then 2 else 1)]
    requires end == EndOf(env, maximum, a.number) && s.request.status == o.request && a.status == Connecting
    requires var e := env.execute(a.number);
             match end
             case Delivers => o == SUCCESS.(providerId := e.hasId)
             case Stops => o == FailedOutcome(e)
             case Continues(_) => o == RetryOutcome(e)
    ensures AttemptRecorded(env, maximum, a.deployment, end, s)
  {
    OutcomesAreValid(env.execute(a.number), a);
  }

  /** One attempt: start it, execute it, classify a failure and record the end. */
  method MakeAttempt(recorder: Recorder, env: Env, maximum: nat, handle: GatewayRequest, d: DeploymentId, calls: nat)
    returns (end: AttemptEnd, next: GatewayRequest, clean: bool, ghost log: seq<(Call, Link)>)
    requires BetweenAttempts(recorder.View()) && handle == recorder.request
    modifies recorder
    ensures |log| == 2 && Served(env, calls, old(recorder.View()), recorder.View(), log)
    ensures clean <==> env.link(calls) == Up && env.link(calls + 1) == Up
    ensures clean ==>
              Extends(old(recorder.attempts), recorder.attempts, d) && end == EndOf(env, maximum, |recorder.attempts|)
    ensures clean ==> AttemptRecorded(env, maximum, d, end, recorder.View())
    ensures clean ==> forall i :: 0 <= i < |old(recorder.attempts)| ==>
                        recorder.attempts[i] == old(recorder.attempts[i])
    ensures clean && end.Delivers? ==> Concluded(recorder.View(), Response)
    ensures clean && end.Stops? ==> Concluded(recorder.View(), Refused)
    ensures clean && end.Continues? ==> BetweenAttempts(recorder.View()) && next == recorder.request
    ensures !clean ==> BrokenOff(env, maximum, d, calls, old(recorder.View()), recorder.View())
  {
    hide Inv, InAttempt, BetweenAttempts, Concluded, Served, BrokenOff, StartsAlone, AttemptRecorded, EndsAs, Answered,
         Identified, FailedOutcome, RetryOutcome;
    var link, link' := env.link(calls), env.link(calls + 1);
    ghost var before, start := recorder.View(), StartCall(handle, d);
    end, next, clean := Stops, handle, false;
    StartsBetween(before, d, link);
    var started := recorder.Start(handle, d, link);
    StartOpens(before, d);
    if link != Up {
      StartBreaksOff(env, maximum, before, d, calls);
    }
    if started.None? {
      ServedTwice(env, calls, before, start, FailCall(handle, RequestFailed));
      log := [(start, link), (FailCall(handle, RequestFailed), link')];
      var _ := recorder.Fail(handle, RequestFailed, link');
      return;
    }
    var attempt := started.value.1;
    next := started.value.0;
    Numbered(recorder.View(), attempt);
    ghost var during := recorder.View();
    var executed := env.execute(attempt.number);
    OutcomesAreValid(executed, attempt);
    clean := link' == Up;
    if executed.Delivered? {
      var success := SUCCESS.(providerId := executed.hasId);
      CompleteConcludes(during, attempt, success);
      ServedTwice(env, calls, before, start, CompleteCall(next, attempt, success));
      if !clean { EndBreaksOff(env, maximum, before, during, attempt, d, success, calls); }
      log := [(start, link), (CompleteCall(next, attempt, success), link')];
      var _ := recorder.Complete(next, attempt, success, link');
      end := Delivers;
      if clean { EndIsRecorded(env, maximum, during, attempt, success, end, recorder.View()); }
      return;
    }
    var decision := Classify(env.wanted(attempt.number), attempt.number, maximum);
    if decision.None? || decision.value == NoRetry || !env.decisionRecorded(attempt.number) {
      var failed := FailedOutcome(executed);
      CompleteConcludes(during, attempt, failed);
      ServedTwice(env, calls, before, start, CompleteCall(next, attempt, failed));
      if !clean { EndBreaksOff(env, maximum, before, during, attempt, d, failed, calls); }
      log := [(start, link), (CompleteCall(next, attempt, failed), link')];
      var _ := recorder.Complete(next, attempt, failed, link');
      if clean { EndIsRecorded(env, maximum, during, attempt, failed, end, recorder.View()); }
      return;
    }
    var retried := RetryOutcome(executed);
    RetryReturns(during, attempt, retried);
    ServedTwice(env, calls, before, start, RetryCall(next, attempt, retried));
    if !clean { EndBreaksOff(env, maximum, before, during, attempt, d, retried, calls); }
    log := [(start, link), (RetryCall(next, attempt, retried), link')];
    var _ := recorder.CompleteThenRetry(next, attempt, retried, link');
    end := Continues(decision.value);
    if clean { EndIsRecorded(env, maximum, during, attempt, retried, end, recorder.View()); }
  }

  /** End a request between attempts. */
  method Abandon(recorder: Recorder, env: Env, handle: GatewayRequest, status: RequestStatus, calls: nat)
    returns (clean: bool, ghost log: seq<(Call, Link)>)
    requires BetweenAttempts(recorder.View()) && handle == recorder.request
             && (status == RequestFailed || status == RequestCancelled)
    modifies recorder
    ensures |log| == 1 && Served(env, calls, old(recorder.View()), recorder.View(), log)
    ensures recorder.attempts == old(recorder.attempts) && EarlierEnded(recorder.View())
    ensures clean <==> env.link(calls) == Up
    ensures clean ==> Concluded(recorder.View(), Refused) && recorder.request.status == status
    ensures !clean ==> (recorder.request.status.Terminal() <==> env.link(calls) == Lost)
  {
    FailConcludes(recorder.View(), status);
    ServedOnce(env, calls, recorder.View(), FailCall(handle, status));
    log := [(FailCall(handle, status), env.link(calls))];
    var _ := recorder.Fail(handle, status, env.link(calls));
    clean := env.link(calls) == Up;
  }

  /** The first n calls to the recorder are answered. */
  ghost predicate AllUp(env: Env, n: nat) {
    forall k :: 0 <= k < n ==> env.link(k) == Up
  }

  /** The course breaks off at its first unanswered call, and that is what is on record. */
  ghost predicate Interrupted(env: Env, maximum: nat, s: State)
    requires 1 <= maximum
  {
    var bad := FirstLoss(env, 0, CleanCalls(env, maximum));
    bad < CleanCalls(env, maximum) && Aftermath(env, maximum, s, bad)
  }

  /** End the request after the attempts made, with nothing more to try. */
  method GiveUp(recorder: Recorder, env: Env, maximum: nat, handle: GatewayRequest, status: RequestStatus, calls: nat,
                ghost start: State, ghost earlier: seq<(Call, Link)>, ghost made: seq<DeploymentId>)
    returns (clean: bool, ghost log: seq<(Call, Link)>)
    requires BetweenAttempts(recorder.View()) && handle == recorder.request
             && (status == RequestFailed || status == RequestCancelled)
    requires Inv(start) && start.attempts == [] && Served(env, 0, start, recorder.View(), earlier)
             && calls == |earlier| == 2 * |made| && AllUp(env, calls)
    requires 1 <= maximum && WholeCourse(env, maximum).0 == made && Follows(recorder.attempts, made)
             && (made == [] || EndOf(env, maximum, |made|).Continues?)
    modifies recorder
    ensures recorder.attempts == old(recorder.attempts) && Inv(recorder.View()) && Forward(start, recorder.View())
    ensures Served(env, 0, start, recorder.View(), log) && AlwaysOneOpen(start, log) && OneOpen(recorder.View())
    ensures clean <==> AllUp(env, CleanCalls(env, maximum))
    ensures if clean then Concluded(recorder.View(), Refused) && recorder.request.status == status
            else Interrupted(env, maximum, recorder.View())
  {
    hide Inv, Forward, BetweenAttempts, Concluded, Follows, EndOf, Served, OneOpen, AlwaysOneOpen, Aftermath,
         CleanCalls, WholeCourse, FirstLoss, EarlierEnded;
    ghost var before := recorder.View();
    clean, log := Abandon(recorder, env, handle, status, calls);
    ServedMore(env, start, before, recorder.View(), earlier, log);
    log := earlier + log;
    ServesForward(env, start, recorder.View(), log);
    AbandonedAt(env, maximum, recorder.View(), made);
  }

  /** What a request comes to whose calls are all answered: every attempt but the last
      failed retryably, and the last and the request are on record as what they were. */
  ghost predicate CourseRecorded(env: Env, maximum: nat, s: State)
    requires 1 <= maximum
  {
    var n := |s.attempts|;
    && n == |WholeCourse(env, maximum).0|
    && (forall i :: 0 <= i < n - 1 ==> s.attempts[i].status == AttemptRetryableFailed)
    && if n == 0 then
         s.request.status
         == if env.callerGone && !env.select(0, []).DecisionUnrecorded? then RequestCancelled else RequestFailed
       else
         match EndOf(env, maximum, n)
         case Delivers => s.attempts[n - 1].status == AttemptSucceeded && s.request.status == RequestSucceeded
         case Stops => EndsAs(env.execute(n).failure, s.attempts[n - 1].status, s.request.status)
         case Continues(_) =>
           && s.attempts[n - 1].status == AttemptRetryableFailed
           && (s.request.status == if !env.waits(n) && env.callerGone then RequestCancelled else RequestFailed)
  }

  /** A request is cancelled exactly if its last attempt was, or if the caller had left when
      no route was found at first, or while the next attempt was waited for. */
  lemma CancelledIff(env: Env, maximum: nat, s: State)
    requires 1 <= maximum && CourseRecorded(env, maximum, s)
    ensures var n := |s.attempts|;
            s.request.status == RequestCancelled <==>
              || (n > 0 && s.attempts[n - 1].status == AttemptCancelled)
              || (n == 0 && env.callerGone && !env.select(0, []).DecisionUnrecorded?)
              || (n > 0 && EndOf(env, maximum, n).Continues? && !env.waits(n) && env.callerGone)
  {
    hide WholeCourse;
  }

  lemma RecordsCourse(env: Env, maximum: nat, s: State, d: DeploymentId, end: AttemptEnd)
    requires 1 <= maximum && AttemptRecorded(env, maximum, d, end, s) && !end.Continues?
    requires |s.attempts| == |WholeCourse(env, maximum).0| && end == EndOf(env, maximum, |s.attempts|)
    requires forall i :: 0 <= i < |s.attempts| - 1 ==> s.attempts[i].status == AttemptRetryableFailed
    ensures CourseRecorded(env, maximum, s)
  {
    hide WholeCourse, EndOf;
  }

  lemma RecordsNoCourse(env: Env, maximum: nat, before: State, s: State)
    requires 1 <= maximum && BetweenAttempts(before) && s.attempts == before.attempts
    requires var n := |s.attempts|;
             && n == |WholeCourse(env, maximum).0| && (n > 0 ==> EndOf(env, maximum, n).Continues?)
             && s.request.status == (if n == 0 && env.callerGone && !env.select(0, []).DecisionUnrecorded?
                                     then RequestCancelled
                                     else if n > 0 && !env.waits(n) && env.callerGone then RequestCancelled
                                     else RequestFailed)
    ensures CourseRecorded(env, maximum, s)
  {
    hide WholeCourse, EndOf, Inv;
  }

  /** Execute: for any behaviour of selector, executor, retry policy and caller, a
      request whose recorder calls are all answered is concluded, and no more than the
      maximum of attempts is made, to the deployments and with the result that the
      course of the request prescribes. When a call goes unanswered the course is
      broken off there, and what is on record is exactly known. In no state of any run
      are two attempts open. */
  method Execute(recorder: Recorder, env: Env, maximum: nat)
    returns (reply: Reply, clean: bool, ghost actions: seq<Action>, ghost log: seq<(Call, Link)>)
    requires Inv(recorder.View()) && 1 <= maximum <= 32
    modifies recorder
    ensures Inv(recorder.View()) && Forward(old(recorder.View()), recorder.View())
    ensures old(recorder.request.status) != Routing ==> reply == Refused && recorder.View() == old(recorder.View())
    ensures old(recorder.request.status) == Routing ==>
              && Served(env, 0, old(recorder.View()), recorder.View(), log) && AlwaysOneOpen(old(recorder.View()), log)
              && OneOpen(recorder.View())
    ensures old(recorder.request.status) == Routing ==>
              (clean <==> AllUp(env, CleanCalls(env, maximum)))
    ensures old(recorder.request.status) == Routing && clean ==> Concluded(recorder.View(), reply)
    ensures old(recorder.request.status) == Routing && clean ==> CourseRecorded(env, maximum, recorder.View())
    ensures old(recorder.request.status) == Routing && clean ==>
              |recorder.attempts| <= maximum && Avoids(recorder.attempts, actions)
    ensures old(recorder.request.status) == Routing && clean ==>
              Follows(recorder.attempts, WholeCourse(env, maximum).0)
              && (reply == Response <==> WholeCourse(env, maximum).1)
    ensures old(recorder.request.status) == Routing && !clean ==>
              reply == Refused && Interrupted(env, maximum, recorder.View())
  {
    hide Inv, Forward, InAttempt, BetweenAttempts, Concluded, Avoids, Covers, Follows, Extends, EndOf, NextSelection,
         Served, Disciplined, OneOpen, AlwaysOneOpen, BrokenOff, CleanCalls, Leads, WholeCourse, Course, ServeAll,
         AllUp, Interrupted, CourseRecorded, AttemptRecorded;
    var handle, calls := recorder.request, 0;
    actions, reply, clean, log := [], Refused, true, [];
    ghost var start, more := recorder.View(), [];
    StandsStill(start);
    if handle.status != Routing { return; }
    Begins(start);
    ServedNothing(env, start);
    UpSoFar(env, 0);
    var selection := env.select(0, []);
    CourseBegins(env, maximum);
    if !selection.Selected? {
      var status := if env.callerGone && !selection.DecisionUnrecorded? then RequestCancelled else RequestFailed;
      clean, log := GiveUp(recorder, env, maximum, handle, status, calls, start, [], []);
      if clean { RecordsNoCourse(env, maximum, start, recorder.View()); }
      return;
    }
    var attempted: seq<DeploymentId> := [];
    ghost var action, made: seq<DeploymentId> := NoRetry, [];
    while true
      invariant BetweenAttempts(recorder.View()) && handle == recorder.request && clean && reply == Refused
      invariant |recorder.attempts| < maximum && Avoids(recorder.attempts, actions)
                && Covers(attempted, recorder.attempts)
      invariant selection.Selected?
      invariant action == DifferentDeploymentOnly ==> selection.deployment !in attempted
      invariant Follows(recorder.attempts, made)
                && Leads(env, maximum, made, |recorder.attempts| + 1, selection.deployment, attempted)
      invariant calls == |log| == 2 * |recorder.attempts| && Served(env, 0, start, recorder.View(), log)
      invariant AllUp(env, calls)
      decreases maximum - |recorder.attempts|
    {
      ghost var before, n := recorder.View(), |recorder.attempts| + 1;
      FollowsIs(before.attempts, made);
      var end;
      end, handle, clean, more := MakeAttempt(recorder, env, maximum, handle, selection.deployment, calls);
      ServedMore(env, start, before, recorder.View(), log, more);
      log := log + more;
      ServesForward(env, start, recorder.View(), log);
      if !clean {
        BrokenOffAt(env, maximum, before, recorder.View(), made, selection.deployment, attempted);
        return;
      }
      Counts(before.attempts, recorder.attempts, selection.deployment);
      ExtendsAll(before.attempts, recorder.attempts, selection.deployment, actions, action, attempted, made);
      LeadsOn(env, maximum, made, n, selection.deployment, attempted);
      UpSoFar(env, calls);
      actions, made, calls := actions + [action], made + [selection.deployment], calls + 2;
      attempted := WithDeployment(attempted, selection.deployment);
      FollowsIs(recorder.attempts, made);
      ghost var between := recorder.View();
      if !end.Continues? {
        EndedAt(env, maximum, made);
        AllRetried(before, between);
        RecordsCourse(env, maximum, between, selection.deployment, end);
        reply := if end.Delivers? then Response else Refused;
        return;
      }
      if !env.waits(|recorder.attempts|) {
        var status := if env.callerGone then RequestCancelled else RequestFailed;
        clean, log := GiveUp(recorder, env, maximum, handle, status, calls, start, log, made);
        if clean { RecordsNoCourse(env, maximum, between, recorder.View()); }
        return;
      }
      action := end.action;
      selection := SelectNext(env, |recorder.attempts|, attempted, end.action);
      if !selection.Selected? {
        clean, log := GiveUp(recorder, env, maximum, handle, RequestFailed, calls, start, log, made);
        if clean { RecordsNoCourse(env, maximum, between, recorder.View()); }
        return;
      }
    }
  }

  lemma AllRetried(before: State, after: State)
    requires BetweenAttempts(before) && |after.attempts| == |before.attempts| + 1
    requires forall i :: 0 <= i < |before.attempts| ==> after.attempts[i] == before.attempts[i]
    ensures forall i :: 0 <= i < |after.attempts| - 1 ==> after.attempts[i].status == AttemptRetryableFailed
  {
    hide Inv;
  }

  lemma UpSoFar(env: Env, n: nat)
    ensures AllUp(env, 0)
    ensures AllUp(env, n) && env.link(n) == Up && env.link(n + 1) == Up ==> AllUp(env, n + 2)
  {
  }

  lemma ServedNothing(env: Env, s: State)
    ensures Served(env, 0, s, s, [])
  {
  }

  /** What a disciplined log of calls does to a request without attempts. */
  lemma ServesForward(env: Env, s: State, s': State, log: seq<(Call, Link)>)
    requires Inv(s) && s.attempts == [] && Served(env, 0, s, s', log)
    ensures Inv(s') && Forward(s, s') && AlwaysOneOpen(s, log) && OneOpen(s')
  {
    hide Inv, Forward, AlwaysOneOpen, ServeAll, Disciplined;
    EveryRunIsForward(s, log);
    OneOpenIffDisciplined(s, log);
  }

  lemma FirstLossIs(env: Env, k: nat, n: nat, bad: nat)
    requires k <= bad < n && env.link(bad) != Up && forall i :: k <= i < bad ==> env.link(i) == Up
    ensures FirstLoss(env, k, n) == bad
  {
  }

  lemma FollowsIs(attempts: seq<RouteAttempt>, made: seq<DeploymentId>)
    requires Follows(attempts, made)
    ensures |attempts| == |made| && made[..|made|] == made
  {
  }

  lemma EndedAt(env: Env, maximum: nat, made: seq<DeploymentId>)
    requires 1 <= maximum && WholeCourse(env, maximum).0 == made && made != []
             && !EndOf(env, maximum, |made|).Continues?
    ensures CleanCalls(env, maximum) == 2 * |made|
  {
  }

  /** The last call of a request that ends between attempts. */
  lemma AbandonedAt(env: Env, maximum: nat, s: State, made: seq<DeploymentId>)
    requires 1 <= maximum && WholeCourse(env, maximum).0 == made
             && (made == [] || EndOf(env, maximum, |made|).Continues?)
    requires Follows(s.attempts, made) && EarlierEnded(s) && AllUp(env, 2 * |made|)
    requires env.link(2 * |made|) != Up ==> (s.request.status.Terminal() <==> env.link(2 * |made|) == Lost)
    ensures AllUp(env, CleanCalls(env, maximum)) <==> env.link(2 * |made|) == Up
    ensures env.link(2 * |made|) != Up ==> Interrupted(env, maximum, s)
  {
    hide WholeCourse, EndOf, Follows;
    if env.link(2 * |made|) != Up {
      FirstLossIs(env, 0, CleanCalls(env, maximum), 2 * |made|);
      assert made[..|made|] == made;
    }
  }

  /** A request broken off during the attempt after those made. */
  lemma BrokenOffAt(env: Env, maximum: nat, before: State, after: State, made: seq<DeploymentId>, d: DeploymentId,
                    attempted: seq<DeploymentId>)
    requires 1 <= maximum && Leads(env, maximum, made, |made| + 1, d, attempted) && Follows(before.attempts, made)
    requires AllUp(env, 2 * |made|) && !(env.link(2 * |made|) == Up && env.link(2 * |made| + 1) == Up)
    requires BrokenOff(env, maximum, d, 2 * |made|, before, after)
    ensures !AllUp(env, CleanCalls(env, maximum)) && Interrupted(env, maximum, after)
  {
    hide WholeCourse, EndOf;
    var bad := if env.link(2 * |made|) != Up then 2 * |made| else 2 * |made| + 1;
    var course := WholeCourse(env, maximum).0;
    CourseStarts(env, maximum, |made| + 1, d, attempted);
    assert course[..|made|] == made && course[..|made| + 1] == made + [d];
    FirstLossIs(env, 0, CleanCalls(env, maximum), bad);
  }

  lemma CourseStarts(env: Env, maximum: nat, n: nat, d: DeploymentId, attempted: seq<DeploymentId>)
    requires 1 <= n <= maximum
    ensures var course := Course(env, maximum, n, d, attempted).0; |course| >= 1 && course[0] == d
  {
  }

  lemma CourseBegins(env: Env, maximum: nat)
    requires 1 <= maximum
    ensures var first := env.select(0, []);
            if first.Selected? then Leads(env, maximum, [], 1, first.deployment, [])
            else WholeCourse(env, maximum) == ([], false)
  {
    var first := env.select(0, []);
    if first.Selected? {
      var course := Course(env, maximum, 1, first.deployment, []).0;
      assert [] + course == course;
    }
  }

  /** Having made some attempts, the course goes on with attempt n to deployment d. */
  ghost predicate Leads(env: Env, maximum: nat, made: seq<DeploymentId>, n: nat, d: DeploymentId,
                        attempted: seq<DeploymentId>) {
    && 1 <= n <= maximum
    && var course := Course(env, maximum, n, d, attempted);
       WholeCourse(env, maximum) == (made + course.0, course.1)
  }

  lemma LeadsOn(env: Env, maximum: nat, made: seq<DeploymentId>, n: nat, d: DeploymentId, attempted: seq<DeploymentId>)
    requires 1 <= maximum && Leads(env, maximum, made, n, d, attempted)
    ensures EndOf(env, maximum, n).Delivers? ==> WholeCourse(env, maximum) == (made + [d], true)
    ensures EndOf(env, maximum, n).Stops? ==> WholeCourse(env, maximum) == (made + [d], false)
    ensures EndOf(env, maximum, n).Continues? ==>
              var tried := WithDeployment(attempted, d);
              var next := NextSelection(env, n, tried, EndOf(env, maximum, n).action);
              && n < maximum && EndOf(env, maximum, n).action != NoRetry
              && if !env.waits(n) || !next.Selected? then WholeCourse(env, maximum) == (made + [d], false)
                 else Leads(env, maximum, made + [d], n + 1, next.deployment, tried)
  {
    hide NextSelection, WholeCourse;
    if EndOf(env, maximum, n).Continues? {
      var tried := WithDeployment(attempted, d);
      var next := NextSelection(env, n, tried, EndOf(env, maximum, n).action);
      if env.waits(n) && next.Selected? {
        var rest := Course(env, maximum, n + 1, next.deployment, tried).0;
        assert made + ([d] + rest) == (made + [d]) + rest;
      }
    }
  }

  lemma Counts(before: seq<RouteAttempt>, after: seq<RouteAttempt>, d: DeploymentId)
    requires Extends(before, after, d)
    ensures |after| == |before| + 1
  {
  }

  lemma Begins(s: State)
    requires Inv(s) && s.request.status == Routing
    ensures BetweenAttempts(s) && s.attempts == [] && Avoids(s.attempts, []) && Covers([], s.attempts)
            && Follows(s.attempts, [])
  {
  }

  lemma Numbered(s: State, a: RouteAttempt)
    requires InAttempt(s, a)
    ensures a.number == |s.attempts| && a.status == Connecting
  {
  }
}
