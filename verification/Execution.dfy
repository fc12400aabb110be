/** The durable rows of one request and its attempts, and the compare-and-swap
    transitions that the recorder offers on them. */
module Execution {
  import opened Wrappers

  type DeploymentId = nat

  datatype RequestStatus =
    | Authorized | Routing | Running
    | RequestSucceeded | RequestPartialFailed | RequestFailed | RequestCancelled
  {
    predicate Terminal() {
      RequestSucceeded? || RequestPartialFailed? || RequestFailed? || RequestCancelled?
    }
  }

  datatype AttemptStatus =
    | Connecting | Streaming
    | AttemptSucceeded | AttemptRetryableFailed | AttemptFailed | AttemptPartialFailed | AttemptCancelled
  {
    predicate Terminal() {
      !Connecting? && !Streaming?
    }
  }

  datatype GatewayRequest = GatewayRequest(status: RequestStatus, attemptCount: nat, version: nat)

  /** Attempt identifiers are fresh, so they are the place of the row. */
  datatype RouteAttempt = RouteAttempt(id: nat, number: nat, deployment: DeploymentId, status: AttemptStatus,
                                       version: nat)

  datatype Category = NoCategory | CancelledCategory | OtherCategory

  datatype Outcome = Outcome(attempt: AttemptStatus, request: RequestStatus, headers: bool, providerId: bool,
                             category: Category, code: bool)
  {
    /** AttemptOutcome.Validate */
    predicate Valid() {
      && (providerId ==> headers)
      && match attempt
         case AttemptSucceeded => request == RequestSucceeded && headers && category == NoCategory && !code
         case AttemptRetryableFailed => (request == RequestFailed || request == Running) && category != NoCategory
         && code
         case AttemptFailed => request == RequestFailed && category != NoCategory && code
         case AttemptPartialFailed => request == RequestPartialFailed && headers && category != NoCategory && code
         case AttemptCancelled => request == RequestCancelled && category == CancelledCategory && code
         case _ => false
    }
  }

  /** validateAttemptStateCompletion */
  predicate MayEnd(a: RouteAttempt, o: Outcome) {
    match a.status
    case Connecting => o.attempt != AttemptPartialFailed
    case Streaming => o.headers
    && (o.attempt == AttemptSucceeded || o.attempt == AttemptPartialFailed || o.attempt == AttemptCancelled)
    case _ => false
  }

  /** How the store answers one call: promptly, not at all, or by committing and
      losing the reply. */
  datatype Link = Up | Down | Lost

  datatype State = State(request: GatewayRequest, attempts: seq<RouteAttempt>)

  function Answer<T>(link: Link, value: T): Option<T> {
    if link == Up then Some(value) else None
  }

  // ---- recorder transitions -----------------------------------------------------

  function MarkRouting(s: State, h: GatewayRequest, link: Link): (State, Option<GatewayRequest>) {
    if h.status != Authorized || link == Down || s.request.status != Authorized || s.request.version != h.version
    then (s, None)
    else
      var request := s.request.(status := Routing, version := s.request.version + 1);
      (s.(request := request), Answer(link, request))
  }

  function FailRequest(s: State, h: GatewayRequest, status: RequestStatus,
                       link: Link): (State, Option<GatewayRequest>) {
    if h.status.Terminal() || (status != RequestFailed && status != RequestCancelled) || link == Down
       || s.request.status != h.status || s.request.version != h.version then (s, None)
    else
      var request := s.request.(status := status, version := s.request.version + 1);
      (s.(request := request), Answer(link, request))
  }

  function StartAttempt(s: State, h: GatewayRequest, d: DeploymentId,
                        link: Link): (State, Option<(GatewayRequest, RouteAttempt)>) {
    if (h.status != Routing && h.status != Running) || link == Down || s.request.status != h.status
       || s.request.version != h.version || s.request.attemptCount != h.attemptCount then (s, None)
    else
      var request := GatewayRequest(Running, s.request.attemptCount + 1, s.request.version + 1);
      var attempt := RouteAttempt(|s.attempts|, h.attemptCount + 1, d, Connecting, 2);
      (State(request, s.attempts + [attempt]), Answer(link, (request, attempt)))
  }

  /** The row is still what the handle says. */
  predicate Holds(s: State, a: RouteAttempt) {
    a.id < |s.attempts| && s.attempts[a.id].status == a.status && s.attempts[a.id].version == a.version
  }

  function MarkStreaming(s: State, h: GatewayRequest, a: RouteAttempt, link: Link): (State, Option<RouteAttempt>) {
    if h.status != Running || a.status != Connecting || link == Down || !Holds(s, a) then (s, None)
    else
      var row := s.attempts[a.id].(status := Streaming, version := a.version + 2);
      (s.(attempts := s.attempts[a.id := row]), Answer(link, row))
  }

  /** The terminal row; headers seen on the way count as a transition of their own. */
  function Ended(row: RouteAttempt, o: Outcome): RouteAttempt {
    row.(status := o.attempt, version := row.version + if row.status == Connecting && o.headers then 2 else 1)
  }

  /** Attempt and request end together or not at all. */
  function CompleteAttempt(s: State, h: GatewayRequest, a: RouteAttempt, o: Outcome,
                           link: Link): (State, Option<GatewayRequest>) {
    if h.status != Running || !o.Valid() || o.request == Running || !MayEnd(a, o) || link == Down || !Holds(s, a)
       || s.request.status != Running || s.request.version != h.version then (s, None)
    else
      var request := s.request.(status := o.request, version := s.request.version + 1);
      (State(request, s.attempts[a.id := Ended(s.attempts[a.id], o)]), Answer(link, request))
  }

  /** Only the attempt ends; the request row is not even looked at. */
  function CompleteForRetry(s: State, h: GatewayRequest, a: RouteAttempt, o: Outcome,
                            link: Link): (State, Option<RouteAttempt>) {
    if h.status != Running || !o.Valid() || o.attempt != AttemptRetryableFailed || o.request != Running || !MayEnd(a, o)
       || link == Down || !Holds(s, a) then (s, None)
    else
      var row := Ended(s.attempts[a.id], o);
      (s.(attempts := s.attempts[a.id := row]), Answer(link, row))
  }

  // ---- every run of the recorder ------------------------------------------------

  datatype Call =
    | RoutingCall(h: GatewayRequest)
    | FailCall(h: GatewayRequest, status: RequestStatus)
    | StartCall(h: GatewayRequest, d: DeploymentId)
    | StreamingCall(h: GatewayRequest, a: RouteAttempt)
    | CompleteCall(h: GatewayRequest, a: RouteAttempt, o: Outcome)
    | RetryCall(h: GatewayRequest, a: RouteAttempt, o: Outcome)

  function Serve(s: State, call: Call, link: Link): State {
    match call
    case RoutingCall(h) => MarkRouting(s, h, link).0
    case FailCall(h, status) => FailRequest(s, h, status, link).0
    case StartCall(h, d) => StartAttempt(s, h, d, link).0
    case StreamingCall(h, a) => MarkStreaming(s, h, a, link).0
    case CompleteCall(h, a, o) => CompleteAttempt(s, h, a, o, link).0
    case RetryCall(h, a, o) => CompleteForRetry(s, h, a, o, link).0
  }

  function ServeAll(s: State, calls: seq<(Call, Link)>): State
    decreases |calls|
  {
    if calls == [] then s else ServeAll(Serve(s, calls[0].0, calls[0].1), calls[1..])
  }

  /** Attempts are numbered 1, 2, ... and counted; only a running or ended request
      has any, and a succeeded attempt means a succeeded request. */
  ghost predicate Inv(s: State) {
    && |s.attempts| == s.request.attemptCount
    && (forall i :: 0 <= i < |s.attempts| ==> s.attempts[i].id == i && s.attempts[i].number == i + 1)
    && (s.request.status == Authorized || s.request.status == Routing ==> s.attempts == [])
    && (forall i :: 0 <= i < |s.attempts| && s.attempts[i].status == AttemptSucceeded ==>
          s.request.status == RequestSucceeded)
  }

  /** Rows only move forward: versions grow, terminal rows never change, and no
      attempt is ever removed or renumbered. */
  ghost predicate Forward(s: State, s': State) {
    && s.request.version <= s'.request.version && (s.request.status.Terminal() ==> s'.request == s.request)
    && |s.attempts| <= |s'.attempts|
    && forall i :: 0 <= i < |s.attempts| ==>
         && s'.attempts[i].id == s.attempts[i].id && s'.attempts[i].number == s.attempts[i].number
         && s'.attempts[i].deployment == s.attempts[i].deployment && s.attempts[i].version <= s'.attempts[i].version
         && (s.attempts[i].status.Terminal() ==> s'.attempts[i] == s.attempts[i])
  }

  lemma StartKeeps(s: State, h: GatewayRequest, d: DeploymentId, link: Link)
    requires Inv(s)
    ensures Inv(StartAttempt(s, h, d, link).0) && Forward(s, StartAttempt(s, h, d, link).0)
  {
  }

  /** One open attempt row moves on, and the request with it at most to an end. */
  lemma RowMoves(s: State, request: GatewayRequest, row: RouteAttempt)
    requires Inv(s) && row.id < |s.attempts| && !s.attempts[row.id].status.Terminal()
    requires row.number == s.attempts[row.id].number && row.deployment == s.attempts[row.id].deployment
    requires s.attempts[row.id].version <= row.version
    requires request == s.request
             || (s.request.status == Running && request.attemptCount == s.request.attemptCount
                 && request.version == s.request.version + 1 && request.status.Terminal())
    requires row.status == AttemptSucceeded ==> request.status == RequestSucceeded
    ensures Inv(State(request, s.attempts[row.id := row])) && Forward(s, State(request, s.attempts[row.id := row]))
  {
  }

  lemma RequestMoves(s: State, request: GatewayRequest)
    requires Inv(s) && request.attemptCount == s.request.attemptCount && s.request.version <= request.version
    requires !s.request.status.Terminal() && request.status != Authorized
             && (request.status == Routing ==> s.request.status == Authorized)
    ensures Inv(s.(request := request)) && Forward(s, s.(request := request))
  {
  }

  lemma ServeKeeps(s: State, call: Call, link: Link)
    requires Inv(s)
    ensures Inv(Serve(s, call, link)) && Forward(s, Serve(s, call, link))
  {
    hide Inv, Forward;
    StandsStill(s);
    var s' := Serve(s, call, link);
    match call
    case RoutingCall(h) => if s' != s { RequestMoves(s, s'.request); }
    case FailCall(h, status) => if s' != s { RequestMoves(s, s'.request); }
    case StartCall(h, d) => StartKeeps(s, h, d, link);
    case StreamingCall(h, a) => if s' != s { RowIs(s, a.id); RowMoves(s, s.request, s'.attempts[a.id]); }
    case CompleteCall(h, a, o) => if s' != s { RowIs(s, a.id); RowMoves(s, s'.request, s'.attempts[a.id]); }
    case RetryCall(h, a, o) => if s' != s { RowIs(s, a.id); RowMoves(s, s.request, s'.attempts[a.id]); }
  }

  lemma RowIs(s: State, i: nat)
    requires Inv(s) && i < |s.attempts|
    ensures s.attempts[i].id == i
  {
  }

  lemma StandsStill(s: State)
    ensures Forward(s, s)
  {
  }

  /** Whatever handles are presented, stale or not, and whatever replies are lost. */
  lemma {:induction false} EveryRunIsForward(s: State, calls: seq<(Call, Link)>)
    requires Inv(s)
    ensures Inv(ServeAll(s, calls)) && Forward(s, ServeAll(s, calls))
    decreases |calls|
  {
    hide Serve;
    if calls != [] {
      ServeKeeps(s, calls[0].0, calls[0].1);
      EveryRunIsForward(Serve(s, calls[0].0, calls[0].1), calls[1..]);
    }
  }

  /** The recorder alone lets a second attempt start while the first still runs. */
  lemma RecorderAllowsTwoOpenAttempts(d: DeploymentId)
    ensures var routed := State(GatewayRequest(Routing, 0, 2), []);
            var s := ServeAll(routed,
                              [(StartCall(routed.request, d), Up), (StartCall(GatewayRequest(Running, 1, 3), d), Up)]);
            |s.attempts| == 2 && s.attempts[0].status == Connecting == s.attempts[1].status
  {
    var routed := State(GatewayRequest(Routing, 0, 2), []);
    var calls := [(StartCall(routed.request, d), Up), (StartCall(GatewayRequest(Running, 1, 3), d), Up)];
    var one := Serve(routed, calls[0].0, calls[0].1);
    assert ServeAll(routed, calls) == ServeAll(one, calls[1..]);
    assert calls[1..] == [calls[1]];
    assert ServeAll(one, [calls[1]]) == ServeAll(Serve(one, calls[1].0, calls[1].1), []);
  }

  // ---- at most one open attempt -------------------------------------------------

  ghost predicate AllEnded(s: State) {
    forall i :: 0 <= i < |s.attempts| ==> s.attempts[i].status.Terminal()
  }

  /** Of any two attempts one has ended. */
  ghost predicate OneOpen(s: State) {
    forall i, j :: 0 <= i < j < |s.attempts| ==> s.attempts[i].status.Terminal() || s.attempts[j].status.Terminal()
  }

  ghost predicate AlwaysOneOpen(s: State, calls: seq<(Call, Link)>)
    decreases |calls|
  {
    OneOpen(s) && (calls != [] ==> AlwaysOneOpen(Serve(s, calls[0].0, calls[0].1), calls[1..]))
  }

  /** A start that takes effect meets only ended attempts. */
  ghost predicate StartsAlone(s: State, call: Call, link: Link) {
    call.StartCall? && Serve(s, call, link) != s ==> AllEnded(s)
  }

  ghost predicate Disciplined(s: State, calls: seq<(Call, Link)>)
    decreases |calls|
  {
    calls != [] ==> StartsAlone(s, calls[0].0, calls[0].1) && Disciplined(Serve(s, calls[0].0, calls[0].1), calls[1..])
  }

  lemma StartKeepsOneOpen(s: State, h: GatewayRequest, d: DeploymentId, link: Link)
    requires Inv(s) && OneOpen(s)
    ensures OneOpen(Serve(s, StartCall(h, d), link)) <==> StartsAlone(s, StartCall(h, d), link)
  {
    var s' := Serve(s, StartCall(h, d), link);
    if s' != s {
      forall i | 0 <= i < |s.attempts| ensures s'.attempts[i] == s.attempts[i] {
      }
      assert s'.attempts[|s.attempts|].status == Connecting;
    }
  }

  lemma ServeKeepsOneOpen(s: State, call: Call, link: Link)
    requires Inv(s) && OneOpen(s)
    ensures OneOpen(Serve(s, call, link)) <==> StartsAlone(s, call, link)
  {
    if call.StartCall? {
      StartKeepsOneOpen(s, call.h, call.d, link);
    }
  }

  /** In every state of a run at most one attempt is open, if and only if it is so at
      first and every start that takes effect meets only ended attempts. */
  lemma {:induction false} OneOpenIffDisciplined(s: State, calls: seq<(Call, Link)>)
    requires Inv(s)
    ensures AlwaysOneOpen(s, calls) <==> OneOpen(s) && Disciplined(s, calls)
    ensures AlwaysOneOpen(s, calls) ==> OneOpen(ServeAll(s, calls))
    decreases |calls|
  {
    hide Inv, OneOpen, StartsAlone, Serve;
    if calls != [] && OneOpen(s) {
      ServeKeeps(s, calls[0].0, calls[0].1);
      ServeKeepsOneOpen(s, calls[0].0, calls[0].1);
      OneOpenIffDisciplined(Serve(s, calls[0].0, calls[0].1), calls[1..]);
    }
  }

  lemma {:induction false} ServeAllJoins(s: State, calls: seq<(Call, Link)>, more: seq<(Call, Link)>)
    ensures ServeAll(s, calls + more) == ServeAll(ServeAll(s, calls), more)
    ensures Disciplined(s, calls + more) <==> Disciplined(s, calls) && Disciplined(ServeAll(s, calls), more)
    decreases |calls|
  {
    hide Serve, StartsAlone;
    if calls == [] {
      assert calls + more == more;
    } else {
      assert (calls + more)[1..] == calls[1..] + more;
      ServeAllJoins(Serve(s, calls[0].0, calls[0].1), calls[1..], more);
    }
  }

  // ---- exactly when a call takes effect ---------------------------------------------

  /** An outcome is accepted exactly if it is a success without an error, or a failure with
      one whose request ends as its attempt did. */
  lemma OutcomeIsValidIff(o: Outcome)
    ensures o.Valid() <==>
              && (o.headers || !o.providerId)
              && ((o.attempt.AttemptSucceeded? && o.request.RequestSucceeded? && o.headers && !o.code
                   && o.category.NoCategory?)
                  || (o.code && !o.category.NoCategory?
                      && ((o.attempt.AttemptRetryableFailed? && (o.request.RequestFailed? || o.request.Running?))
                          || (o.attempt.AttemptFailed? && o.request.RequestFailed?)
                          || (o.attempt.AttemptPartialFailed? && o.request.RequestPartialFailed? && o.headers)
                          || (o.attempt.AttemptCancelled? && o.request.RequestCancelled?
                              && o.category.CancelledCategory?))))
  {
  }

  /** Only an open attempt ends; one that streams has a response and cannot just fail. */
  lemma MayEndIff(a: RouteAttempt, o: Outcome)
    ensures MayEnd(a, o) <==>
              || (a.status.Connecting? && !o.attempt.AttemptPartialFailed?)
              || (a.status.Streaming? && o.headers && !o.attempt.AttemptFailed? && !o.attempt.AttemptRetryableFailed?
                  && o.attempt.Terminal())
  {
  }

  /** The request row is the one that the handle was read from, in this status. */
  predicate Fresh(s: State, h: GatewayRequest) {
    s.request.status == h.status && s.request.version == h.version
  }

  predicate FreshAttempt(s: State, a: RouteAttempt) {
    a.id < |s.attempts| && s.attempts[a.id].status == a.status && s.attempts[a.id].version == a.version
  }

  function Bumped(r: GatewayRequest, status: RequestStatus): GatewayRequest {
    GatewayRequest(status, r.attemptCount, r.version + 1)
  }

  /** Routing and failing take effect exactly on a fresh handle in a status that allows it. */
  lemma RequestCallsAreExact(s: State, h: GatewayRequest, status: RequestStatus, link: Link)
    ensures MarkRouting(s, h, link).0
         == if link != Down && h.status.Authorized? && Fresh(s, h) then s.(request := Bumped(s.request, Routing)) else s
    ensures FailRequest(s, h, status, link).0
         == if && link != Down && !h.status.Terminal() && Fresh(s, h)
               && (status.RequestFailed? || status.RequestCancelled?)
            then s.(request := Bumped(s.request, status)) else s
    ensures MarkRouting(s, h, link).1.Some? <==> link == Up && MarkRouting(s, h, link).0 != s
    ensures FailRequest(s, h, status, link).1.Some? <==> link == Up && FailRequest(s, h, status, link).0 != s
  {
  }

  /** An attempt starts exactly on a fresh handle of a routing or running request, as the
      next of its attempts. */
  lemma StartIsExact(s: State, h: GatewayRequest, d: DeploymentId, link: Link)
    ensures var (s', r) := StartAttempt(s, h, d, link);
            if link != Down && (h.status.Routing? || h.status.Running?) && Fresh(s, h)
               && s.request.attemptCount == h.attemptCount then
              && s'.request == GatewayRequest(Running, s.request.attemptCount + 1, s.request.version + 1)
              && s'.attempts == s.attempts + [RouteAttempt(|s.attempts|, s.request.attemptCount + 1, d, Connecting, 2)]
              && (r.Some? <==> link == Up) && (r.Some? ==> r.value == (s'.request, s'.attempts[|s.attempts|]))
            else s' == s && r.None?
  {
  }

  /** An attempt is marked as streaming exactly while it connects. */
  lemma StreamingIsExact(s: State, h: GatewayRequest, a: RouteAttempt, link: Link)
    ensures var (s', r) := MarkStreaming(s, h, a, link);
            if link != Down && h.status.Running? && a.status.Connecting? && FreshAttempt(s, a) then
              && s'.request == s.request && (r.Some? <==> link == Up)
              && s'.attempts == s.attempts[a.id := s.attempts[a.id].(status := Streaming, version := a.version + 2)]
            else s' == s && r.None?
  {
  }

  /** What is left of an attempt that ended. */
  predicate EndedBy(before: RouteAttempt, after: RouteAttempt, o: Outcome) {
    && after == before.(status := o.attempt, version := after.version)
    && after.version == before.version + (if before.status.Connecting? && o.headers then 2 else 1)
  }

  /** An attempt ends together with its request, or alone to be tried again, exactly with
      fresh handles and an outcome that fits. */
  lemma EndIsExact(s: State, h: GatewayRequest, a: RouteAttempt, o: Outcome, link: Link)
    ensures var (s', r) := CompleteAttempt(s, h, a, o, link);
            if link != Down && h.status.Running? && Fresh(s, h) && FreshAttempt(s, a) && o.Valid() && MayEnd(a, o)
               && !o.request.Running? then
              && s'.request == Bumped(s.request, o.request) && |s'.attempts| == |s.attempts|
              && s'.attempts == s.attempts[a.id := s'.attempts[a.id]]
              && EndedBy(s.attempts[a.id], s'.attempts[a.id], o) && (r.Some? <==> link == Up)
            else s' == s && r.None?
    ensures var (s', r) := CompleteForRetry(s, h, a, o, link);
            if link != Down && h.status.Running? && FreshAttempt(s, a) && o.Valid() && MayEnd(a, o)
               && o.attempt.AttemptRetryableFailed? && o.request.Running? then
              && s'.request == s.request && |s'.attempts| == |s.attempts|
              && s'.attempts == s.attempts[a.id := s'.attempts[a.id]]
              && EndedBy(s.attempts[a.id], s'.attempts[a.id], o) && (r.Some? <==> link == Up)
            else s' == s && r.None?
  {
    hide Outcome.Valid, MayEnd;
  }
}
