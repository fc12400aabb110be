/** The process-local limiter as a value: published policies, lazily rolled
    minute counters, and one concurrency slot per scope and lease. */
module LocalLimiterModel {
  import opened Wrappers
  import opened LimitScopes

  /** Hard limits of one scope. */
  datatype Policy = Policy(rpm: nat, tpm: nat, concurrency: nat)
  {
    predicate Valid()
      ensures Valid() <==> 0 !in {rpm, tpm, concurrency}
                           && rpm < 0x20_0000_0000_0000 && tpm < 0x20_0000_0000_0000
                           && concurrency < 0x20_0000_0000_0000
    {
      1 <= rpm <= MAXIMUM_VALUE && 1 <= tpm <= MAXIMUM_VALUE && 1 <= concurrency <= MAXIMUM_VALUE
    }
  }

  datatype Counter = Counter(window: int, rpm: nat, tpm: nat, concurrency: nat)

  datatype Limiter = Limiter(version: nat, policies: map<Scope, Policy>, states: map<Scope, Counter>)

  datatype Resource = Rpm | Tpm | Concurrency

  datatype Outcome =
    | InvalidRequest
    | PolicyUnavailable
    | Rejected(level: nat, resource: Resource, usage: nat, requested: nat, hard: nat, resetAt: int, retryAfter: nat)
    | Admitted(version: nat)

  datatype Usage = Usage(version: nat, rpm: nat, tpm: nat, concurrency: nat, window: int, policy: Policy)

  /** The minute that an instant, in milliseconds, falls in. */
  function WindowOf(now: int): (minute: int)
    ensures minute * 60_000 <= now < (minute + 1) * 60_000
  {
    now / 60_000
  }

  function Concurrent(states: map<Scope, Counter>, s: Scope): nat {
    if s in states then states[s].concurrency else 0
  }

  predicate Exceeds(current: nat, requested: nat, hard: nat): (r: bool)
    ensures r <==> current + requested > hard
  {
    requested > hard || current > hard - requested
  }

  // ---- acquire --------------------------------------------------------------

  /** A counter as the minute w sees it. */
  function Rolled(states: map<Scope, Counter>, s: Scope, w: int): Counter {
    if s !in states then Counter(w, 0, 0, 0)
    else if w > states[s].window then Counter(w, 0, 0, states[s].concurrency)
    else states[s]
  }

  function RollLevels(states: map<Scope, Counter>, h: Hierarchy, w: int, n: nat): map<Scope, Counter>
    requires n <= 4
  {
    if n == 0 then states
    else
      var below := RollLevels(states, h, w, n - 1);
      below[h.Level(n - 1) := Rolled(below, h.Level(n - 1), w)]
  }

  function TakeLevels(states: map<Scope, Counter>, h: Hierarchy, tokens: nat, n: nat): map<Scope, Counter>
    requires n <= 4 && forall i :: 0 <= i < 4 ==> h.Level(i) in states
    ensures states.Keys == TakeLevels(states, h, tokens, n).Keys
  {
    if n == 0 then states
    else
      var below := TakeLevels(states, h, tokens, n - 1);
      var c := below[h.Level(n - 1)];
      below[h.Level(n - 1) := Counter(c.window, c.rpm + 1, c.tpm + tokens, c.concurrency + 1)]
  }

  predicate Covered(policies: map<Scope, Policy>, h: Hierarchy) {
    forall i :: 0 <= i < 4 ==> h.Level(i) in policies
  }

  function RateRejection(now: int, level: nat, resource: Resource, usage: nat, requested: nat, hard: nat,
                         window: int): Outcome {
    var resetAt := (window + 1) * 60_000;
    Rejected(level, resource, usage, requested, hard, resetAt, if resetAt - now < 0 then 0 else resetAt - now)
  }

  /** checkHardLimits at one level; Admitted stands for no objection. */
  function CheckLevel(c: Counter, policy: Policy, tokens: nat, now: int, level: nat): Outcome {
    if Exceeds(c.rpm, 1, policy.rpm) then RateRejection(now, level, Rpm, c.rpm, 1, policy.rpm, c.window)
    else if Exceeds(c.tpm, tokens, policy.tpm) then RateRejection(now, level, Tpm, c.tpm, tokens, policy.tpm, c.window)
    else if Exceeds(c.concurrency, 1, policy.concurrency)
    then Rejected(level, Concurrency, c.concurrency, 1, policy.concurrency, 0, 0)
    else Admitted(0)
  }

  /** The first objection from level i on. */
  function FirstObjection(states: map<Scope, Counter>, policies: map<Scope, Policy>, h: Hierarchy, tokens: nat,
                          now: int, i: nat): Outcome
    requires i <= 4 && Covered(policies, h) && forall j :: 0 <= j < 4 ==> h.Level(j) in states
    decreases 4 - i
  {
    if i == 4 then Admitted(0)
    else
      var o := CheckLevel(states[h.Level(i)], policies[h.Level(i)], tokens, now, i);
      if o.Admitted? then FirstObjection(states, policies, h, tokens, now, i + 1) else o
  }

  lemma {:induction false} RolledAt(states: map<Scope, Counter>, h: Hierarchy, w: int, n: nat, s: Scope)
    requires n <= 4
    ensures var rolled := RollLevels(states, h, w, n);
            if h.Covers(s) && s.Rank() < n then s in rolled && rolled[s] == Rolled(states, s, w)
            else (s in rolled <==> s in states) && (s in states ==> rolled[s] == states[s])
  {
    if n > 0 {
      RolledAt(states, h, w, n - 1, s);
    }
  }

  lemma RolledLevels(states: map<Scope, Counter>, h: Hierarchy, w: int)
    ensures forall i :: 0 <= i < 4 ==> h.Level(i) in RollLevels(states, h, w, 4)
  {
    forall i | 0 <= i < 4 ensures h.Level(i) in RollLevels(states, h, w, 4) {
      RolledAt(states, h, w, 4, h.Level(i));
    }
  }

  function Acquire(l: Limiter, now: int, h: Hierarchy, tokens: nat): (Limiter, Outcome) {
    if tokens == 0 || tokens > MAXIMUM_VALUE then (l, InvalidRequest)
    else if l.version == 0 || !Covered(l.policies, h) then (l, PolicyUnavailable)
    else
      var rolled := RollLevels(l.states, h, WindowOf(now), 4);
      RolledLevels(l.states, h, WindowOf(now));
      var o := FirstObjection(rolled, l.policies, h, tokens, now, 0);
      if o.Admitted? then (l.(states := TakeLevels(rolled, h, tokens, 4)), Admitted(l.version))
      else (l.(states := rolled), o)
  }

  // ---- release --------------------------------------------------------------

  function DropOne(states: map<Scope, Counter>, policies: map<Scope, Policy>, s: Scope): map<Scope, Counter> {
    if Concurrent(states, s) == 0 then states
    else if s !in policies && states[s].concurrency == 1 then states - {s}
    else states[s := states[s].(concurrency := states[s].concurrency - 1)]
  }

  function DropLevels(states: map<Scope, Counter>, policies: map<Scope, Policy>, h: Hierarchy,
                      n: nat): map<Scope, Counter>
    requires n <= 4
  {
    if n == 0 then states else DropOne(DropLevels(states, policies, h, n - 1), policies, h.Level(n - 1))
  }

  function Release(l: Limiter, h: Hierarchy): Limiter {
    l.(states := DropLevels(l.states, l.policies, h, 4))
  }

  // ---- replace --------------------------------------------------------------

  type Bindings = seq<(Scope, Policy)>

  /** Valid bindings of distinct scopes. */
  ghost predicate WellFormed(bindings: Bindings) {
    && (forall i :: 0 <= i < |bindings| ==> bindings[i].0.Valid() && bindings[i].1.Valid())
    && forall i, j :: 0 <= i < j < |bindings| ==> bindings[i].0 != bindings[j].0
  }

  function AsMap(bindings: Bindings): map<Scope, Policy> {
    if bindings == [] then map[]
    else
      var last := bindings[|bindings| - 1];
      AsMap(bindings[..|bindings| - 1])[last.0 := last.1]
  }

  datatype ReplaceResult = Replaced | InvalidBindings | StaleSnapshot

  function Kept(states: map<Scope, Counter>, next: map<Scope, Policy>): map<Scope, Counter> {
    map s | s in states && (s in next || states[s].concurrency > 0) :: states[s]
  }

  ghost function Replace(l: Limiter, maximum: nat, version: nat, bindings: Bindings): (Limiter, ReplaceResult) {
    if version == 0 || bindings == [] || |bindings| > maximum || !WellFormed(bindings) then (l, InvalidBindings)
    else if version <= l.version then (l, StaleSnapshot)
    else (Limiter(version, AsMap(bindings), Kept(l.states, AsMap(bindings))), Replaced)
  }

  // ---- snapshot -------------------------------------------------------------

  /** What a snapshot shows, and the roll it leaves behind. */
  function Snapshot(l: Limiter, now: int, s: Scope): (Limiter, Option<Usage>) {
    if !s.Valid() || s !in l.policies then (l, None)
    else if s !in l.states then (l, Some(Usage(l.version, 0, 0, 0, WindowOf(now), l.policies[s])))
    else
      var c := Rolled(l.states, s, WindowOf(now));
      (l.(states := l.states[s := c]), Some(Usage(l.version, c.rpm, c.tpm, c.concurrency, c.window, l.policies[s])))
  }
}
