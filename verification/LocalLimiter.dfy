/** The process-local limiter with its fields updated in place, each method
    proved against the limiter as a value. */
module LocalLimiter {
  import opened Wrappers
  import opened LimitScopes
  import opened LocalLimiterModel
  import Model = LocalLimiterModel

  /** Collect the bindings, refusing invalid and repeated ones. */
  method Bind(bindings: Bindings) returns (r: Option<map<Scope, Policy>>)
    ensures r.Some? <==> WellFormed(bindings)
    ensures r.Some? ==> r.value == AsMap(bindings)
  {
    hide Scope.Valid, Policy.Valid;
    var next: map<Scope, Policy> := map[];
    var i := 0;
    while i < |bindings|
      invariant 0 <= i <= |bindings| && WellFormed(bindings[..i]) && next == AsMap(bindings[..i])
      invariant forall j :: 0 <= j < i ==> bindings[j].0 in next
      invariant forall s :: s in next ==> exists j :: 0 <= j < i && bindings[j].0 == s
    {
      var (scope, policy) := bindings[i];
      if !scope.Valid() || !policy.Valid() || scope in next { return None; }
      assert bindings[..i + 1][..i] == bindings[..i];
      next := next[scope := policy];
      i := i + 1;
    }
    assert bindings[..i] == bindings;
    r := Some(next);
  }

  class Limiter {
    const maximumBindings: nat
    var version: nat
    var policies: map<Scope, Policy>
    var states: map<Scope, Counter>

    constructor (maximumBindings: nat)
      ensures View() == Model.Limiter(0, map[], map[]) && this.maximumBindings == maximumBindings
    {
      this.maximumBindings := maximumBindings;
      version, policies, states := 0, map[], map[];
    }

    function View(): Model.Limiter
      reads this
    {
      Model.Limiter(version, policies, states)
    }

    /** Publish a strictly newer complete configuration, dropping the counters
        that no policy and no lease needs any more. */
    method Replace(version: nat, bindings: Bindings) returns (r: ReplaceResult)
      modifies this
      ensures (View(), r) == Model.Replace(old(View()), maximumBindings, version, bindings)
    {
      if version == 0 || bindings == [] || |bindings| > maximumBindings { return InvalidBindings; }
      var bound := Bind(bindings);
      if bound.None? { return InvalidBindings; }
      var next := bound.value;
      if version <= this.version { return StaleSnapshot; }
      DropUnused(next);
      policies := next;
      this.version := version;
      r := Replaced;
    }

    /** Delete idle counters of scopes that are no longer configured. */
    method DropUnused(next: map<Scope, Policy>)
      modifies `states
      ensures states == Kept(old(states), next)
    {
      var left := states.Keys;
      while left != {}
        invariant left <= old(states).Keys
        invariant forall s :: s in states <==>
                    s in old(states) && (s in left || s in next || old(states)[s].concurrency > 0)
        invariant forall s :: s in states ==> states[s] == old(states)[s]
        decreases |left|
      {
        var s :| s in left;
        if s !in next && states[s].concurrency == 0 {
          states := states - {s};
        }
        left := left - {s};
      }
    }

    /** One non-blocking, all-or-nothing admission across four scopes. */
    method Acquire(now: int, scopes: seq<Scope>, tokens: nat) returns (o: Outcome, lease: Lease?)
      modifies this
      ensures forall h: Hierarchy :: Arranges(scopes, h) ==> (View(), o) == Model.Acquire(old(View()), now, h, tokens)
      ensures (forall h: Hierarchy :: !Arranges(scopes, h)) ==> View() == old(View()) && o == InvalidRequest
      ensures lease != null <==> o.Admitted?
      ensures lease != null ==>
                fresh(lease) && lease.limiter == this && !lease.released && Arranges(scopes, lease.owner)
    {
      lease := null;
      if tokens == 0 || tokens > MAXIMUM_VALUE { return InvalidRequest, null; }
      var normalized := NormalizeScopes(scopes);
      if normalized.None? { return InvalidRequest, null; }
      var h := normalized.value;
      forall g: Hierarchy | Arranges(scopes, g) ensures g == h {
        NormalizationIgnoresOrder(scopes, scopes, g, h);
      }
      o := Admit(now, h, tokens);
      if o.Admitted? {
        lease := new Lease(this, h);
      }
    }

    method Admit(now: int, h: Hierarchy, tokens: nat) returns (o: Outcome)
      requires 1 <= tokens <= MAXIMUM_VALUE
      modifies this
      ensures (View(), o) == Model.Acquire(old(View()), now, h, tokens)
    {
      hide Hierarchy.Level, CheckLevel;
      if version == 0 { return PolicyUnavailable; }
      var i := 0;
      while i < 4
        invariant 0 <= i <= 4 && forall j :: 0 <= j < i ==> h.Level(j) in policies
      {
        if h.Level(i) !in policies { return PolicyUnavailable; }
        i := i + 1;
      }
      RollAll(h, WindowOf(now));
      RolledLevels(old(states), h, WindowOf(now));
      i := 0;
      while i < 4
        invariant 0 <= i <= 4
        invariant FirstObjection(states, policies, h, tokens, now, 0)
                  == FirstObjection(states, policies, h, tokens, now, i)
      {
        o := CheckLevel(states[h.Level(i)], policies[h.Level(i)], tokens, now, i);
        if !o.Admitted? { return; }
        i := i + 1;
      }
      TakeAll(h, tokens);
      o := Admitted(version);
    }

    /** Create missing counters and start the new minute of stale ones. */
    method RollAll(h: Hierarchy, w: int)
      modifies `states
      ensures states == RollLevels(old(states), h, w, 4)
    {
      var i := 0;
      while i < 4
        invariant 0 <= i <= 4 && states == RollLevels(old(states), h, w, i)
      {
        var s := h.Level(i);
        if s !in states {
          states := states[s := Counter(w, 0, 0, 0)];
        } else if w > states[s].window {
          states := states[s := Counter(w, 0, 0, states[s].concurrency)];
        } else {
          assert states == states[s := states[s]];
        }
        i := i + 1;
      }
    }

    method TakeAll(h: Hierarchy, tokens: nat)
      requires forall i :: 0 <= i < 4 ==> h.Level(i) in states
      modifies `states
      ensures states == TakeLevels(old(states), h, tokens, 4)
    {
      var i := 0;
      while i < 4
        invariant 0 <= i <= 4 && states == TakeLevels(old(states), h, tokens, i)
      {
        var s := h.Level(i);
        var c := states[s];
        states := states[s := Counter(c.window, c.rpm + 1, c.tpm + tokens, c.concurrency + 1)];
        i := i + 1;
      }
    }

    /** Give back one slot at each level. */
    method GiveBack(h: Hierarchy)
      modifies `states
      ensures View() == Model.Release(old(View()), h)
    {
      var i := 0;
      while i < 4
        invariant 0 <= i <= 4 && states == DropLevels(old(states), policies, h, i)
      {
        var s := h.Level(i);
        if s in states && states[s].concurrency != 0 {
          states := states[s := states[s].(concurrency := states[s].concurrency - 1)];
          if s !in policies && states[s].concurrency == 0 {
            ghost var below := DropLevels(old(states), policies, h, i);
            states := states - {s};
            assert states == below - {s};
          }
        }
        i := i + 1;
      }
    }

    method Snapshot(now: int, s: Scope) returns (r: Option<Usage>)
      modifies `states
      ensures (View(), r) == Model.Snapshot(old(View()), now, s)
    {
      if !s.Valid() || s !in policies { return None; }
      var w := WindowOf(now);
      if s !in states { return Some(Usage(version, 0, 0, 0, w, policies[s])); }
      if w > states[s].window {
        states := states[s := Counter(w, 0, 0, states[s].concurrency)];
      } else {
        assert states == states[s := states[s]];
      }
      var c := states[s];
      r := Some(Usage(version, c.rpm, c.tpm, c.concurrency, c.window, policies[s]));
    }
  }

  /** One slot in every admitted scope, given back at most once. */
  class Lease {
    const limiter: Limiter
    const owner: Hierarchy
    var released: bool

    constructor (limiter: Limiter, owner: Hierarchy)
      ensures this.limiter == limiter && this.owner == owner && !released
    {
      this.limiter, this.owner, released := limiter, owner, false;
    }

    method Release()
      modifies this, limiter
      ensures released
      ensures limiter.View() == if old(released) then old(limiter.View()) else Model.Release(old(limiter.View()), owner)
    {
      if !released {
        released := true;
        limiter.GiveBack(owner);
      }
    }
  }
}
