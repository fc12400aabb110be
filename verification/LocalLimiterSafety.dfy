/** What every history of the process-local limiter keeps: slots match unreleased
    leases at every level, and rolled rates match the admissions of the minute. */
module LocalLimiterSafety {
  import opened Wrappers
  import opened LimitScopes
  import opened LocalLimiterModel
  import opened Sums

  type LeaseId = nat

  datatype Lease = Lease(owner: Hierarchy, released: bool)

  datatype Entry = Entry(at: int, owner: Hierarchy, tokens: nat)

  /** The limiter, every lease it ever handed out, and every admission. */
  datatype World = World(limiter: Limiter, leases: map<LeaseId, Lease>, log: seq<Entry>)

  datatype Event =
    | ReplaceEvent(version: nat, bindings: Bindings)
    | AcquireEvent(now: int, owner: Hierarchy, tokens: nat, id: LeaseId)
    | ReleaseEvent(id: LeaseId)
    | SnapshotEvent(now: int, scope: Scope)

  ghost function Step(w: World, maximum: nat, e: Event): World {
    match e
    case ReplaceEvent(version, bindings) => w.(limiter := Replace(w.limiter, maximum, version, bindings).0)
    case AcquireEvent(now, h, tokens, id) =>
      if id in w.leases then w
      else
        var (l, o) := Acquire(w.limiter, now, h, tokens);
        if o.Admitted? then World(l, w.leases[id := Lease(h, false)], w.log + [Entry(now, h, tokens)])
        else w.(limiter := l)
    case ReleaseEvent(id) =>
      // sync.Once: a lease is given back at most once.
      if id !in w.leases || w.leases[id].released then w
      else World(Release(w.limiter, w.leases[id].owner), w.leases[id := Lease(w.leases[id].owner, true)], w.log)
    case SnapshotEvent(now, s) => w.(limiter := Snapshot(w.limiter, now, s).0)
  }

  ghost function Run(w: World, maximum: nat, events: seq<Event>): World
    decreases |events|
  {
    if events == [] then w else Run(Step(w, maximum, events[0]), maximum, events[1..])
  }

  const FRESH := World(Limiter(0, map[], map[]), map[], [])

  // ---- slots ----------------------------------------------------------------

  ghost function Holds(s: Scope): (LeaseId, Lease) -> int {
    (id: LeaseId, l: Lease) => if !l.released && l.owner.Covers(s) then 1 else 0
  }

  ghost function Held(leases: map<LeaseId, Lease>, s: Scope): int {
    Total(leases, Holds(s))
  }

  /** Slots in use at a scope are its unreleased leases. */
  ghost predicate SlotInv(w: World) {
    forall s :: Concurrent(w.limiter.states, s) == Held(w.leases, s)
  }

  /** Counters exist only for configured or still leased scopes. */
  ghost predicate DomainInv(l: Limiter) {
    forall s :: s in l.states ==> s.Valid() && (s in l.policies || l.states[s].concurrency > 0)
  }

  /** No counter can run over. */
  ghost predicate RangeInv(l: Limiter) {
    && (forall s :: s in l.policies ==> s.Valid() && l.policies[s].Valid())
    && forall s :: s in l.states ==>
         l.states[s].rpm <= MAXIMUM_VALUE && l.states[s].tpm <= MAXIMUM_VALUE
         && l.states[s].concurrency <= MAXIMUM_VALUE
  }

  ghost predicate Inv(w: World) {
    SlotInv(w) && DomainInv(w.limiter) && RangeInv(w.limiter)
  }

  lemma {:induction false} TakenAt(states: map<Scope, Counter>, h: Hierarchy, tokens: nat, n: nat, s: Scope)
    requires n <= 4 && (forall i :: 0 <= i < 4 ==> h.Level(i) in states)
    ensures s in states ==>
              var c := states[s];
              TakeLevels(states, h, tokens, n)[s] ==
              if h.Covers(s) && s.Rank() < n then Counter(c.window, c.rpm + 1, c.tpm + tokens, c.concurrency + 1) else c
  {
    if n > 0 {
      TakenAt(states, h, tokens, n - 1, s);
    }
  }

  lemma {:induction false} NoObjection(states: map<Scope, Counter>, policies: map<Scope, Policy>, h: Hierarchy,
                                       tokens: nat, now: int, i: nat, j: nat)
    requires i <= j < 4 && Covered(policies, h) && (forall k :: 0 <= k < 4 ==> h.Level(k) in states)
    requires FirstObjection(states, policies, h, tokens, now, i).Admitted?
    ensures var c, p := states[h.Level(j)], policies[h.Level(j)];
            c.rpm + 1 <= p.rpm && c.tpm + tokens <= p.tpm && c.concurrency + 1 <= p.concurrency
    decreases 4 - i
  {
    if i < j {
      NoObjection(states, policies, h, tokens, now, i + 1, j);
    }
  }

  /** What an acquire leaves at one scope. */
  ghost function AfterAcquire(l: Limiter, now: int, h: Hierarchy, tokens: nat, s: Scope): Counter {
    var c := Rolled(l.states, s, WindowOf(now));
    if Acquire(l, now, h, tokens).1.Admitted? then Counter(c.window, c.rpm + 1, c.tpm + tokens, c.concurrency + 1)
    else c
  }

  ghost predicate Consulted(l: Limiter, tokens: nat, h: Hierarchy) {
    1 <= tokens <= MAXIMUM_VALUE && l.version > 0 && Covered(l.policies, h)
  }

  lemma AcquiredAt(l: Limiter, now: int, h: Hierarchy, tokens: nat, s: Scope)
    requires Consulted(l, tokens, h)
    ensures var l' := Acquire(l, now, h, tokens).0;
            if h.Covers(s) then s in l'.states && l'.states[s] == AfterAcquire(l, now, h, tokens, s)
            else (s in l'.states <==> s in l.states) && (s in l.states ==> l'.states[s] == l.states[s])
  {
    hide RollLevels, TakeLevels, FirstObjection;
    RolledAt(l.states, h, WindowOf(now), 4, s);
    RolledLevels(l.states, h, WindowOf(now));
    TakenAt(RollLevels(l.states, h, WindowOf(now), 4), h, tokens, 4, s);
  }

  lemma AdmittedFits(l: Limiter, now: int, h: Hierarchy, tokens: nat, s: Scope)
    requires Acquire(l, now, h, tokens).1.Admitted? && h.Covers(s)
    ensures s in l.policies
    ensures var c, p := Rolled(l.states, s, WindowOf(now)), l.policies[s];
            c.rpm + 1 <= p.rpm && c.tpm + tokens <= p.tpm && c.concurrency + 1 <= p.concurrency
  {
    hide RollLevels, TakeLevels, FirstObjection;
    var w := WindowOf(now);
    RolledLevels(l.states, h, w);
    assert s == h.Level(s.Rank());
    RolledAt(l.states, h, w, 4, s);
    NoObjection(RollLevels(l.states, h, w, 4), l.policies, h, tokens, now, 0, s.Rank());
  }

  lemma AcquireKeeps(w: World, now: int, h: Hierarchy, tokens: nat, id: LeaseId)
    requires Inv(w) && id !in w.leases
    ensures Inv(Step(w, 0, AcquireEvent(now, h, tokens, id)))
  {
    hide Acquire, Total;
    if Consulted(w.limiter, tokens, h) {
      var (l, o) := Acquire(w.limiter, now, h, tokens);
      AcquireFrame(w.limiter, now, h, tokens);
      var w' := Step(w, 0, AcquireEvent(now, h, tokens, id));
      forall s
        ensures Concurrent(l.states, s) == Held(w'.leases, s)
        ensures s in l.states ==> s.Valid() && (s in l.policies || l.states[s].concurrency > 0)
        ensures s in l.states ==>
                  l.states[s].rpm <= MAXIMUM_VALUE && l.states[s].tpm <= MAXIMUM_VALUE
                  && l.states[s].concurrency <= MAXIMUM_VALUE
      {
        AcquiredAt(w.limiter, now, h, tokens, s);
        assert Concurrent(w.limiter.states, s) == Held(w.leases, s);
        if o.Admitted? {
          TotalInsert(w.leases, id, Lease(h, false), Holds(s));
          if h.Covers(s) {
            AdmittedFits(w.limiter, now, h, tokens, s);
          }
        }
        if h.Covers(s) {
          assert s == h.Level(s.Rank());
        }
      }
    } else {
      AcquireFrame(w.limiter, now, h, tokens);
    }
  }

  lemma AcquireFrame(l: Limiter, now: int, h: Hierarchy, tokens: nat)
    ensures var (l', o) := Acquire(l, now, h, tokens);
            && l'.policies == l.policies && l'.version == l.version
            && (!Consulted(l, tokens, h) ==> l' == l && !o.Admitted?)
  {
    hide RollLevels, TakeLevels, FirstObjection;
  }

  lemma {:induction false} DroppedAt(states: map<Scope, Counter>, policies: map<Scope, Policy>, h: Hierarchy, n: nat,
                                     s: Scope)
    requires n <= 4 && (h.Covers(s) && s.Rank() < n ==> Concurrent(states, s) > 0)
    ensures var dropped := DropLevels(states, policies, h, n);
            if h.Covers(s) && s.Rank() < n then
              && Concurrent(dropped, s) == states[s].concurrency - 1
              && (s in dropped <==> s in policies || states[s].concurrency > 1)
              && (s in dropped ==> dropped[s] == states[s].(concurrency := states[s].concurrency - 1))
            else (s in dropped <==> s in states) && (s in states ==> dropped[s] == states[s])
  {
    if n > 0 {
      DroppedAt(states, policies, h, n - 1, s);
    }
  }

  lemma ReleaseKeeps(w: World, id: LeaseId)
    requires Inv(w) && id in w.leases && !w.leases[id].released
    ensures Inv(Step(w, 0, ReleaseEvent(id)))
  {
    hide DropLevels, Total;
    var h := w.leases[id].owner;
    var w' := Step(w, 0, ReleaseEvent(id));
    forall s
      ensures Concurrent(w'.limiter.states, s) == Held(w'.leases, s)
      ensures s in w'.limiter.states ==>
                s in w.limiter.states && (s in w.limiter.policies || w'.limiter.states[s].concurrency > 0)
      ensures s in w'.limiter.states ==>
                w'.limiter.states[s].(concurrency := 0) == w.limiter.states[s].(concurrency := 0)
                && w'.limiter.states[s].concurrency <= w.limiter.states[s].concurrency
    {
      TotalUpdate(w.leases, id, Lease(h, true), Holds(s));
      TotalBound(w.leases, Holds(s));
      assert Holds(s)(id, w.leases[id]) <= Held(w.leases, s);
      DroppedAt(w.limiter.states, w.limiter.policies, h, 4, s);
    }
  }

  lemma {:induction false} MappedBindings(bindings: Bindings)
    requires forall i :: 0 <= i < |bindings| ==> bindings[i].0.Valid() && bindings[i].1.Valid()
    ensures forall s :: s in AsMap(bindings) ==> s.Valid() && AsMap(bindings)[s].Valid()
  {
    if bindings != [] {
      MappedBindings(bindings[..|bindings| - 1]);
    }
  }

  lemma {:induction false} MapListsBindings(bindings: Bindings)
    requires WellFormed(bindings)
    ensures forall i :: 0 <= i < |bindings| ==>
              bindings[i].0 in AsMap(bindings) && AsMap(bindings)[bindings[i].0] == bindings[i].1
    ensures forall s :: s in AsMap(bindings) ==> exists i :: 0 <= i < |bindings| && bindings[i].0 == s
  {
    if bindings != [] {
      MapListsBindings(bindings[..|bindings| - 1]);
    }
  }

  ghost predicate Publishes(policies: map<Scope, Policy>, bindings: Bindings) {
    && (forall i :: 0 <= i < |bindings| ==> bindings[i].0 in policies && policies[bindings[i].0] == bindings[i].1)
    && (forall s :: s in policies ==> exists i :: 0 <= i < |bindings| && bindings[i].0 == s)
  }

  /** A replacement is all or nothing: exactly a well-formed, bounded, strictly newer
      configuration is published as listed; counters survive exactly for scopes it
      lists or that are still leased, and keep their values. */
  lemma ReplaceIsExact(l: Limiter, maximum: nat, version: nat, bindings: Bindings)
    ensures var (l', r) := Replace(l, maximum, version, bindings);
            && (r == Replaced <==> version > l.version && 1 <= |bindings| <= maximum && WellFormed(bindings))
            && (r == StaleSnapshot <==>
                  1 <= version <= l.version && 1 <= |bindings| <= maximum && WellFormed(bindings))
            && (r != Replaced ==> l' == l)
            && (r == Replaced ==>
                  && l'.version == version > l.version && Publishes(l'.policies, bindings)
                  && (forall s :: s in l'.states <==>
                        s in l.states && (s in l'.policies || l.states[s].concurrency > 0))
                  && (forall s :: s in l'.states ==> l'.states[s] == l.states[s]))
  {
    hide AsMap, WellFormed;
    if WellFormed(bindings) {
      MapListsBindings(bindings);
    }
  }

  lemma ReplaceKeeps(w: World, maximum: nat, version: nat, bindings: Bindings)
    requires Inv(w)
    ensures Inv(Step(w, maximum, ReplaceEvent(version, bindings)))
  {
    hide AsMap, Total;
    if WellFormed(bindings) {
      MappedBindings(bindings);
    }
  }

  lemma StepKeeps(w: World, maximum: nat, e: Event)
    requires Inv(w)
    ensures Inv(Step(w, maximum, e))
  {
    hide Total;
    match e
    case ReplaceEvent(version, bindings) => ReplaceKeeps(w, maximum, version, bindings);
    case AcquireEvent(now, h, tokens, id) =>
      if id !in w.leases {
        AcquireKeeps(w, now, h, tokens, id);
      }
    case ReleaseEvent(id) =>
      if id in w.leases && !w.leases[id].released {
        ReleaseKeeps(w, id);
      }
    case SnapshotEvent(now, s) =>
  }

  /** Over every history from a fresh limiter: slots in use are unreleased leases,
      counters belong to configured or leased scopes, and none can overflow. */
  lemma {:induction false} EveryHistoryIsSafe(w: World, maximum: nat, events: seq<Event>)
    requires Inv(w)
    ensures Inv(Run(w, maximum, events))
    decreases |events|
  {
    if events != [] {
      StepKeeps(w, maximum, events[0]);
      EveryHistoryIsSafe(Step(w, maximum, events[0]), maximum, events[1..]);
    }
  }

  lemma FreshIsSafe()
    ensures Inv(FRESH)
  {
    forall s ensures Held(FRESH.leases, s) == 0 {
      TotalEmpty(FRESH.leases, Holds(s));
    }
  }

  // ---- a parent is the sum of its children -----------------------------------

  predicate IsChild(c: Scope, p: Scope) {
    c.Valid() && c.kind != PlatformKind && c.Parent() == p
  }

  ghost function ChildSlots(p: Scope): (Scope, Counter) -> int {
    (c: Scope, counter: Counter) => if IsChild(c, p) then counter.concurrency else 0
  }

  ghost function ChildHeld(leases: map<LeaseId, Lease>, p: Scope): Scope -> int {
    (c: Scope) => if IsChild(c, p) then Held(leases, c) else 0
  }

  ghost function ChildOf(id: LeaseId, l: Lease, p: Scope): Scope -> int {
    (c: Scope) => if IsChild(c, p) then Holds(c)(id, l) else 0
  }

  lemma ChildIsBelow(h: Hierarchy, c: Scope, p: Scope)
    requires p.Valid() && p.kind != KeyKind
    ensures IsChild(c, p) && h.Covers(c) <==> h.Covers(p) && c == h.Level(p.Rank() + 1)
  {
    var i := p.Rank();
    assert i == 0 || i == 1 || i == 2;
    assert h.Covers(h.Level(i)) && h.Covers(h.Level(i + 1)) && h.Level(i + 1).Parent() == h.Level(i);
    if IsChild(c, p) && h.Covers(c) {
      assert c.Rank() == i + 1;
    }
  }

  /** One lease counts once among the children of any scope it holds. */
  lemma OneChild(children: set<Scope>, id: LeaseId, l: Lease, p: Scope)
    requires p.Valid() && p.kind != KeyKind
    requires !l.released && l.owner.Covers(p) ==> l.owner.Level(p.Rank() + 1) in children
    ensures SumSet(children, ChildOf(id, l, p)) == Holds(p)(id, l)
  {
    hide Hierarchy.Covers, Hierarchy.Level, SumSet, Scope.Parent;
    forall x
      ensures ChildOf(id, l, p)(x) == if !l.released && l.owner.Covers(p) && x == l.owner.Level(p.Rank() + 1) then 1
      else 0
    {
      ChildIsBelow(l.owner, x, p);
      assert Holds(x)(id, l) == if !l.released && l.owner.Covers(x) then 1 else 0;
    }
    if !l.released && l.owner.Covers(p) {
      var c := l.owner.Level(p.Rank() + 1);
      SumSetRemove(children, c, ChildOf(id, l, p));
      SumSetZero(children - {c}, ChildOf(id, l, p));
    } else {
      SumSetZero(children, ChildOf(id, l, p));
    }
  }

  lemma {:induction false} ChildrenSum(children: set<Scope>, leases: map<LeaseId, Lease>, p: Scope)
    requires p.Valid() && p.kind != KeyKind
    requires forall id :: id in leases && !leases[id].released && leases[id].owner.Covers(p) ==>
               leases[id].owner.Level(p.Rank() + 1) in children
    ensures SumSet(children, ChildHeld(leases, p)) == Held(leases, p)
    decreases |leases|
  {
    hide Total, SumSet, Hierarchy.Covers, Hierarchy.Level, Scope.Parent, Scope.Valid;
    if leases == map[] {
      forall s ensures Held(leases, s) == 0 {
        TotalEmpty(leases, Holds(s));
      }
      SumSetZero(children, ChildHeld(leases, p));
    } else {
      var id :| id in leases;
      var rest := leases - {id};
      forall s ensures Held(leases, s) == Held(rest, s) + Holds(s)(id, leases[id]) {
        TotalRemove(leases, id, Holds(s));
      }
      ChildrenSum(children, rest, p);
      SumSetAdd(children, ChildHeld(leases, p), ChildHeld(rest, p), ChildOf(id, leases[id], p));
      OneChild(children, id, leases[id], p);
    }
  }

  /** The platform's slots are the sum of the tenants', a tenant's the sum of its
      projects', and a project's the sum of its keys'. */
  lemma ParentIsSumOfChildren(w: World, p: Scope)
    requires Inv(w) && p.Valid() && p.kind != KeyKind
    ensures Concurrent(w.limiter.states, p) == Total(w.limiter.states, ChildSlots(p))
  {
    hide SumSet;
    var states := w.limiter.states;
    forall id | id in w.leases && !w.leases[id].released && w.leases[id].owner.Covers(p)
      ensures w.leases[id].owner.Level(p.Rank() + 1) in states.Keys
    {
      var c := w.leases[id].owner.Level(p.Rank() + 1);
      TotalBound(w.leases, Holds(c));
      assert Holds(c)(id, w.leases[id]) == 1;
      assert Concurrent(states, c) == Held(w.leases, c);
    }
    ChildrenSum(states.Keys, w.leases, p);
    forall c | c in states.Keys ensures At(states, ChildSlots(p))(c) == ChildHeld(w.leases, p)(c) {
      assert Concurrent(states, c) == Held(w.leases, c);
    }
    SumSetAgree(states.Keys, At(states, ChildSlots(p)), ChildHeld(w.leases, p));
  }

  // ---- what an acquire says and shows ----------------------------------------

  predicate FitsAt(l: Limiter, now: int, h: Hierarchy, tokens: nat, i: nat)
    requires i < 4 && Covered(l.policies, h)
  {
    var c, p := Rolled(l.states, h.Level(i), WindowOf(now)), l.policies[h.Level(i)];
    c.rpm + 1 <= p.rpm && c.tpm + tokens <= p.tpm && c.concurrency + 1 <= p.concurrency
  }

  ghost predicate ObjectsAt(l: Limiter, now: int, h: Hierarchy, tokens: nat, o: Outcome)
    requires o.Rejected? && o.level < 4 && Covered(l.policies, h)
  {
    var c, p := Rolled(l.states, h.Level(o.level), WindowOf(now)), l.policies[h.Level(o.level)];
    && o.usage + o.requested > o.hard
    && match o.resource
       case Rpm => o.usage == c.rpm && o.requested == 1 && o.hard == p.rpm && o.resetAt == (c.window + 1) * 60_000
       case Tpm => o.usage == c.tpm && o.requested == tokens && o.hard == p.tpm && c.rpm + 1 <= p.rpm
       && o.resetAt == (c.window + 1) * 60_000
       case Concurrency => o.usage == c.concurrency && o.requested == 1 && o.hard == p.concurrency
                           && c.rpm + 1 <= p.rpm && c.tpm + tokens <= p.tpm
  }

  lemma LevelIsCovered(h: Hierarchy, i: nat)
    requires i < 4
    ensures h.Covers(h.Level(i))
  {
  }

  lemma {:induction false} ObjectionFrom(l: Limiter, now: int, h: Hierarchy, tokens: nat, i: nat)
    requires i <= 4 && Covered(l.policies, h)
    requires forall k :: 0 <= k < 4 ==> h.Level(k) in RollLevels(l.states, h, WindowOf(now), 4)
    ensures var o := FirstObjection(RollLevels(l.states, h, WindowOf(now), 4), l.policies, h, tokens, now, i);
            && (o.Admitted? || (o.Rejected? && i <= o.level < 4))
            && (o.Admitted? ==> forall j :: i <= j < 4 ==> FitsAt(l, now, h, tokens, j))
            && (o.Rejected? ==> !FitsAt(l, now, h, tokens, o.level) && ObjectsAt(l, now, h, tokens, o)
                                && forall j :: i <= j < o.level ==> FitsAt(l, now, h, tokens, j))
    decreases 4 - i
  {
    hide RollLevels, Rolled, Hierarchy.Level, Hierarchy.Covers;
    if i < 4 {
      RolledAt(l.states, h, WindowOf(now), 4, h.Level(i));
      LevelIsCovered(h, i);
      ObjectionFrom(l, now, h, tokens, i + 1);
    }
  }

  /** Admission is exactly room at all four levels in the current minute; a
      rejection names the first level without room and the resource it lacks. */
  lemma AcquireIsExact(l: Limiter, now: int, h: Hierarchy, tokens: nat)
    ensures var o := Acquire(l, now, h, tokens).1;
            && (o.Admitted? <==> Consulted(l, tokens, h) && forall i :: 0 <= i < 4 ==> FitsAt(l, now, h, tokens, i))
            && (o.Rejected? ==> Consulted(l, tokens, h) && o.level < 4 && !FitsAt(l, now, h, tokens, o.level)
                                && ObjectsAt(l, now, h, tokens, o)
                                && forall j :: 0 <= j < o.level ==> FitsAt(l, now, h, tokens, j))
            && (o.InvalidRequest? <==> tokens == 0 || tokens > MAXIMUM_VALUE)
            && (o.PolicyUnavailable? <==> 1 <= tokens <= MAXIMUM_VALUE && !Consulted(l, tokens, h))
  {
    hide RollLevels, FirstObjection, FitsAt, TakeLevels;
    if Consulted(l, tokens, h) {
      RolledLevels(l.states, h, WindowOf(now));
      ObjectionFrom(l, now, h, tokens, 0);
    }
  }

  // ---- a refusal leaves no trace ----------------------------------------------

  /** Nothing that a caller can see from time t on tells the two apart. */
  ghost predicate Alike(l: Limiter, m: Limiter, t: int) {
    && l.version == m.version && l.policies == m.policies
    && forall s, w :: w >= WindowOf(t) ==> Rolled(l.states, s, w) == Rolled(m.states, s, w)
  }

  lemma AlikeLater(l: Limiter, m: Limiter, t: int, now: int)
    requires Alike(l, m, t) && t <= now
    ensures Alike(l, m, now)
  {
  }

  lemma {:induction false} SameObjection(x: map<Scope, Counter>, y: map<Scope, Counter>, policies: map<Scope, Policy>,
                                         h: Hierarchy, tokens: nat, now: int, i: nat)
    requires i <= 4 && Covered(policies, h)
    requires forall j :: 0 <= j < 4 ==> h.Level(j) in x && h.Level(j) in y && x[h.Level(j)] == y[h.Level(j)]
    ensures FirstObjection(x, policies, h, tokens, now, i) == FirstObjection(y, policies, h, tokens, now, i)
    decreases 4 - i
  {
    hide Hierarchy.Level;
    if i < 4 {
      SameObjection(x, y, policies, h, tokens, now, i + 1);
    }
  }

  lemma AlikeOutcome(l: Limiter, m: Limiter, t: int, now: int, h: Hierarchy, tokens: nat)
    requires Alike(l, m, t) && t <= now
    ensures Acquire(l, now, h, tokens).1 == Acquire(m, now, h, tokens).1
  {
    hide RollLevels, TakeLevels, FirstObjection, Hierarchy.Level;
    if Consulted(l, tokens, h) {
      var w := WindowOf(now);
      var x, y := RollLevels(l.states, h, w, 4), RollLevels(m.states, h, w, 4);
      forall j | 0 <= j < 4 ensures h.Level(j) in x && h.Level(j) in y && x[h.Level(j)] == y[h.Level(j)] {
        LevelIsCovered(h, j);
        RolledAt(l.states, h, w, 4, h.Level(j));
        RolledAt(m.states, h, w, 4, h.Level(j));
      }
      SameObjection(x, y, l.policies, h, tokens, now, 0);
    }
  }

  lemma AlikeAcquire(l: Limiter, m: Limiter, t: int, now: int, h: Hierarchy, tokens: nat)
    requires Alike(l, m, t) && t <= now
    ensures Alike(Acquire(l, now, h, tokens).0, Acquire(m, now, h, tokens).0, now)
  {
    hide Acquire;
    AcquireFrame(l, now, h, tokens);
    AcquireFrame(m, now, h, tokens);
    AlikeOutcome(l, m, t, now, h, tokens);
    var l', m' := Acquire(l, now, h, tokens).0, Acquire(m, now, h, tokens).0;
    forall s, w | w >= WindowOf(now) ensures Rolled(l'.states, s, w) == Rolled(m'.states, s, w) {
      assert Rolled(l.states, s, w) == Rolled(m.states, s, w);
      if Consulted(l, tokens, h) {
        AcquiredAt(l, now, h, tokens, s);
        AcquiredAt(m, now, h, tokens, s);
        assert Rolled(l.states, s, WindowOf(now)) == Rolled(m.states, s, WindowOf(now));
      }
    }
  }

  lemma AlikeRefusal(l: Limiter, now: int, h: Hierarchy, tokens: nat)
    requires !Acquire(l, now, h, tokens).1.Admitted?
    ensures Alike(Acquire(l, now, h, tokens).0, l, now)
  {
    hide Acquire;
    AcquireFrame(l, now, h, tokens);
    if Consulted(l, tokens, h) {
      forall s, w | w >= WindowOf(now) ensures Rolled(Acquire(l, now, h, tokens).0.states, s, w)
      == Rolled(l.states, s, w) {
        AcquiredAt(l, now, h, tokens, s);
      }
    }
  }

  lemma AlikeSlots(l: Limiter, m: Limiter, t: int, s: Scope)
    requires Alike(l, m, t)
    ensures Concurrent(l.states, s) == Concurrent(m.states, s)
  {
    assert Rolled(l.states, s, WindowOf(t)) == Rolled(m.states, s, WindowOf(t));
  }

  lemma AlikeRelease(l: Limiter, m: Limiter, t: int, h: Hierarchy)
    requires Alike(l, m, t) && forall s :: h.Covers(s) ==> Concurrent(l.states, s) > 0
    ensures Alike(Release(l, h), Release(m, h), t)
  {
    hide DropLevels;
    var l', m' := Release(l, h), Release(m, h);
    forall s, w | w >= WindowOf(t) ensures Rolled(l'.states, s, w) == Rolled(m'.states, s, w) {
      AlikeSlots(l, m, t, s);
      DroppedAt(l.states, l.policies, h, 4, s);
      DroppedAt(m.states, m.policies, h, 4, s);
      assert Rolled(l.states, s, w) == Rolled(m.states, s, w);
    }
  }

  lemma AlikeReplace(l: Limiter, m: Limiter, t: int, maximum: nat, version: nat, bindings: Bindings)
    requires Alike(l, m, t)
    ensures Alike(Replace(l, maximum, version, bindings).0, Replace(m, maximum, version, bindings).0, t)
    ensures Replace(l, maximum, version, bindings).1 == Replace(m, maximum, version, bindings).1
  {
    hide AsMap, WellFormed;
    var l', m' := Replace(l, maximum, version, bindings).0, Replace(m, maximum, version, bindings).0;
    forall s, w | w >= WindowOf(t) ensures Rolled(l'.states, s, w) == Rolled(m'.states, s, w) {
      AlikeSlots(l, m, t, s);
      assert Rolled(l.states, s, w) == Rolled(m.states, s, w);
    }
  }

  lemma AlikeSnapshot(l: Limiter, m: Limiter, t: int, now: int, s: Scope)
    requires Alike(l, m, t) && t <= now
    ensures Alike(Snapshot(l, now, s).0, Snapshot(m, now, s).0, now)
    ensures Snapshot(l, now, s).1 == Snapshot(m, now, s).1
  {
    assert Rolled(l.states, s, WindowOf(now)) == Rolled(m.states, s, WindowOf(now));
    var l', m' := Snapshot(l, now, s).0, Snapshot(m, now, s).0;
    forall q, w | w >= WindowOf(now) ensures Rolled(l'.states, q, w) == Rolled(m'.states, q, w) {
      assert Rolled(l.states, q, w) == Rolled(m.states, q, w);
    }
  }

  ghost predicate AlikeWorlds(w: World, v: World, t: int) {
    Alike(w.limiter, v.limiter, t) && w.leases == v.leases && w.log == v.log
  }

  lemma AlikeStep(w: World, v: World, maximum: nat, t: int, e: Event)
    requires Inv(w) && AlikeWorlds(w, v, t) && t <= Clock(t, e)
    ensures AlikeWorlds(Step(w, maximum, e), Step(v, maximum, e), Clock(t, e))
  {
    hide Acquire, Release, Replace, Snapshot, Alike, Total;
    AlikeLater(w.limiter, v.limiter, t, Clock(t, e));
    match e
    case ReplaceEvent(version, bindings) => AlikeReplace(w.limiter, v.limiter, t, maximum, version, bindings);
    case AcquireEvent(now, h, tokens, id) =>
      AlikeOutcome(w.limiter, v.limiter, t, now, h, tokens);
      AlikeAcquire(w.limiter, v.limiter, t, now, h, tokens);
    case ReleaseEvent(id) =>
      if id in w.leases && !w.leases[id].released {
        LeaseIsHeld(w, id);
        AlikeRelease(w.limiter, v.limiter, t, w.leases[id].owner);
      }
    case SnapshotEvent(now, s) => AlikeSnapshot(w.limiter, v.limiter, t, now, s);
  }

  lemma LeaseIsHeld(w: World, id: LeaseId)
    requires Inv(w) && id in w.leases && !w.leases[id].released
    ensures forall s :: w.leases[id].owner.Covers(s) ==> Concurrent(w.limiter.states, s) > 0
  {
    hide Total;
    forall s | w.leases[id].owner.Covers(s) ensures Concurrent(w.limiter.states, s) > 0 {
      TotalBound(w.leases, Holds(s));
      assert Holds(s)(id, w.leases[id]) <= Held(w.leases, s);
      assert Concurrent(w.limiter.states, s) == Held(w.leases, s);
    }
  }

  /** The clock after an event. */
  function Clock(t: int, e: Event): int {
    match e
    case AcquireEvent(now, _, _, _) => now
    case SnapshotEvent(now, _) => now
    case _ => t
  }

  function EndClock(t: int, events: seq<Event>): int
    decreases |events|
  {
    if events == [] then t else EndClock(Clock(t, events[0]), events[1..])
  }

  /** The clock never goes back. */
  ghost predicate Forward(t: int, events: seq<Event>)
    decreases |events|
  {
    events == [] || (t <= Clock(t, events[0]) && Forward(Clock(t, events[0]), events[1..]))
  }

  lemma {:induction false} AlikeRun(w: World, v: World, maximum: nat, t: int, events: seq<Event>)
    requires Inv(w) && AlikeWorlds(w, v, t) && Forward(t, events)
    ensures AlikeWorlds(Run(w, maximum, events), Run(v, maximum, events), EndClock(t, events))
    decreases |events|
  {
    hide Inv, AlikeWorlds, Step;
    if events != [] {
      StepKeeps(w, maximum, events[0]);
      AlikeStep(w, v, maximum, t, events[0]);
      AlikeRun(Step(w, maximum, events[0]), Step(v, maximum, events[0]), maximum, Clock(t, events[0]), events[1..]);
    }
  }

  /** An acquire that is not admitted might as well not have been made: after any later
      history, the same was admitted, and any acquire and any snapshot from then on gets
      the same answer. */
  lemma RefusalIsInvisible(w: World, maximum: nat, now: int, h: Hierarchy, tokens: nat, events: seq<Event>, later: int)
    requires Inv(w) && !Acquire(w.limiter, now, h, tokens).1.Admitted? && Forward(now, events)
             && EndClock(now, events) <= later
    ensures var with := Run(w.(limiter := Acquire(w.limiter, now, h, tokens).0), maximum, events);
            var without := Run(w, maximum, events);
            && with.leases == without.leases && with.log == without.log
            && (forall s :: Snapshot(with.limiter, later, s).1 == Snapshot(without.limiter, later, s).1)
            && (forall g, n :: Acquire(with.limiter, later, g, n).1 == Acquire(without.limiter, later, g, n).1)
  {
    hide Inv, Run, Acquire, Snapshot, Alike;
    var refused := w.(limiter := Acquire(w.limiter, now, h, tokens).0);
    AlikeRefusal(w.limiter, now, h, tokens);
    AlikeIsMutual(refused.limiter, w.limiter, now);
    AlikeRun(w, refused, maximum, now, events);
    var with, without := Run(refused, maximum, events), Run(w, maximum, events);
    forall s ensures Snapshot(with.limiter, later, s).1 == Snapshot(without.limiter, later, s).1 {
      AlikeSnapshot(without.limiter, with.limiter, EndClock(now, events), later, s);
    }
    forall g, n ensures Acquire(with.limiter, later, g, n).1 == Acquire(without.limiter, later, g, n).1 {
      AlikeOutcome(without.limiter, with.limiter, EndClock(now, events), later, g, n);
    }
  }

  lemma AlikeIsMutual(l: Limiter, m: Limiter, t: int)
    requires Alike(l, m, t)
    ensures Alike(m, l, t)
  {
  }

  // ---- rates are the admissions of the minute ---------------------------------

  ghost function RequestIn(s: Scope, minute: int): Entry -> int {
    (e: Entry) => if e.owner.Covers(s) && e.at / 60_000 == minute then 1 else 0
  }

  ghost function TokensIn(s: Scope, minute: int): Entry -> int {
    (e: Entry) => if e.owner.Covers(s) && e.at / 60_000 == minute then e.tokens else 0
  }

  /** Admissions of a scope lie at or before a minute. */
  ghost predicate NoneAfter(log: seq<Entry>, s: Scope, window: int) {
    forall i :: 0 <= i < |log| && log[i].owner.Covers(s) ==> log[i].at / 60_000 <= window
  }

  ghost predicate NoneAtAll(log: seq<Entry>, s: Scope) {
    forall i :: 0 <= i < |log| ==> !log[i].owner.Covers(s)
  }

  ghost predicate Tallies(c: Counter, log: seq<Entry>, s: Scope) {
    c.rpm == SumBy(log, RequestIn(s, c.window)) && c.tpm == SumBy(log, TokensIn(s, c.window))
  }

  /** Since admission number `mark`: a counter is the tally of its minute, and without a
      counter there is nothing to tally. */
  ghost predicate RateInv(w: World, t: int, s: Scope, mark: nat) {
    && mark <= |w.log|
    && var log := w.log[mark..];
       if s in w.limiter.states then
         && w.limiter.states[s].window <= WindowOf(t)
         && NoneAfter(log, s, w.limiter.states[s].window) && Tallies(w.limiter.states[s], log, s)
       else NoneAtAll(log, s)
  }

  lemma NothingYet(log: seq<Entry>, s: Scope, before: int, window: int)
    requires NoneAtAll(log, s) || (NoneAfter(log, s, before) && before < window)
    ensures SumBy(log, RequestIn(s, window)) == 0 == SumBy(log, TokensIn(s, window))
  {
    SumSeqZero(log, RequestIn(s, window));
    SumSeqZero(log, TokensIn(s, window));
  }

  /** Rolling a counter keeps it a tally, now of the minute it shows. */
  lemma RollTallies(w: World, t: int, now: int, s: Scope, mark: nat)
    requires RateInv(w, t, s, mark) && t <= now
    ensures var c := Rolled(w.limiter.states, s, WindowOf(now));
            c.window == WindowOf(now) && Tallies(c, w.log[mark..], s) && NoneAfter(w.log[mark..], s, c.window)
  {
    var states, log := w.limiter.states, w.log[mark..];
    if s !in states {
      NothingYet(log, s, 0, WindowOf(now));
    } else if WindowOf(now) > states[s].window {
      NothingYet(log, s, states[s].window, WindowOf(now));
    }
  }

  lemma LogTallies(log: seq<Entry>, c: Counter, e: Entry, s: Scope)
    requires Tallies(c, log, s) && NoneAfter(log, s, c.window) && e.at / 60_000 == c.window
    ensures Tallies(if e.owner.Covers(s) then Counter(c.window, c.rpm + 1, c.tpm + e.tokens, c.concurrency + 1)
                    else c, log + [e], s)
    ensures NoneAfter(log + [e], s, c.window)
  {
    SumAppend(log, e, RequestIn(s, c.window));
    SumAppend(log, e, TokensIn(s, c.window));
  }

  lemma OtherTallies(log: seq<Entry>, c: Counter, e: Entry, s: Scope)
    requires !e.owner.Covers(s)
    ensures Tallies(c, log, s) ==> Tallies(c, log + [e], s)
    ensures NoneAfter(log, s, c.window) ==> NoneAfter(log + [e], s, c.window)
    ensures NoneAtAll(log, s) ==> NoneAtAll(log + [e], s)
  {
    SumAppend(log, e, RequestIn(s, c.window));
    SumAppend(log, e, TokensIn(s, c.window));
  }

  lemma AcquireKeepsRates(w: World, t: int, now: int, h: Hierarchy, tokens: nat, id: LeaseId, s: Scope, mark: nat)
    requires RateInv(w, t, s, mark) && t <= now && id !in w.leases
    ensures RateInv(Step(w, 0, AcquireEvent(now, h, tokens, id)), now, s, mark)
  {
    hide Acquire, Tallies, NoneAfter, NoneAtAll;
    AcquireFrame(w.limiter, now, h, tokens);
    if Consulted(w.limiter, tokens, h) {
      var log := w.log[mark..];
      AcquiredAt(w.limiter, now, h, tokens, s);
      RollTallies(w, t, now, s, mark);
      var c := Rolled(w.limiter.states, s, WindowOf(now));
      var e := Entry(now, h, tokens);
      assert (w.log + [e])[mark..] == log + [e];
      LogTallies(log, c, e, s);
      if !h.Covers(s) {
        OtherTallies(log, if s in w.limiter.states then w.limiter.states[s] else c, e, s);
      } else {
        assert s == h.Level(s.Rank());
      }
    }
  }

  lemma ReleaseKeepsRates(w: World, t: int, id: LeaseId, s: Scope, mark: nat)
    requires Inv(w) && RateInv(w, t, s, mark) && id in w.leases && !w.leases[id].released
    requires !Abandoned(Step(w, 0, ReleaseEvent(id)), s)
    ensures RateInv(Step(w, 0, ReleaseEvent(id)), t, s, mark)
  {
    hide DropLevels, Total, NoneAfter, NoneAtAll, Tallies;
    var h := w.leases[id].owner;
    TotalBound(w.leases, Holds(s));
    TotalUpdate(w.leases, id, Lease(h, true), Holds(s));
    assert Holds(s)(id, w.leases[id]) <= Held(w.leases, s);
    assert Concurrent(w.limiter.states, s) == Held(w.leases, s);
    DroppedAt(w.limiter.states, w.limiter.policies, h, 4, s);
    if s in w.limiter.states {
      SameTally(w.limiter.states[s], Step(w, 0, ReleaseEvent(id)).limiter.states[s], w.log[mark..], s);
    }
  }

  lemma SameTally(c: Counter, c': Counter, log: seq<Entry>, s: Scope)
    requires c'.(concurrency := c.concurrency) == c
    ensures Tallies(c, log, s) <==> Tallies(c', log, s)
  {
  }

  lemma SnapshotKeepsRates(w: World, t: int, now: int, q: Scope, s: Scope, mark: nat)
    requires RateInv(w, t, s, mark) && t <= now
    ensures RateInv(Step(w, 0, SnapshotEvent(now, q)), now, s, mark)
  {
    hide Tallies, NoneAfter, NoneAtAll;
    RollTallies(w, t, now, s, mark);
  }

  /** Nobody may use the scope and nobody does: it is in no published policy, and no
      unreleased lease covers it. */
  ghost predicate Abandoned(w: World, s: Scope) {
    s !in w.limiter.policies && Held(w.leases, s) == 0
  }

  ghost function MarkAfter(w: World, s: Scope, mark: nat): nat {
    if Abandoned(w, s) then |w.log| else mark
  }

  /** How many admissions there were when the scope was last abandoned. */
  ghost function LastAbandoned(w: World, maximum: nat, events: seq<Event>, s: Scope, mark: nat): nat
    decreases |events|
  {
    if events == [] then mark
    else
      var next := Step(w, maximum, events[0]);
      LastAbandoned(next, maximum, events[1..], s, MarkAfter(next, s, mark))
  }

  lemma AbandonedIsForgotten(w: World, t: int, s: Scope)
    requires Inv(w) && Abandoned(w, s)
    ensures s !in w.limiter.states && RateInv(w, t, s, |w.log|)
  {
    hide Total;
    assert Concurrent(w.limiter.states, s) == Held(w.leases, s);
  }

  lemma ReplaceKeepsRates(w: World, maximum: nat, t: int, version: nat, bindings: Bindings, s: Scope, mark: nat)
    requires Inv(w) && RateInv(w, t, s, mark)
    requires !Abandoned(Step(w, maximum, ReplaceEvent(version, bindings)), s)
    ensures RateInv(Step(w, maximum, ReplaceEvent(version, bindings)), t, s, mark)
  {
    hide Total, Tallies, NoneAfter, NoneAtAll, AsMap, WellFormed;
    assert Concurrent(w.limiter.states, s) == Held(w.leases, s);
  }

  lemma StepKeepsRates(w: World, maximum: nat, t: int, e: Event, s: Scope, mark: nat)
    requires Inv(w) && RateInv(w, t, s, mark) && t <= Clock(t, e)
    ensures var next := Step(w, maximum, e);
            RateInv(next, Clock(t, e), s, MarkAfter(next, s, mark))
  {
    hide Inv, Tallies, NoneAfter, NoneAtAll, Acquire, Release, Snapshot, Replace, Abandoned, RateInv;
    var next := Step(w, maximum, e);
    if Abandoned(next, s) {
      StepKeeps(w, maximum, e);
      AbandonedIsForgotten(next, Clock(t, e), s);
    } else {
      match e
      case ReplaceEvent(version, bindings) => ReplaceKeepsRates(w, maximum, t, version, bindings, s, mark);
      case AcquireEvent(now, h, tokens, id) =>
        if id !in w.leases {
          AcquireKeepsRates(w, t, now, h, tokens, id, s, mark);
        } else {
          LaterRates(w, t, now, s, mark);
        }
      case ReleaseEvent(id) =>
        if id in w.leases && !w.leases[id].released {
          ReleaseKeepsRates(w, t, id, s, mark);
        }
      case SnapshotEvent(now, q) => SnapshotKeepsRates(w, t, now, q, s, mark);
    }
  }

  lemma LaterRates(w: World, t: int, now: int, s: Scope, mark: nat)
    requires RateInv(w, t, s, mark) && t <= now
    ensures RateInv(w, now, s, mark)
  {
  }

  lemma FreshTallies(t: int, s: Scope)
    ensures RateInv(FRESH, t, s, 0)
  {
  }

  /** With a clock that never goes back: at any later instant a scope has the rates of the
      admissions it took part in during the minute then current, less exactly those made
      before it was last abandoned, and the slots of its unreleased leases. */
  lemma {:induction false} SnapshotCountsTheMinute(w: World, maximum: nat, t: int, events: seq<Event>, s: Scope,
                                                   now: int, mark: nat)
    requires Inv(w) && RateInv(w, t, s, mark) && Forward(t, events) && EndClock(t, events) <= now
    ensures var end, from := Run(w, maximum, events), LastAbandoned(w, maximum, events, s, mark);
            && Inv(end) && RateInv(end, EndClock(t, events), s, from) && from <= |end.log|
            && IsShown(Snapshot(end.limiter, now, s).1, end, s, now, from)
    decreases |events|
  {
    hide Inv, Step, Clock, Snapshot, RateInv, MarkAfter, IsShown;
    if events == [] {
      Shown(w, t, s, now, mark);
    } else {
      var e := events[0];
      StepKeeps(w, maximum, e);
      StepKeepsRates(w, maximum, t, e, s, mark);
      var next := Step(w, maximum, e);
      SnapshotCountsTheMinute(next, maximum, Clock(t, e), events[1..], s, now, MarkAfter(next, s, mark));
    }
  }

  /** What a snapshot at this instant has to show of a scope. */
  ghost predicate IsShown(shown: Option<Usage>, w: World, s: Scope, now: int, from: nat)
    requires from <= |w.log|
  {
    var requests, tokens := RequestIn(s, now / 60_000), TokensIn(s, now / 60_000);
    && (shown.Some? <==> s.Valid() && s in w.limiter.policies)
    && (shown.Some? ==>
          && shown.value.rpm == SumBy(w.log, requests) - SumBy(w.log[..from], requests)
          && shown.value.tpm == SumBy(w.log, tokens) - SumBy(w.log[..from], tokens)
          && shown.value.concurrency == Held(w.leases, s)
          && shown.value.window * 60_000 <= now < (shown.value.window + 1) * 60_000
          && shown.value.policy == w.limiter.policies[s] && shown.value.version == w.limiter.version)
  }

  lemma Shown(w: World, t: int, s: Scope, now: int, mark: nat)
    requires Inv(w) && RateInv(w, t, s, mark) && t <= now
    ensures mark <= |w.log| && IsShown(Snapshot(w.limiter, now, s).1, w, s, now, mark)
  {
    hide Total;
    RollTallies(w, t, now, s, mark);
    assert Concurrent(w.limiter.states, s) == Held(w.leases, s);
    assert w.log == w.log[..mark] + w.log[mark..];
    SumConcat(w.log[..mark], w.log[mark..], RequestIn(s, now / 60_000));
    SumConcat(w.log[..mark], w.log[mark..], TokensIn(s, now / 60_000));
  }

  // ---- what is admitted after any history --------------------------------------------

  /** The scope is configured, and one more request of so many tokens fits its limits: with
      the admissions of the minute since it was last abandoned, and its unreleased leases. */
  ghost predicate HasRoom(w: World, s: Scope, from: nat, now: int, tokens: nat) {
    && s in w.limiter.policies && from <= |w.log|
    && var policy, recent := w.limiter.policies[s], w.log[from..];
    && SumBy(recent, RequestIn(s, now / 60_000)) + 1 <= policy.rpm
    && SumBy(recent, TokensIn(s, now / 60_000)) + tokens <= policy.tpm
    && Held(w.leases, s) + 1 <= policy.concurrency
  }

  lemma RoomIs(w: World, t: int, s: Scope, now: int, mark: nat, tokens: nat)
    requires Inv(w) && RateInv(w, t, s, mark) && t <= now && s in w.limiter.policies
    ensures var c, p := Rolled(w.limiter.states, s, WindowOf(now)), w.limiter.policies[s];
            HasRoom(w, s, mark, now, tokens) <==>
              c.rpm + 1 <= p.rpm && c.tpm + tokens <= p.tpm && c.concurrency + 1 <= p.concurrency
  {
    hide Total;
    RollTallies(w, t, now, s, mark);
    assert Concurrent(w.limiter.states, s) == Held(w.leases, s);
  }

  ghost function Since(maximum: nat, events: seq<Event>, s: Scope): nat {
    LastAbandoned(FRESH, maximum, events, s, 0)
  }

  /** After any history of a new limiter, with a clock that never goes back: a request is
      admitted exactly if a configuration was published, its tokens are in range, and all
      four of its scopes have room. */
  lemma AdmittedIff(maximum: nat, t: int, events: seq<Event>, now: int, h: Hierarchy, tokens: nat)
    requires Forward(t, events) && EndClock(t, events) <= now
    ensures var end := Run(FRESH, maximum, events);
            Acquire(end.limiter, now, h, tokens).1.Admitted? <==>
              && 1 <= tokens <= 0x20_0000_0000_0000 - 1 && end.limiter.version > 0
              && forall i :: 0 <= i < 4 ==> HasRoom(end, h.Level(i), Since(maximum, events, h.Level(i)), now, tokens)
  {
    hide Run, Inv, RateInv, HasRoom, Acquire, LastAbandoned, IsShown, Rolled, Hierarchy.Level;
    var end := Run(FRESH, maximum, events);
    AcquireIsExact(end.limiter, now, h, tokens);
    FreshIsSafe();
    forall i | 0 <= i < 4
      ensures var from := Since(maximum, events, h.Level(i));
              && (h.Level(i) !in end.limiter.policies ==> !HasRoom(end, h.Level(i), from, now, tokens))
              && (Covered(end.limiter.policies, h) ==>
                    (HasRoom(end, h.Level(i), from, now, tokens) <==> FitsAt(end.limiter, now, h, tokens, i)))
    {
      var s := h.Level(i);
      FreshTallies(t, s);
      SnapshotCountsTheMinute(FRESH, maximum, t, events, s, now, 0);
      if s in end.limiter.policies {
        RoomIs(end, EndClock(t, events), s, now, Since(maximum, events, s), tokens);
      } else {
        NoRoom(end, s, Since(maximum, events, s), now, tokens);
      }
    }
  }

  lemma NoRoom(w: World, s: Scope, from: nat, now: int, tokens: nat)
    requires s !in w.limiter.policies
    ensures !HasRoom(w, s, from, now, tokens)
  {
  }

  /** A rate that is exhausted comes back at the end of the minute, and the rejection says
      so. */
  lemma RejectionEndsWithTheMinute(maximum: nat, t: int, events: seq<Event>, now: int, h: Hierarchy, tokens: nat)
    requires Forward(t, events) && EndClock(t, events) <= now
    ensures var o := Acquire(Run(FRESH, maximum, events).limiter, now, h, tokens).1;
            o.Rejected? && !o.resource.Concurrency? ==>
              now < o.resetAt <= now + 60_000 && o.resetAt % 60_000 == 0 && o.retryAfter == o.resetAt - now
  {
    hide Run, Inv, RateInv, Acquire, LastAbandoned, IsShown, Rolled, Hierarchy.Level, Tallies, NoneAfter;
    var end := Run(FRESH, maximum, events);
    AcquireIsExact(end.limiter, now, h, tokens);
    FreshIsSafe();
    var o := Acquire(end.limiter, now, h, tokens).1;
    if o.Rejected? {
      var s := h.Level(o.level);
      FreshTallies(t, s);
      SnapshotCountsTheMinute(FRESH, maximum, t, events, s, now, 0);
      RollTallies(end, EndClock(t, events), now, s, Since(maximum, events, s));
      RetryAfterIs(end.limiter, now, h, tokens);
    }
  }

  lemma RetryAfterIs(l: Limiter, now: int, h: Hierarchy, tokens: nat)
    ensures var o := Acquire(l, now, h, tokens).1;
            o.Rejected? && !o.resource.Concurrency? ==> o.retryAfter == if o.resetAt < now then 0 else o.resetAt - now
  {
    hide RollLevels, Hierarchy.Level, Hierarchy.Covers;
    if Consulted(l, tokens, h) {
      RolledLevels(l.states, h, WindowOf(now));
      ObjectionSaysWhen(RollLevels(l.states, h, WindowOf(now), 4), l.policies, h, tokens, now, 0);
    }
  }

  lemma {:induction false} ObjectionSaysWhen(states: map<Scope, Counter>, policies: map<Scope, Policy>, h: Hierarchy,
                                             tokens: nat, now: int, i: nat)
    requires i <= 4 && Covered(policies, h) && forall j :: 0 <= j < 4 ==> h.Level(j) in states
    ensures var o := FirstObjection(states, policies, h, tokens, now, i);
            o.Rejected? && !o.resource.Concurrency? ==> o.retryAfter == if o.resetAt < now then 0 else o.resetAt - now
    decreases 4 - i
  {
    hide Hierarchy.Level;
    if i < 4 {
      ObjectionSaysWhen(states, policies, h, tokens, now, i + 1);
    }
  }

  // ---- a scope that is dropped and listed again ----------------------------------

  /** Two replacements without and with a scope that is not in use: whatever it admitted in
      this minute, its whole limit is free again. */
  lemma RelistedStartsAfresh(w: World, maximum: nat, first: Event, second: Event, s: Scope, window: int)
    requires Inv(w) && Held(w.leases, s) == 0 && first.ReplaceEvent? && second.ReplaceEvent?
    requires var dropped := Step(w, maximum, first);
             && Replace(w.limiter, maximum, first.version, first.bindings).1 == Replaced
             && Replace(dropped.limiter, maximum, second.version, second.bindings).1 == Replaced
             && s !in AsMap(first.bindings) && s in AsMap(second.bindings)
    ensures var end := Step(Step(w, maximum, first), maximum, second);
            && end.log == w.log && end.leases == w.leases && s in end.limiter.policies
            && Rolled(end.limiter.states, s, window) == Counter(window, 0, 0, 0)
  {
    hide Total, AsMap, WellFormed;
    assert Concurrent(w.limiter.states, s) == Held(w.leases, s);
  }

  const OWNER := Hierarchy(0, 0, 0)
  const ROOMY := Policy(9, 9, 9)
  const TIGHT := Policy(1, 9, 9)
  const UPPER: Bindings := [(OWNER.Level(0), ROOMY), (OWNER.Level(1), ROOMY), (OWNER.Level(2), ROOMY)]
  const ALL: Bindings := UPPER + [(OWNER.Level(3), TIGHT)]
  ghost const ONCE := Step(Step(Step(FRESH, 4, ReplaceEvent(1, ALL)), 4, AcquireEvent(0, OWNER, 1, 0)), 4,
                           ReleaseEvent(0))
  ghost const TWICE := Step(Step(Step(ONCE, 4, ReplaceEvent(2, UPPER)), 4, ReplaceEvent(3, ALL)), 4,
                      AcquireEvent(0, OWNER, 1, 1))

  lemma ListedUpper()
    ensures WellFormed(UPPER) && |UPPER| == 3 && OWNER.Level(3) !in AsMap(UPPER)
    ensures forall i :: 0 <= i < 3 ==> OWNER.Level(i) in AsMap(UPPER)
  {
    hide AsMap, Hierarchy.Level;
    assert forall i :: 0 <= i < 3 ==> UPPER[i] == (OWNER.Level(i), ROOMY);
    MapListsBindings(UPPER);
    forall i | 0 <= i < 3 ensures OWNER.Level(i) in AsMap(UPPER) {
      assert UPPER[i].0 == OWNER.Level(i);
    }
  }

  lemma ListedAll()
    ensures WellFormed(ALL) && |ALL| == 4
    ensures forall i :: 0 <= i < 4 ==>
              OWNER.Level(i) in AsMap(ALL) && AsMap(ALL)[OWNER.Level(i)] == (if i == 3 then TIGHT else ROOMY)
  {
    hide AsMap, Hierarchy.Level;
    assert forall i :: 0 <= i < 4 ==> ALL[i] == (OWNER.Level(i), if i == 3 then TIGHT else ROOMY);
    MapListsBindings(ALL);
    forall i | 0 <= i < 4
      ensures OWNER.Level(i) in AsMap(ALL) && AsMap(ALL)[OWNER.Level(i)] == (if i == 3 then TIGHT else ROOMY)
    {
      assert ALL[i].0 == OWNER.Level(i);
    }
  }

  lemma OnceAdmitted()
    ensures Inv(ONCE) && ONCE.limiter.version == 1 && ONCE.limiter.policies == AsMap(ALL)
    ensures ONCE.log == [Entry(0, OWNER, 1)] && ONCE.leases == map[0 := Lease(OWNER, true)]
    ensures forall i :: 0 <= i < 4 ==>
              OWNER.Level(i) in ONCE.limiter.states && ONCE.limiter.states[OWNER.Level(i)] == Counter(0, 1, 1, 0)
  {
    hide AsMap, WellFormed, Acquire, DropLevels, Total, Inv, Hierarchy.Level, FitsAt;
    ListedAll();
    FreshIsSafe();
    var listed := Step(FRESH, 4, ReplaceEvent(1, ALL));
    assert listed == FRESH.(limiter := Limiter(1, AsMap(ALL), map[]));
    FitsWhenFree(listed.limiter);
    AcquireIsExact(listed.limiter, 0, OWNER, 1);
    AcquireFrame(listed.limiter, 0, OWNER, 1);
    var held := Step(listed, 4, AcquireEvent(0, OWNER, 1, 0));
    StepKeeps(FRESH, 4, ReplaceEvent(1, ALL));
    StepKeeps(listed, 4, AcquireEvent(0, OWNER, 1, 0));
    StepKeeps(held, 4, ReleaseEvent(0));
    forall i | 0 <= i < 4
      ensures OWNER.Level(i) in ONCE.limiter.states && ONCE.limiter.states[OWNER.Level(i)] == Counter(0, 1, 1, 0)
    {
      LevelIsCovered(OWNER, i);
      AcquiredAt(listed.limiter, 0, OWNER, 1, OWNER.Level(i));
      DroppedAt(held.limiter.states, held.limiter.policies, OWNER, 4, OWNER.Level(i));
    }
  }

  lemma FitsWhenFree(l: Limiter)
    requires l.policies == AsMap(ALL)
    requires forall i :: 0 <= i < 4 ==>
               var c := Rolled(l.states, OWNER.Level(i), 0);
               c.rpm <= (if i == 3 then 0 else 8) && c.tpm <= 8 && c.concurrency <= 8
    ensures Covered(l.policies, OWNER) && forall i :: 0 <= i < 4 ==> FitsAt(l, 0, OWNER, 1, i)
  {
    hide AsMap, Rolled, Hierarchy.Level, WellFormed;
    ListedAll();
  }

  lemma NoneHeld(leases: map<LeaseId, Lease>, s: Scope)
    requires forall id :: id in leases ==> leases[id].released
    ensures Held(leases, s) == 0
  {
    SumSetZero(leases.Keys, At(leases, Holds(s)));
  }

  /** One request a minute, and two are admitted. */
  lemma WholeLimitTwice()
    ensures var key := OWNER.Level(3);
            && key in TWICE.limiter.policies && TWICE.limiter.policies[key].rpm == 1
            && SumBy(TWICE.log, RequestIn(key, 0)) == 2
  {
    hide AsMap, WellFormed, Acquire, Total, Inv, Hierarchy.Level, FitsAt, SumBy;
    ListedAll();
    ListedUpper();
    OnceAdmitted();
    var key := OWNER.Level(3);
    NoneHeld(ONCE.leases, key);
    var without := Step(ONCE, 4, ReplaceEvent(2, UPPER));
    var relisted := Step(without, 4, ReplaceEvent(3, ALL));
    RelistedStartsAfresh(ONCE, 4, ReplaceEvent(2, UPPER), ReplaceEvent(3, ALL), key, 0);
    assert relisted.limiter.policies == AsMap(ALL);
    forall i | 0 <= i < 3 ensures Rolled(relisted.limiter.states, OWNER.Level(i), 0) == Counter(0, 1, 1, 0) {
      assert OWNER.Level(i) in without.limiter.states;
    }
    FitsWhenFree(relisted.limiter);
    AcquireIsExact(relisted.limiter, 0, OWNER, 1);
    AcquireFrame(relisted.limiter, 0, OWNER, 1);
    var e := Entry(0, OWNER, 1);
    assert TWICE.log == [] + [e] + [e];
    LevelIsCovered(OWNER, 3);
    SumAppend([] + [e], e, RequestIn(key, 0));
    SumAppend([], e, RequestIn(key, 0));
    SumSeqZero([], RequestIn(key, 0));
  }
}
