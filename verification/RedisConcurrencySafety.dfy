/** Safety of the distributed concurrency limiter over every run of its scripts
    with a non-decreasing server clock. */
module RedisConcurrencySafety {
  import opened LimitScopes
  import opened RedisConcurrency

  /** The lease hash says that the lease holds its four slots. */
  predicate LiveLease(r: Redis, id: LeaseId, now: int) {
    id in r.leases && r.leases[id].state == Active && now < r.leases[id].expiry
  }

  /** The members of one scope set that have not run out. */
  function LiveIn(r: Redis, s: Scope, now: int): set<LeaseId> {
    set id | id in Scores(r.sets, s) && now < Scores(r.sets, s)[id]
  }

  /** Every key outlives what it represents. */
  ghost predicate TtlInv(r: Redis, now: int, c: Config) {
    && (forall id :: id in r.leases ==>
          r.leases[id].ttl == r.leases[id].expiry + c.retention && 0 <= r.leases[id].expiry <= now + c.lease)
    && (forall s, id :: s in r.sets && id in r.sets[s].scores ==>
          r.sets[s].scores[id] + c.retention <= r.sets[s].ttl && r.sets[s].scores[id] <= now + c.lease)
  }

  /** A live member belongs to an active lease of that expiry over that scope. */
  ghost predicate MemberInv(r: Redis, now: int) {
    forall s, id :: id in LiveIn(r, s, now) ==>
      LiveLease(r, id, now) && HasScore(r.sets, s, id, r.leases[id].expiry) && r.leases[id].owner.Covers(s)
  }

  /** A live lease is in all of its four sets, with its stored expiry. */
  ghost predicate LeaseInv(r: Redis, now: int) {
    forall s, id :: LiveLease(r, id, now) && r.leases[id].owner.Covers(s) ==>
      HasScore(r.sets, s, id, r.leases[id].expiry)
  }

  ghost predicate CountInv(r: Redis, now: int, limit: Scope -> nat) {
    forall s :: |LiveIn(r, s, now)| <= limit(s)
  }

  ghost predicate Inv(r: Redis, now: int, c: Config, limit: Scope -> nat) {
    TtlInv(r, now, c) && MemberInv(r, now) && LeaseInv(r, now) && CountInv(r, now, limit)
  }

  /** Hash and sets agree exactly: a lease is active and unexpired, over scope
      s, if and only if it is a live member of the set of s, with its expiry. */
  lemma SetsMatchLeases(r: Redis, now: int, c: Config, limit: Scope -> nat, s: Scope, id: LeaseId)
    requires Inv(r, now, c, limit)
    ensures id in LiveIn(r, s, now) <==> LiveLease(r, id, now) && r.leases[id].owner.Covers(s)
    ensures id in LiveIn(r, s, now) ==> HasScore(r.sets, s, id, r.leases[id].expiry)
  {
    if LiveLease(r, id, now) && r.leases[id].owner.Covers(s) {
      assert HasScore(r.sets, s, id, r.leases[id].expiry);
    }
  }

  lemma MemberAt(r: Redis, now: int, s: Scope, id: LeaseId)
    requires MemberInv(r, now) && id in LiveIn(r, s, now)
    ensures LiveLease(r, id, now) && HasScore(r.sets, s, id, r.leases[id].expiry) && r.leases[id].owner.Covers(s)
  {
  }

  lemma SubsetCard<T>(a: set<T>, b: set<T>)
    requires a <= b
    ensures |a| <= |b|
  {
    assert b == a + (b - a);
  }

  lemma WaitingScope(r: Redis, t: int, now: int, c: Config, s: Scope)
    requires TtlInv(r, t, c) && t <= now && c.Valid()
    ensures LiveIn(Evaporate(r, now), s, now) == LiveIn(r, s, now) <= LiveIn(r, s, t)
    ensures LiveIn(r, s, now) != {} ==> s in Evaporate(r, now).sets
    ensures s in Evaporate(r, now).sets ==> Scores(Evaporate(r, now).sets, s) == Scores(r.sets, s)
  {
  }

  /** Waiting, and the evaporation of keys that comes with it, loses nothing
      that is live. */
  lemma WaitingKeeps(r: Redis, t: int, now: int, c: Config, limit: Scope -> nat)
    requires Inv(r, t, c, limit) && t <= now && c.Valid()
    ensures Inv(Evaporate(r, now), now, c, limit)
    ensures forall id :: id in Evaporate(r, now).leases <==> id in r.leases && !(r.leases[id].ttl < now)
    ensures forall s :: s in Evaporate(r, now).sets <==> s in r.sets && !(r.sets[s].ttl < now)
    ensures forall id :: LiveLease(r, id, now) ==> id in Evaporate(r, now).leases
    ensures forall s :: LiveIn(r, s, now) == LiveIn(Evaporate(r, now), s, now)
  {
    var e := Evaporate(r, now);
    assert TtlInv(e, now, c);
    forall s, id | id in LiveIn(e, s, now)
      ensures LiveLease(e, id, now) && HasScore(e.sets, s, id, e.leases[id].expiry) && e.leases[id].owner.Covers(s)
    {
      WaitingScope(r, t, now, c, s);
      MemberAt(r, t, s, id);
    }
    forall s, id | LiveLease(e, id, now) && e.leases[id].owner.Covers(s)
      ensures HasScore(e.sets, s, id, e.leases[id].expiry)
    {
      assert LiveLease(r, id, t) && HasScore(r.sets, s, id, r.leases[id].expiry);
      WaitingScope(r, t, now, c, s);
      assert id in LiveIn(r, s, now);
    }
    forall s
      ensures LiveIn(r, s, now) == LiveIn(e, s, now) && |LiveIn(e, s, now)| <= limit(s)
    {
      WaitingScope(r, t, now, c, s);
      SubsetCard(LiveIn(e, s, now), LiveIn(r, s, t));
    }
  }

  // ---- how the set operations look through Scores ---------------------------

  lemma PurgeScores(sets: map<Scope, ZSet>, h: Hierarchy, n: nat, now: int, s: Scope)
    ensures Scores(PurgeLevels(sets, h, n, now), s)
         == if h.Covers(s) && s.Rank() < n then Purge(Scores(sets, s), now) else Scores(sets, s)
    ensures s in PurgeLevels(sets, h, n, now) <==> s in sets
    ensures s in sets ==> PurgeLevels(sets, h, n, now)[s].ttl == sets[s].ttl
  {
  }

  lemma RemoveScores(sets: map<Scope, ZSet>, h: Hierarchy, n: nat, id: LeaseId, s: Scope)
    ensures Scores(RemoveLevels(sets, h, n, id), s)
         == if h.Covers(s) && s.Rank() < n then Scores(sets, s) - {id} else Scores(sets, s)
    ensures s in RemoveLevels(sets, h, n, id) <==> s in sets
    ensures s in sets ==> RemoveLevels(sets, h, n, id)[s].ttl == sets[s].ttl
  {
  }

  lemma {:induction false} AddScores(sets: map<Scope, ZSet>, h: Hierarchy, n: nat, id: LeaseId, expiry: int, ttl: int,
                                     s: Scope)
    requires n <= 4
    ensures var added := AddLevels(sets, h, n, id, expiry, ttl);
            if h.Covers(s) && s.Rank() < n
            then s in added && added[s] == ZSet(Scores(sets, s)[id := expiry], ttl)
            else (s in added <==> s in sets) && (s in sets ==> added[s] == sets[s])
  {
    if n > 0 {
      AddScores(sets, h, n - 1, id, expiry, ttl, s);
    }
  }

  lemma PurgeScope(r: Redis, h: Hierarchy, n: nat, now: int, s: Scope)
    ensures var p := r.(sets := PurgeLevels(r.sets, h, n, now));
            && LiveIn(p, s, now) == LiveIn(r, s, now)
            && forall id :: id in LiveIn(r, s, now) ==> Scores(p.sets, s)[id] == Scores(r.sets, s)[id]
  {
    PurgeScores(r.sets, h, n, now, s);
  }

  /** No live membership is touched by purging. */
  lemma PurgeKeeps(r: Redis, now: int, c: Config, limit: Scope -> nat, h: Hierarchy, n: nat)
    requires Inv(r, now, c, limit)
    ensures Inv(r.(sets := PurgeLevels(r.sets, h, n, now)), now, c, limit)
    ensures forall s :: LiveIn(r.(sets := PurgeLevels(r.sets, h, n, now)), s, now) == LiveIn(r, s, now)
  {
    hide PurgeLevels, TtlInv, Hierarchy.Covers;
    var p := r.(sets := PurgeLevels(r.sets, h, n, now));
    PurgeKeepsTtl(r, now, c, h, n);
    forall s ensures LiveIn(p, s, now) == LiveIn(r, s, now) {
      PurgeScope(r, h, n, now, s);
    }
    forall s, id | id in LiveIn(p, s, now)
      ensures LiveLease(p, id, now) && HasScore(p.sets, s, id, p.leases[id].expiry) && p.leases[id].owner.Covers(s)
    {
      PurgeScope(r, h, n, now, s);
      MemberAt(r, now, s, id);
    }
    forall s, id | LiveLease(p, id, now) && p.leases[id].owner.Covers(s)
      ensures HasScore(p.sets, s, id, p.leases[id].expiry)
    {
      assert HasScore(r.sets, s, id, r.leases[id].expiry);
      PurgeScope(r, h, n, now, s);
      assert id in LiveIn(r, s, now);
    }
  }

  lemma PurgeKeepsTtl(r: Redis, now: int, c: Config, h: Hierarchy, n: nat)
    requires TtlInv(r, now, c)
    ensures TtlInv(r.(sets := PurgeLevels(r.sets, h, n, now)), now, c)
  {
  }

  /** Giving up a lease, whether it still lived or not. */
  lemma RemoveKeeps(r: Redis, now: int, c: Config, limit: Scope -> nat, id: LeaseId, state: LeaseState)
    requires Inv(r, now, c, limit) && id in r.leases && state != Active
    ensures var l := r.leases[id];
            var e := Redis(RemoveLevels(r.sets, l.owner, 4, id), r.leases[id := l.(state := state)]);
            && Inv(e, now, c, limit)
            && forall s :: LiveIn(e, s, now) == if l.owner.Covers(s) then LiveIn(r, s, now) - {id}
            else LiveIn(r, s, now)
  {
    hide LiveIn, RemoveLevels, TtlInv, LeaseInv, Hierarchy.Covers;
    var l := r.leases[id];
    var e := Redis(RemoveLevels(r.sets, l.owner, 4, id), r.leases[id := l.(state := state)]);
    forall s
      ensures LiveIn(e, s, now) == if l.owner.Covers(s) then LiveIn(r, s, now) - {id} else LiveIn(r, s, now)
      ensures |LiveIn(e, s, now)| <= limit(s)
    {
      RemoveScope(r, l.owner, now, id, s, e.leases);
      SubsetCard(LiveIn(e, s, now), LiveIn(r, s, now));
    }
    forall s, x | x in LiveIn(e, s, now)
      ensures LiveLease(e, x, now) && HasScore(e.sets, s, x, e.leases[x].expiry) && e.leases[x].owner.Covers(s)
    {
      RemoveScope(r, l.owner, now, id, s, e.leases);
      MemberAt(r, now, s, x);
    }
    RemoveKeepsTtl(r, now, c, l.owner, id, state);
    RemoveKeepsLeases(r, e, now, id);
  }

  lemma RemoveScope(r: Redis, h: Hierarchy, now: int, id: LeaseId, s: Scope, leases: map<LeaseId, Lease>)
    ensures var e := Redis(RemoveLevels(r.sets, h, 4, id), leases);
            && LiveIn(e, s, now) == (if h.Covers(s) then LiveIn(r, s, now) - {id} else LiveIn(r, s, now))
            && forall x, v :: HasScore(r.sets, s, x, v) && (x != id || !h.Covers(s)) ==> HasScore(e.sets, s, x, v)
  {
    RemoveScores(r.sets, h, 4, id, s);
  }

  lemma RemoveKeepsTtl(r: Redis, now: int, c: Config, h: Hierarchy, id: LeaseId, state: LeaseState)
    requires TtlInv(r, now, c) && id in r.leases
    ensures TtlInv(Redis(RemoveLevels(r.sets, h, 4, id), r.leases[id := r.leases[id].(state := state)]), now, c)
  {
  }

  lemma RemoveKeepsLeases(r: Redis, e: Redis, now: int, id: LeaseId)
    requires LeaseInv(r, now) && id in r.leases
    requires exists state :: state != Active && e.leases == r.leases[id := r.leases[id].(state := state)]
    requires e.sets == RemoveLevels(r.sets, r.leases[id].owner, 4, id)
    ensures LeaseInv(e, now)
  {
    forall s, x | LiveLease(e, x, now) && e.leases[x].owner.Covers(s)
      ensures HasScore(e.sets, s, x, e.leases[x].expiry)
    {
      assert LiveLease(r, x, now) && HasScore(r.sets, s, x, r.leases[x].expiry);
      RemoveScores(r.sets, r.leases[id].owner, 4, id, s);
    }
  }

  function Added(r: Redis, now: int, c: Config, id: LeaseId, h: Hierarchy): Redis {
    var expiry := now + c.lease;
    Redis(AddLevels(r.sets, h, 4, id, expiry, expiry + c.retention),
          r.leases[id := Lease(Active, h, expiry, expiry + c.retention)])
  }

  /** Taking or extending a lease over its own hierarchy. */
  lemma AddKeeps(r: Redis, now: int, c: Config, limit: Scope -> nat, id: LeaseId, h: Hierarchy)
    requires Inv(r, now, c, limit) && c.Valid() && 0 <= now
    requires id in r.leases ==> r.leases[id].owner == h
    requires forall s :: h.Covers(s) && id !in LiveIn(r, s, now) ==> |LiveIn(r, s, now)| < limit(s)
    ensures Inv(Added(r, now, c, id, h), now, c, limit)
    ensures forall s :: LiveIn(Added(r, now, c, id, h), s, now)
                     == if h.Covers(s) then LiveIn(r, s, now) + {id} else LiveIn(r, s, now)
  {
    hide TtlInv, MemberInv, LeaseInv;
    AddKeepsTtl(r, now, c, id, h);
    AddKeepsMembers(r, now, c, id, h);
    hide Added;
    forall s
      ensures |LiveIn(Added(r, now, c, id, h), s, now)| <= limit(s)
    {
      if id in LiveIn(r, s, now) {
        assert LiveIn(r, s, now) + {id} == LiveIn(r, s, now);
      }
    }
  }

  lemma AddedScores(r: Redis, now: int, c: Config, id: LeaseId, h: Hierarchy, s: Scope)
    requires c.Valid()
    ensures var e := Added(r, now, c, id, h);
            && Scores(e.sets, s) == (if h.Covers(s) then Scores(r.sets, s)[id := now + c.lease] else Scores(r.sets, s))
            && LiveIn(e, s, now) == if h.Covers(s) then LiveIn(r, s, now) + {id} else LiveIn(r, s, now)
  {
    hide AddLevels;
    var expiry := now + c.lease;
    AddScores(r.sets, h, 4, id, expiry, expiry + c.retention, s);
  }

  lemma AddKeepsMembers(r: Redis, now: int, c: Config, id: LeaseId, h: Hierarchy)
    requires MemberInv(r, now) && LeaseInv(r, now) && c.Valid()
    requires id in r.leases ==> r.leases[id].owner == h
    ensures MemberInv(Added(r, now, c, id, h), now) && LeaseInv(Added(r, now, c, id, h), now)
    ensures forall s :: LiveIn(Added(r, now, c, id, h), s, now)
                     == if h.Covers(s) then LiveIn(r, s, now) + {id} else LiveIn(r, s, now)
  {
    hide AddLevels, LiveIn;
    var e := Added(r, now, c, id, h);
    forall s
      ensures LiveIn(e, s, now) == if h.Covers(s) then LiveIn(r, s, now) + {id} else LiveIn(r, s, now)
    {
      AddedScores(r, now, c, id, h, s);
    }
    forall s, x | x in LiveIn(e, s, now)
      ensures LiveLease(e, x, now) && HasScore(e.sets, s, x, e.leases[x].expiry) && e.leases[x].owner.Covers(s)
    {
      AddedScores(r, now, c, id, h, s);
      if x in LiveIn(r, s, now) {
        MemberAt(r, now, s, x);
      }
    }
    forall s, x | LiveLease(e, x, now) && e.leases[x].owner.Covers(s)
      ensures HasScore(e.sets, s, x, e.leases[x].expiry)
    {
      AddedScores(r, now, c, id, h, s);
      if x != id {
        assert LiveLease(r, x, now) && HasScore(r.sets, s, x, r.leases[x].expiry);
      }
    }
  }

  lemma AddKeepsTtl(r: Redis, now: int, c: Config, id: LeaseId, h: Hierarchy)
    requires TtlInv(r, now, c) && 0 <= now
    ensures TtlInv(Added(r, now, c, id, h), now, c)
  {
    var expiry := now + c.lease;
    var added := AddLevels(r.sets, h, 4, id, expiry, expiry + c.retention);
    forall s, x | s in added && x in added[s].scores
      ensures added[s].scores[x] + c.retention <= added[s].ttl && added[s].scores[x] <= now + c.lease
    {
      AddScores(r.sets, h, 4, id, expiry, expiry + c.retention, s);
    }
  }

  // ---- what the scripts' searches find --------------------------------------

  lemma {:induction false} LiveLeaseMatches(r: Redis, now: int, id: LeaseId, h: Hierarchy, i: nat)
    requires LeaseInv(r, now) && LiveLease(r, id, now) && r.leases[id].owner == h && i <= 4
    ensures FirstMismatch(r.sets, h, id, r.leases[id].expiry, i) == 4
    decreases 4 - i
  {
    if i < 4 {
      assert h.Covers(h.Level(i));
      LiveLeaseMatches(r, now, id, h, i + 1);
    }
  }

  lemma {:induction false} DeadLeaseAbsent(r: Redis, now: int, id: LeaseId, h: Hierarchy, i: nat)
    requires MemberInv(r, now) && !LiveLease(r, id, now) && i <= 4
    ensures FirstMember(r.sets, h, id, now, i) == 4
    decreases 4 - i
  {
    if i < 4 {
      assert id !in LiveIn(r, h.Level(i), now);
      DeadLeaseAbsent(r, now, id, h, i + 1);
    }
  }

  lemma {:induction false} FullLevel(sets: map<Scope, ZSet>, h: Hierarchy, hard: Limits, i: nat)
    requires i <= 4
    ensures var full := FirstFull(sets, h, hard, i);
            && i <= full <= 4
            && (forall j :: i <= j < full ==> |Scores(sets, h.Level(j))| < hard[j])
            && (full < 4 ==> |Scores(sets, h.Level(full))| >= hard[full])
    decreases 4 - i
  {
    if i < 4 {
      FullLevel(sets, h, hard, i + 1);
    }
  }

  /** After a full purge the cardinality of a set is its live count. */
  lemma PurgedCount(r: Redis, h: Hierarchy, now: int, s: Scope)
    requires h.Covers(s)
    ensures Scores(PurgeLevels(r.sets, h, 4, now), s).Keys == LiveIn(r, s, now)
    ensures |Scores(PurgeLevels(r.sets, h, 4, now), s)| == |LiveIn(r, s, now)|
  {
    PurgeScores(r.sets, h, 4, now, s);
    var scores := Scores(PurgeLevels(r.sets, h, 4, now), s);
    assert |scores| == |scores.Keys|;
  }

  lemma {:induction false} EarliestExists(scores: map<LeaseId, int>)
    requires scores != map[]
    ensures IsEarliest(scores, Earliest(scores))
    decreases |scores|
  {
    var id :| id in scores;
    var rest := scores - {id};
    if rest == map[] {
      assert forall x :: x in scores && x != id ==> x in rest;
      assert IsEarliest(scores, scores[id]);
    } else {
      EarliestExists(rest);
      var m := Earliest(rest);
      var x :| x in rest && rest[x] == m;
      assert forall y :: y in scores ==> y == id || y in rest;
      if scores[id] < m {
        assert IsEarliest(scores, scores[id]);
      } else {
        assert scores[x] == m;
        assert IsEarliest(scores, m);
      }
    }
  }

  // ---- every call, on the state that the clock has left ----------------------

  /** The one way in which a stored lease can be unreadable: its expiry is past
      the integers that Lua represents exactly. */
  predicate Overflowed(e: Redis, id: LeaseId) {
    id in e.leases && e.leases[id].expiry > MAXIMUM_VALUE
  }

  ghost predicate SameLive(e: Redis, e': Redis, now: int) {
    forall s :: LiveIn(e', s, now) == LiveIn(e, s, now)
  }

  ghost predicate ReportsCounts(e: Redis, h: Hierarchy, now: int, counts: seq<nat>) {
    |counts| == 4 && forall i :: 0 <= i < 4 ==> counts[i] == |LiveIn(e, h.Level(i), now)|
  }

  predicate CountsAreExact(counts: seq<int>) {
    |counts| == 4 && forall i :: 0 <= i < 4 ==> 0 <= counts[i] <= MAXIMUM_VALUE
  }

  /** The sets of the hierarchy are there and last until then. */
  ghost predicate LastAs(e: Redis, h: Hierarchy, ttl: int) {
    forall i :: 0 <= i < 4 ==> h.Level(i) in e.sets && e.sets[h.Level(i)].ttl == ttl
  }

  /** What each answer to an acquire means for the live leases before (e) and
      after (e'). */
  ghost predicate AcquireTruth(e: Redis, e': Redis, now: int, c: Config, id: LeaseId, h: Hierarchy, hard: Limits,
                               o: Outcome)
  {
    match o
    case Allowed(expiry, counts, idempotent) =>
      && LiveLease(e', id, now) && e'.leases[id].owner == h && e'.leases[id].expiry == expiry
      && ReportsCounts(e', h, now, counts)
      && idempotent == LiveLease(e, id, now)
      && (idempotent ==> SameLive(e, e', now) && e'.leases == e.leases)
      && (!idempotent ==>
            && id !in e.leases && expiry == now + c.lease
            && e'.leases == e.leases[id := Lease(Active, h, expiry, expiry + c.retention)]
            && LastAs(e', h, expiry + c.retention)
            && (forall i :: 0 <= i < 4 ==> |LiveIn(e, h.Level(i), now)| < hard[i])
            && forall s :: LiveIn(e', s, now) == if h.Covers(s) then LiveIn(e, s, now) + {id} else LiveIn(e, s, now))
    case Denied(level, count, bound, earliest) =>
      && SameLive(e, e', now) && e'.leases == e.leases && id !in e.leases
      && level < 4 && bound == hard[level] && count == |LiveIn(e, h.Level(level), now)| && hard[level] <= count
      && (forall j :: 0 <= j < level ==> |LiveIn(e, h.Level(j), now)| < hard[j])
      && (exists x :: x in LiveIn(e, h.Level(level), now) && Scores(e.sets, h.Level(level))[x] == earliest)
      && (forall x :: x in LiveIn(e, h.Level(level), now) ==> earliest <= Scores(e.sets, h.Level(level))[x])
    case LeaseConflict => SameLive(e, e', now) && e' == e && id in e.leases
    && (e.leases[id].owner != h || e.leases[id].state != Active)
    case LeaseExpired =>
      && SameLive(e, e', now)
      && id in e.leases && e.leases[id].owner == h && e.leases[id].state == Active && e.leases[id].expiry <= now
      && e'.leases == e.leases[id := e.leases[id].(state := Expired)]
    case Usage(_, _, _, _) => false
    case ProtocolError => e' == e
  }

  /** What each answer to a renew means. */
  ghost predicate RenewTruth(e: Redis, e': Redis, now: int, c: Config, id: LeaseId, h: Hierarchy, o: Outcome) {
    match o
    case Usage(expiry, counts, _, _) =>
      && LiveLease(e, id, now) && e.leases[id].owner == h
      && LiveLease(e', id, now) && e'.leases[id].owner == h && e'.leases[id].expiry == expiry == now + c.lease
      && e'.leases == e.leases[id := Lease(Active, h, expiry, expiry + c.retention)]
      && LastAs(e', h, expiry + c.retention)
      && SameLive(e, e', now) && ReportsCounts(e, h, now, counts)
    case LeaseConflict => e' == e && id in e.leases && (e.leases[id].owner != h || e.leases[id].state == Released)
    case LeaseExpired =>
      && SameLive(e, e', now)
      && (id !in e.leases ==> e' == e)
      && (id in e.leases ==>
            && e.leases[id].owner == h && e.leases[id].state != Released
            && (e.leases[id].state == Expired ==> e' == e)
            && (e.leases[id].state == Active ==>
                  e.leases[id].expiry <= now && e'.leases == e.leases[id := e.leases[id].(state := Expired)]))
    case ProtocolError => e' == e
    case _ => false
  }

  /** What each answer to a release means. */
  ghost predicate ReleaseTruth(e: Redis, e': Redis, now: int, id: LeaseId, h: Hierarchy, o: Outcome) {
    match o
    case Usage(expiry, counts, idempotent, expired) =>
      && id in e.leases && e.leases[id].owner == h && e.leases[id].expiry == expiry
      && ReportsCounts(e', h, now, counts)
      && e'.leases == e.leases[id := e.leases[id].(state := if e.leases[id].state != Active then e.leases[id].state
                                                            else if e.leases[id].expiry <= now then Expired
                                                            else Released)]
      && idempotent == (e.leases[id].state != Active) && expired == (e'.leases[id].state == Expired)
      && (idempotent ==> e'.leases == e.leases)
      && forall s :: LiveIn(e', s, now) == LiveIn(e, s, now) - {id}
    case LeaseConflict => e' == e && id in e.leases && e.leases[id].owner != h
    case LeaseExpired => e' == e && id !in e.leases
    case ProtocolError => e' == e
    case _ => false
  }

  /** After a full purge the reply shows the live counts. */
  lemma PurgedCounts(e: Redis, now: int, limit: Scope -> nat, h: Hierarchy)
    requires CountInv(e, now, limit) && forall s :: limit(s) <= MAXIMUM_VALUE
    ensures ReportsCounts(e, h, now, Counts(PurgeLevels(e.sets, h, 4, now), h))
    ensures forall i :: 0 <= i < 4 ==> 0 <= |LiveIn(e, h.Level(i), now)| <= MAXIMUM_VALUE
  {
    forall i | 0 <= i < 4
      ensures |Scores(PurgeLevels(e.sets, h, 4, now), h.Level(i))| == |LiveIn(e, h.Level(i), now)| <= MAXIMUM_VALUE
    {
      PurgedCount(e, h, now, h.Level(i));
      assert limit(h.Level(i)) <= MAXIMUM_VALUE;
    }
  }

  /** A live lease is counted in each of its own scopes. */
  lemma LiveLeaseIsCounted(e: Redis, now: int, id: LeaseId, i: nat)
    requires LeaseInv(e, now) && LiveLease(e, id, now) && i < 4
    ensures id in LiveIn(e, e.leases[id].owner.Level(i), now)
    ensures 1 <= |LiveIn(e, e.leases[id].owner.Level(i), now)|
  {
    var s := e.leases[id].owner.Level(i);
    assert e.leases[id].owner.Covers(s);
    assert HasScore(e.sets, s, id, e.leases[id].expiry);
    SubsetCard({id}, LiveIn(e, s, now));
  }

  ghost predicate Ready(e: Redis, now: int, c: Config, limit: Scope -> nat) {
    Inv(e, now, c, limit) && 0 <= now && c.Valid() && forall s :: limit(s) <= MAXIMUM_VALUE
  }

  ghost predicate AcquireOk(e: Redis, now: int, c: Config, limit: Scope -> nat, id: LeaseId, h: Hierarchy, hard: Limits)
  {
    var (e', reply) := AcquireOn(e, now, c, id, h, hard);
    var o := ReadAcquire(reply, hard);
    Inv(e', now, c, limit) && (o.ProtocolError? <==> Overflowed(e, id)) && AcquireTruth(e, e', now, c, id, h, hard, o)
  }

  lemma AcquireExpired(e: Redis, now: int, c: Config, limit: Scope -> nat, id: LeaseId, h: Hierarchy, hard: Limits)
    requires Ready(e, now, c, limit) && id in e.leases && !Overflowed(e, id)
    requires e.leases[id].owner == h && e.leases[id].state == Active && e.leases[id].expiry <= now
    ensures AcquireOk(e, now, c, limit, id, h, hard)
  {
    hide RemoveLevels, LeaseInv, CountInv;
    RemoveKeeps(e, now, c, limit, id, Expired);
    assert forall s :: id !in LiveIn(e, s, now);
  }

  lemma AcquireRepeat(e: Redis, now: int, c: Config, limit: Scope -> nat, id: LeaseId, h: Hierarchy, hard: Limits)
    requires Ready(e, now, c, limit) && LiveLease(e, id, now) && !Overflowed(e, id) && e.leases[id].owner == h
    ensures AcquireOk(e, now, c, limit, id, h, hard)
  {
    hide PurgeLevels, MemberInv, LeaseInv, CountInv, FirstMismatch, Counts;
    LiveLeaseMatches(e, now, id, h, 0);
    PurgeKeeps(e, now, c, limit, h, 4);
    PurgedCounts(e, now, limit, h);
    LiveLeaseIsCounted(e, now, id, 0);
    LiveLeaseIsCounted(e, now, id, 1);
    LiveLeaseIsCounted(e, now, id, 2);
    LiveLeaseIsCounted(e, now, id, 3);
    var counts := Counts(PurgeLevels(e.sets, h, 4, now), h);
    var reply := AcquireOn(e, now, c, id, h, hard).1;
    assert reply == [1, now, e.leases[id].expiry, 1] + counts;
    assert ValidCounts(reply, 4, 1);
  }

  /** A new lease is refused by the first full scope in canonical order. */
  lemma AcquireDenied(e: Redis, now: int, c: Config, limit: Scope -> nat, id: LeaseId, h: Hierarchy, hard: Limits)
    requires Ready(e, now, c, limit) && id !in e.leases
    requires forall i :: 0 <= i < 4 ==> 1 <= hard[i] <= limit(h.Level(i))
    requires FirstFull(PurgeLevels(e.sets, h, 4, now), h, hard, 0) < 4
    ensures AcquireOk(e, now, c, limit, id, h, hard)
  {
    hide PurgeLevels, MemberInv, LeaseInv, TtlInv, FirstMember, FirstFull, Counts;
    var sets := PurgeLevels(e.sets, h, 4, now);
    DeadLeaseAbsent(e, now, id, h, 0);
    PurgeKeeps(e, now, c, limit, h, 4);
    PurgedCounts(e, now, limit, h);
    FullLevel(sets, h, hard, 0);
    var full := FirstFull(sets, h, hard, 0);
    forall j | 0 <= j <= full ensures |Scores(sets, h.Level(j))| == |LiveIn(e, h.Level(j), now)| {
      PurgedCount(e, h, now, h.Level(j));
    }
    var scores := Scores(sets, h.Level(full));
    PurgeScores(e.sets, h, 4, now, h.Level(full));
    PurgedCount(e, h, now, h.Level(full));
    EarliestExists(scores);
    var x :| x in scores && scores[x] == Earliest(scores);
    assert x in LiveIn(e, h.Level(full), now) && Scores(e.sets, h.Level(full))[x] == Earliest(scores);
    assert AcquireOn(e, now, c, id, h, hard)
        == (e.(sets := sets), [0, full + 1, |scores|, hard[full], Earliest(scores), now]);
  }

  /** Taking a slot at level i of a purged state. */
  lemma TakenLevel(e: Redis, now: int, c: Config, id: LeaseId, h: Hierarchy, hard: Limits, i: nat)
    requires c.Valid() && i < 4
    requires |Scores(PurgeLevels(e.sets, h, 4, now), h.Level(i))| < hard[i]
    ensures var p := e.(sets := PurgeLevels(e.sets, h, 4, now));
            var e' := Added(p, now, c, id, h);
            && |LiveIn(e, h.Level(i), now)| < hard[i]
            && |LiveIn(p, h.Level(i), now)| < hard[i]
            && 1 <= |LiveIn(e', h.Level(i), now)| <= hard[i]
            && |Scores(e'.sets, h.Level(i))| == |LiveIn(e', h.Level(i), now)|
  {
    hide PurgeLevels, Added;
    var s := h.Level(i);
    var p := e.(sets := PurgeLevels(e.sets, h, 4, now));
    var e' := Added(p, now, c, id, h);
    PurgedCount(e, h, now, s);
    PurgeScores(e.sets, h, 4, now, s);
    assert LiveIn(p, s, now) == LiveIn(e, s, now);
    AddedScores(p, now, c, id, h, s);
    var scores := Scores(e'.sets, s);
    assert scores.Keys == LiveIn(e', s, now) == LiveIn(p, s, now) + {id};
    assert |scores| == |scores.Keys|;
    SubsetCard({id}, LiveIn(e', s, now));
  }

  lemma ReadAllowed(now: int, expiry: int, counts: seq<nat>, hard: Limits)
    requires 0 <= now < expiry && |counts| == 4
    requires forall i :: 0 <= i < 4 ==> 1 <= counts[i] <= hard[i] <= MAXIMUM_VALUE
    ensures ReadAcquire([1, now, expiry, 0] + counts, hard) == Allowed(expiry, counts, false)
  {
    var reply := [1, now, expiry, 0] + counts;
    assert forall i :: 0 <= i < 4 ==> reply[4 + i] == counts[i];
    assert ValidCounts(reply, 4, 1);
    assert CountsAt(reply, 4, 1) == counts;
  }

  /** A new lease that no scope refuses takes one slot in each of its four. */
  lemma AcquireTaken(e: Redis, now: int, c: Config, limit: Scope -> nat, id: LeaseId, h: Hierarchy, hard: Limits)
    requires Ready(e, now, c, limit) && id !in e.leases
    requires forall i :: 0 <= i < 4 ==> 1 <= hard[i] <= limit(h.Level(i))
    requires FirstFull(PurgeLevels(e.sets, h, 4, now), h, hard, 0) == 4
    ensures AcquireOk(e, now, c, limit, id, h, hard)
  {
    hide PurgeLevels, Added, Inv, FirstFull, AcquireOn, AcquireTruth, ReadAcquire, LiveIn, Scores, Hierarchy.Level,
         Hierarchy.Covers;
    var sets := PurgeLevels(e.sets, h, 4, now);
    var p := e.(sets := sets);
    var e' := Added(p, now, c, id, h);
    AcquireTakes(e, now, c, limit, id, h, hard);
    FullLevel(sets, h, hard, 0);
    forall i | 0 <= i < 4
      ensures |LiveIn(e, h.Level(i), now)| < hard[i] && |LiveIn(p, h.Level(i), now)| < hard[i]
      ensures 1 <= |LiveIn(e', h.Level(i), now)| <= hard[i]
      ensures |Scores(e'.sets, h.Level(i))| == |LiveIn(e', h.Level(i), now)|
    {
      TakenLevel(e, now, c, id, h, hard, i);
    }
    PurgeKeeps(e, now, c, limit, h, 4);
    TakenKeeps(p, now, c, limit, id, h, hard);
    var counts := Counts(e'.sets, h);
    assert forall i :: 0 <= i < 4 ==> counts[i] == |Scores(e'.sets, h.Level(i))|;
    ReadAllowed(now, now + c.lease, counts, hard);
    AddedLease(p, now, c, id, h);
    TakenIsTrue(e, p, e', now, c, id, h, hard, counts);
  }

  lemma TakenIsTrue(e: Redis, p: Redis, e': Redis, now: int, c: Config, id: LeaseId, h: Hierarchy, hard: Limits,
                    counts: seq<nat>)
    requires id !in e.leases && ReportsCounts(e', h, now, counts)
    requires LiveLease(e', id, now) && e'.leases[id].owner == h && e'.leases[id].expiry == now + c.lease
    requires e'.leases == e.leases[id := Lease(Active, h, now + c.lease, now + c.lease + c.retention)]
    requires LastAs(e', h, now + c.lease + c.retention)
    requires forall i :: 0 <= i < 4 ==> |LiveIn(e, h.Level(i), now)| < hard[i]
    requires forall s :: LiveIn(p, s, now) == LiveIn(e, s, now)
    requires forall s :: LiveIn(e', s, now) == if h.Covers(s) then LiveIn(p, s, now) + {id} else LiveIn(p, s, now)
    ensures AcquireTruth(e, e', now, c, id, h, hard, Allowed(now + c.lease, counts, false))
  {
    hide LiveIn, Hierarchy.Level, Hierarchy.Covers, ReportsCounts;
  }

  lemma AddedLease(p: Redis, now: int, c: Config, id: LeaseId, h: Hierarchy)
    requires c.Valid()
    ensures var e' := Added(p, now, c, id, h);
            && LiveLease(e', id, now) && e'.leases[id].owner == h && e'.leases[id].expiry == now + c.lease
            && e'.leases == p.leases[id := Lease(Active, h, now + c.lease, now + c.lease + c.retention)]
            && LastAs(e', h, now + c.lease + c.retention)
  {
    hide AddLevels;
    forall i | 0 <= i < 4
      ensures var sets := Added(p, now, c, id, h).sets;
              h.Level(i) in sets && sets[h.Level(i)].ttl == now + c.lease + c.retention
    {
      AddScores(p.sets, h, 4, id, now + c.lease, now + c.lease + c.retention, h.Level(i));
    }
  }

  lemma TakenKeeps(p: Redis, now: int, c: Config, limit: Scope -> nat, id: LeaseId, h: Hierarchy, hard: Limits)
    requires Inv(p, now, c, limit) && c.Valid() && 0 <= now && id !in p.leases
    requires forall i :: 0 <= i < 4 ==> |LiveIn(p, h.Level(i), now)| < hard[i] <= limit(h.Level(i))
    ensures Inv(Added(p, now, c, id, h), now, c, limit)
    ensures forall s :: LiveIn(Added(p, now, c, id, h), s, now)
                     == if h.Covers(s) then LiveIn(p, s, now) + {id} else LiveIn(p, s, now)
  {
    hide Inv, Added;
    forall s | h.Covers(s) ensures |LiveIn(p, s, now)| < limit(s) {
      assert s == h.Level(s.Rank());
    }
    AddKeeps(p, now, c, limit, id, h);
  }

  lemma AcquireTakes(e: Redis, now: int, c: Config, limit: Scope -> nat, id: LeaseId, h: Hierarchy, hard: Limits)
    requires Inv(e, now, c, limit) && id !in e.leases
    requires FirstFull(PurgeLevels(e.sets, h, 4, now), h, hard, 0) == 4
    ensures var e' := Added(e.(sets := PurgeLevels(e.sets, h, 4, now)), now, c, id, h);
            AcquireOn(e, now, c, id, h, hard) == (e', [1, now, now + c.lease, 0] + Counts(e'.sets, h))
  {
    hide PurgeLevels, AddLevels, MemberInv, FirstMember, FirstFull, Counts;
    DeadLeaseAbsent(e, now, id, h, 0);
  }

  /** Every acquire in every reachable state: the invariant is kept, the reply
      is readable unless the stored expiry overflowed, and it tells the truth. */
  lemma AcquireIsSafe(r: Redis, t: int, now: int, c: Config, limit: Scope -> nat, id: LeaseId, h: Hierarchy,
                      hard: Limits)
    requires Ready(r, t, c, limit) && t <= now
    requires forall i :: 0 <= i < 4 ==> 1 <= hard[i] <= limit(h.Level(i))
    ensures AcquireOk(Evaporate(r, now), now, c, limit, id, h, hard)
  {
    hide Inv, AcquireOk, Evaporate;
    WaitingKeeps(r, t, now, c, limit);
    var e := Evaporate(r, now);
    if id !in e.leases {
      if FirstFull(PurgeLevels(e.sets, h, 4, now), h, hard, 0) < 4 {
        AcquireDenied(e, now, c, limit, id, h, hard);
      } else {
        FullLevel(PurgeLevels(e.sets, h, 4, now), h, hard, 0);
        AcquireTaken(e, now, c, limit, id, h, hard);
      }
    } else if Overflowed(e, id) || e.leases[id].owner != h || e.leases[id].state != Active {
      AcquireRefused(e, now, c, limit, id, h, hard);
    } else if e.leases[id].expiry <= now {
      AcquireExpired(e, now, c, limit, id, h, hard);
    } else {
      AcquireRepeat(e, now, c, limit, id, h, hard);
    }
  }

  lemma AcquireRefused(e: Redis, now: int, c: Config, limit: Scope -> nat, id: LeaseId, h: Hierarchy, hard: Limits)
    requires Ready(e, now, c, limit) && id in e.leases
    requires Overflowed(e, id) || e.leases[id].owner != h || e.leases[id].state != Active
    ensures AcquireOk(e, now, c, limit, id, h, hard)
  {
    hide MemberInv, LeaseInv, CountInv;
  }

  // ---- renew ----------------------------------------------------------------

  ghost predicate RenewOk(e: Redis, now: int, c: Config, limit: Scope -> nat, id: LeaseId, h: Hierarchy) {
    var (e', reply) := RenewOn(e, now, c, id, h);
    var o := ReadLifecycle(reply, false);
    Inv(e', now, c, limit) && (o.ProtocolError? <==> Overflowed(e, id)) && RenewTruth(e, e', now, c, id, h, o)
  }

  lemma ReadUsage(values: seq<int>, offset: nat, counts: seq<nat>)
    requires |counts| == 4 && |values| == offset + 4 && values[offset..] == counts
    requires forall i :: 0 <= i < 4 ==> counts[i] <= MAXIMUM_VALUE
    ensures ValidCounts(values, offset, 0) && CountsAt(values, offset, 0) == counts
  {
    assert forall i :: 0 <= i < 4 ==> values[offset + i] == values[offset..][i];
  }

  /** A renewal neither adds nor drops a member: the lease just lives longer. */
  lemma RenewLive(e: Redis, now: int, c: Config, limit: Scope -> nat, id: LeaseId, h: Hierarchy)
    requires Ready(e, now, c, limit) && LiveLease(e, id, now) && !Overflowed(e, id) && e.leases[id].owner == h
    ensures RenewOk(e, now, c, limit, id, h)
  {
    hide PurgeLevels, Added, Inv, RenewOn, Counts, LiveIn, Hierarchy.Level, Hierarchy.Covers, ReadLifecycle;
    var sets := PurgeLevels(e.sets, h, 4, now);
    var p := e.(sets := sets);
    var counts := Counts(sets, h);
    RenewTakes(e, now, c, limit, id, h);
    PurgeKeeps(e, now, c, limit, h, 4);
    CountsFit(e, now, c, limit, h);
    RenewKeeps(p, now, c, limit, id, h);
    AddedLease(p, now, c, id, h);
    ReadRenewal(now, now + c.lease, counts);
  }

  lemma ReadRenewal(now: int, expiry: int, counts: seq<nat>)
    requires 0 <= now < expiry && CountsAreExact(counts)
    ensures ReadLifecycle([0, now, expiry] + counts, false) == Usage(expiry, counts, false, false)
  {
    var reply := [0, now, expiry] + counts;
    assert reply[3..] == counts;
    ReadUsage(reply, 3, counts);
  }

  lemma ReadRelease(now: int, expiry: int, idempotent: bool, expired: bool, counts: seq<nat>)
    requires 0 <= now && 0 <= expiry && CountsAreExact(counts)
    ensures ReadLifecycle([0, now, expiry, if idempotent then 1 else 0, if expired then 1 else 0] + counts, true)
         == Usage(expiry, counts, idempotent, expired)
  {
    var reply := [0, now, expiry, if idempotent then 1 else 0, if expired then 1 else 0] + counts;
    assert reply[5..] == counts;
    ReadUsage(reply, 5, counts);
  }

  lemma CountsFit(e: Redis, now: int, c: Config, limit: Scope -> nat, h: Hierarchy)
    requires Ready(e, now, c, limit)
    ensures ReportsCounts(e, h, now, Counts(PurgeLevels(e.sets, h, 4, now), h))
    ensures CountsAreExact(Counts(PurgeLevels(e.sets, h, 4, now), h))
  {
    hide TtlInv, MemberInv, LeaseInv, PurgeLevels;
    PurgedCounts(e, now, limit, h);
  }

  lemma RenewTakes(e: Redis, now: int, c: Config, limit: Scope -> nat, id: LeaseId, h: Hierarchy)
    requires Inv(e, now, c, limit) && LiveLease(e, id, now) && !Overflowed(e, id) && e.leases[id].owner == h
    ensures var sets := PurgeLevels(e.sets, h, 4, now);
            RenewOn(e, now, c, id, h)
            == (Added(e.(sets := sets), now, c, id, h), [0, now, now + c.lease] + Counts(sets, h))
  {
    hide PurgeLevels, AddLevels, FirstMismatch, Counts;
    LiveLeaseMatches(e, now, id, h, 0);
  }

  lemma RenewKeeps(p: Redis, now: int, c: Config, limit: Scope -> nat, id: LeaseId, h: Hierarchy)
    requires Inv(p, now, c, limit) && c.Valid() && 0 <= now && LiveLease(p, id, now) && p.leases[id].owner == h
    ensures Inv(Added(p, now, c, id, h), now, c, limit) && SameLive(p, Added(p, now, c, id, h), now)
  {
    hide Inv, Added, LiveIn, Hierarchy.Covers;
    forall s | h.Covers(s) ensures id in LiveIn(p, s, now) {
      SetsMatchLeases(p, now, c, limit, s, id);
    }
    AddKeeps(p, now, c, limit, id, h);
    forall s ensures LiveIn(Added(p, now, c, id, h), s, now) == LiveIn(p, s, now) {
      if h.Covers(s) {
        assert LiveIn(p, s, now) + {id} == LiveIn(p, s, now);
      }
    }
  }

  /** Once the time has passed, renewing marks the lease expired. */
  lemma RenewDead(e: Redis, now: int, c: Config, limit: Scope -> nat, id: LeaseId, h: Hierarchy)
    requires Ready(e, now, c, limit) && (LiveLease(e, id, now) ==> Overflowed(e, id) || e.leases[id].owner != h)
    ensures RenewOk(e, now, c, limit, id, h)
  {
    hide RemoveLevels, LeaseInv, CountInv, TtlInv;
    if id in e.leases && !Overflowed(e, id) && e.leases[id].owner == h && e.leases[id].state == Active {
      RemoveKeeps(e, now, c, limit, id, Expired);
      assert forall s :: id !in LiveIn(e, s, now);
    }
    assert id in e.leases ==> 0 <= e.leases[id].expiry by {
      ExpiryIsNonnegative(e, now, c, id);
    }
  }

  lemma ExpiryIsNonnegative(e: Redis, now: int, c: Config, id: LeaseId)
    requires TtlInv(e, now, c)
    ensures id in e.leases ==> 0 <= e.leases[id].expiry
  {
  }

  lemma RenewIsSafe(r: Redis, t: int, now: int, c: Config, limit: Scope -> nat, id: LeaseId, h: Hierarchy)
    requires Ready(r, t, c, limit) && t <= now
    ensures RenewOk(Evaporate(r, now), now, c, limit, id, h)
  {
    hide Inv, RenewOk, Evaporate;
    WaitingKeeps(r, t, now, c, limit);
    var e := Evaporate(r, now);
    if LiveLease(e, id, now) && !Overflowed(e, id) && e.leases[id].owner == h {
      RenewLive(e, now, c, limit, id, h);
    } else {
      RenewDead(e, now, c, limit, id, h);
    }
  }

  // ---- release --------------------------------------------------------------

  ghost predicate ReleaseOk(e: Redis, now: int, c: Config, limit: Scope -> nat, id: LeaseId, h: Hierarchy) {
    var (e', reply) := ReleaseOn(e, now, id, h);
    var o := ReadLifecycle(reply, true);
    Inv(e', now, c, limit) && (o.ProtocolError? <==> Overflowed(e, id)) && ReleaseTruth(e, e', now, id, h, o)
  }

  /** The state after a release's purge and removal. */
  function Dropped(e: Redis, now: int, id: LeaseId, state: LeaseState): Redis
    requires id in e.leases
  {
    var h := e.leases[id].owner;
    Redis(RemoveLevels(PurgeLevels(e.sets, h, 4, now), h, 4, id), e.leases[id := e.leases[id].(state := state)])
  }

  lemma DropKeeps(e: Redis, now: int, c: Config, limit: Scope -> nat, id: LeaseId, state: LeaseState)
    requires Inv(e, now, c, limit) && id in e.leases && state != Active
    ensures Inv(Dropped(e, now, id, state), now, c, limit)
    ensures forall s :: LiveIn(Dropped(e, now, id, state), s, now) == LiveIn(e, s, now) - {id}
  {
    hide Inv, PurgeLevels, RemoveLevels, LiveIn, Hierarchy.Covers;
    var h := e.leases[id].owner;
    var p := e.(sets := PurgeLevels(e.sets, h, 4, now));
    PurgeKeeps(e, now, c, limit, h, 4);
    RemoveKeeps(p, now, c, limit, id, state);
    forall s ensures LiveIn(Dropped(e, now, id, state), s, now) == LiveIn(e, s, now) - {id} {
      assert LiveIn(p, s, now) == LiveIn(e, s, now);
      SetsMatchLeases(e, now, c, limit, s, id);
    }
  }

  lemma DropCounts(e: Redis, now: int, c: Config, limit: Scope -> nat, id: LeaseId, state: LeaseState)
    requires Ready(e, now, c, limit) && id in e.leases && state != Active
    ensures var e' := Dropped(e, now, id, state);
            var counts := Counts(e'.sets, e.leases[id].owner);
            ReportsCounts(e', e.leases[id].owner, now, counts) && CountsAreExact(counts)
  {
    hide Inv, PurgeLevels, RemoveLevels, Hierarchy.Level, LiveIn;
    var h := e.leases[id].owner;
    var e' := Dropped(e, now, id, state);
    DropKeeps(e, now, c, limit, id, state);
    forall i | 0 <= i < 4
      ensures |Scores(e'.sets, h.Level(i))| == |LiveIn(e', h.Level(i), now)| <= MAXIMUM_VALUE
    {
      RemovedCount(e, now, h, id, i);
      LiveIgnoresHash(e'.sets, e.leases, e'.leases, h.Level(i), now);
      BoundedLive(e', now, c, limit, h.Level(i));
    }
  }

  lemma LiveIgnoresHash(sets: map<Scope, ZSet>, l: map<LeaseId, Lease>, m: map<LeaseId, Lease>, s: Scope, now: int)
    ensures LiveIn(Redis(sets, l), s, now) == LiveIn(Redis(sets, m), s, now)
  {
  }

  lemma RemovedCount(e: Redis, now: int, h: Hierarchy, id: LeaseId, i: nat)
    requires i < 4
    ensures var removed := RemoveLevels(PurgeLevels(e.sets, h, 4, now), h, 4, id);
            |Scores(removed, h.Level(i))| == |LiveIn(Redis(removed, e.leases), h.Level(i), now)|
  {
    var sets := PurgeLevels(e.sets, h, 4, now);
    var removed := RemoveLevels(sets, h, 4, id);
    hide PurgeLevels, RemoveLevels;
    PurgeScores(e.sets, h, 4, now, h.Level(i));
    RemoveScores(sets, h, 4, id, h.Level(i));
    var scores := Scores(removed, h.Level(i));
    assert scores.Keys == LiveIn(Redis(removed, e.leases), h.Level(i), now);
    assert |scores| == |scores.Keys|;
  }

  lemma BoundedLive(e: Redis, now: int, c: Config, limit: Scope -> nat, s: Scope)
    requires Inv(e, now, c, limit) && forall x :: limit(x) <= MAXIMUM_VALUE
    ensures |LiveIn(e, s, now)| <= MAXIMUM_VALUE
  {
    assert limit(s) <= MAXIMUM_VALUE;
  }

  lemma ReleaseActive(e: Redis, now: int, c: Config, limit: Scope -> nat, id: LeaseId, h: Hierarchy)
    requires Ready(e, now, c, limit) && id in e.leases && !Overflowed(e, id) && e.leases[id].owner == h
    requires e.leases[id].state == Active
    ensures ReleaseOk(e, now, c, limit, id, h)
  {
    hide Inv, Dropped, ReleaseOn, ReadLifecycle, Counts, LiveIn, Hierarchy.Level;
    var expired := e.leases[id].expiry <= now;
    var state := if expired then Expired else Released;
    ReleaseReply(e, now, c, limit, id, h);
    DropKeeps(e, now, c, limit, id, state);
    DropCounts(e, now, c, limit, id, state);
    ReadRelease(now, e.leases[id].expiry, false, expired, Counts(Dropped(e, now, id, state).sets, h));
  }

  lemma ReleaseReply(e: Redis, now: int, c: Config, limit: Scope -> nat, id: LeaseId, h: Hierarchy)
    requires Inv(e, now, c, limit) && id in e.leases && !Overflowed(e, id) && e.leases[id].owner == h
    requires e.leases[id].state == Active
    ensures var expired := e.leases[id].expiry <= now;
            var e' := Dropped(e, now, id, if expired then Expired else Released);
            && 0 <= e.leases[id].expiry
            && e'.leases == e.leases[id := e.leases[id].(state := if expired then Expired else Released)]
            && ReleaseOn(e, now, id, h)
               == (e', [0, now, e.leases[id].expiry, 0, if expired then 1 else 0] + Counts(e'.sets, h))
  {
    hide PurgeLevels, RemoveLevels, FirstMismatch, Counts, MemberInv, LeaseInv, CountInv, LiveIn;
    if e.leases[id].expiry > now {
      PurgeKeeps(e, now, c, limit, h, 4);
      LiveLeaseMatches(e.(sets := PurgeLevels(e.sets, h, 4, now)), now, id, h, 0);
    }
  }

  lemma ReleaseAgain(e: Redis, now: int, c: Config, limit: Scope -> nat, id: LeaseId, h: Hierarchy)
    requires Ready(e, now, c, limit) && id in e.leases && !Overflowed(e, id) && e.leases[id].owner == h
    requires e.leases[id].state != Active
    ensures ReleaseOk(e, now, c, limit, id, h)
  {
    hide Inv, PurgeLevels, ReleaseOn, ReadLifecycle, Counts, LiveIn, Hierarchy.Level;
    var p := e.(sets := PurgeLevels(e.sets, h, 4, now));
    ReleaseAgainReply(e, now, c, limit, id, h);
    PurgeKeeps(e, now, c, limit, h, 4);
    CountsFit(e, now, c, limit, h);
    ReadRelease(now, e.leases[id].expiry, true, e.leases[id].state == Expired, Counts(p.sets, h));
    forall s ensures LiveIn(p, s, now) == LiveIn(e, s, now) - {id} {
      assert LiveIn(p, s, now) == LiveIn(e, s, now);
      SetsMatchLeases(e, now, c, limit, s, id);
    }
  }

  lemma ReleaseAgainReply(e: Redis, now: int, c: Config, limit: Scope -> nat, id: LeaseId, h: Hierarchy)
    requires Inv(e, now, c, limit) && id in e.leases && !Overflowed(e, id) && e.leases[id].owner == h
    requires e.leases[id].state != Active
    ensures var sets := PurgeLevels(e.sets, h, 4, now);
            && 0 <= e.leases[id].expiry
            && ReleaseOn(e, now, id, h)
               == (e.(sets := sets),
                   [0, now, e.leases[id].expiry, 1, if e.leases[id].state == Expired then 1 else 0] + Counts(sets, h))
  {
    hide PurgeLevels, FirstMember, Counts, MemberInv, LeaseInv, CountInv, LiveIn;
    DeadLeaseAbsent(e, now, id, h, 0);
  }

  lemma ReleaseRefused(e: Redis, now: int, c: Config, limit: Scope -> nat, id: LeaseId, h: Hierarchy)
    requires Ready(e, now, c, limit) && (id in e.leases ==> Overflowed(e, id) || e.leases[id].owner != h)
    ensures ReleaseOk(e, now, c, limit, id, h)
  {
    hide MemberInv, LeaseInv, CountInv;
  }

  lemma ReleaseIsSafe(r: Redis, t: int, now: int, c: Config, limit: Scope -> nat, id: LeaseId, h: Hierarchy)
    requires Ready(r, t, c, limit) && t <= now
    ensures ReleaseOk(Evaporate(r, now), now, c, limit, id, h)
  {
    hide Inv, Evaporate, ReleaseOk;
    WaitingKeeps(r, t, now, c, limit);
    var e := Evaporate(r, now);
    if id !in e.leases || Overflowed(e, id) || e.leases[id].owner != h {
      ReleaseRefused(e, now, c, limit, id, h);
    } else {
      if e.leases[id].state == Active {
        ReleaseActive(e, now, c, limit, id, h);
      } else {
        ReleaseAgain(e, now, c, limit, id, h);
      }
    }
  }

  // ---- whole runs -----------------------------------------------------------

  datatype Call =
    | CallAcquire(id: LeaseId, h: Hierarchy, hard: Limits)
    | CallRenew(id: LeaseId, h: Hierarchy)
    | CallRelease(id: LeaseId, h: Hierarchy)

  /** Limits offered by a call are positive and within limit. */
  predicate Offers(call: Call, limit: Scope -> nat) {
    call.CallAcquire? ==> forall i :: 0 <= i < 4 ==> 1 <= call.hard[i] <= limit(call.h.Level(i))
  }

  ghost function Serve(r: Redis, now: int, c: Config, call: Call): Redis
  {
    match call
    case CallAcquire(id, h, hard) => Acquire(r, now, c, id, h, hard).0
    case CallRenew(id, h) => Renew(r, now, c, id, h).0
    case CallRelease(id, h) => Release(r, now, id, h).0
  }

  ghost function ServeAll(r: Redis, c: Config, calls: seq<(int, Call)>): Redis
    decreases |calls|
  {
    if |calls| == 0 then r else ServeAll(Serve(r, calls[0].0, c, calls[0].1), c, calls[1..])
  }

  lemma ServeKeeps(r: Redis, t: int, now: int, c: Config, limit: Scope -> nat, call: Call)
    requires Ready(r, t, c, limit) && t <= now && Offers(call, limit)
    ensures Ready(Serve(r, now, c, call), now, c, limit)
    ensures forall id :: id in Evaporate(r, now).leases && r.leases[id].state != Active ==>
              id in Serve(r, now, c, call).leases && Serve(r, now, c, call).leases[id] == r.leases[id]
  {
    hide Inv, LiveIn, Hierarchy.Level, ReadAcquire, ReadLifecycle, AcquireOn, RenewOn, ReleaseOn;
    match call
    case CallAcquire(id, h, hard) => AcquireIsSafe(r, t, now, c, limit, id, h, hard);
    case CallRenew(id, h) => RenewIsSafe(r, t, now, c, limit, id, h);
    case CallRelease(id, h) => ReleaseIsSafe(r, t, now, c, limit, id, h);
  }

  /** Main theorem: with a non-decreasing server clock and one lease duration,
      every run keeps the invariant for the limits it was offered. In
      particular a scope whose limit is constant is never over it. */
  lemma {:induction false} EveryRunIsSafe(r: Redis, t: int, c: Config, limit: Scope -> nat, calls: seq<(int, Call)>)
    requires Ready(r, t, c, limit)
    requires forall i :: 0 <= i < |calls| ==> Offers(calls[i].1, limit) && t <= calls[i].0
    requires forall i, j :: 0 <= i < j < |calls| ==> calls[i].0 <= calls[j].0
    ensures Ready(ServeAll(r, c, calls), if |calls| == 0 then t else calls[|calls| - 1].0, c, limit)
    decreases |calls|
  {
    hide Ready, Serve, Offers;
    if |calls| > 0 {
      ServeKeeps(r, t, calls[0].0, c, limit, calls[0].1);
      EveryRunIsSafe(Serve(r, calls[0].0, c, calls[0].1), calls[0].0, c, limit, calls[1..]);
    }
  }

  lemma EmptyServerIsReady(t: int, c: Config, limit: Scope -> nat)
    requires 0 <= t && c.Valid() && forall s :: limit(s) <= MAXIMUM_VALUE
    ensures Ready(Redis(map[], map[]), t, c, limit)
  {
    assert forall s :: LiveIn(Redis(map[], map[]), s, t) == {};
  }

  lemma {:induction false} NothingIsFull(h: Hierarchy, hard: Limits, i: nat)
    requires i <= 4 && forall j :: 0 <= j < 4 ==> 1 <= hard[j]
    ensures FirstFull(map[], h, hard, i) == 4
    decreases 4 - i
  {
    if i < 4 {
      NothingIsFull(h, hard, i + 1);
    }
  }

  /** The exception is reachable: a first lease is granted at any time, and can be
      renewed at once unless it was to expire past the exact integers. */
  lemma FirstLeaseReadableIffExact(now: int, c: Config, id: LeaseId, h: Hierarchy, hard: Limits)
    requires 0 <= now && c.Valid() && forall i :: 0 <= i < 4 ==> 1 <= hard[i] <= MAXIMUM_VALUE
    ensures var (r, reply) := Acquire(Redis(map[], map[]), now, c, id, h, hard);
            && ReadAcquire(reply, hard).Allowed?
            && (ReadLifecycle(Renew(r, now, c, id, h).1, false).ProtocolError? <==> now + c.lease > MAXIMUM_VALUE)
  {
    hide Inv, PurgeLevels, AddLevels, FirstFull, Counts, ReadAcquire, ReadLifecycle, AcquireOn, RenewOn, LiveIn;
    var limit: Scope -> nat := (s: Scope) => MAXIMUM_VALUE;
    var none := Redis(map[], map[]);
    EmptyServerIsReady(now, c, limit);
    AcquireIsSafe(none, now, now, c, limit, id, h, hard);
    assert Evaporate(none, now) == none && PurgeLevels(none.sets, h, 4, now) == map[] by { PurgedNothing(h, now); }
    NothingIsFull(h, hard, 0);
    AcquireTakes(none, now, c, limit, id, h, hard);
    AddedLease(none, now, c, id, h);
    var r := Acquire(none, now, c, id, h, hard).0;
    ReadsAllowed(now, now + c.lease, r.sets, h, hard);
    RenewIsSafe(r, now, now, c, limit, id, h);
  }

  lemma ReadsAllowed(now: int, expiry: int, sets: map<Scope, ZSet>, h: Hierarchy, hard: Limits)
    ensures var o := ReadAcquire([1, now, expiry, 0] + Counts(sets, h), hard); o.Allowed? || o.ProtocolError?
  {
  }

  lemma PurgedNothing(h: Hierarchy, now: int)
    ensures PurgeLevels(map[], h, 4, now) == map[]
  {
  }

  // ---- what the parsers accept ---------------------------------------------------

  ghost predicate CountsIn(counts: seq<nat>, least: nat) {
    |counts| == 4 && forall i :: 0 <= i < 4 ==> least <= counts[i] <= 0x20_0000_0000_0000 - 1
  }

  /** An acquire reply is accepted only in its one form, and read back as it was written. */
  lemma AcquireReplyIsStrict(values: seq<int>, hard: Limits)
    ensures match ReadAcquire(values, hard)
            case Denied(level, count, bound, earliest) =>
              && level < 4 && bound == hard[level] && 1 <= bound <= 0x20_0000_0000_0000 - 1 && bound <= count
              && |values| == 6 && 0 <= values[5] < earliest
              && values == [0, level + 1, count, bound, earliest, values[5]]
            case Allowed(expiry, counts, idempotent) =>
              && CountsIn(counts, 1) && |values| == 8 && 0 <= values[1] < expiry
              && values == [1, values[1], expiry, if idempotent then 1 else 0] + counts
              && (!idempotent ==> forall i :: 0 <= i < 4 ==> counts[i] <= hard[i])
            case LeaseConflict => values == [2]
            case LeaseExpired => values == [4]
            case Usage(_, _, _, _) => false
            case ProtocolError => true
  {
    if ReadAcquire(values, hard).Allowed? {
      forall i | 0 <= i < 4 && values[3] == 0 ensures values[4 + i] <= hard[i] {
      }
    }
  }

  /** And so are the replies to renew and release. */
  lemma LifecycleReplyIsStrict(values: seq<int>, release: bool)
    ensures match ReadLifecycle(values, release)
            case Usage(expiry, counts, idempotent, expired) =>
              && CountsIn(counts, 0) && |values| == (if release then 9 else 7) && 0 <= values[1] && 0 <= expiry
              && (release ==>
                    values == [0, values[1], expiry, if idempotent then 1 else 0, if expired then 1 else 0] + counts)
              && (!release ==>
                    !idempotent && !expired && values[1] < expiry && values == [0, values[1], expiry] + counts)
            case LeaseExpired => values == [1]
            case LeaseConflict => values == [2]
            case ProtocolError => true
            case _ => false
  {
  }

  // ---- damaged keys ----------------------------------------------------------------

  /** The set of level i does not show what the lease record says: an active lease with its
      expiry, any other one not at all. */
  predicate Damaged(r: Redis, now: int, id: LeaseId, h: Hierarchy, i: nat)
    requires i < 4
  {
    var scores := Scores(r.sets, h.Level(i));
    if id in r.leases && r.leases[id].state == Active then !(id in scores && scores[id] == r.leases[id].expiry)
    else id in scores && now < scores[id]
  }

  lemma {:induction false} MismatchAt(sets: map<Scope, ZSet>, h: Hierarchy, id: LeaseId, expiry: int, k: nat, i: nat)
    requires k <= i < 4 && !HasScore(sets, h.Level(i), id, expiry)
    requires forall j :: k <= j < i ==> HasScore(sets, h.Level(j), id, expiry)
    ensures FirstMismatch(sets, h, id, expiry, k) == i
    decreases i - k
  {
    if k < i {
      MismatchAt(sets, h, id, expiry, k + 1, i);
    }
  }

  lemma {:induction false} StrayAt(sets: map<Scope, ZSet>, h: Hierarchy, id: LeaseId, now: int, k: nat, i: nat)
    requires k <= i < 4 && id in Purge(Scores(sets, h.Level(i)), now)
    requires forall j :: k <= j < i ==> id !in Purge(Scores(sets, h.Level(j)), now)
    ensures FirstMember(sets, h, id, now, k) == i
    decreases i - k
  {
    if k < i {
      StrayAt(sets, h, id, now, k + 1, i);
    }
  }

  /** Whatever the keys hold, the scripts that come to compare the sets with the record name
      the first level that differs, and change no record. */
  lemma DamageIsNamed(r: Redis, now: int, c: Config, id: LeaseId, h: Hierarchy, hard: Limits, i: nat)
    requires i < 4 && Damaged(r, now, id, h, i) && forall j :: 0 <= j < i ==> !Damaged(r, now, id, h, j)
    requires id in r.leases ==> 0 <= r.leases[id].expiry < 0x20_0000_0000_0000 && r.leases[id].owner == h
    ensures id !in r.leases || LiveLease(r, id, now) ==>
              var (r', reply) := AcquireOn(r, now, c, id, h, hard);
              reply == [3, i + 1] && r'.leases == r.leases
    ensures LiveLease(r, id, now) ==>
              var (r', reply) := RenewOn(r, now, c, id, h);
              reply == [3, i + 1] && r'.leases == r.leases
    ensures id in r.leases && (r.leases[id].state == Active ==> now < r.leases[id].expiry) ==>
              var (r', reply) := ReleaseOn(r, now, id, h);
              reply == [3, i + 1] && r'.leases == r.leases
  {
    hide FirstMismatch, FirstMember, FirstFull, AddLevels, RemoveLevels;
    if LiveLease(r, id, now) {
      forall j | 0 <= j < i ensures HasScore(r.sets, h.Level(j), id, r.leases[id].expiry) {
        assert !Damaged(r, now, id, h, j);
      }
      MismatchAt(r.sets, h, id, r.leases[id].expiry, 0, i);
      MismatchAt(PurgeLevels(r.sets, h, 4, now), h, id, r.leases[id].expiry, 0, i);
    } else if id !in r.leases || r.leases[id].state != Active {
      forall j | 0 <= j < i ensures id !in Purge(Scores(r.sets, h.Level(j)), now) {
        assert !Damaged(r, now, id, h, j);
      }
      StrayAt(r.sets, h, id, now, 0, i);
    }
  }

  /** A record whose expiry is out of range is named as level 0, and nothing changes. */
  lemma BadRecordIsNamed(r: Redis, now: int, c: Config, id: LeaseId, h: Hierarchy, hard: Limits)
    requires id in r.leases && (r.leases[id].expiry < 0 || r.leases[id].expiry >= 0x20_0000_0000_0000)
    ensures AcquireOn(r, now, c, id, h, hard) == RenewOn(r, now, c, id, h) == ReleaseOn(r, now, id, h) == (r, [3, 0])
  {
  }
}
