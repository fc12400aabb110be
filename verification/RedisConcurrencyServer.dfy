/** The concurrency scripts as they run on the server: sorted sets and lease
    hashes changed command by command, in loops over the four levels. */
module RedisConcurrencyServer {
  import opened LimitScopes
  import opened RedisConcurrency

  // ---- one command at a time ------------------------------------------------

  /** ZREMRANGEBYSCORE on one key. */
  function PurgeKey(sets: map<Scope, ZSet>, s: Scope, now: int): map<Scope, ZSet> {
    if s in sets then sets[s := sets[s].(scores := Purge(sets[s].scores, now))] else sets
  }

  /** ZREM on one key. */
  function RemoveKey(sets: map<Scope, ZSet>, s: Scope, id: LeaseId): map<Scope, ZSet> {
    if s in sets then sets[s := sets[s].(scores := sets[s].scores - {id})] else sets
  }

  lemma PurgeStep(sets: map<Scope, ZSet>, h: Hierarchy, i: nat, now: int)
    requires i < 4
    ensures PurgeLevels(sets, h, i + 1, now) == PurgeKey(PurgeLevels(sets, h, i, now), h.Level(i), now)
    ensures PurgeLevels(sets, h, 0, now) == sets
  {
  }

  lemma RemoveStep(sets: map<Scope, ZSet>, h: Hierarchy, i: nat, id: LeaseId)
    requires i < 4
    ensures RemoveLevels(sets, h, i + 1, id) == RemoveKey(RemoveLevels(sets, h, i, id), h.Level(i), id)
    ensures RemoveLevels(sets, h, 0, id) == sets
  {
  }

  lemma PurgedLevel(sets: map<Scope, ZSet>, h: Hierarchy, n: nat, now: int, i: nat)
    requires i < n <= 4
    ensures Scores(PurgeLevels(sets, h, n, now), h.Level(i)) == Purge(Scores(sets, h.Level(i)), now)
  {
  }

  /** Later removals do not touch the level that has just been counted. */
  lemma RemovedLevel(sets: map<Scope, ZSet>, h: Hierarchy, id: LeaseId, i: nat)
    requires i < 4
    ensures var counts := Counts(RemoveLevels(sets, h, 4, id), h);
            |counts| == 4 && counts[i] == |Scores(RemoveLevels(sets, h, i + 1, id), h.Level(i))|
  {
    var all, some := RemoveLevels(sets, h, 4, id), RemoveLevels(sets, h, i + 1, id);
    assert Scores(all, h.Level(i)) == Scores(some, h.Level(i));
    CountsLevel(all, h, i);
  }

  lemma {:induction false} AddedLevel(sets: map<Scope, ZSet>, h: Hierarchy, n: nat, id: LeaseId, expiry: int, ttl: int,
                                      i: nat)
    requires i < 4 && n <= 4
    ensures Scores(AddLevels(sets, h, n, id, expiry, ttl), h.Level(i))
         == if i < n then Scores(sets, h.Level(i))[id := expiry] else Scores(sets, h.Level(i))
  {
    if n > 0 {
      AddedLevel(sets, h, n - 1, id, expiry, ttl, i);
      assert i != n - 1 ==> h.Level(i) != h.Level(n - 1);
    }
  }

  lemma EarliestIsUnique(scores: map<LeaseId, int>, m: int)
    requires IsEarliest(scores, m)
    ensures Earliest(scores) == m
  {
  }

  /** ZRANGE 0 0 WITHSCORES on a non-empty set. */
  method FirstScore(scores: map<LeaseId, int>) returns (m: int)
    requires scores != map[]
    ensures IsEarliest(scores, m) && m == Earliest(scores)
  {
    var first :| first in scores;
    m := scores[first];
    var left := scores.Keys - {first};
    while left != {}
      invariant left <= scores.Keys
      invariant exists id :: id in scores && scores[id] == m
      invariant forall id :: id in scores && id !in left ==> m <= scores[id]
      decreases |left|
    {
      var id :| id in left;
      m := if scores[id] < m then scores[id] else m;
      left := left - {id};
    }
    EarliestIsUnique(scores, m);
  }

  class Server {
    var sets: map<Scope, ZSet>
    var leases: map<LeaseId, Lease>

    constructor ()
      ensures View() == Redis(map[], map[])
    {
      sets, leases := map[], map[];
    }

    function View(): Redis
      reads this
    {
      Redis(sets, leases)
    }

    /** Keys past their time to live disappear before a script sees them. */
    method Expire(now: int)
      modifies this
      ensures View() == Evaporate(old(View()), now)
    {
      sets := map s | s in sets && now <= sets[s].ttl :: sets[s];
      leases := map id | id in leases && now <= leases[id].ttl :: leases[id];
    }

    /** The purge and ZSCORE loop over an active lease. */
    method PurgeExpecting(now: int, id: LeaseId, h: Hierarchy, expiry: int) returns (bad: nat, counts: seq<nat>)
      requires now < expiry
      modifies `sets
      ensures bad == FirstMismatch(old(sets), h, id, expiry, 0) <= 4
      ensures sets == PurgeLevels(old(sets), h, if bad < 4 then bad + 1 else 4, now)
      ensures bad == 4 ==> counts == Counts(sets, h)
    {
      hide PurgeLevels, Hierarchy.Level, Hierarchy.Covers, PurgeKey, Counts;
      PurgeStep(sets, h, 0, now);
      counts := [];
      var i := 0;
      while i < 4
        invariant 0 <= i <= 4 && |counts| == i
        invariant sets == PurgeLevels(old(sets), h, i, now)
        invariant FirstMismatch(old(sets), h, id, expiry, 0) == FirstMismatch(old(sets), h, id, expiry, i)
        invariant forall j :: 0 <= j < i ==> counts[j] == |Purge(Scores(old(sets), h.Level(j)), now)|
      {
        PurgeStep(old(sets), h, i, now);
        PurgedLevel(old(sets), h, i + 1, now, i);
        sets := PurgeKey(sets, h.Level(i), now);
        var scores := Scores(sets, h.Level(i));
        if id !in scores || scores[id] != expiry {
          return i, counts;
        }
        counts := counts + [|scores|];
        i := i + 1;
      }
      forall j | 0 <= j < 4 ensures |Counts(sets, h)| == 4 && counts[j] == Counts(sets, h)[j] {
        PurgedLevel(old(sets), h, 4, now, j);
        CountsLevel(sets, h, j);
      }
      bad := 4;
    }

    /** The purge loop over a lease that no set may show, finding the counts
        and, where a level is full, the earliest expiry in it. */
    method PurgeExpectingNone(now: int, id: LeaseId, h: Hierarchy, hard: Limits)
      returns (bad: nat, counts: seq<nat>, earliest: seq<int>)
      requires forall i :: 0 <= i < 4 ==> 1 <= hard[i]
      modifies `sets
      ensures bad == FirstMember(old(sets), h, id, now, 0) <= 4
      ensures sets == PurgeLevels(old(sets), h, if bad < 4 then bad + 1 else 4, now)
      ensures bad == 4 ==> counts == Counts(sets, h) && |earliest| == 4
      ensures bad == 4 ==>
                forall i :: 0 <= i < 4 && counts[i] >= hard[i] ==> earliest[i] == Earliest(Scores(sets, h.Level(i)))
    {
      hide PurgeLevels, Hierarchy.Level, Hierarchy.Covers, PurgeKey, Scores, Counts, Earliest;
      PurgeStep(sets, h, 0, now);
      counts, earliest := [], [];
      var i := 0;
      while i < 4
        invariant 0 <= i <= 4 && |counts| == |earliest| == i
        invariant sets == PurgeLevels(old(sets), h, i, now)
        invariant FirstMember(old(sets), h, id, now, 0) == FirstMember(old(sets), h, id, now, i)
        invariant forall j :: 0 <= j < i ==> counts[j] == |Purge(Scores(old(sets), h.Level(j)), now)|
        invariant forall j :: 0 <= j < i && counts[j] >= hard[j] ==>
                    earliest[j] == Earliest(Purge(Scores(old(sets), h.Level(j)), now))
      {
        PurgeStep(old(sets), h, i, now);
        PurgedLevel(old(sets), h, i + 1, now, i);
        sets := PurgeKey(sets, h.Level(i), now);
        var scores := Scores(sets, h.Level(i));
        if id in scores {
          return i, counts, earliest;
        }
        var first := 0;
        if |scores| >= hard[i] {
          first := FirstScore(scores);
          // The script's own doubts about an empty or stale full set are idle.
          assert now < first;
        }
        counts, earliest := counts + [|scores|], earliest + [first];
        i := i + 1;
      }
      forall j | 0 <= j < 4 ensures |Counts(sets, h)| == 4 && counts[j] == Counts(sets, h)[j] {
        PurgedLevel(old(sets), h, 4, now, j);
        CountsLevel(sets, h, j);
      }
      forall j | 0 <= j < 4 && counts[j] >= hard[j] ensures earliest[j] == Earliest(Scores(sets, h.Level(j))) {
        PurgedLevel(old(sets), h, 4, now, j);
      }
      bad := 4;
    }

    /** ZADD and PEXPIREAT on every level. */
    method AddEverywhere(id: LeaseId, h: Hierarchy, expiry: int, ttl: int)
      modifies `sets
      ensures sets == AddLevels(old(sets), h, 4, id, expiry, ttl)
    {
      var i := 0;
      while i < 4
        invariant 0 <= i <= 4
        invariant sets == AddLevels(old(sets), h, i, id, expiry, ttl)
      {
        sets := sets[h.Level(i) := ZSet(Scores(sets, h.Level(i))[id := expiry], ttl)];
        i := i + 1;
      }
    }

    /** ZREM and ZCARD on every level. */
    method RemoveEverywhere(id: LeaseId, h: Hierarchy) returns (counts: seq<nat>)
      modifies `sets
      ensures sets == RemoveLevels(old(sets), h, 4, id) && counts == Counts(sets, h)
    {
      hide RemoveLevels, Hierarchy.Level, Hierarchy.Covers, RemoveKey, Scores, Counts;
      RemoveStep(sets, h, 0, id);
      counts := [];
      var i := 0;
      while i < 4
        invariant 0 <= i <= 4 && |counts| == i
        invariant sets == RemoveLevels(old(sets), h, i, id)
        invariant counts <= Counts(RemoveLevels(old(sets), h, 4, id), h)
      {
        RemoveStep(old(sets), h, i, id);
        RemovedLevel(old(sets), h, id, i);
        sets := RemoveKey(sets, h.Level(i), id);
        counts := counts + [|Scores(sets, h.Level(i))|];
        i := i + 1;
      }
      CountsLevel(sets, h, 0);
    }

    /** The acquire script. */
    method AcquireScript(now: int, c: Config, id: LeaseId, h: Hierarchy, hard: Limits) returns (reply: seq<int>)
      requires forall i :: 0 <= i < 4 ==> 1 <= hard[i]
      modifies this
      ensures (View(), reply) == Acquire(old(View()), now, c, id, h, hard)
    {
      hide PurgeLevels, RemoveLevels, AddLevels, Hierarchy.Level, Hierarchy.Covers, Counts, FirstMismatch, FirstMember,
           Evaporate;
      Expire(now);
      if id in leases {
        var l := leases[id];
        if l.expiry < 0 || l.expiry > MAXIMUM_VALUE { return [3, 0]; }
        if l.owner != h || l.state != Active { return [2]; }
        if l.expiry <= now {
          var _ := RemoveEverywhere(id, h);
          leases := leases[id := l.(state := Expired)];
          return [4];
        }
        var bad, counts := PurgeExpecting(now, id, h, l.expiry);
        if bad < 4 { return [3, bad + 1]; }
        return [1, now, l.expiry, 1] + counts;
      }
      reply := TakeNew(now, c, id, h, hard);
    }

    /** A lease that the server does not know yet. */
    method TakeNew(now: int, c: Config, id: LeaseId, h: Hierarchy, hard: Limits) returns (reply: seq<int>)
      requires id !in leases && forall i :: 0 <= i < 4 ==> 1 <= hard[i]
      modifies this
      ensures (View(), reply) == AcquireOn(old(View()), now, c, id, h, hard)
    {
      hide PurgeLevels, AddLevels, Hierarchy.Level, Hierarchy.Covers, Counts, Scores, FirstMember, Earliest;
      var bad, counts, earliest := PurgeExpectingNone(now, id, h, hard);
      if bad < 4 { return [3, bad + 1]; }
      ghost var purged := sets;
      var i := 0;
      while i < 4
        invariant 0 <= i <= 4
        invariant sets == purged && leases == old(leases)
        invariant FirstFull(sets, h, hard, 0) == FirstFull(sets, h, hard, i)
      {
        CountsLevel(sets, h, i);
        if counts[i] >= hard[i] {
          return [0, i + 1, counts[i], hard[i], earliest[i], now];
        }
        i := i + 1;
      }
      var expiry := now + c.lease;
      AddEverywhere(id, h, expiry, expiry + c.retention);
      AddedCounts(old(sets), now, h, id, expiry, expiry + c.retention);
      leases := leases[id := Lease(Active, h, expiry, expiry + c.retention)];
      CountsLevel(purged, h, 0);
      CountsLevel(sets, h, 0);
      counts := [counts[0] + 1, counts[1] + 1, counts[2] + 1, counts[3] + 1];
      assert counts == Counts(sets, h);
      reply := [1, now, expiry, 0] + counts;
    }

    /** The renew script. */
    method RenewScript(now: int, c: Config, id: LeaseId, h: Hierarchy) returns (reply: seq<int>)
      modifies this
      ensures (View(), reply) == Renew(old(View()), now, c, id, h)
    {
      hide PurgeLevels, RemoveLevels, AddLevels, Hierarchy.Level, Hierarchy.Covers, Counts, FirstMismatch, Evaporate;
      Expire(now);
      if id !in leases { return [1]; }
      var l := leases[id];
      if l.expiry < 0 || l.expiry > MAXIMUM_VALUE { return [3, 0]; }
      if l.owner != h || l.state == Released { return [2]; }
      if l.state == Expired { return [1]; }
      if l.expiry <= now {
        var _ := RemoveEverywhere(id, h);
        leases := leases[id := l.(state := Expired)];
        return [1];
      }
      var bad, counts := PurgeExpecting(now, id, h, l.expiry);
      if bad < 4 { return [3, bad + 1]; }
      var expiry := now + c.lease;
      AddEverywhere(id, h, expiry, expiry + c.retention);
      leases := leases[id := l.(expiry := expiry, ttl := expiry + c.retention)];
      reply := [0, now, expiry] + counts;
    }

    /** The release script. */
    method ReleaseScript(now: int, id: LeaseId, h: Hierarchy) returns (reply: seq<int>)
      modifies this
      ensures (View(), reply) == Release(old(View()), now, id, h)
    {
      Expire(now);
      ghost var start := sets;
      if id !in leases { return [1]; }
      var l := leases[id];
      if l.expiry < 0 || l.expiry > MAXIMUM_VALUE { return [3, 0]; }
      if l.owner != h { return [2]; }
      PurgeStep(sets, h, 0, now);
      var i := 0;
      while i < 4
        invariant 0 <= i <= 4
        invariant sets == PurgeLevels(start, h, i, now) && leases == Evaporate(old(View()), now).leases
      {
        PurgeStep(start, h, i, now);
        sets := PurgeKey(sets, h.Level(i), now);
        i := i + 1;
      }
      if l.state != Active {
        reply := ReportEnded(start, now, id, h, l);
        return;
      }
      if l.expiry <= now {
        var counts := RemoveEverywhere(id, h);
        leases := leases[id := l.(state := Expired)];
        return [0, now, l.expiry, 0, 1] + counts;
      }
      var j := 0;
      while j < 4
        invariant 0 <= j <= 4
        invariant FirstMismatch(sets, h, id, l.expiry, 0) == FirstMismatch(sets, h, id, l.expiry, j)
      {
        if !HasScore(sets, h.Level(j), id, l.expiry) { return [3, j + 1]; }
        j := j + 1;
      }
      var counts := RemoveEverywhere(id, h);
      leases := leases[id := l.(state := Released)];
      reply := [0, now, l.expiry, 0, 0] + counts;
    }

    /** Releasing a lease that has already ended. */
    method ReportEnded(ghost start: map<Scope, ZSet>, now: int, id: LeaseId, h: Hierarchy,
                       l: Lease) returns (reply: seq<int>)
      requires sets == PurgeLevels(start, h, 4, now)
      ensures var bad := FirstMember(start, h, id, now, 0);
              reply == if bad < 4 then [3, bad + 1]
                       else [0, now, l.expiry, 1, if l.state == Expired then 1 else 0] + Counts(sets, h)
    {
      var counts := [];
      var i := 0;
      while i < 4
        invariant 0 <= i <= 4 && |counts| == i
        invariant FirstMember(start, h, id, now, 0) == FirstMember(start, h, id, now, i)
        invariant forall j :: 0 <= j < i ==> counts[j] == Counts(sets, h)[j]
      {
        PurgedLevel(start, h, 4, now, i);
        var scores := Scores(sets, h.Level(i));
        if id in scores { return [3, i + 1]; }
        counts := counts + [|scores|];
        i := i + 1;
      }
      var expired := if l.state == Expired then 1 else 0;
      assert counts == Counts(sets, h);
      reply := [0, now, l.expiry, 1, expired] + counts;
    }
  }

  lemma CountsLevel(sets: map<Scope, ZSet>, h: Hierarchy, i: nat)
    requires i < 4
    ensures |Counts(sets, h)| == 4 && Counts(sets, h)[i] == |Scores(sets, h.Level(i))|
  {
  }

  /** Every level gains one member. */
  lemma AddedCounts(sets: map<Scope, ZSet>, now: int, h: Hierarchy, id: LeaseId, expiry: int, ttl: int)
    requires FirstMember(sets, h, id, now, 0) == 4
    ensures var purged := PurgeLevels(sets, h, 4, now);
            forall j :: 0 <= j < 4 ==>
              Counts(AddLevels(purged, h, 4, id, expiry, ttl), h)[j] == Counts(purged, h)[j] + 1
  {
    hide PurgeLevels, AddLevels, Hierarchy.Level, Hierarchy.Covers, Scores, FirstMember;
    var purged := PurgeLevels(sets, h, 4, now);
    forall j | 0 <= j < 4
      ensures Counts(AddLevels(purged, h, 4, id, expiry, ttl), h)[j] == Counts(purged, h)[j] + 1
    {
      AddedLevel(purged, h, 4, id, expiry, ttl, j);
      PurgedLevel(sets, h, 4, now, j);
      NoMember(sets, h, id, now, 0, j);
      InsertCounts(Scores(purged, h.Level(j)), id, expiry);
      CountsLevel(purged, h, j);
      CountsLevel(AddLevels(purged, h, 4, id, expiry, ttl), h, j);
    }
  }

  lemma InsertCounts(scores: map<LeaseId, int>, id: LeaseId, expiry: int)
    requires id !in scores
    ensures |scores[id := expiry]| == |scores| + 1
  {
    assert scores[id := expiry].Keys == scores.Keys + {id};
  }

  lemma {:induction false} NoMember(sets: map<Scope, ZSet>, h: Hierarchy, id: LeaseId, now: int, i: nat, j: nat)
    requires i <= j < 4 && FirstMember(sets, h, id, now, i) == 4
    ensures id !in Purge(Scores(sets, h.Level(j)), now)
    decreases 4 - i
  {
    if i < j {
      NoMember(sets, h, id, now, i + 1, j);
    }
  }
}
