/** The distributed concurrency limiter: one lease is a member of four sorted
    sets plus a lease hash, all with their own time to live. Each Lua script is
    one atomic step of the server at its own clock. */
module RedisConcurrency {
  import opened LimitScopes

  type LeaseId = nat

  /** One fixed lease duration and retention, in milliseconds. */
  datatype Config = Config(lease: nat, retention: nat)
  {
    predicate Valid() {
      1 <= lease && 1 <= retention
    }
  }

  /** The hard limits of the four levels of one request. */
  type Limits = s: seq<nat> | |s| == 4 witness [1, 1, 1, 1]

  datatype ZSet = ZSet(scores: map<LeaseId, int>, ttl: int)

  datatype LeaseState = Active | Released | Expired

  /** The lease hash; its fingerprint identifies the hierarchy. */
  datatype Lease = Lease(state: LeaseState, owner: Hierarchy, expiry: int, ttl: int)

  datatype Redis = Redis(sets: map<Scope, ZSet>, leases: map<LeaseId, Lease>)

  function Scores(sets: map<Scope, ZSet>, s: Scope): map<LeaseId, int> {
    if s in sets then sets[s].scores else map[]
  }

  /** Keys whose time to live has passed are gone. */
  function Evaporate(r: Redis, now: int): Redis {
    Redis(map s | s in r.sets && now <= r.sets[s].ttl :: r.sets[s],
          map id | id in r.leases && now <= r.leases[id].ttl :: r.leases[id])
  }

  /** ZREMRANGEBYSCORE -inf now */
  function Purge(scores: map<LeaseId, int>, now: int): map<LeaseId, int> {
    map id | id in scores && now < scores[id] :: scores[id]
  }

  /** ZREMRANGEBYSCORE on the first n sets of a hierarchy. */
  function PurgeLevels(sets: map<Scope, ZSet>, h: Hierarchy, n: nat, now: int): map<Scope, ZSet> {
    map s | s in sets :: if h.Covers(s) && s.Rank() < n then sets[s].(scores := Purge(sets[s].scores, now)) else sets[s]
  }

  /** ZREM from the first n sets of a hierarchy. */
  function RemoveLevels(sets: map<Scope, ZSet>, h: Hierarchy, n: nat, id: LeaseId): map<Scope, ZSet> {
    map s | s in sets :: if h.Covers(s) && s.Rank() < n then sets[s].(scores := sets[s].scores - {id}) else sets[s]
  }

  /** ZADD and PEXPIREAT on the first n sets of a hierarchy. */
  function AddLevels(sets: map<Scope, ZSet>, h: Hierarchy, n: nat, id: LeaseId, expiry: int,
                     ttl: int): map<Scope, ZSet> {
    if n == 0 || n > 4 then sets
    else
      var below := AddLevels(sets, h, n - 1, id, expiry, ttl);
      below[h.Level(n - 1) := ZSet(Scores(below, h.Level(n - 1))[id := expiry], ttl)]
  }

  predicate HasScore(sets: map<Scope, ZSet>, s: Scope, id: LeaseId, expiry: int) {
    id in Scores(sets, s) && Scores(sets, s)[id] == expiry
  }

  /** The first level from i on whose set does not show the lease with its
      stored expiry, or 4. */
  function FirstMismatch(sets: map<Scope, ZSet>, h: Hierarchy, id: LeaseId, expiry: int, i: nat): nat
    requires i <= 4
    decreases 4 - i
  {
    if i == 4 || !HasScore(sets, h.Level(i), id, expiry) then i else FirstMismatch(sets, h, id, expiry, i + 1)
  }

  /** The first level from i on whose set shows the lease at all, or 4. */
  function FirstMember(sets: map<Scope, ZSet>, h: Hierarchy, id: LeaseId, now: int, i: nat): nat
    requires i <= 4
    decreases 4 - i
  {
    if i == 4 || id in Purge(Scores(sets, h.Level(i)), now) then i else FirstMember(sets, h, id, now, i + 1)
  }

  /** The first level from i on that is full, or 4. */
  function FirstFull(sets: map<Scope, ZSet>, h: Hierarchy, hard: Limits, i: nat): nat
    requires i <= 4
    decreases 4 - i
  {
    if i == 4 || |Scores(sets, h.Level(i))| >= hard[i] then i else FirstFull(sets, h, hard, i + 1)
  }

  function Counts(sets: map<Scope, ZSet>, h: Hierarchy): seq<nat> {
    [|Scores(sets, h.Level(0))|, |Scores(sets, h.Level(1))|, |Scores(sets, h.Level(2))|, |Scores(sets, h.Level(3))|]
  }

  ghost predicate IsEarliest(scores: map<LeaseId, int>, m: int) {
    (exists id :: id in scores && scores[id] == m) && forall id :: id in scores ==> m <= scores[id]
  }

  /** ZRANGE 0 0 WITHSCORES */
  ghost function Earliest(scores: map<LeaseId, int>): int {
    if m :| IsEarliest(scores, m) then m else 0
  }

  // ---- the scripts ----------------------------------------------------------

  ghost function Acquire(r: Redis, now: int, c: Config, id: LeaseId, h: Hierarchy, hard: Limits): (Redis, seq<int>)
  {
    AcquireOn(Evaporate(r, now), now, c, id, h, hard)
  }

  function Renew(r: Redis, now: int, c: Config, id: LeaseId, h: Hierarchy): (Redis, seq<int>) {
    RenewOn(Evaporate(r, now), now, c, id, h)
  }

  function Release(r: Redis, now: int, id: LeaseId, h: Hierarchy): (Redis, seq<int>) {
    ReleaseOn(Evaporate(r, now), now, id, h)
  }

  ghost function AcquireOn(r: Redis, now: int, c: Config, id: LeaseId, h: Hierarchy, hard: Limits): (Redis, seq<int>)
  {
    if id in r.leases then
      var l := r.leases[id];
      if l.expiry < 0 || l.expiry > MAXIMUM_VALUE then (r, [3, 0])
      else if l.owner != h || l.state != Active then (r, [2])
      else if l.expiry <= now then
        (Redis(RemoveLevels(r.sets, h, 4, id), r.leases[id := l.(state := Expired)]), [4])
      else
        var bad := FirstMismatch(r.sets, h, id, l.expiry, 0);
        if bad < 4 then (r.(sets := PurgeLevels(r.sets, h, bad + 1, now)), [3, bad + 1])
        else
          var sets := PurgeLevels(r.sets, h, 4, now);
          (r.(sets := sets), [1, now, l.expiry, 1] + Counts(sets, h))
    else
      var bad := FirstMember(r.sets, h, id, now, 0);
      if bad < 4 then (r.(sets := PurgeLevels(r.sets, h, bad + 1, now)), [3, bad + 1])
      else
        var sets := PurgeLevels(r.sets, h, 4, now);
        var full := FirstFull(sets, h, hard, 0);
        if full < 4 then
          var scores := Scores(sets, h.Level(full));
          (r.(sets := sets), [0, full + 1, |scores|, hard[full], Earliest(scores), now])
        else
          var expiry := now + c.lease;
          var added := AddLevels(sets, h, 4, id, expiry, expiry + c.retention);
          (Redis(added, r.leases[id := Lease(Active, h, expiry, expiry + c.retention)]),
           [1, now, expiry, 0] + Counts(added, h))
  }

  function RenewOn(r: Redis, now: int, c: Config, id: LeaseId, h: Hierarchy): (Redis, seq<int>) {
    if id !in r.leases then (r, [1])
    else
      var l := r.leases[id];
      if l.expiry < 0 || l.expiry > MAXIMUM_VALUE then (r, [3, 0])
      else if l.owner != h || l.state == Released then (r, [2])
      else if l.state == Expired then (r, [1])
      else if l.expiry <= now then
        (Redis(RemoveLevels(r.sets, h, 4, id), r.leases[id := l.(state := Expired)]), [1])
      else
        var bad := FirstMismatch(r.sets, h, id, l.expiry, 0);
        if bad < 4 then (r.(sets := PurgeLevels(r.sets, h, bad + 1, now)), [3, bad + 1])
        else
          var sets := PurgeLevels(r.sets, h, 4, now);
          var expiry := now + c.lease;
          (Redis(AddLevels(sets, h, 4, id, expiry, expiry + c.retention),
                 r.leases[id := l.(expiry := expiry, ttl := expiry + c.retention)]),
           [0, now, expiry] + Counts(sets, h))
  }

  function ReleaseOn(r: Redis, now: int, id: LeaseId, h: Hierarchy): (Redis, seq<int>) {
    if id !in r.leases then (r, [1])
    else
      var l := r.leases[id];
      if l.expiry < 0 || l.expiry > MAXIMUM_VALUE then (r, [3, 0])
      else if l.owner != h then (r, [2])
      else
        var sets := PurgeLevels(r.sets, h, 4, now);
        if l.state != Active then
          var bad := FirstMember(r.sets, h, id, now, 0);
          if bad < 4 then (r.(sets := sets), [3, bad + 1])
          else (r.(sets := sets), [0, now, l.expiry, 1, if l.state == Expired then 1 else 0] + Counts(sets, h))
        else if l.expiry <= now then
          var removed := RemoveLevels(sets, h, 4, id);
          (Redis(removed, r.leases[id := l.(state := Expired)]), [0, now, l.expiry, 0, 1] + Counts(removed, h))
        else
          var bad := FirstMismatch(sets, h, id, l.expiry, 0);
          if bad < 4 then (r.(sets := sets), [3, bad + 1])
          else
            var removed := RemoveLevels(sets, h, 4, id);
            (Redis(removed, r.leases[id := l.(state := Released)]), [0, now, l.expiry, 0, 0] + Counts(removed, h))
  }

  // ---- the Go parsers -------------------------------------------------------

  /** What a caller of the limiter gets back. */
  datatype Outcome =
    | Denied(level: nat, count: nat, hard: nat, earliest: int)
    | Allowed(expiry: int, counts: seq<nat>, idempotent: bool)
    | Usage(expiry: int, counts: seq<nat>, idempotent: bool, expired: bool)
    | LeaseConflict | LeaseExpired
    | ProtocolError

  predicate ValidCounts(values: seq<int>, offset: nat, least: nat) {
    && offset + 4 <= |values|
    && forall i :: offset <= i < offset + 4 ==> least <= values[i] <= MAXIMUM_VALUE
  }

  function CountsAt(values: seq<int>, offset: nat, least: nat): seq<nat>
    requires ValidCounts(values, offset, least)
  {
    [values[offset], values[offset + 1], values[offset + 2], values[offset + 3]]
  }

  /** parseRedisConcurrencyAcquire and the admission builders. */
  function ReadAcquire(values: seq<int>, hard: Limits): Outcome
  {
    if |values| == 0 then ProtocolError
    else if values[0] == 0 then
      if |values| != 6 || values[1] < 1 || values[1] > 4 || values[2] < 0 || values[3] < 1 || values[3] > MAXIMUM_VALUE
         || values[2] < values[3] || values[5] < 0 || values[4] <= values[5] || values[3] != hard[values[1] - 1]
      then ProtocolError
      else Denied(values[1] - 1, values[2], values[3], values[4])
    else if values[0] == 1 then
      if |values| != 8 || values[1] < 0 || values[2] <= values[1] || (values[3] != 0 && values[3] != 1)
         || !ValidCounts(values, 4, 1)
         || (values[3] == 0 && exists i :: 0 <= i < 4 && values[4 + i] > hard[i])
      then ProtocolError
      else Allowed(values[2], CountsAt(values, 4, 1), values[3] == 1)
    else if values == [2] then LeaseConflict
    else if values == [4] then LeaseExpired
    else ProtocolError
  }

  /** parseRedisConcurrencyLifecycle for renew and release. */
  function ReadLifecycle(values: seq<int>, release: bool): Outcome {
    var offset := if release then 5 else 3;
    if |values| == 0 then ProtocolError
    else if values[0] == 0 then
      if |values| != offset + 4 || values[1] < 0 || values[2] < 0 || !ValidCounts(values, offset, 0) then ProtocolError
      else if release then
        if (values[3] != 0 && values[3] != 1) || (values[4] != 0 && values[4] != 1) then ProtocolError
        else Usage(values[2], CountsAt(values, 5, 0), values[3] == 1, values[4] == 1)
      else if values[2] <= values[1] then ProtocolError
      else Usage(values[2], CountsAt(values, 3, 0), false, false)
    else if values == [1] then LeaseExpired
    else if values == [2] then LeaseConflict
    else ProtocolError
  }
}
