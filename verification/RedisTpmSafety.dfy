/** Conservation, bounds and exactly-once effects of the distributed
    tokens-per-minute limiter, over every run of its scripts. */
module RedisTpmSafety {
  import opened LimitScopes
  import opened RedisTpm
  import opened Sums

  /** What a reservation weighs in its minute. */
  function Charge(r: Record): nat {
    if r.Pending? then r.reserved else r.actual
  }

  function Overage(r: Record): nat {
    if r.Settled? && r.actual > r.reserved then r.actual - r.reserved else 0
  }

  ghost function ChargeUnder(s: Scope): (ReservationId, Record) -> int {
    (id: ReservationId, r: Record) => if r.owner.Covers(s) then Charge(r) else 0
  }

  ghost function OverageUnder(s: Scope): (ReservationId, Record) -> int {
    (id: ReservationId, r: Record) => if r.owner.Covers(s) then Overage(r) else 0
  }

  ghost predicate RecordInv(hash: Hash) {
    forall id :: id in hash.records ==>
      && 1 <= hash.records[id].reserved <= MAXIMUM_VALUE
      && (hash.records[id].Settled? ==> hash.records[id].actual <= MAXIMUM_VALUE)
      && forall s :: hash.records[id].owner.Covers(s) ==> s in hash.counters
  }

  /** Every counter is the pending reserved plus settled actual tokens of the
      reservations under its scope. */
  ghost predicate CounterInv(hash: Hash) {
    forall s :: CountAt(hash.counters, s) == Total(hash.records, ChargeUnder(s))
  }

  ghost predicate BoundInv(hash: Hash, limit: Scope -> nat) {
    forall s ::
      Exact(CountAt(hash.counters, s)) && CountAt(hash.counters, s) <= limit(s) + Total(hash.records, OverageUnder(s))
  }

  ghost predicate HashInv(hash: Hash, limit: Scope -> nat) {
    RecordInv(hash) && CounterInv(hash) && BoundInv(hash, limit)
  }

  ghost predicate Inv(r: Redis, limit: Scope -> nat) {
    forall w :: w in r ==> HashInv(r[w], limit)
  }

  lemma EmptyHashIsConsistent(limit: Scope -> nat)
    ensures HashInv(EMPTY_HASH, limit)
  {
    forall s
      ensures Total(EMPTY_HASH.records, ChargeUnder(s)) == 0 == Total(EMPTY_HASH.records, OverageUnder(s))
    {
      TotalEmpty(EMPTY_HASH.records, ChargeUnder(s));
      TotalEmpty(EMPTY_HASH.records, OverageUnder(s));
    }
  }

  // ---- counters -------------------------------------------------------------

  lemma {:induction false} AddedAt(counters: map<Scope, int>, h: Hierarchy, delta: int, n: nat, s: Scope)
    requires n <= 4
    ensures var added := AddLevels(counters, h, delta, n);
            && CountAt(added, s) == CountAt(counters, s) + (if h.Covers(s) && s.Rank() < n then delta else 0)
            && (s in added <==> s in counters || (h.Covers(s) && s.Rank() < n))
  {
    if n > 0 {
      AddedAt(counters, h, delta, n - 1, s);
    }
  }

  lemma {:induction false} ReadableFrom(counters: map<Scope, int>, h: Hierarchy, absentIsZero: bool, i: nat)
    requires i <= 4 && forall s :: Exact(CountAt(counters, s))
    requires absentIsZero || forall s :: h.Covers(s) ==> s in counters
    ensures FirstUnreadable(counters, h, absentIsZero, i) == 4
    decreases 4 - i
  {
    if i < 4 {
      assert h.Covers(h.Level(i));
      ReadableFrom(counters, h, absentIsZero, i + 1);
    }
  }

  lemma {:induction false} OverFrom(counters: map<Scope, int>, p: Plan, i: nat)
    requires i <= 4
    ensures var over := FirstOver(counters, p.owner, p.requested, p.hard, i);
            && i <= over <= 4
            && (forall j :: i <= j < over ==> CountAt(counters, p.owner.Level(j)) + p.requested <= p.hard[j])
            && (over < 4 && 0 <= CountAt(counters, p.owner.Level(over)) ==>
                  CountAt(counters, p.owner.Level(over)) + p.requested > p.hard[over])
    decreases 4 - i
  {
    if i < 4 {
      OverFrom(counters, p, i + 1);
    }
  }

  lemma {:induction false} OutOfRangeFrom(counters: map<Scope, int>, h: Hierarchy, delta: int, i: nat)
    requires i <= 4
    requires forall j :: 0 <= j < 4 ==> 0 <= CountAt(counters, h.Level(j)) + delta
    ensures var out := FirstOutOfRange(counters, h, delta, i);
            && i <= out <= 4
            && (forall j :: i <= j < out && 0 < delta ==> CountAt(counters, h.Level(j)) + delta <= MAXIMUM_VALUE)
            && (out < 4 ==> 0 < delta && CountAt(counters, h.Level(out)) + delta > MAXIMUM_VALUE)
    decreases 4 - i
  {
    if i < 4 {
      assert 0 <= CountAt(counters, h.Level(i)) + delta;
      OutOfRangeFrom(counters, h, delta, i + 1);
    }
  }

  // ---- what the operations say and do --------------------------------------

  ghost predicate Bumped(hash: Hash, hash': Hash, h: Hierarchy, delta: int) {
    forall s :: CountAt(hash'.counters, s) == CountAt(hash.counters, s) + if h.Covers(s) then delta else 0
  }

  /** Whether every level has room for the plan. */
  ghost predicate Fits(hash: Hash, p: Plan) {
    forall j :: 0 <= j < 4 ==> CountAt(hash.counters, p.owner.Level(j)) + p.requested <= p.hard[j]
  }

  predicate IsMinuteOf(window: int, now: int) {
    window * 60_000 <= now < (window + 1) * 60_000
  }

  ghost predicate ReserveTruth(hash: Hash, hash': Hash, window: int, now: int, retention: nat, p: Plan,
                               o: ReserveOutcome) {
    match o
    case Moved(w) => window != w && w * 60_000 <= now < (w + 1) * 60_000 && hash' == hash
    case ReserveConflict =>
      IsMinuteOf(window, now) && p.id in hash.records && hash.records[p.id] != Pending(p.requested, p.owner)
      && hash' == hash
    case Denied(level, count, hard, reset) =>
      && IsMinuteOf(window, now) && p.id !in hash.records && hash' == hash
      && level < 4 && hard == p.hard[level] && count == CountAt(hash.counters, p.owner.Level(level))
      && count + p.requested > hard
      && (forall j :: 0 <= j < level ==> CountAt(hash.counters, p.owner.Level(j)) + p.requested <= p.hard[j])
      && reset == (window + 1) * 60_000
    case Reserved(counts, expires, idempotent) =>
      && IsMinuteOf(window, now) && expires == (window + 1) * 60_000 + retention
      && counts == Counts(hash'.counters, p.owner)
      && p.id in hash'.records && hash'.records[p.id] == Pending(p.requested, p.owner)
      && if idempotent then hash' == hash
         else p.id !in hash.records && Fits(hash, p)
              && hash'.records == hash.records[p.id := Pending(p.requested, p.owner)]
              && Bumped(hash, hash', p.owner, p.requested)
    case _ => false
  }

  /** A correction that some counter has no room for. */
  ghost predicate Overflows(hash: Hash, h: Handle, actual: nat, level: nat) {
    level < 4 && CountAt(hash.counters, h.owner.Level(level)) + actual - h.reserved > MAXIMUM_VALUE
  }

  ghost predicate SettleTruth(hash: Hash, hash': Hash, h: Handle, actual: nat, o: SettleOutcome) {
    match o
    case SettleMissing => h.id !in hash.records && hash' == hash
    case SettleConflict =>
      && h.id in hash.records && hash.records[h.id] != Pending(h.reserved, h.owner)
      && hash.records[h.id] != Settled(h.reserved, actual, h.owner) && hash' == hash
    case SettleCorrupt(level) =>
      && h.id in hash.records && hash.records[h.id] == Pending(h.reserved, h.owner) && hash' == hash
      && 0 <= level && Overflows(hash, h, actual, level) && forall j: nat :: j < level ==>
           !Overflows(hash, h, actual, j)
    case Corrected(released, overage, counts, idempotent) =>
      && released as int - overage == h.reserved - actual && (released == 0 || overage == 0)
      && counts == Counts(hash'.counters, h.owner)
      && h.id in hash.records && h.id in hash'.records && hash'.records[h.id] == Settled(h.reserved, actual, h.owner)
      && if idempotent then hash' == hash
         else hash.records[h.id] == Pending(h.reserved, h.owner)
              && (forall j: nat :: !Overflows(hash, h, actual, j))
              && hash'.records == hash.records[h.id := Settled(h.reserved, actual, h.owner)]
              && Bumped(hash, hash', h.owner, actual - h.reserved)
    case SettleProtocolError => false
  }

  /** The limits that a plan carries are at most the given ones; policies may change
      from plan to plan. */
  ghost predicate Offers(p: Plan, limit: Scope -> nat) {
    p.Valid() && forall i :: 0 <= i < 4 ==> p.hard[i] <= limit(p.owner.Level(i)) <= MAXIMUM_VALUE
  }

  // ---- reserve --------------------------------------------------------------

  lemma PendingIsCounted(hash: Hash, id: ReservationId, i: nat)
    requires CounterInv(hash) && id in hash.records && i < 4
    ensures CountAt(hash.counters, hash.records[id].owner.Level(i)) >= Charge(hash.records[id])
  {
    hide Total;
    var s := hash.records[id].owner.Level(i);
    TotalBound(hash.records, ChargeUnder(s));
    assert ChargeUnder(s)(id, hash.records[id]) <= Total(hash.records, ChargeUnder(s));
  }

  lemma ReserveAddsRecord(hash: Hash, limit: Scope -> nat, p: Plan, hash': Hash)
    requires HashInv(hash, limit) && Offers(p, limit) && p.id !in hash.records && Fits(hash, p)
    requires hash'
             == Hash(AddLevels(hash.counters, p.owner, p.requested, 4),
                     hash.records[p.id := Pending(p.requested, p.owner)])
    ensures HashInv(hash', limit) && Bumped(hash, hash', p.owner, p.requested)
  {
    hide AddLevels, Total, Fits;
    forall s
      ensures CountAt(hash'.counters, s) == CountAt(hash.counters, s) + (if p.owner.Covers(s) then p.requested else 0)
      ensures s in hash'.counters <==> s in hash.counters || p.owner.Covers(s)
      ensures CountAt(hash'.counters, s) == Total(hash'.records, ChargeUnder(s))
      ensures Exact(CountAt(hash'.counters, s))
              && CountAt(hash'.counters, s) <= limit(s) + Total(hash'.records, OverageUnder(s))
    {
      AddedAt(hash.counters, p.owner, p.requested, 4, s);
      TotalInsert(hash.records, p.id, Pending(p.requested, p.owner), ChargeUnder(s));
      TotalInsert(hash.records, p.id, Pending(p.requested, p.owner), OverageUnder(s));
      if p.owner.Covers(s) {
        RoomAt(hash, p, limit, s);
        TotalBound(hash.records, OverageUnder(s));
      }
    }
  }

  lemma RoomAt(hash: Hash, p: Plan, limit: Scope -> nat, s: Scope)
    requires Offers(p, limit) && Fits(hash, p) && p.owner.Covers(s)
    ensures CountAt(hash.counters, s) + p.requested <= limit(s) <= MAXIMUM_VALUE
  {
    var i := s.Rank();
    assert s == p.owner.Level(i) && p.hard[i] <= limit(p.owner.Level(i));
    assert CountAt(hash.counters, p.owner.Level(i)) + p.requested <= p.hard[i];
  }

  lemma ReadsReserved(window: int, now: int, retention: nat, p: Plan, idempotent: bool, counts: seq<int>)
    requires window == WindowOf(now) && 0 <= now && 1 <= retention && |counts| == 4
    requires forall i :: 0 <= i < 4 ==> 1 <= counts[i] <= MAXIMUM_VALUE && (!idempotent ==> counts[i] <= p.hard[i])
    ensures ReadReserve([1, window, now, Reset(window), Expiry(window, retention), if idempotent then 1
                         else 0] + counts, window, retention, p)
         == Reserved(counts, Expiry(window, retention), idempotent)
  {
    var flag := if idempotent then 1 else 0;
    var values := [1, window, now, Reset(window), Expiry(window, retention), flag] + counts;
    assert values[6] == counts[0] && values[7] == counts[1] && values[8] == counts[2] && values[9] == counts[3];
    assert forall i :: 0 <= i < 4 ==> values[6 + i] == counts[i];
  }

  ghost predicate ReserveOk(hash: Hash, limit: Scope -> nat, window: int, now: int, retention: nat, p: Plan) {
    var (hash', reply) := ReserveOn(hash, window, now, retention, p);
    HashInv(hash', limit)
    && ReserveTruth(hash, hash', window, now, retention, p, ReadReserve(reply, window, retention, p))
  }

  lemma CountsAre(counters: map<Scope, int>, h: Hierarchy)
    ensures |Counts(counters, h)| == 4 && forall i :: 0 <= i < 4 ==>
              Counts(counters, h)[i] == CountAt(counters, h.Level(i))
  {
  }

  lemma ReserveRepeats(hash: Hash, limit: Scope -> nat, window: int, now: int, retention: nat, p: Plan)
    requires HashInv(hash, limit) && Offers(p, limit) && 0 <= now && 1 <= retention
    requires window == WindowOf(now) && p.id in hash.records
    ensures ReserveOk(hash, limit, window, now, retention, p)
  {
    hide Total, FirstOver, AddLevels, Counts, ReadReserve;
    ReadableFrom(hash.counters, p.owner, true, 0);
    if hash.records[p.id] == Pending(p.requested, p.owner) {
      CountsAre(hash.counters, p.owner);
      forall i | 0 <= i < 4 ensures 1 <= Counts(hash.counters, p.owner)[i] <= MAXIMUM_VALUE {
        PendingIsCounted(hash, p.id, i);
      }
      ReadsReserved(window, now, retention, p, true, Counts(hash.counters, p.owner));
    } else {
      assert ReadReserve([4], window, retention, p) == ReserveConflict by { ReadsConflict(window, retention, p); }
    }
  }

  lemma ReadsConflict(window: int, retention: nat, p: Plan)
    ensures ReadReserve([4], window, retention, p) == ReserveConflict
  {
  }

  lemma ReserveIsNew(hash: Hash, limit: Scope -> nat, window: int, now: int, retention: nat, p: Plan)
    requires HashInv(hash, limit) && Offers(p, limit) && 0 <= now && 1 <= retention
    requires window == WindowOf(now) && p.id !in hash.records
    requires FirstOver(hash.counters, p.owner, p.requested, p.hard, 0) == 4
    ensures ReserveOk(hash, limit, window, now, retention, p)
  {
    hide Total, AddLevels, Counts, ReadReserve, CounterInv, RecordInv;
    ReadableFrom(hash.counters, p.owner, true, 0);
    OverFrom(hash.counters, p, 0);
    var hash' := Hash(AddLevels(hash.counters, p.owner, p.requested, 4),
                      hash.records[p.id := Pending(p.requested, p.owner)]);
    ReserveAddsRecord(hash, limit, p, hash');
    CountsAre(hash'.counters, p.owner);
    forall i | 0 <= i < 4
      ensures 1 <= Counts(hash'.counters, p.owner)[i] <= MAXIMUM_VALUE
              && Counts(hash'.counters, p.owner)[i] <= p.hard[i]
    {
      assert CountAt(hash'.counters, p.owner.Level(i)) == CountAt(hash.counters, p.owner.Level(i)) + p.requested;
      assert Exact(CountAt(hash.counters, p.owner.Level(i)));
      assert CountAt(hash.counters, p.owner.Level(i)) + p.requested <= p.hard[i];
    }
    ReadsReserved(window, now, retention, p, false, Counts(hash'.counters, p.owner));
  }

  lemma ReserveIsDenied(hash: Hash, limit: Scope -> nat, window: int, now: int, retention: nat, p: Plan)
    requires HashInv(hash, limit) && Offers(p, limit) && 0 <= now && 1 <= retention
    requires window == WindowOf(now) && p.id !in hash.records
    requires FirstOver(hash.counters, p.owner, p.requested, p.hard, 0) < 4
    ensures ReserveOk(hash, limit, window, now, retention, p)
  {
    hide Total, AddLevels, Counts, CounterInv, RecordInv, FirstOver;
    ReadableFrom(hash.counters, p.owner, true, 0);
    OverFrom(hash.counters, p, 0);
    var over := FirstOver(hash.counters, p.owner, p.requested, p.hard, 0);
    assert Exact(CountAt(hash.counters, p.owner.Level(over)));
  }

  /** One reserve script keeps the invariant, its reply is always readable and
      says exactly what happened. */
  lemma ReserveIsSafe(hash: Hash, limit: Scope -> nat, window: int, now: int, retention: nat, p: Plan)
    requires HashInv(hash, limit) && Offers(p, limit) && 0 <= now && 1 <= retention
    ensures ReserveOk(hash, limit, window, now, retention, p)
  {
    if window != WindowOf(now) {
    } else if p.id in hash.records {
      ReserveRepeats(hash, limit, window, now, retention, p);
    } else if FirstOver(hash.counters, p.owner, p.requested, p.hard, 0) == 4 {
      ReserveIsNew(hash, limit, window, now, retention, p);
    } else {
      OverFrom(hash.counters, p, 0);
      ReserveIsDenied(hash, limit, window, now, retention, p);
    }
  }

  // ---- settle ---------------------------------------------------------------

  ghost predicate SettleOk(hash: Hash, limit: Scope -> nat, now: int, h: Handle, actual: nat) {
    var (hash', reply) := SettleOn(hash, now, h, actual);
    HashInv(hash', limit) && SettleTruth(hash, hash', h, actual, ReadSettle(reply, h, actual))
  }

  lemma ReadsCorrected(now: int, h: Handle, actual: nat, idempotent: bool, counts: seq<int>)
    requires 0 <= now && |counts| == 4 && forall i :: 0 <= i < 4 ==> 0 <= counts[i] <= MAXIMUM_VALUE
    ensures ReadSettle([0, now, h.reserved, actual, actual - h.reserved, if idempotent then 1 else 0] + counts, h,
                       actual)
         == Corrected(if actual < h.reserved then h.reserved - actual else 0,
                      if actual < h.reserved then 0 else actual - h.reserved, counts, idempotent)
  {
    var flag := if idempotent then 1 else 0;
    var values := [0, now, h.reserved, actual, actual - h.reserved, flag] + counts;
    assert values[6] == counts[0] && values[7] == counts[1] && values[8] == counts[2] && values[9] == counts[3];
  }

  lemma SettleMovesRecord(hash: Hash, limit: Scope -> nat, h: Handle, actual: nat, hash': Hash)
    requires HashInv(hash, limit) && h.id in hash.records && hash.records[h.id] == Pending(h.reserved, h.owner)
    requires actual <= MAXIMUM_VALUE && forall j: nat :: !Overflows(hash, h, actual, j)
    requires hash' == Hash(AddLevels(hash.counters, h.owner, actual - h.reserved, 4),
                           hash.records[h.id := Settled(h.reserved, actual, h.owner)])
    ensures HashInv(hash', limit) && Bumped(hash, hash', h.owner, actual - h.reserved)
  {
    hide AddLevels, Total, Overflows;
    forall s
      ensures CountAt(hash'.counters, s)
              == CountAt(hash.counters, s) + (if h.owner.Covers(s) then actual - h.reserved else 0)
      ensures s in hash'.counters <==> s in hash.counters || h.owner.Covers(s)
      ensures CountAt(hash'.counters, s) == Total(hash'.records, ChargeUnder(s))
      ensures Exact(CountAt(hash'.counters, s))
              && CountAt(hash'.counters, s) <= limit(s) + Total(hash'.records, OverageUnder(s))
    {
      AddedAt(hash.counters, h.owner, actual - h.reserved, 4, s);
      TotalUpdate(hash.records, h.id, Settled(h.reserved, actual, h.owner), ChargeUnder(s));
      TotalUpdate(hash.records, h.id, Settled(h.reserved, actual, h.owner), OverageUnder(s));
      if h.owner.Covers(s) {
        PendingIsCounted(hash, h.id, s.Rank());
        NoOverflowAt(hash, h, actual, s);
      }
    }
  }

  lemma NoOverflowAt(hash: Hash, h: Handle, actual: nat, s: Scope)
    requires h.owner.Covers(s) && forall j: nat :: !Overflows(hash, h, actual, j)
    ensures CountAt(hash.counters, s) + actual - h.reserved <= MAXIMUM_VALUE
  {
    assert s == h.owner.Level(s.Rank()) && !Overflows(hash, h, actual, s.Rank());
  }

  lemma SettleFirst(hash: Hash, limit: Scope -> nat, now: int, h: Handle, actual: nat)
    requires HashInv(hash, limit) && h.Valid() && actual <= MAXIMUM_VALUE && 0 <= now
    requires h.id in hash.records && hash.records[h.id] == Pending(h.reserved, h.owner)
    ensures SettleOk(hash, limit, now, h, actual)
  {
    hide Total, AddLevels, Counts, CounterInv, ReadSettle;
    var delta := actual - h.reserved;
    ReadableFrom(hash.counters, h.owner, false, 0);
    forall j | 0 <= j < 4 ensures 0 <= CountAt(hash.counters, h.owner.Level(j)) + delta {
      PendingIsCounted(hash, h.id, j);
    }
    OutOfRangeFrom(hash.counters, h.owner, delta, 0);
    var out := FirstOutOfRange(hash.counters, h.owner, delta, 0);
    if out < 4 {
      assert Overflows(hash, h, actual, out);
      ReadsCorrupt(h, actual, out);
    } else {
      forall j: nat ensures !Overflows(hash, h, actual, j) {
        assert j < 4 ==> Exact(CountAt(hash.counters, h.owner.Level(j)));
      }
      var hash' := Hash(AddLevels(hash.counters, h.owner, delta, 4),
                        hash.records[h.id := Settled(h.reserved, actual, h.owner)]);
      SettleMovesRecord(hash, limit, h, actual, hash');
      CountsAre(hash'.counters, h.owner);
      ReadsCorrected(now, h, actual, false, Counts(hash'.counters, h.owner));
    }
  }

  lemma ReadsCorrupt(h: Handle, actual: nat, level: nat)
    requires level < 4
    ensures ReadSettle([3, level + 1], h, actual) == SettleCorrupt(level)
  {
  }

  /** One settle script keeps the invariant, never drives a counter negative,
      and fails only where a counter would pass the largest exact integer. */
  lemma SettleIsSafe(hash: Hash, limit: Scope -> nat, now: int, h: Handle, actual: nat)
    requires HashInv(hash, limit) && h.Valid() && actual <= MAXIMUM_VALUE && 0 <= now
    ensures SettleOk(hash, limit, now, h, actual)
  {
    hide Total, AddLevels, Counts, CounterInv;
    if h.id !in hash.records {
    } else if hash.records[h.id] == Pending(h.reserved, h.owner) {
      SettleFirst(hash, limit, now, h, actual);
    } else if hash.records[h.id] == Settled(h.reserved, actual, h.owner) {
      ReadableFrom(hash.counters, h.owner, false, 0);
      CountsAre(hash.counters, h.owner);
      ReadsCorrected(now, h, actual, true, Counts(hash.counters, h.owner));
    }
  }

  // ---- runs -----------------------------------------------------------------

  datatype Call =
    | ReserveCall(window: int, plan: Plan)
    | SettleCall(handle: Handle, actual: nat)

  ghost predicate Proper(call: Call, limit: Scope -> nat) {
    match call
    case ReserveCall(_, p) => Offers(p, limit)
    case SettleCall(h, actual) => h.Valid() && actual <= MAXIMUM_VALUE
  }

  function Serve(r: Redis, now: int, retention: nat, call: Call): Redis {
    match call
    case ReserveCall(window, p) => Reserve(r, window, now, retention, p).0
    case SettleCall(h, actual) => Settle(r, now, retention, h, actual).0
  }

  function ServeAll(r: Redis, retention: nat, calls: seq<(int, Call)>): Redis
    decreases |calls|
  {
    if calls == [] then r else ServeAll(Serve(r, calls[0].0, retention, calls[0].1), retention, calls[1..])
  }

  ghost predicate Timely(calls: seq<(int, Call)>, limit: Scope -> nat) {
    forall i :: 0 <= i < |calls| ==> 0 <= calls[i].0 && Proper(calls[i].1, limit)
  }

  lemma LiveHash(r: Redis, limit: Scope -> nat, now: int, retention: nat, window: int)
    requires Inv(r, limit)
    ensures HashInv(HashAt(Evaporate(r, now, retention), window), limit)
  {
    EmptyHashIsConsistent(limit);
  }

  lemma ServeKeeps(r: Redis, limit: Scope -> nat, now: int, retention: nat, call: Call)
    requires Inv(r, limit) && Proper(call, limit) && 0 <= now && 1 <= retention
    ensures Inv(Serve(r, now, retention, call), limit)
  {
    hide HashInv, ReserveOn, SettleOn, ReadReserve, ReadSettle, ReserveTruth, SettleTruth;
    match call
    case ReserveCall(window, p) =>
      LiveHash(r, limit, now, retention, window);
      ReserveIsSafe(HashAt(Evaporate(r, now, retention), window), limit, window, now, retention, p);
    case SettleCall(h, actual) =>
      LiveHash(r, limit, now, retention, h.window);
      SettleIsSafe(HashAt(Evaporate(r, now, retention), h.window), limit, now, h, actual);
  }

  /** From an empty server, after any calls at any server times, in every minute:
      each counter is exactly the charge of the reservations under its scope, it
      is exact in Lua, and it passes its limit only by settled overage. */
  lemma {:induction false} EveryRunIsSafe(r: Redis, limit: Scope -> nat, retention: nat, calls: seq<(int, Call)>)
    requires Inv(r, limit) && Timely(calls, limit) && 1 <= retention
    ensures Inv(ServeAll(r, retention, calls), limit)
    decreases |calls|
  {
    if calls != [] {
      ServeKeeps(r, limit, calls[0].0, retention, calls[0].1);
      EveryRunIsSafe(Serve(r, calls[0].0, retention, calls[0].1), limit, retention, calls[1..]);
    }
  }

  // ---- at most once ---------------------------------------------------------

  /** The call adds tokens for the reservation. */
  ghost predicate Admits(r: Redis, now: int, retention: nat, call: Call, w: int, id: ReservationId) {
    && call.ReserveCall? && call.window == w && call.plan.id == id
    && var o := ReadReserve(Reserve(r, w, now, retention, call.plan).1, w, retention, call.plan);
    && o.Reserved? && !o.idempotent
  }

  /** The call corrects tokens for the reservation. */
  ghost predicate Corrects(r: Redis, now: int, retention: nat, call: Call, w: int, id: ReservationId) {
    && call.SettleCall? && call.handle.window == w && call.handle.id == id
    && var o := ReadSettle(Settle(r, now, retention, call.handle, call.actual).1, call.handle, call.actual);
    && o.Corrected? && !o.idempotent
  }

  ghost function Admissions(r: Redis, retention: nat, calls: seq<(int, Call)>, w: int, id: ReservationId): nat
    decreases |calls|
  {
    if calls == [] then 0
    else (if Admits(r, calls[0].0, retention, calls[0].1, w, id) then 1 else 0)
         + Admissions(Serve(r, calls[0].0, retention, calls[0].1), retention, calls[1..], w, id)
  }

  ghost function Corrections(r: Redis, retention: nat, calls: seq<(int, Call)>, w: int, id: ReservationId): nat
    decreases |calls|
  {
    if calls == [] then 0
    else (if Corrects(r, calls[0].0, retention, calls[0].1, w, id) then 1 else 0)
         + Corrections(Serve(r, calls[0].0, retention, calls[0].1), retention, calls[1..], w, id)
  }

  ghost predicate Ordered(t: int, calls: seq<(int, Call)>) {
    && (calls != [] ==> t <= calls[0].0)
    && forall i, j :: 0 <= i < j < |calls| ==> calls[i].0 <= calls[j].0
  }

  /** The reservation is on record, or its minute is over for good. */
  predicate Known(r: Redis, t: int, retention: nat, w: int, id: ReservationId) {
    id in HashAt(r, w).records || t > Expiry(w, retention)
  }

  predicate Finished(r: Redis, t: int, retention: nat, w: int, id: ReservationId) {
    (id in HashAt(r, w).records && HashAt(r, w).records[id].Settled?) || t > Expiry(w, retention)
  }

  ghost predicate StepOk(r: Redis, t: int, now: int, retention: nat, call: Call, w: int, id: ReservationId) {
    var r' := Serve(r, now, retention, call);
    && (Known(r, t, retention, w, id) ==> Known(r', now, retention, w, id) && !Admits(r, now, retention, call, w, id))
    && (Admits(r, now, retention, call, w, id) ==> Known(r', now, retention, w, id))
    && (Finished(r, t, retention, w, id) ==>
          Finished(r', now, retention, w, id) && !Corrects(r, now, retention, call, w, id))
    && (Corrects(r, now, retention, call, w, id) ==> Finished(r', now, retention, w, id))
  }

  lemma ReserveStep(r: Redis, limit: Scope -> nat, t: int, now: int, retention: nat, window: int, p: Plan, w: int,
                    id: ReservationId)
    requires Inv(r, limit) && Offers(p, limit) && 0 <= now && 1 <= retention && t <= now
    ensures StepOk(r, t, now, retention, ReserveCall(window, p), w, id)
  {
    hide HashInv, ReserveOn, ReadReserve, Counts, Fits, Bumped;
    var live := Evaporate(r, now, retention);
    LiveHash(r, limit, now, retention, window);
    ReserveIsSafe(HashAt(live, window), limit, window, now, retention, p);
  }

  lemma SettleStep(r: Redis, limit: Scope -> nat, t: int, now: int, retention: nat, h: Handle, actual: nat, w: int,
                   id: ReservationId)
    requires Inv(r, limit) && h.Valid() && actual <= MAXIMUM_VALUE && 0 <= now && 1 <= retention && t <= now
    ensures StepOk(r, t, now, retention, SettleCall(h, actual), w, id)
  {
    hide HashInv, SettleOn, ReadSettle, Counts, Overflows, Bumped;
    var live := Evaporate(r, now, retention);
    LiveHash(r, limit, now, retention, h.window);
    SettleIsSafe(HashAt(live, h.window), limit, now, h, actual);
  }

  lemma OnceStep(r: Redis, limit: Scope -> nat, t: int, now: int, retention: nat, call: Call, w: int, id: ReservationId)
    requires Inv(r, limit) && Proper(call, limit) && 0 <= now && 1 <= retention && t <= now
    ensures StepOk(r, t, now, retention, call, w, id)
  {
    hide StepOk, Inv, Offers;
    match call
    case ReserveCall(window, p) => ReserveStep(r, limit, t, now, retention, window, p, w, id);
    case SettleCall(h, actual) => SettleStep(r, limit, t, now, retention, h, actual, w, id);
  }

  /** However often one reservation is retried in its minute, and however often
      its settlement is repeated, counters move once for each. */
  lemma {:induction false} EachMutatesOnce(r: Redis, limit: Scope -> nat, t: int, retention: nat,
                                           calls: seq<(int, Call)>, w: int, id: ReservationId)
    requires Inv(r, limit) && Timely(calls, limit) && Ordered(t, calls) && 1 <= retention
    ensures Admissions(r, retention, calls, w, id) <= if Known(r, t, retention, w, id) then 0 else 1
    ensures Corrections(r, retention, calls, w, id) <= if Finished(r, t, retention, w, id) then 0 else 1
    decreases |calls|
  {
    hide Inv, Known, Finished, Serve, Admits, Corrects;
    if calls != [] {
      var (now, call) := calls[0];
      ServeKeeps(r, limit, now, retention, call);
      OnceStep(r, limit, t, now, retention, call, w, id);
      EachMutatesOnce(Serve(r, now, retention, call), limit, now, retention, calls[1..], w, id);
    }
  }

  // ---- whatever the policies ------------------------------------------------

  /** No limit but that of exact integers, which every policy respects. */
  const NO_LIMIT: Scope -> nat := (s: Scope) => MAXIMUM_VALUE

  predicate Acceptable(call: Call) {
    match call
    case ReserveCall(_, p) => p.Valid()
    case SettleCall(h, actual) => h.Valid() && actual <= MAXIMUM_VALUE
  }

  ghost predicate AllAcceptable(calls: seq<(int, Call)>) {
    forall i :: 0 <= i < |calls| ==> 0 <= calls[i].0 && Acceptable(calls[i].1)
  }

  /** Counters are the charges of their reservations, and exact. */
  ghost predicate Conserved(r: Redis) {
    forall w :: w in r ==> RecordInv(r[w]) && CounterInv(r[w]) && forall s :: Exact(CountAt(r[w].counters, s))
  }

  lemma AcceptableIsTimely(calls: seq<(int, Call)>)
    requires AllAcceptable(calls)
    ensures Timely(calls, NO_LIMIT)
  {
  }

  lemma ConservedIsInv(r: Redis)
    ensures Conserved(r) <==> Inv(r, NO_LIMIT)
  {
    hide RecordInv, CounterInv, Total;
    if Conserved(r) {
      forall w, s | w in r ensures CountAt(r[w].counters, s) <= NO_LIMIT(s) + Total(r[w].records, OverageUnder(s)) {
        assert Exact(CountAt(r[w].counters, s));
        TotalBound(r[w].records, OverageUnder(s));
      }
    }
  }

  /** Whatever limits the plans of a run carry, and however they change: counters stay
      the charges of their reservations, one reservation of one minute moves them once
      on reserve and once on settle, and each reply is readable and true. */
  lemma AnyPoliciesConserve(retention: nat, calls: seq<(int, Call)>, w: int, id: ReservationId)
    requires AllAcceptable(calls) && 1 <= retention
    ensures Conserved(ServeAll(map[], retention, calls))
    ensures Ordered(0, calls) ==>
              Admissions(map[], retention, calls, w, id) <= 1 && Corrections(map[], retention, calls, w, id) <= 1
  {
    hide Inv, Conserved, Known, Finished, Serve, ServeAll, Admits, Corrects, Admissions, Corrections;
    AcceptableIsTimely(calls);
    EmptyIsSafe();
    EveryRunIsSafe(map[], NO_LIMIT, retention, calls);
    ConservedIsInv(ServeAll(map[], retention, calls));
    if Ordered(0, calls) {
      EachMutatesOnce(map[], NO_LIMIT, 0, retention, calls, w, id);
    }
  }

  lemma EmptyIsSafe()
    ensures Inv(map[], NO_LIMIT)
  {
  }

  lemma AnyReplyIsTrue(retention: nat, calls: seq<(int, Call)>, window: int, now: int, p: Plan, h: Handle, actual: nat)
    requires AllAcceptable(calls) && 1 <= retention && 0 <= now && p.Valid() && h.Valid() && actual <= MAXIMUM_VALUE
    ensures var r := Evaporate(ServeAll(map[], retention, calls), now, retention);
            var reserved, settled := ReserveOn(HashAt(r, window), window, now, retention,
                                               p), SettleOn(HashAt(r, h.window), now, h, actual);
            && ReserveTruth(HashAt(r, window), reserved.0, window, now, retention, p,
                            ReadReserve(reserved.1, window, retention, p))
            && SettleTruth(HashAt(r, h.window), settled.0, h, actual, ReadSettle(settled.1, h, actual))
  {
    hide Inv, HashInv, Evaporate, ServeAll, ReserveOn, SettleOn, ReserveTruth, SettleTruth, ReadReserve, ReadSettle,
         HashAt;
    var r := ServeAll(map[], retention, calls);
    AcceptableIsTimely(calls);
    EmptyIsSafe();
    EveryRunIsSafe(map[], NO_LIMIT, retention, calls);
    LiveHash(r, NO_LIMIT, now, retention, window);
    LiveHash(r, NO_LIMIT, now, retention, h.window);
    ReserveIsSafe(HashAt(Evaporate(r, now, retention), window), NO_LIMIT, window, now, retention, p);
    SettleIsSafe(HashAt(Evaporate(r, now, retention), h.window), NO_LIMIT, now, h, actual);
  }

  // ---- retries ----------------------------------------------------------------

  /** What one call does to one record of a live minute. */
  ghost predicate RecordStep(r: Redis, now: int, retention: nat, call: Call, w: int, id: ReservationId) {
    var records, records' := HashAt(r, w).records, HashAt(Serve(r, now, retention, call), w).records;
    && (id in records' <==> id in records || Admits(r, now, retention, call, w, id))
    && (Corrects(r, now, retention, call, w, id) ==> id in records)
    && (id in records ==>
          && id in records' && records'[id].reserved == records[id].reserved && records'[id].owner == records[id].owner
          && (records'[id].Settled? <==> records[id].Settled? || Corrects(r, now, retention, call, w, id)))
  }

  lemma ReserveRecordStep(r: Redis, limit: Scope -> nat, now: int, retention: nat, window: int, p: Plan, w: int,
                          id: ReservationId)
    requires Inv(r, limit) && Offers(p, limit) && 0 <= now <= Expiry(w, retention) && 1 <= retention
    ensures RecordStep(r, now, retention, ReserveCall(window, p), w, id)
  {
    hide HashInv, ReserveOn, ReadReserve, Counts, Fits, Bumped;
    LiveHash(r, limit, now, retention, window);
    ReserveIsSafe(HashAt(Evaporate(r, now, retention), window), limit, window, now, retention, p);
  }

  lemma SettleRecordStep(r: Redis, limit: Scope -> nat, now: int, retention: nat, h: Handle, actual: nat, w: int,
                         id: ReservationId)
    requires Inv(r, limit) && h.Valid() && actual <= MAXIMUM_VALUE && 0 <= now <= Expiry(w, retention) && 1 <= retention
    ensures RecordStep(r, now, retention, SettleCall(h, actual), w, id)
  {
    hide HashInv, SettleOn, ReadSettle, Counts, Overflows, Bumped;
    LiveHash(r, limit, now, retention, h.window);
    SettleIsSafe(HashAt(Evaporate(r, now, retention), h.window), limit, now, h, actual);
  }

  ghost predicate AllBefore(calls: seq<(int, Call)>, end: int) {
    forall i :: 0 <= i < |calls| ==> calls[i].0 <= end
  }

  /** Over a run that ends within the lifetime of a minute, a reservation is on record
      if it was or has been admitted, never changes its amount or owner, and is settled
      if it was or has been corrected. */
  lemma {:induction false} RecordOverRun(r: Redis, limit: Scope -> nat, retention: nat, calls: seq<(int, Call)>, w: int,
                                         id: ReservationId)
    requires Inv(r, limit) && Timely(calls, limit) && AllBefore(calls, Expiry(w, retention)) && 1 <= retention
    ensures var records, records' := HashAt(r, w).records, HashAt(ServeAll(r, retention, calls), w).records;
            && (id in records' <==> id in records || Admissions(r, retention, calls, w, id) > 0)
            && (id in records ==>
                  && records'[id].reserved == records[id].reserved && records'[id].owner == records[id].owner
                  && (records'[id].Settled? <==> records[id].Settled? || Corrections(r, retention, calls, w, id) > 0))
    decreases |calls|
  {
    hide Inv, Offers, Serve, Admits, Corrects, Acceptable;
    if calls != [] {
      var (now, call) := calls[0];
      ServeKeeps(r, limit, now, retention, call);
      match call {
        case ReserveCall(window, p) => ReserveRecordStep(r, limit, now, retention, window, p, w, id);
        case SettleCall(h, actual) => SettleRecordStep(r, limit, now, retention, h, actual, w, id);
      }
      RecordOverRun(Serve(r, now, retention, call), limit, retention, calls[1..], w, id);
    }
  }

  /** What a retry meets in the server's minute, after a first admission at t and any
      calls of anybody. */
  ghost function Met(r: Redis, t: int, retention: nat, p: Plan, calls: seq<(int, Call)>, now: int): Hash {
    HashAt(ServeAll(Reserve(r, WindowOf(t), t, retention, p).0, retention, calls), WindowOf(now))
  }

  ghost function Retried(r: Redis, t: int, retention: nat, p: Plan, calls: seq<(int, Call)>, now: int): ReserveOutcome {
    var later := ServeAll(Reserve(r, WindowOf(t), t, retention, p).0, retention, calls);
    ReadReserve(Reserve(later, WindowOf(now), now, retention, p).1, WindowOf(now), retention, p)
  }

  /** The reservation was settled by one of the calls. */
  ghost predicate SettledMeanwhile(r: Redis, t: int, retention: nat, p: Plan, calls: seq<(int, Call)>) {
    Corrections(Reserve(r, WindowOf(t), t, retention, p).0, retention, calls, WindowOf(t), p.id) > 0
  }

  ghost predicate Holds(r: Redis, w: int, p: Plan) {
    p.id in HashAt(r, w).records && HashAt(r, w).records[p.id] == Pending(p.requested, p.owner)
  }

  lemma RetryReads(r: Redis, limit: Scope -> nat, now: int, retention: nat, p: Plan)
    requires Inv(r, limit) && Offers(p, limit) && 0 <= now && 1 <= retention
    ensures var w := WindowOf(now);
            var hash, o := HashAt(r, w), ReadReserve(Reserve(r, w, now, retention, p).1, w, retention, p);
            && (p.id !in hash.records ==> if Fits(hash, p) then o.Reserved? && !o.idempotent else o.Denied?)
            && (p.id in hash.records && hash.records[p.id] == Pending(p.requested, p.owner) ==>
                  o.Reserved? && o.idempotent)
            && (p.id in hash.records && hash.records[p.id] != Pending(p.requested, p.owner) ==> o.ReserveConflict?)
            && (o.Reserved? ==> o.expires == Expiry(w, retention) && Holds(Reserve(r, w, now, retention, p).0, w, p))
  {
    hide HashInv, ReserveOn, ReadReserve, Counts, Bumped;
    var w := WindowOf(now);
    LiveHash(r, limit, now, retention, w);
    assert now <= Expiry(w, retention);
    assert HashAt(Evaporate(r, now, retention), w) == HashAt(r, w);
    ReserveIsSafe(HashAt(r, w), limit, w, now, retention, p);
  }

  /** A plan asked for again after its admission and any calls of anybody: it comes back
      as the original reservation if and only if the server is still in the same minute
      and the reservation has not been settled; settled, it conflicts; and its tokens
      are taken a second time exactly in another minute that does not know it and has
      room. */
  lemma RetryIsIdempotentIff(r: Redis, limit: Scope -> nat, t: int, now: int, retention: nat, p: Plan,
                             calls: seq<(int, Call)>)
    requires Inv(r, limit) && Offers(p, limit) && Timely(calls, limit) && AllBefore(calls, now) && 0 <= t <= now
             && 1 <= retention
    requires Admits(r, t, retention, ReserveCall(WindowOf(t), p), WindowOf(t), p.id)
    ensures var o := Retried(r, t, retention, p, calls, now);
            && (o.Reserved? && o.idempotent && o.expires == Expiry(WindowOf(t), retention)
                <==> WindowOf(now) == WindowOf(t) && !SettledMeanwhile(r, t, retention, p, calls))
            && (WindowOf(now) == WindowOf(t) && SettledMeanwhile(r, t, retention, p, calls) ==> o.ReserveConflict?)
            && (o.Reserved? && !o.idempotent
                <==> WindowOf(now) != WindowOf(t) && p.id !in Met(r, t, retention, p, calls, now).records
                     && Fits(Met(r, t, retention, p, calls, now), p))
  {
    hide Inv, ReadReserve, Reserve, Fits, Offers, ServeAll, Corrections, Timely;
    var w, v := WindowOf(t), WindowOf(now);
    RetryReads(r, limit, t, retention, p);
    ServeKeeps(r, limit, t, retention, ReserveCall(w, p));
    var taken := Reserve(r, w, t, retention, p).0;
    EveryRunIsSafe(taken, limit, retention, calls);
    RetryReads(ServeAll(taken, retention, calls), limit, now, retention, p);
    if v == w {
      assert now <= Expiry(w, retention);
      RecordOverRun(taken, limit, retention, calls, w, p.id);
    }
  }

  /** On an empty hash any plan within its own limits is admitted. */
  lemma FirstIsAdmitted(now: int, retention: nat, p: Plan)
    requires p.Valid() && 0 <= now && 1 <= retention && forall i :: 0 <= i < 4 ==> p.requested <= p.hard[i]
    ensures var (r, reply) := Reserve(map[], WindowOf(now), now, retention, p);
            && r == map[WindowOf(now) := Hash(AddLevels(map[], p.owner, p.requested, 4),
                                              map[p.id := Pending(p.requested, p.owner)])]
            && Admits(map[], now, retention, ReserveCall(WindowOf(now), p), WindowOf(now), p.id)
  {
    hide AddLevels, Counts, ReadReserve;
    assert Evaporate(map[], now, retention) == map[];
    EmptyIsSafe();
    RetryReads(map[], NO_LIMIT, now, retention, p);
    ReadableFrom(map[], p.owner, true, 0);
    OverFrom(map[], p, 0);
    assert Fits(EMPTY_HASH, p);
  }

  /** Reserved, settled and retried in one minute: the retry is a conflict. */
  lemma RetryAfterSettlementConflicts(now: int, retention: nat, p: Plan)
    requires p.Valid() && 0 <= now && 1 <= retention && forall i :: 0 <= i < 4 ==> p.requested <= p.hard[i]
    ensures Retried(map[], now, retention, p,
                    [(now, SettleCall(Handle(p.id, WindowOf(now), p.owner, p.requested), p.requested))], now)
                    == ReserveConflict
  {
    hide AddLevels, Inv, ReadReserve, ReadSettle, Reserve, Settle, Fits, ServeAll, Timely;
    var w := WindowOf(now);
    var h := Handle(p.id, w, p.owner, p.requested);
    var call := SettleCall(h, p.requested);
    var taken := Reserve(map[], w, now, retention, p).0;
    EmptyIsSafe();
    FirstIsAdmitted(now, retention, p);
    ServeKeeps(map[], NO_LIMIT, now, retention, ReserveCall(w, p));
    SettleMeets(taken, now, retention, h, p.requested);
    assert [(now, call)][1..] == [];
    assert Corrections(taken, retention, [(now, call)], w, p.id) > 0;
    OneIsTimely(now, call);
    RetryIsIdempotentIff(map[], NO_LIMIT, now, now, retention, p, [(now, call)]);
  }

  lemma OneIsTimely(now: int, call: Call)
    requires 0 <= now && Acceptable(call)
    ensures Timely([(now, call)], NO_LIMIT)
  {
  }

  /** A pending reservation of a live minute is corrected unless a counter overflows. */
  lemma SettleMeets(r: Redis, now: int, retention: nat, h: Handle, actual: nat)
    requires Inv(r, NO_LIMIT) && h.Valid() && actual <= MAXIMUM_VALUE && 0 <= now <= Expiry(h.window, retention)
    requires h.id in HashAt(r, h.window).records && HashAt(r, h.window).records[h.id] == Pending(h.reserved, h.owner)
    ensures if exists j: nat :: Overflows(HashAt(r, h.window), h, actual, j)
            then ReadSettle(Settle(r, now, retention, h, actual).1, h, actual).SettleCorrupt?
            else Corrects(r, now, retention, SettleCall(h, actual), h.window, h.id)
    ensures actual <= h.reserved ==> Corrects(r, now, retention, SettleCall(h, actual), h.window, h.id)
  {
    hide SettleOn, ReadSettle, Counts, Bumped, CounterInv, RecordInv, Total;
    LiveHash(r, NO_LIMIT, now, retention, h.window);
    assert HashAt(Evaporate(r, now, retention), h.window) == HashAt(r, h.window);
    SettleIsSafe(HashAt(r, h.window), NO_LIMIT, now, h, actual);
    if actual <= h.reserved {
      forall j: nat ensures !Overflows(HashAt(r, h.window), h, actual, j) {
        assert j < 4 ==> Exact(CountAt(HashAt(r, h.window).counters, h.owner.Level(j)));
      }
    }
  }

  /** One hash filled up to the largest exact integer by a big and a small reservation:
      settling the small one a token above its reservation is refused as corrupt. */
  lemma OverflowIsReachable(now: int, retention: nat, owner: Hierarchy)
    requires 0 <= now && 1 <= retention
    ensures var w := WindowOf(now);
            var hard: Limits := [MAXIMUM_VALUE, MAXIMUM_VALUE, MAXIMUM_VALUE, MAXIMUM_VALUE];
            var calls := [(now, ReserveCall(w, Plan(0, owner, MAXIMUM_VALUE - 1, hard))),
                          (now, ReserveCall(w, Plan(1, owner, 1, hard)))];
            AllAcceptable(calls)
            && ReadSettle(Settle(ServeAll(map[], retention, calls), now, retention, Handle(1, w, owner, 1), 2).1,
                          Handle(1, w, owner, 1), 2).SettleCorrupt?
  {
    hide AddLevels, Inv, ReadReserve, ReadSettle, Reserve, Settle, Fits, ReserveOn;
    var w := WindowOf(now);
    var hard: Limits := [MAXIMUM_VALUE, MAXIMUM_VALUE, MAXIMUM_VALUE, MAXIMUM_VALUE];
    var big, small := Plan(0, owner, MAXIMUM_VALUE - 1, hard), Plan(1, owner, 1, hard);
    var calls := [(now, ReserveCall(w, big)), (now, ReserveCall(w, small))];
    assert calls[1..] == [calls[1]] && calls[1..][1..] == [];
    EmptyIsSafe();
    FirstIsAdmitted(now, retention, big);
    ServeKeeps(map[], NO_LIMIT, now, retention, calls[0].1);
    var one := Reserve(map[], w, now, retention, big).0;
    SecondFills(one, now, retention, small);
    ServeKeeps(one, NO_LIMIT, now, retention, calls[1].1);
    var two := Reserve(one, w, now, retention, small).0;
    assert ServeAll(map[], retention, calls) == ServeAll(one, retention, [calls[1]]) == two;
    assert Overflows(HashAt(two, w), Handle(1, w, owner, 1), 2, 0);
    SettleMeets(two, now, retention, Handle(1, w, owner, 1), 2);
  }

  lemma SecondFills(r: Redis, now: int, retention: nat, p: Plan)
    requires Inv(r, NO_LIMIT) && p.Valid() && p.requested == 1 && 0 <= now && 1 <= retention && p.id == 1
    requires forall i :: 0 <= i < 4 ==> p.hard[i] == MAXIMUM_VALUE
    requires HashAt(r, WindowOf(now))
             == Hash(AddLevels(map[], p.owner, MAXIMUM_VALUE - 1, 4), map[0 := Pending(MAXIMUM_VALUE - 1, p.owner)])
    ensures var hash := HashAt(Reserve(r, WindowOf(now), now, retention, p).0, WindowOf(now));
            && 1 in hash.records && hash.records[1] == Pending(1, p.owner)
            && CountAt(hash.counters, p.owner.Level(0)) == MAXIMUM_VALUE
  {
    hide AddLevels, HashInv, ReserveOn, ReadReserve, Counts;
    var w := WindowOf(now);
    forall j | 0 <= j < 4 ensures CountAt(HashAt(r, w).counters, p.owner.Level(j)) == MAXIMUM_VALUE - 1 {
      AddedAt(map[], p.owner, MAXIMUM_VALUE - 1, 4, p.owner.Level(j));
    }
    assert Fits(HashAt(r, w), p);
    RetryReads(r, NO_LIMIT, now, retention, p);
    LiveHash(r, NO_LIMIT, now, retention, w);
    assert HashAt(Evaporate(r, now, retention), w) == HashAt(r, w);
    ReserveIsSafe(HashAt(r, w), NO_LIMIT, w, now, retention, p);
  }

  // ---- what the parsers accept ---------------------------------------------------

  ghost predicate CountsIn(counts: seq<nat>, least: nat) {
    |counts| == 4 && forall i :: 0 <= i < 4 ==> least <= counts[i] <= 0x20_0000_0000_0000 - 1
  }

  /** A reserve reply is accepted only in its one form, for the window and the limits that
      were asked for. */
  lemma ReserveReplyIsStrict(values: seq<int>, window: int, retention: nat, p: Plan)
    ensures match ReadReserve(values, window, retention, p)
            case Moved(w) => |values| == 4 && values[..2] == [2, w] && 0 <= w && 0 <= values[2] < values[3]
            case Denied(level, count, hard, reset) =>
              && level < 4 && hard == p.hard[level] && count + p.requested > hard && |values| == 7 && 0 <= window
              && 0 <= values[5] < reset && values == [0, level + 1, count, hard, window, values[5], reset]
            case Reserved(counts, expires, idempotent) =>
              && CountsIn(counts, 1) && |values| == 10 && 0 <= window && 0 <= values[2] < values[3] < expires
              && expires == values[3] + retention
              && values == [1, window, values[2], values[3], expires, if idempotent then 1 else 0] + counts
              && (!idempotent ==> forall i :: 0 <= i < 4 ==> counts[i] <= p.hard[i])
            case ReserveConflict => values == [4]
            case ReserveCorrupt(index) => -1 <= index < 4 && values == [3, index + 1]
            case ReserveProtocolError => true
            case ClockBoundary => false
  {
    if ReadReserve(values, window, retention, p).Reserved? {
      forall i | 0 <= i < 4 && values[5] == 0 ensures values[6 + i] <= p.hard[i] {
      }
    }
  }

  /** And a settle reply only for the amounts that were settled. */
  lemma SettleReplyIsStrict(values: seq<int>, h: Handle, actual: nat)
    ensures match ReadSettle(values, h, actual)
            case Corrected(released, overage, counts, idempotent) =>
              && CountsIn(counts, 0) && |values| == 10 && 0 <= values[1]
              && h.reserved + overage == actual + released && (released == 0 || overage == 0)
              && values == [0, values[1], h.reserved, actual, actual - h.reserved, if idempotent then 1 else 0] + counts
            case SettleMissing => values == [1]
            case SettleConflict => values == [2]
            case SettleCorrupt(index) => -1 <= index < 4 && values == [3, index + 1]
            case SettleProtocolError => true
  {
  }

  // ---- damaged counters ------------------------------------------------------------

  /** The counter of level i is out of range, or missing where there was a reservation. */
  predicate Damaged(counters: map<Scope, int>, h: Hierarchy, reserved: bool, i: nat)
    requires i < 4
  {
    var s := h.Level(i);
    if s in counters then counters[s] < 0 || counters[s] >= 0x20_0000_0000_0000 else reserved
  }

  lemma {:induction false} UnreadableAt(counters: map<Scope, int>, h: Hierarchy, reserved: bool, k: nat, i: nat)
    requires k <= i < 4 && Damaged(counters, h, reserved, i)
    requires forall j :: k <= j < i ==> !Damaged(counters, h, reserved, j)
    ensures FirstUnreadable(counters, h, !reserved, k) == i
    decreases i - k
  {
    assert Damaged(counters, h, reserved, k) <==> k == i;
    assert Damaged(counters, h, reserved, k) <==>
             !Exact(CountAt(counters, h.Level(k))) || (reserved && h.Level(k) !in counters);
    if k < i {
      UnreadableAt(counters, h, reserved, k + 1, i);
    }
  }

  /** Whatever the hash holds, a reserve in its minute names the first damaged counter. */
  lemma ReserveNamesTheDamage(hash: Hash, window: int, now: int, retention: nat, p: Plan, i: nat)
    requires IsMinuteOf(window, now) && i < 4 && Damaged(hash.counters, p.owner, false, i)
    requires forall j :: 0 <= j < i ==> !Damaged(hash.counters, p.owner, false, j)
    ensures ReserveOn(hash, window, now, retention, p) == (hash, [3, i + 1])
  {
    UnreadableAt(hash.counters, p.owner, false, 0, i);
  }

  /** And so does the settlement of a reservation that is on record. */
  lemma SettleNamesTheDamage(hash: Hash, now: int, h: Handle, actual: nat, i: nat)
    requires h.id in hash.records
    requires hash.records[h.id] in {Pending(h.reserved, h.owner), Settled(h.reserved, actual, h.owner)}
    requires i < 4 && Damaged(hash.counters, h.owner, true, i)
    requires forall j :: 0 <= j < i ==> !Damaged(hash.counters, h.owner, true, j)
    ensures SettleOn(hash, now, h, actual) == (hash, [3, i + 1])
  {
    UnreadableAt(hash.counters, h.owner, true, 0, i);
  }
}
