/** The distributed tokens-per-minute limiter: one hash per server minute holds
    a counter per scope and a record per reservation. Each Lua script is one
    atomic step of the server at its own clock. */
module RedisTpm {
  import opened LimitScopes

  type ReservationId = nat

  /** Hard limits of the four levels, as validated policies give them. */
  type Limits = s: seq<nat> | |s| == 4 && forall i :: 0 <= i < 4 ==> 1 <= s[i] <= MAXIMUM_VALUE witness [1, 1, 1, 1]

  /** A reservation field; its text names the amounts and the hierarchy. */
  datatype Record =
    | Pending(reserved: nat, owner: Hierarchy)
    | Settled(reserved: nat, actual: nat, owner: Hierarchy)

  datatype Hash = Hash(counters: map<Scope, int>, records: map<ReservationId, Record>)

  const EMPTY_HASH := Hash(map[], map[])

  /** One hash per minute; a missing key reads as an empty hash. */
  type Redis = map<int, Hash>

  function HashAt(r: Redis, window: int): Hash {
    if window in r then r[window] else EMPTY_HASH
  }

  /** The minute that an instant, in milliseconds, falls in. */
  function WindowOf(now: int): (minute: int)
    ensures minute * 60_000 <= now < (minute + 1) * 60_000
  {
    now / 60_000
  }

  function Reset(window: int): (end: int)
    ensures forall now :: now < end && window <= WindowOf(now) ==> WindowOf(now) == window
    ensures WindowOf(end) == window + 1
  {
    (window + 1) * 60_000
  }

  /** The absolute expiry of a minute's hash never slides. */
  function Expiry(window: int, retention: nat): int { Reset(window) + retention }

  function Evaporate(r: Redis, now: int, retention: nat): Redis {
    map w | w in r && now <= Expiry(w, retention) :: r[w]
  }

  function CountAt(counters: map<Scope, int>, s: Scope): int {
    if s in counters then counters[s] else 0
  }

  predicate Exact(n: int) { 0 <= n <= MAXIMUM_VALUE }

  /** The first level from i on whose counter cannot be read, or 4; a missing
      counter is readable only where `absentIsZero`. */
  function FirstUnreadable(counters: map<Scope, int>, h: Hierarchy, absentIsZero: bool, i: nat): nat
    requires i <= 4
    decreases 4 - i
  {
    if i == 4 || !Exact(CountAt(counters, h.Level(i))) || (!absentIsZero && h.Level(i) !in counters) then i
    else FirstUnreadable(counters, h, absentIsZero, i + 1)
  }

  /** The first level from i on that the reservation would overfill, or 4. */
  function FirstOver(counters: map<Scope, int>, h: Hierarchy, requested: nat, hard: Limits, i: nat): nat
    requires i <= 4
    decreases 4 - i
  {
    if i == 4 || requested > hard[i] || CountAt(counters, h.Level(i)) > hard[i] - requested then i
    else FirstOver(counters, h, requested, hard, i + 1)
  }

  /** The first level from i on that the correction would drive out of range, or 4. */
  function FirstOutOfRange(counters: map<Scope, int>, h: Hierarchy, delta: int, i: nat): nat
    requires i <= 4
    decreases 4 - i
  {
    if i == 4 || (delta < 0 && CountAt(counters, h.Level(i)) < -delta)
       || (delta > 0 && CountAt(counters, h.Level(i)) > MAXIMUM_VALUE - delta) then i
    else FirstOutOfRange(counters, h, delta, i + 1)
  }

  /** HINCRBY on the first n levels. */
  function AddLevels(counters: map<Scope, int>, h: Hierarchy, delta: int, n: nat): map<Scope, int>
    requires n <= 4
  {
    if n == 0 then counters
    else
      var below := AddLevels(counters, h, delta, n - 1);
      below[h.Level(n - 1) := CountAt(below, h.Level(n - 1)) + delta]
  }

  function Counts(counters: map<Scope, int>, h: Hierarchy): seq<int> {
    [CountAt(counters, h.Level(0)), CountAt(counters, h.Level(1)), CountAt(counters, h.Level(2)),
     CountAt(counters, h.Level(3))]
  }

  // ---- the scripts ----------------------------------------------------------

  datatype Plan = Plan(id: ReservationId, owner: Hierarchy, requested: nat, hard: Limits)
  {
    predicate Valid()
      ensures Valid() <==> 0 < requested < 0x20_0000_0000_0000
    {
      1 <= requested <= MAXIMUM_VALUE
    }
  }

  datatype Handle = Handle(id: ReservationId, window: int, owner: Hierarchy, reserved: nat)
  {
    predicate Valid()
      ensures Valid() <==> 0 <= window && 0 < reserved < 0x20_0000_0000_0000
    {
      0 <= window && 1 <= reserved <= MAXIMUM_VALUE
    }
  }

  function ReserveOn(hash: Hash, window: int, now: int, retention: nat, p: Plan): (Hash, seq<int>) {
    if WindowOf(now) != window then (hash, [2, WindowOf(now), now, Reset(WindowOf(now))])
    else
      var bad := FirstUnreadable(hash.counters, p.owner, true, 0);
      if bad < 4 then (hash, [3, bad + 1])
      else if p.id in hash.records then
        if hash.records[p.id] != Pending(p.requested, p.owner) then (hash, [4])
        else (hash, [1, window, now, Reset(window), Expiry(window, retention), 1] + Counts(hash.counters, p.owner))
      else
        var over := FirstOver(hash.counters, p.owner, p.requested, p.hard, 0);
        if over < 4 then
          (hash, [0, over + 1, CountAt(hash.counters, p.owner.Level(over)), p.hard[over], window, now, Reset(window)])
        else
          var counters := AddLevels(hash.counters, p.owner, p.requested, 4);
          (Hash(counters, hash.records[p.id := Pending(p.requested, p.owner)]),
           [1, window, now, Reset(window), Expiry(window, retention), 0] + Counts(counters, p.owner))
  }

  function SettleOn(hash: Hash, now: int, h: Handle, actual: nat): (Hash, seq<int>) {
    if h.id !in hash.records then (hash, [1])
    else if hash.records[h.id] != Pending(h.reserved, h.owner)
            && hash.records[h.id] != Settled(h.reserved, actual, h.owner)
    then (hash, [2])
    else
      var bad := FirstUnreadable(hash.counters, h.owner, false, 0);
      var delta := actual - h.reserved;
      if bad < 4 then (hash, [3, bad + 1])
      else if hash.records[h.id].Settled? then
        (hash, [0, now, h.reserved, actual, delta, 1] + Counts(hash.counters, h.owner))
      else
        var out := FirstOutOfRange(hash.counters, h.owner, delta, 0);
        if out < 4 then (hash, [3, out + 1])
        else
          var counters := AddLevels(hash.counters, h.owner, delta, 4);
          (Hash(counters, hash.records[h.id := Settled(h.reserved, actual, h.owner)]),
           [0, now, h.reserved, actual, delta, 0] + Counts(counters, h.owner))
  }

  /** A script that wrote nothing creates no key. */
  function Store(r: Redis, window: int, before: Hash, after: Hash): Redis {
    if after == before then r else r[window := after]
  }

  function Reserve(r: Redis, window: int, now: int, retention: nat, p: Plan): (Redis, seq<int>) {
    var live := Evaporate(r, now, retention);
    var (hash, reply) := ReserveOn(HashAt(live, window), window, now, retention, p);
    (Store(live, window, HashAt(live, window), hash), reply)
  }

  function Settle(r: Redis, now: int, retention: nat, h: Handle, actual: nat): (Redis, seq<int>) {
    var live := Evaporate(r, now, retention);
    var (hash, reply) := SettleOn(HashAt(live, h.window), now, h, actual);
    (Store(live, h.window, HashAt(live, h.window), hash), reply)
  }

  // ---- the Go parsers -------------------------------------------------------

  datatype ReserveOutcome =
    | Moved(window: int)
    | Denied(level: nat, count: nat, hard: nat, reset: int)
    | Reserved(counts: seq<nat>, expires: int, idempotent: bool)
    | ReserveConflict
    | ReserveCorrupt(index: int)
    | ReserveProtocolError
    | ClockBoundary

  datatype SettleOutcome =
    | Corrected(released: nat, overage: nat, counts: seq<nat>, idempotent: bool)
    | SettleMissing
    | SettleConflict
    | SettleCorrupt(index: int)
    | SettleProtocolError

  predicate ValidCounts(values: seq<int>, least: nat) {
    |values| == 10 && forall i :: 6 <= i < 10 ==> least <= values[i] <= MAXIMUM_VALUE
  }

  function CountsOf(values: seq<int>, least: nat): seq<nat>
    requires ValidCounts(values, least)
  {
    [values[6], values[7], values[8], values[9]]
  }

  predicate ValidTime(window: int, now: int, reset: int) {
    0 <= window && 0 <= now < reset
  }

  /** parseRedisTPMReserveResponse, the switch of ReserveTPM and the builders. */
  function ReadReserve(values: seq<int>, window: int, retention: nat, p: Plan): ReserveOutcome {
    if |values| == 0 then ReserveProtocolError
    else if values[0] == 2 then
      if |values| != 4 || !ValidTime(values[1], values[2], values[3]) then ReserveProtocolError else Moved(values[1])
    else if values[0] == 0 then
      if |values| != 7 || values[1] < 1 || values[1] > 4 || values[2] < 0 || values[3] < 1 || values[3] > MAXIMUM_VALUE
         || !(p.requested > values[3] || values[2] > values[3] - p.requested)
         || !ValidTime(values[4], values[5], values[6])
         || values[4] != window || values[3] != p.hard[values[1] - 1] then ReserveProtocolError
      else Denied(values[1] - 1, values[2], values[3], values[6])
    else if values[0] == 1 then
      if |values| != 10 || !ValidTime(values[1], values[2], values[3]) || values[4] <= values[3]
         || (values[5] != 0 && values[5] != 1) || !ValidCounts(values, 1)
         || values[1] != window || values[4] != values[3] + retention
         || (values[5] == 0 && exists i :: 0 <= i < 4 && values[6 + i] > p.hard[i]) then ReserveProtocolError
      else Reserved(CountsOf(values, 1), values[4], values[5] == 1)
    else if values[0] == 3 then
      if |values| != 2 || values[1] < 0 || values[1] > 4 then ReserveProtocolError else ReserveCorrupt(values[1] - 1)
    else if values == [4] then ReserveConflict
    else ReserveProtocolError
  }

  /** parseRedisTPMSettleResponse, the switch of SettleTPM and its builder. */
  function ReadSettle(values: seq<int>, h: Handle, actual: nat): SettleOutcome {
    if |values| == 0 then SettleProtocolError
    else if values[0] == 0 then
      if |values| != 10 || values[1] < 0 || values[2] != h.reserved || values[3] != actual
         || values[4] != actual - h.reserved || (values[5] != 0 && values[5] != 1) || !ValidCounts(values, 0)
      then SettleProtocolError
      else if values[4] < 0 then Corrected(-values[4], 0, CountsOf(values, 0), values[5] == 1)
      else Corrected(0, values[4], CountsOf(values, 0), values[5] == 1)
    else if values == [1] then SettleMissing
    else if values == [2] then SettleConflict
    else if values[0] == 3 then
      if |values| != 2 || values[1] < 0 || values[1] > 4 then SettleProtocolError else SettleCorrupt(values[1] - 1)
    else SettleProtocolError
  }
}
