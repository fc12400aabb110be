/** The tokens-per-minute scripts command by command, and the client loop that
    chases the server's minute. */
module RedisTpmServer {
  import opened LimitScopes
  import opened RedisTpm
  import opened RedisTpmSafety

  class Server {
    var hashes: Redis
    const retention: nat

    constructor (retention: nat)
      ensures hashes == map[] && this.retention == retention
    {
      hashes := map[];
      this.retention := retention;
    }

    method Expire(now: int)
      modifies this
      ensures hashes == Evaporate(old(hashes), now, retention)
    {
      hashes := map w | w in hashes && now <= Expiry(w, retention) :: hashes[w];
    }

    /** HGET and validate the four counters. */
    method ReadCounters(window: int, h: Hierarchy, absentIsZero: bool) returns (bad: nat, counts: seq<int>)
      ensures bad == FirstUnreadable(HashAt(hashes, window).counters, h, absentIsZero, 0) <= 4
      ensures bad == 4 ==> counts == Counts(HashAt(hashes, window).counters, h)
    {
      var counters := HashAt(hashes, window).counters;
      counts := [];
      var i := 0;
      while i < 4
        invariant 0 <= i <= 4 && |counts| == i
        invariant FirstUnreadable(counters, h, absentIsZero, 0) == FirstUnreadable(counters, h, absentIsZero, i)
        invariant forall j :: 0 <= j < i ==> counts[j] == CountAt(counters, h.Level(j))
      {
        var s := h.Level(i);
        if s !in counters {
          if !absentIsZero { return i, counts; }
          counts := counts + [0];
        } else {
          if counters[s] < 0 || counters[s] > MAXIMUM_VALUE { return i, counts; }
          counts := counts + [counters[s]];
        }
        i := i + 1;
      }
      bad := 4;
    }

    /** HINCRBY on the four counters, then HSET of the record. */
    method Write(window: int, h: Hierarchy, delta: int, id: ReservationId, record: Record) returns (counts: seq<int>)
      modifies this
      ensures hashes == old(hashes)[window := Hash(AddLevels(HashAt(old(hashes), window).counters, h, delta, 4),
                                                   HashAt(old(hashes), window).records[id := record])]
      ensures counts == Counts(hashes[window].counters, h)
    {
      hide Hierarchy.Level, Hierarchy.Covers, Counts;
      ghost var before := HashAt(hashes, window);
      var hash := HashAt(hashes, window);
      counts := [];
      var i := 0;
      while i < 4
        invariant 0 <= i <= 4 && |counts| == i && hashes == old(hashes)
        invariant hash == Hash(AddLevels(before.counters, h, delta, i), before.records)
        invariant forall j :: 0 <= j < i ==> counts[j] == CountAt(before.counters, h.Level(j)) + delta
      {
        AddedAt(before.counters, h, delta, i, h.Level(i));
        LevelIsCovered(h, i);
        var count := CountAt(hash.counters, h.Level(i)) + delta;
        hash := hash.(counters := hash.counters[h.Level(i) := count]);
        counts := counts + [count];
        i := i + 1;
      }
      forall j | 0 <= j < 4 ensures |Counts(hash.counters, h)| == 4 && counts[j] == Counts(hash.counters, h)[j] {
        LevelIsCovered(h, j);
        AddedAt(before.counters, h, delta, 4, h.Level(j));
        CountsAre(hash.counters, h);
      }
      hashes := hashes[window := hash.(records := hash.records[id := record])];
    }

    /** The reserve script. */
    method ReserveScript(window: int, now: int, p: Plan) returns (reply: seq<int>)
      modifies this
      ensures (hashes, reply) == Reserve(old(hashes), window, now, retention, p)
    {
      hide AddLevels, Counts, FirstUnreadable, Evaporate;
      Expire(now);
      ghost var start := hashes;
      if WindowOf(now) != window { return [2, WindowOf(now), now, Reset(WindowOf(now))]; }
      var bad, counts := ReadCounters(window, p.owner, true);
      if bad < 4 { return [3, bad + 1]; }
      var records := HashAt(hashes, window).records;
      if p.id in records {
        if records[p.id] != Pending(p.requested, p.owner) { return [4]; }
        return [1, window, now, Reset(window), Expiry(window, retention), 1] + counts;
      }
      var i := 0;
      CountsAre(HashAt(hashes, window).counters, p.owner);
      while i < 4
        invariant 0 <= i <= 4 && hashes == start
        invariant FirstOver(HashAt(start, window).counters, p.owner, p.requested, p.hard, 0)
               == FirstOver(HashAt(start, window).counters, p.owner, p.requested, p.hard, i)
      {
        if p.requested > p.hard[i] || counts[i] > p.hard[i] - p.requested {
          return [0, i + 1, counts[i], p.hard[i], window, now, Reset(window)];
        }
        i := i + 1;
      }
      counts := Write(window, p.owner, p.requested, p.id, Pending(p.requested, p.owner));
      reply := [1, window, now, Reset(window), Expiry(window, retention), 0] + counts;
    }

    /** The settle script. */
    method SettleScript(now: int, h: Handle, actual: nat) returns (reply: seq<int>)
      modifies this
      ensures (hashes, reply) == Settle(old(hashes), now, retention, h, actual)
    {
      hide AddLevels, Counts, FirstUnreadable, Evaporate;
      Expire(now);
      ghost var start := hashes;
      var records := HashAt(hashes, h.window).records;
      if h.id !in records { return [1]; }
      var settled := Settled(h.reserved, actual, h.owner);
      if records[h.id] != Pending(h.reserved, h.owner) && records[h.id] != settled { return [2]; }
      var bad, counts := ReadCounters(h.window, h.owner, false);
      if bad < 4 { return [3, bad + 1]; }
      var delta := actual - h.reserved;
      if records[h.id] == settled {
        return [0, now, h.reserved, actual, delta, 1] + counts;
      }
      var i := 0;
      CountsAre(HashAt(hashes, h.window).counters, h.owner);
      while i < 4
        invariant 0 <= i <= 4 && hashes == start
        invariant FirstOutOfRange(HashAt(start, h.window).counters, h.owner, delta, 0)
               == FirstOutOfRange(HashAt(start, h.window).counters, h.owner, delta, i)
      {
        if delta < 0 && counts[i] < -delta { return [3, i + 1]; }
        if delta > 0 && counts[i] > MAXIMUM_VALUE - delta { return [3, i + 1]; }
        i := i + 1;
      }
      counts := Write(h.window, h.owner, delta, h.id, settled);
      reply := [0, now, h.reserved, actual, delta, 0] + counts;
    }

    /** Other clients' scripts. */
    method Others(calls: seq<(int, Call)>)
      modifies this
      ensures hashes == ServeAll(old(hashes), retention, calls)
    {
      var i := 0;
      assert calls[0..] == calls;
      while i < |calls|
        invariant 0 <= i <= |calls|
        invariant ServeAll(hashes, retention, calls[i..]) == ServeAll(old(hashes), retention, calls)
      {
        assert calls[i..][1..] == calls[i + 1..];
        match calls[i].1 {
          case ReserveCall(window, p) => var _ := ReserveScript(window, calls[i].0, p);
          case SettleCall(h, actual) => var _ := SettleScript(calls[i].0, h, actual);
        }
        i := i + 1;
      }
    }

    /** ReserveTPM: one script per attempt, each for the minute that the last
        reply named, with any other clients in between. */
    method ReserveTpm(localWindow: int, attempts: seq<Attempt>, p: Plan) returns (o: ReserveOutcome)
      modifies this
      ensures (hashes, o) == ReserveFrom(old(hashes), localWindow, attempts, retention, p)
    {
      hide ReadReserve, Reserve, ServeAll;
      var window := localWindow;
      var i := 0;
      assert attempts[0..] == attempts;
      while i < |attempts|
        invariant 0 <= i <= |attempts|
        invariant ReserveFrom(hashes, window, attempts[i..], retention, p)
               == ReserveFrom(old(hashes), localWindow, attempts, retention, p)
      {
        assert attempts[i..][1..] == attempts[i + 1..];
        Others(attempts[i].others);
        var reply := ReserveScript(window, attempts[i].now, p);
        o := ReadReserve(reply, window, retention, p);
        if !o.Moved? { return; }
        window := o.window;
        i := i + 1;
      }
      o := ClockBoundary;
    }
  }

  lemma LevelIsCovered(h: Hierarchy, i: nat)
    requires i < 4
    ensures h.Covers(h.Level(i))
  {
  }

  /** What one attempt meets: scripts of others first, then the server's clock. */
  datatype Attempt = Attempt(others: seq<(int, Call)>, now: int)

  function ReserveFrom(r: Redis, window: int, attempts: seq<Attempt>, retention: nat, p: Plan): (Redis, ReserveOutcome)
    decreases |attempts|
  {
    if attempts == [] then (r, ClockBoundary)
    else
      var met := ServeAll(r, retention, attempts[0].others);
      var (after, reply) := Reserve(met, window, attempts[0].now, retention, p);
      var o := ReadReserve(reply, window, retention, p);
      if o.Moved? then ReserveFrom(after, o.window, attempts[1..], retention, p) else (after, o)
  }

  // ---- what the loop promises -----------------------------------------------

  /** The minute that attempt i asks for. */
  function Asked(window: int, attempts: seq<Attempt>, i: nat): int
    requires i <= |attempts|
  {
    if i == 0 then window else WindowOf(attempts[i - 1].now)
  }

  ghost predicate Straddles(window: int, attempts: seq<Attempt>) {
    forall i :: 0 <= i < |attempts| ==> WindowOf(attempts[i].now) != Asked(window, attempts, i)
  }

  ghost predicate ProperAttempts(attempts: seq<Attempt>, limit: Scope -> nat) {
    forall i :: 0 <= i < |attempts| ==> 0 <= attempts[i].now && Timely(attempts[i].others, limit)
  }

  /** The whole loop is a run of scripts, so it is as safe as any run, and it
      gives up on the clock exactly when every attempt met a minute other than
      the one it asked for. No reply is ever unreadable. */
  lemma {:induction false} ReserveLoopIsSafe(r: Redis, limit: Scope -> nat, window: int, attempts: seq<Attempt>,
                                             retention: nat, p: Plan)
    requires Inv(r, limit) && Offers(p, limit) && ProperAttempts(attempts, limit) && 1 <= retention
    ensures Inv(ReserveFrom(r, window, attempts, retention, p).0, limit)
    ensures ReserveFrom(r, window, attempts, retention, p).1.ClockBoundary? <==> Straddles(window, attempts)
    ensures var o := ReserveFrom(r, window, attempts, retention, p).1;
            o.ClockBoundary? || o.Denied? || o.Reserved? || o.ReserveConflict?
    decreases |attempts|
  {
    hide Inv, HashInv, Offers, ReadReserve, ServeAll, Evaporate, ReserveOn;
    if attempts != [] {
      var met := ServeAll(r, retention, attempts[0].others);
      EveryRunIsSafe(r, limit, retention, attempts[0].others);
      var (after, reply) := Reserve(met, window, attempts[0].now, retention, p);
      ServeKeeps(met, limit, attempts[0].now, retention, ReserveCall(window, p));
      LiveHash(met, limit, attempts[0].now, retention, window);
      ReserveIsSafe(HashAt(Evaporate(met, attempts[0].now, retention), window), limit, window, attempts[0].now,
                    retention, p);
      var o := ReadReserve(reply, window, retention, p);
      StraddlesStep(window, attempts);
      if o.Moved? {
        ReserveLoopIsSafe(after, limit, o.window, attempts[1..], retention, p);
      }
    }
  }

  lemma StraddlesStep(window: int, attempts: seq<Attempt>)
    requires attempts != []
    ensures Straddles(window, attempts)
       <==> WindowOf(attempts[0].now) != window && Straddles(WindowOf(attempts[0].now), attempts[1..])
  {
    var first := WindowOf(attempts[0].now);
    if Straddles(window, attempts) {
      forall i | 0 <= i < |attempts[1..]| ensures WindowOf(attempts[1..][i].now) != Asked(first, attempts[1..], i) {
        assert WindowOf(attempts[i + 1].now) != Asked(window, attempts, i + 1);
      }
    }
    if first != window && Straddles(first, attempts[1..]) {
      forall i | 0 <= i < |attempts| ensures WindowOf(attempts[i].now) != Asked(window, attempts, i) {
        if i > 0 {
          assert WindowOf(attempts[1..][i - 1].now) != Asked(first, attempts[1..], i - 1);
        }
      }
    }
  }

  /** Giving up on the clock takes long: n attempts span more than n - 2 minutes
      of server time, so three attempts within a minute always get an answer. */
  lemma {:induction false} GivingUpTakesMinutes(window: int, attempts: seq<Attempt>)
    requires Straddles(window, attempts) && |attempts| >= 2
    requires forall i, j :: 0 <= i < j < |attempts| ==> attempts[i].now <= attempts[j].now
    ensures attempts[|attempts| - 1].now - attempts[0].now > (|attempts| - 2) * 60_000
    ensures WindowOf(attempts[|attempts| - 1].now) >= WindowOf(attempts[0].now) + |attempts| - 1
    decreases |attempts|
  {
    hide WindowOf;
    var n := |attempts|;
    LastStraddles(window, attempts);
    WindowsAdvance(attempts[n - 2].now, attempts[n - 1].now);
    if n > 2 {
      PrefixStraddles(window, attempts, n - 1);
      GivingUpTakesMinutes(window, attempts[..n - 1]);
    }
    WindowsAreMinutes(attempts[0].now, attempts[n - 1].now, n - 1);
  }

  lemma LastStraddles(window: int, attempts: seq<Attempt>)
    requires Straddles(window, attempts) && |attempts| >= 2
    ensures WindowOf(attempts[|attempts| - 1].now) != WindowOf(attempts[|attempts| - 2].now)
  {
    hide WindowOf;
    assert WindowOf(attempts[|attempts| - 1].now) != Asked(window, attempts, |attempts| - 1);
  }

  lemma PrefixStraddles(window: int, attempts: seq<Attempt>, n: nat)
    requires Straddles(window, attempts) && n <= |attempts|
    ensures Straddles(window, attempts[..n])
  {
    hide WindowOf;
    forall i | 0 <= i < n ensures WindowOf(attempts[..n][i].now) != Asked(window, attempts[..n], i) {
      assert WindowOf(attempts[i].now) != Asked(window, attempts, i);
    }
  }

  lemma WindowsAdvance(x: int, y: int)
    requires x <= y && WindowOf(x) != WindowOf(y)
    ensures WindowOf(y) >= WindowOf(x) + 1
  {
  }

  lemma WindowsAreMinutes(x: int, y: int, k: nat)
    requires WindowOf(y) >= WindowOf(x) + k
    ensures y - x > (k - 1) * 60_000
  {
  }
}
