/** The active-health tracker: hysteresis over probe results with saturating run
    counters, for a bounded number of targets. */
module HealthTracker {
  type TargetId = nat

  const MAXIMUM_32: nat := 4_294_967_295
  const MAXIMUM_64: nat := 18_446_744_073_709_551_615

  datatype Health = Unknown | Healthy | Unhealthy | Stale

  datatype Options = Options(failureThreshold: nat, recoveryThreshold: nat, maximumTargets: nat, stateTtl: nat)
  {
    predicate Valid() {
      2 <= failureThreshold <= 100 && 1 <= recoveryThreshold <= 100 && 1 <= maximumTargets <= 100_000
    }
  }

  datatype TargetState = TargetState(
    health: Health, lastObservedAt: int, failures: nat, successes: nat,
    totalProbes: nat, totalSuccesses: nat, totalFailures: nat)

  const NEW_TARGET := TargetState(Unknown, 0, 0, 0, 0, 0, 0)

  function Saturating(n: nat, maximum: nat): nat {
    if n >= maximum then n else n + 1
  }

  /** One terminal probe. */
  function Observed(s: TargetState, success: bool, now: int, o: Options): TargetState {
    var probes := Saturating(s.totalProbes, MAXIMUM_64);
    if success then
      var run := Saturating(s.successes, MAXIMUM_32);
      TargetState(if s.health != Unhealthy || run >= o.recoveryThreshold then Healthy else Unhealthy,
                  now, 0, run, probes, Saturating(s.totalSuccesses, MAXIMUM_64), s.totalFailures)
    else
      var run := Saturating(s.failures, MAXIMUM_32);
      TargetState(if run >= o.failureThreshold then Unhealthy else if s.health == Unknown then Healthy else s.health,
                  now, run, 0, probes, s.totalSuccesses, Saturating(s.totalFailures, MAXIMUM_64))
  }

  /** The state after a history of probes with their times. */
  function After(history: seq<(bool, int)>, o: Options): TargetState {
    if history == [] then NEW_TARGET
    else
      var last := history[|history| - 1];
      Observed(After(history[..|history| - 1], o), last.0, last.1, o)
  }

  // ---- what the verdict means ----------------------------------------------------

  /** The n results before position i are all failures (or all successes). */
  ghost predicate RunEnds(history: seq<(bool, int)>, i: nat, n: nat, success: bool)
    requires i <= |history|
  {
    n <= i && forall j :: i - n <= j < i ==> history[j].0 == success
  }

  /** A failure run that no recovery run follows. */
  ghost predicate Condemned(history: seq<(bool, int)>, o: Options) {
    exists i :: 0 <= i <= |history| && CondemnedAt(history, i, o)
  }

  ghost predicate CondemnedAt(history: seq<(bool, int)>, i: nat, o: Options)
    requires i <= |history|
  {
    RunEnds(history, i, o.failureThreshold, false)
    && forall k :: i < k <= |history| ==> !RunEnds(history, k, o.recoveryThreshold, true)
  }

  /** How many results at the end are of one kind. */
  function Trailing(history: seq<(bool, int)>, success: bool): nat {
    if history == [] || history[|history| - 1].0 != success then 0 else Trailing(history[..|history| - 1], success) + 1
  }

  lemma {:induction false} TrailingIsRun(history: seq<(bool, int)>, n: nat, success: bool)
    ensures RunEnds(history, |history|, n, success) <==> n <= Trailing(history, success)
  {
    if n == 0 {
    } else if history == [] || history[|history| - 1].0 != success {
      if history != [] {
        assert history[|history| - 1].0 != success;
      }
    } else {
      var init := history[..|history| - 1];
      TrailingIsRun(init, n - 1, success);
      if RunEnds(history, |history|, n, success) {
        assert RunEnds(init, |init|, n - 1, success);
      }
      if RunEnds(init, |init|, n - 1, success) {
        assert RunEnds(history, |history|, n, success);
      }
    }
  }

  // 2^32 - 1
  function Capped(n: nat): nat { if n < 0x1_0000_0000 then n else 0x1_0000_0000 - 1 }

  // 2^64 - 1
  function Capped64(n: nat): nat { if n < 0x1_0000_0000_0000_0000 then n else 0x1_0000_0000_0000_0000 - 1 }

  function Count(history: seq<(bool, int)>, success: bool): nat {
    if history == [] then 0
    else Count(history[1..], success) + if history[0].0 == success then 1 else 0
  }

  lemma {:induction false} CountAppend(history: seq<(bool, int)>, last: (bool, int), success: bool)
    ensures Count(history + [last], success) == Count(history, success) + if last.0 == success then 1 else 0
    decreases |history|
  {
    if history == [] {
      assert history + [last] == [last] && [last][1..] == [];
    } else {
      assert (history + [last])[1..] == history[1..] + [last];
      CountAppend(history[1..], last, success);
    }
  }

  /** The totals count the probes and their results, capped, and the last time is that of
      the last probe. */
  lemma {:induction false} TotalsAreCounts(history: seq<(bool, int)>, o: Options)
    ensures After(history, o).totalProbes == Capped64(|history|)
    ensures After(history, o).totalSuccesses == Capped64(Count(history, true))
    ensures After(history, o).totalFailures == Capped64(Count(history, false))
    ensures history != [] ==> After(history, o).lastObservedAt == history[|history| - 1].1
  {
    if history != [] {
      var init, last := history[..|history| - 1], history[|history| - 1];
      TotalsAreCounts(init, o);
      assert history == init + [last];
      CountAppend(init, last, true);
      CountAppend(init, last, false);
    }
  }

  /** The counters are the trailing runs, capped. */
  lemma {:induction false} CountersAreRuns(history: seq<(bool, int)>, o: Options)
    ensures After(history, o).failures == Capped(Trailing(history, false))
    ensures After(history, o).successes == Capped(Trailing(history, true))
  {
    if history != [] {
      CountersAreRuns(history[..|history| - 1], o);
    }
  }

  lemma RunInPrefix(history: seq<(bool, int)>, last: (bool, int), i: nat, n: nat, success: bool)
    requires i <= |history|
    ensures RunEnds(history + [last], i, n, success) <==> RunEnds(history, i, n, success)
  {
    assert forall j :: 0 <= j < |history| ==> (history + [last])[j] == history[j];
  }

  /** A success undoes a condemnation exactly when it completes a recovery run. */
  lemma AfterSuccess(history: seq<(bool, int)>, last: (bool, int), o: Options)
    requires o.Valid() && last.0
    ensures var all := history + [last];
            Condemned(all, o) <==> Condemned(history, o) && !RunEnds(all, |all|, o.recoveryThreshold, true)
  {
    hide RunEnds;
    var all := history + [last];
    EndsWithKind(history, last, o.failureThreshold, false);
    forall i: nat | i <= |history|
      ensures CondemnedAt(all, i, o) <==> CondemnedAt(history, i, o) && !RunEnds(all, |all|, o.recoveryThreshold, true)
    {
      PrefixCondemned(history, last, i, o);
    }
    if Condemned(all, o) {
      var i :| 0 <= i <= |all| && CondemnedAt(all, i, o);
      assert i <= |history| && CondemnedAt(history, i, o);
    }
    if Condemned(history, o) && !RunEnds(all, |all|, o.recoveryThreshold, true) {
      var i :| 0 <= i <= |history| && CondemnedAt(history, i, o);
      assert CondemnedAt(all, i, o);
    }
  }

  lemma PrefixCondemned(history: seq<(bool, int)>, last: (bool, int), i: nat, o: Options)
    requires i <= |history|
    ensures var all := history + [last];
            CondemnedAt(all, i, o) <==> CondemnedAt(history, i, o) && !RunEnds(all, |all|, o.recoveryThreshold, true)
  {
    hide RunEnds;
    var all := history + [last];
    RunInPrefix(history, last, i, o.failureThreshold, false);
    forall k: nat | k <= |history|
      ensures RunEnds(all, k, o.recoveryThreshold, true) <==> RunEnds(history, k, o.recoveryThreshold, true)
    {
      RunInPrefix(history, last, k, o.recoveryThreshold, true);
    }
  }

  /** No run of one kind ends with a result of the other. */
  lemma EndsWithKind(history: seq<(bool, int)>, last: (bool, int), n: nat, success: bool)
    requires n >= 1 && last.0 != success
    ensures !RunEnds(history + [last], |history| + 1, n, success)
  {
    assert (history + [last])[|history|] == last;
  }

  /** A failure condemns exactly when it completes a failure run, and pardons nothing. */
  lemma AfterFailure(history: seq<(bool, int)>, last: (bool, int), o: Options)
    requires o.Valid() && !last.0
    ensures var all := history + [last];
            Condemned(all, o) <==> Condemned(history, o) || RunEnds(all, |all|, o.failureThreshold, false)
  {
    hide RunEnds;
    var all := history + [last];
    EndsWithKind(history, last, o.recoveryThreshold, true);
    forall i: nat | i <= |history| ensures CondemnedAt(all, i, o) <==> CondemnedAt(history, i, o) {
      PrefixCondemned(history, last, i, o);
    }
    if Condemned(history, o) {
      var i :| 0 <= i <= |history| && CondemnedAt(history, i, o);
      assert CondemnedAt(all, i, o);
    }
    if RunEnds(all, |all|, o.failureThreshold, false) {
      assert CondemnedAt(all, |all|, o);
    }
    if Condemned(all, o) {
      var i :| 0 <= i <= |all| && CondemnedAt(all, i, o);
      assert i <= |history| ==> CondemnedAt(history, i, o);
    }
  }

  /** The tracker says unhealthy exactly when the history holds a failure run with no
      later recovery run; capping the counters never changes that. */
  lemma {:induction false} UnhealthyIffCondemned(history: seq<(bool, int)>, o: Options)
    requires o.Valid()
    ensures After(history, o).health == Unhealthy <==> Condemned(history, o)
    ensures After(history, o).health == Unknown <==> history == []
    ensures After(history, o).health != Stale
  {
    hide Condemned, RunEnds;
    if history == [] {
      NothingCondemned(o);
    } else {
      var init, last := history[..|history| - 1], history[|history| - 1];
      assert history == init + [last];
      UnhealthyIffCondemned(init, o);
      CountersAreRuns(history, o);
      if last.0 {
        AfterSuccess(init, last, o);
        TrailingIsRun(history, o.recoveryThreshold, true);
      } else {
        AfterFailure(init, last, o);
        TrailingIsRun(history, o.failureThreshold, false);
      }
    }
  }

  lemma NothingCondemned(o: Options)
    requires o.Valid()
    ensures !Condemned([], o)
  {
  }

  // ---- the tracker ----------------------------------------------------------------

  predicate Older(targets: map<TargetId, TargetState>, a: TargetId, b: TargetId)
    requires a in targets && b in targets
  {
    targets[a].lastObservedAt < targets[b].lastObservedAt
    || (targets[a].lastObservedAt == targets[b].lastObservedAt && a < b)
  }

  ghost predicate IsOldest(targets: map<TargetId, TargetState>, a: TargetId) {
    a in targets && forall b :: b in targets && b != a ==> Older(targets, a, b)
  }

  /** Nothing was observed longer ago, and of those as long ago it comes first. */
  ghost predicate LeastRecent(targets: map<TargetId, TargetState>, a: TargetId) {
    && a in targets
    && forall b :: b in targets ==>
         && targets[a].lastObservedAt <= targets[b].lastObservedAt
         && (targets[a].lastObservedAt == targets[b].lastObservedAt ==> a <= b)
  }

  /** evictOldestLocked: the least recently observed, then the smaller identifier. */
  method FindOldest(targets: map<TargetId, TargetState>) returns (a: TargetId)
    requires targets != map[]
    ensures IsOldest(targets, a) && LeastRecent(targets, a)
  {
    a :| a in targets;
    var left := targets.Keys - {a};
    while left != {}
      invariant left <= targets.Keys && a in targets && a !in left
      invariant forall b :: b in targets && b !in left && b != a ==> Older(targets, a, b)
      decreases |left|
    {
      var b :| b in left;
      if Older(targets, b, a) { a := b; }
      left := left - {b};
    }
  }

  datatype Snapshot = Snapshot(health: Health, healthy: bool, stale: bool)

  class Tracker {
    const options: Options
    var targets: map<TargetId, TargetState>
    var evictions: nat
    /** The probes of each target since it was last admitted. */
    ghost var histories: map<TargetId, seq<(bool, int)>>

    constructor (options: Options)
      requires options.Valid()
      ensures Valid() && targets == map[] && this.options == options
    {
      this.options, targets, evictions, histories := options, map[], 0, map[];
    }

    ghost predicate Valid()
      reads this
    {
      && options.Valid() && |targets| <= options.maximumTargets && targets.Keys == histories.Keys
      && forall a :: a in targets ==> histories[a] != [] && targets[a] == After(histories[a], options)
    }

    /** Remove the target that was observed longest ago. */
    method EvictOldest() returns (gone: TargetId)
      requires Valid() && targets != map[]
      modifies this
      ensures Valid() && LeastRecent(old(targets), gone)
      ensures targets == old(targets) - {gone} && histories == old(histories) - {gone}
              && |targets| == old(|targets|) - 1
      ensures evictions == Saturating(old(evictions), MAXIMUM_64)
    {
      hide After, LeastRecent, IsOldest;
      gone := FindOldest(targets);
      Shrinks(targets, gone);
      targets, histories := targets - {gone}, histories - {gone};
      evictions := Saturating(evictions, MAXIMUM_64);
    }

    /** A target that is not known yet takes a free place. */
    method Admit(a: TargetId, success: bool, now: int)
      requires Valid() && a !in targets && |targets| < options.maximumTargets
      modifies this
      ensures Valid() && targets == old(targets)[a := Observed(NEW_TARGET, success, now, options)]
              && evictions == old(evictions)
      ensures histories == old(histories)[a := [(success, now)]]
    {
      hide Observed, After;
      NewTarget(success, now, options);
      Grows(targets, a, Observed(NEW_TARGET, success, now, options));
      targets := targets[a := Observed(NEW_TARGET, success, now, options)];
      histories := histories[a := [(success, now)]];
    }

    method Update(a: TargetId, success: bool, now: int)
      requires Valid() && a in targets
      modifies this
      ensures Valid() && targets == old(targets)[a := Observed(old(targets)[a], success, now, options)]
              && evictions == old(evictions)
      ensures histories == old(histories)[a := old(histories)[a] + [(success, now)]]
    {
      hide Observed, After;
      MoreHistory(histories[a], (success, now), options);
      targets := targets[a := Observed(targets[a], success, now, options)];
      assert targets.Keys == old(targets).Keys;
      histories := histories[a := histories[a] + [(success, now)]];
    }

    /** Record one probe; a new target pushes out the oldest when all places are taken. */
    method Observe(a: TargetId, success: bool, now: int)
      requires Valid()
      modifies this
      ensures Valid() && a in targets
      ensures histories[a] == (if a in old(targets) then old(histories)[a] else []) + [(success, now)]
      ensures forall b :: b in targets && b != a ==>
                b in old(targets) && targets[b] == old(targets)[b] && histories[b] == old(histories)[b]
      ensures forall b :: b in old(targets) && b !in targets ==>
                a !in old(targets) && old(|targets|) == options.maximumTargets && LeastRecent(old(targets), b)
      ensures evictions == if a in old(targets) || old(|targets|) < options.maximumTargets then old(evictions)
                           else if old(evictions) < 0x1_0000_0000_0000_0000 - 1 then old(evictions) + 1
                           else old(evictions)
    {
      hide Observed, After, LeastRecent;
      if a in targets {
        Update(a, success, now);
        return;
      }
      if |targets| >= options.maximumTargets {
        SomeTarget(targets);
        var _ := EvictOldest();
      }
      Admit(a, success, now);
    }

    /** Unknown and stale targets count as healthy; any other is unhealthy exactly if
        its history condemns it. */
    method Read(a: TargetId, now: int) returns (s: Snapshot)
      requires Valid()
      ensures a !in targets ==> s == Snapshot(Unknown, true, false)
      ensures a in targets ==> (s.stale <==> now - histories[a][|histories[a]| - 1].1 > options.stateTtl)
      ensures a in targets ==> (s.healthy <==> s.stale || !Condemned(histories[a], options))
      ensures a in targets ==> s.health == if s.stale then Stale else if Condemned(histories[a], options) then Unhealthy
      else Healthy
    {
      if a !in targets { return Snapshot(Unknown, true, false); }
      UnhealthyIffCondemned(histories[a], options);
      TotalsAreCounts(histories[a], options);
      var health := targets[a].health;
      if now - targets[a].lastObservedAt > options.stateTtl { return Snapshot(Stale, true, true); }
      s := Snapshot(health, health != Unhealthy, false);
    }
  }

  lemma SomeTarget(targets: map<TargetId, TargetState>)
    requires |targets| >= 1
    ensures targets != map[]
  {
  }

  lemma Shrinks(targets: map<TargetId, TargetState>, a: TargetId)
    requires a in targets
    ensures |targets - {a}| == |targets| - 1
  {
    assert targets.Keys == (targets - {a}).Keys + {a};
  }

  lemma Grows(targets: map<TargetId, TargetState>, a: TargetId, s: TargetState)
    requires a !in targets
    ensures |targets[a := s]| == |targets| + 1
  {
    assert targets[a := s].Keys == targets.Keys + {a};
  }

  lemma NewTarget(success: bool, now: int, o: Options)
    ensures After([(success, now)], o) == Observed(NEW_TARGET, success, now, o)
  {
    assert [(success, now)][..0] == [];
  }

  lemma MoreHistory(history: seq<(bool, int)>, last: (bool, int), o: Options)
    ensures After(history + [last], o) == Observed(After(history, o), last.0, last.1, o)
  {
    assert (history + [last])[..|history|] == history;
  }
}
