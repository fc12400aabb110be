/** The active-health scheduler: each dispatch takes one bounded batch of due
    targets, oldest due time first, and puts them off by their own cadence. */
module HealthScheduler {
  type TargetId = nat

  datatype Target = Target(version: nat, nextDue: int)

  type Targets = map<TargetId, Target>

  /** A target as the catalog lists it, and whether it passes its own validation. */
  datatype Listing = Listing(id: TargetId, version: nat, valid: bool)

  /** Earlier due time first, then the smaller identifier. */
  predicate Before(t: Targets, a: TargetId, b: TargetId)
    requires a in t && b in t
  {
    t[a].nextDue < t[b].nextDue || (t[a].nextDue == t[b].nextDue && a < b)
  }

  /** The targets ordered ahead of one. */
  function Ahead(t: Targets, a: TargetId): set<TargetId>
    requires a in t
  {
    set b | b in t && Before(t, b, a)
  }

  function Due(t: Targets, now: int): set<TargetId> {
    set a | a in t && t[a].nextDue <= now
  }

  ghost predicate IsFirst(t: Targets, s: set<TargetId>, a: TargetId)
    requires s <= t.Keys
  {
    a in s && forall b :: b in s && b != a ==> Before(t, a, b)
  }

  lemma {:induction false} FirstExists(t: Targets, s: set<TargetId>) returns (a: TargetId)
    requires s <= t.Keys && s != {}
    ensures IsFirst(t, s, a)
    decreases |s|
  {
    var x :| x in s;
    var rest := s - {x};
    if rest == {} {
      a := x;
      assert s == {x};
    } else {
      var y := FirstExists(t, rest);
      a := if Before(t, x, y) then x else y;
      forall b | b in s && b != a ensures Before(t, a, b) {
        assert b == x || b == y || Before(t, y, b);
      }
    }
  }

  ghost function First(t: Targets, s: set<TargetId>): (a: TargetId)
    requires s <= t.Keys && s != {}
    ensures IsFirst(t, s, a)
  {
    assert exists a :: IsFirst(t, s, a) by {
      var a := FirstExists(t, s);
    }
    var a :| IsFirst(t, s, a);
    a
  }

  /** The n first of a set, in order. */
  ghost function Take(t: Targets, s: set<TargetId>, n: nat): seq<TargetId>
    requires s <= t.Keys
    decreases n
  {
    if n == 0 || s == {} then [] else [First(t, s)] + Take(t, s - {First(t, s)}, n - 1)
  }

  /** The batch of one dispatch. */
  ghost function Batch(t: Targets, now: int, size: nat): seq<TargetId> {
    Take(t, Due(t, now), size)
  }

  function Reschedule(t: Targets, batch: set<TargetId>, now: int, cadence: TargetId -> nat): Targets {
    map a | a in t :: if a in batch then t[a].(nextDue := now + cadence(a)) else t[a]
  }

  ghost function Dispatch(t: Targets, now: int, size: nat, cadence: TargetId -> nat): Targets {
    Reschedule(t, Chosen(t, now, size), now, cadence)
  }

  function Members(s: seq<TargetId>): set<TargetId> {
    set a | a in s
  }

  ghost function Chosen(t: Targets, now: int, size: nat): set<TargetId> {
    Members(Batch(t, now, size))
  }

  // ---- what a batch holds --------------------------------------------------------

  /** No target twice, in order, the earliest of the set, as many as asked for. */
  ghost predicate IsTake(t: Targets, s: set<TargetId>, n: nat, batch: seq<TargetId>)
    requires s <= t.Keys
  {
    && |batch| == (if |s| < n then |s| else n)
    && (forall i :: 0 <= i < |batch| ==> batch[i] in s)
    && (forall i, j :: 0 <= i < j < |batch| ==> batch[i] != batch[j] && Before(t, batch[i], batch[j]))
    && (forall i, b :: 0 <= i < |batch| && b in s && b !in batch ==> Before(t, batch[i], b))
  }

  lemma {:induction false} TakeIs(t: Targets, s: set<TargetId>, n: nat)
    requires s <= t.Keys
    ensures IsTake(t, s, n, Take(t, s, n))
    decreases n
  {
    if n > 0 && s != {} {
      var a := First(t, s);
      var rest := Take(t, s - {a}, n - 1);
      TakeIs(t, s - {a}, n - 1);
      assert |s| == |s - {a}| + 1;
    }
  }

  /** In a batch, and before all that is due and not in it, comes what is due earlier, and
      at the same time the smaller identifier. */
  lemma BatchIsEarliest(t: Targets, now: int, size: nat)
    ensures var batch := Batch(t, now, size);
            && (forall i :: 0 <= i < |batch| ==> batch[i] in t && t[batch[i]].nextDue <= now)
            && (forall i, j :: 0 <= i < j < |batch| ==>
                  && t[batch[i]].nextDue <= t[batch[j]].nextDue
                  && (t[batch[i]].nextDue == t[batch[j]].nextDue ==> batch[i] < batch[j]))
            && (forall i, b :: 0 <= i < |batch| && b in t && t[b].nextDue <= now && b !in batch ==>
                  && t[batch[i]].nextDue <= t[b].nextDue && (t[batch[i]].nextDue == t[b].nextDue ==> batch[i] < b))
  {
    hide Take;
    TakeIs(t, Due(t, now), size);
    var batch := Batch(t, now, size);
    assert forall i :: 0 <= i < |batch| ==> batch[i] in Due(t, now);
  }

  lemma ElementsCount(batch: seq<TargetId>, s: set<TargetId>)
    requires forall i, j :: 0 <= i < j < |batch| ==> batch[i] != batch[j]
    requires s == Members(batch)
    ensures |s| == |batch|
    decreases |batch|
  {
    if batch != [] {
      var init := batch[..|batch| - 1];
      var last := batch[|batch| - 1];
      var smaller := Members(init);
      ElementsCount(init, smaller);
      assert s == smaller + {last};
    }
  }

  /** A due target is taken exactly when fewer than a batch are ahead of it. */
  lemma TakenIffNear(t: Targets, now: int, size: nat, a: TargetId)
    requires a in t && t[a].nextDue <= now
    ensures a in Batch(t, now, size) <==> |Ahead(t, a)| < size
    ensures a !in Batch(t, now, size) ==> Chosen(t, now, size) <= Ahead(t, a) && |Chosen(t, now, size)| == size
  {
    hide Take;
    var due := Due(t, now);
    var batch := Batch(t, now, size);
    TakeIs(t, due, size);
    ElementsCount(batch, Chosen(t, now, size));
    if a in batch {
      assert Ahead(t, a) <= Chosen(t, now, size) - {a} by {
        forall b | b in Ahead(t, a) ensures b in Chosen(t, now, size) - {a} {
          var i :| 0 <= i < |batch| && batch[i] == a;
          assert b in due && (b !in batch ==> Before(t, batch[i], b));
        }
      }
      Subset(Ahead(t, a), Chosen(t, now, size) - {a});
    } else {
      assert a in due;
      NotAll(batch, due, a, Chosen(t, now, size));
      forall b | b in Chosen(t, now, size) ensures b in Ahead(t, a) {
        var i :| 0 <= i < |batch| && batch[i] == b;
        assert Before(t, batch[i], a);
      }
      Subset(Chosen(t, now, size), Ahead(t, a));
    }
  }

  lemma NotAll(batch: seq<TargetId>, due: set<TargetId>, a: TargetId, chosen: set<TargetId>)
    requires a in due && a !in batch && chosen == Members(batch) && (forall i :: 0 <= i < |batch| ==> batch[i] in due)
    ensures |chosen| < |due|
  {
    Subset(chosen, due - {a});
  }

  lemma Subset<T>(a: set<T>, b: set<T>)
    requires a <= b
    ensures |a| <= |b|
  {
    assert b == a + (b - a);
  }

  // ---- no starvation -------------------------------------------------------------

  /** A dispatch that passes a due target over takes a whole batch from ahead of it
      and puts nothing there. */
  lemma PassedOver(t: Targets, now: int, size: nat, cadence: TargetId -> nat, a: TargetId)
    requires a in t && t[a].nextDue <= now && a !in Batch(t, now, size)
    requires forall x :: 1 <= cadence(x)
    ensures var t' := Dispatch(t, now, size, cadence);
            && a in t' && t'[a] == t[a]
            && |Ahead(t', a)| == |Ahead(t, a)| - size
  {
    hide Batch, Take;
    TakenIffNear(t, now, size, a);
    var chosen := Chosen(t, now, size);
    var t' := Dispatch(t, now, size, cadence);
    assert Ahead(t', a) == Ahead(t, a) - chosen;
    assert Ahead(t, a) == (Ahead(t, a) - chosen) + chosen;
  }

  /** Where a listed target stands after a refresh: in its place if its version is
      unchanged, and else as far off as its spread. */
  function PlaceOf(t: Targets, listed: Listing, now: int, spread: TargetId -> nat): Target {
    if listed.id in t && t[listed.id].version == listed.version then t[listed.id]
    else Target(listed.version, now + spread(listed.id))
  }

  /** The membership that a refresh enters. */
  function Entered(t: Targets, listed: seq<Listing>, now: int, spread: TargetId -> nat): Targets {
    if listed == [] then map[]
    else
      var last := listed[|listed| - 1];
      Entered(t, listed[..|listed| - 1], now, spread)[last.id := PlaceOf(t, last, now, spread)]
  }

  /** The first n listed targets are valid and distinct. */
  ghost predicate Orderly(listed: seq<Listing>, n: nat) {
    && n <= |listed| && (forall i :: 0 <= i < n ==> listed[i].valid)
    && forall i, j :: 0 <= i < j < n ==> listed[i].id != listed[j].id
  }

  ghost predicate Acceptable(listed: seq<Listing>, maximum: nat) {
    |listed| <= maximum && Orderly(listed, |listed|)
  }

  ghost predicate Lists(listed: seq<Listing>, a: TargetId) {
    exists i :: 0 <= i < |listed| && listed[i].id == a
  }

  ghost function Refreshed(t: Targets, listed: seq<Listing>, maximum: nat, now: int, spread: TargetId -> nat): Targets {
    if Acceptable(listed, maximum) then Entered(t, listed, now, spread) else t
  }

  lemma EnterOne(t: Targets, listed: seq<Listing>, n: nat, now: int, spread: TargetId -> nat)
    requires n < |listed|
    ensures Entered(t, listed[..n + 1], now, spread)
         == Entered(t, listed[..n], now, spread)[listed[n].id := PlaceOf(t, listed[n], now, spread)]
  {
    assert listed[..n + 1][..n] == listed[..n];
  }

  lemma {:induction false} EntersListed(t: Targets, listed: seq<Listing>, n: nat, now: int, spread: TargetId -> nat,
                                        a: TargetId)
    requires n <= |listed|
    ensures a in Entered(t, listed[..n], now, spread) <==> exists i :: 0 <= i < n && listed[i].id == a
  {
    if n > 0 {
      EntersListed(t, listed, n - 1, now, spread, a);
      EnterOne(t, listed, n - 1, now, spread);
    }
  }

  lemma {:induction false} EntersInPlace(t: Targets, listed: seq<Listing>, n: nat, now: int, spread: TargetId -> nat,
                                         i: nat)
    requires i < n <= |listed| && Orderly(listed, n)
    ensures var t' := Entered(t, listed[..n], now, spread);
            listed[i].id in t' && t'[listed[i].id] == PlaceOf(t, listed[i], now, spread)
    decreases n
  {
    hide PlaceOf;
    EnterOne(t, listed, n - 1, now, spread);
    if i < n - 1 {
      EntersInPlace(t, listed, n - 1, now, spread, i);
    }
  }

  /** A refresh enters exactly the listed targets, each in its place. */
  lemma EnteredIs(t: Targets, listed: seq<Listing>, now: int, spread: TargetId -> nat)
    requires Orderly(listed, |listed|)
    ensures var t' := Entered(t, listed, now, spread);
            && (forall a :: a in t' <==> Lists(listed, a))
            && (forall i :: 0 <= i < |listed| ==>
                  listed[i].id in t' && t'[listed[i].id] == PlaceOf(t, listed[i], now, spread))
  {
    hide Entered, PlaceOf;
    var t', n := Entered(t, listed, now, spread), |listed|;
    assert listed[..n] == listed;
    forall a ensures a in t' <==> Lists(listed, a) {
      EntersListed(t, listed, n, now, spread, a);
    }
    forall i | 0 <= i < n
      ensures listed[i].id in t' && t'[listed[i].id] == PlaceOf(t, listed[i], now, spread)
    {
      EntersInPlace(t, listed, n, now, spread, i);
    }
  }

  /** The next listed target is in order exactly if it is valid and not entered yet. */
  lemma NextInOrder(t: Targets, listed: seq<Listing>, n: nat, now: int, spread: TargetId -> nat)
    requires n < |listed| && Orderly(listed, n)
    ensures Orderly(listed, n + 1) <==> listed[n].valid && listed[n].id !in Entered(t, listed[..n], now, spread)
    ensures !Orderly(listed, n + 1) ==> !Orderly(listed, |listed|)
  {
    hide Entered;
    EntersListed(t, listed, n, now, spread, listed[n].id);
    if Orderly(listed, |listed|) {
      assert Orderly(listed, n + 1);
    }
  }

  /** What the loop of the scheduler does next. */
  datatype Tick = DispatchTick(now: int) | RefreshTick(now: int, listed: seq<Listing>)

  /** Batch size, capacity, and the offsets that a target's identifier determines. */
  datatype Options = Options(size: nat, maximum: nat, cadence: TargetId -> nat, spread: TargetId -> nat)

  ghost function Ticked(t: Targets, tick: Tick, o: Options): Targets {
    match tick
    case DispatchTick(now) => Dispatch(t, now, o.size, o.cadence)
    case RefreshTick(now, listed) => Refreshed(t, listed, o.maximum, now, o.spread)
  }

  /** The number of the dispatch that takes the target, from 1; 0 if none does. */
  ghost function TakenAt(t: Targets, ticks: seq<Tick>, o: Options, a: TargetId): nat
    decreases |ticks|
  {
    if ticks == [] then 0
    else if ticks[0].DispatchTick? && a in Batch(t, ticks[0].now, o.size) then 1
    else
      var later := TakenAt(Ticked(t, ticks[0], o), ticks[1..], o, a);
      if later == 0 then 0 else later + if ticks[0].DispatchTick? then 1 else 0
  }

  function Dispatches(ticks: seq<Tick>): nat {
    if ticks == [] then 0 else (if ticks[0].DispatchTick? then 1 else 0) + Dispatches(ticks[1..])
  }

  /** The target is due at a dispatch; a refresh that takes effect comes later than its
      due time and lists it unchanged. */
  ghost predicate Spares(tick: Tick, a: TargetId, target: Target, maximum: nat) {
    match tick
    case DispatchTick(now) => target.nextDue <= now
    case RefreshTick(now, listed) =>
      Acceptable(listed, maximum) ==>
        && target.nextDue < now
        && exists i :: 0 <= i < |listed| && listed[i].id == a && listed[i].version == target.version
  }

  /** Such a refresh leaves the target in its place and puts nothing ahead of it. */
  lemma RefreshSpares(t: Targets, now: int, listed: seq<Listing>, o: Options, a: TargetId)
    requires a in t && Spares(RefreshTick(now, listed), a, t[a], o.maximum)
    ensures var t' := Refreshed(t, listed, o.maximum, now, o.spread);
            a in t' && t'[a] == t[a] && Ahead(t', a) <= Ahead(t, a) && |Ahead(t', a)| <= |Ahead(t, a)|
  {
    hide Entered;
    if Acceptable(listed, o.maximum) {
      EnteredIs(t, listed, now, o.spread);
      var t' := Refreshed(t, listed, o.maximum, now, o.spread);
      forall b | b in Ahead(t', a) ensures b in Ahead(t, a) {
        assert Lists(listed, b);
        var i :| 0 <= i < |listed| && listed[i].id == b;
        assert t'[b] == PlaceOf(t, listed[i], now, o.spread);
      }
    }
    Subset(Ahead(Refreshed(t, listed, o.maximum, now, o.spread), a), Ahead(t, a));
  }

  /** A due target with k targets ahead of it is taken by dispatch number k / size + 1,
      whatever is refreshed meanwhile; and by no earlier one, if nothing is. */
  lemma {:induction false} NoStarvation(t: Targets, ticks: seq<Tick>, o: Options, a: TargetId)
    requires a in t && 1 <= o.size && (forall x :: 1 <= o.cadence(x))
    requires forall i :: 0 <= i < |ticks| ==> Spares(ticks[i], a, t[a], o.maximum)
    ensures var n, latest := TakenAt(t, ticks, o, a), |Ahead(t, a)| / o.size + 1;
            && (latest <= Dispatches(ticks) ==> 1 <= n <= latest)
            && ((forall i :: 0 <= i < |ticks| ==> ticks[i].DispatchTick?) ==>
                  n == if latest <= Dispatches(ticks) then latest else 0)
    decreases |ticks|
  {
    hide Batch, Dispatch, Spares, Refreshed;
    if ticks == [] {
      DivDown(0, |Ahead(t, a)|, o.size);
    } else {
      assert Spares(ticks[0], a, t[a], o.maximum);
      DueIs(ticks[0], a, t[a], o.maximum);
      match ticks[0]
      case DispatchTick(now) =>
        TakenIffNear(t, now, o.size, a);
        if a in Batch(t, now, o.size) {
          DivSmall(|Ahead(t, a)|, o.size);
        } else {
          PassedOver(t, now, o.size, o.cadence, a);
          NoStarvation(Dispatch(t, now, o.size, o.cadence), ticks[1..], o, a);
          DivStep(|Ahead(t, a)|, o.size);
        }
      case RefreshTick(now, listed) =>
        RefreshSpares(t, now, listed, o, a);
        var t' := Refreshed(t, listed, o.maximum, now, o.spread);
        NoStarvation(t', ticks[1..], o, a);
        DivDown(|Ahead(t', a)|, |Ahead(t, a)|, o.size);
    }
  }

  lemma DueIs(tick: Tick, a: TargetId, target: Target, maximum: nat)
    requires Spares(tick, a, target, maximum)
    ensures tick.DispatchTick? ==> target.nextDue <= tick.now
  {
  }

  lemma DivDown(j: nat, k: nat, size: nat)
    requires j <= k && 1 <= size
    ensures 0 <= j / size <= k / size
  {
    var p, q := j / size, k / size;
    assert p * size <= j && k < (q + 1) * size by {
      assert j == p * size + j % size && k == q * size + k % size && (q + 1) * size == q * size + size;
    }
    Cancel(p, q + 1, size);
  }

  lemma DivStep(k: nat, size: nat)
    requires 1 <= size <= k
    ensures k / size == (k - size) / size + 1
  {
    assert k == (k / size) * size + k % size;
    var q := k / size;
    assert (q - 1) * size == q * size - size;
    DivUnique(k - size, size, q - 1, k % size);
  }

  lemma DivUnique(n: nat, d: nat, q: int, r: nat)
    requires 1 <= d && r < d && n == q * d + r
    ensures n / d == q
  {
    var p := n / d;
    assert p * d <= n < (p + 1) * d by {
      assert n == p * d + n % d && (p + 1) * d == p * d + d;
    }
    assert (q + 1) * d == q * d + d;
    Cancel(p, q + 1, d);
    Cancel(q, p + 1, d);
  }

  lemma Cancel(x: int, y: int, d: nat)
    requires 1 <= d && x * d < y * d
    ensures x < y
  {
    assert (y - x) * d > 0;
  }

  lemma DivSmall(k: nat, size: nat)
    requires k < size
    ensures k / size == 0
  {
  }

  // ---- the scheduler --------------------------------------------------------------

  class Scheduler {
    const maximumTargets: nat
    const batchSize: nat
    var targets: Targets

    constructor (maximumTargets: nat, batchSize: nat)
      ensures targets == map[] && this.maximumTargets == maximumTargets && this.batchSize == batchSize
    {
      this.maximumTargets, this.batchSize, targets := maximumTargets, batchSize, map[];
    }

    /** Select the due batch and put each of its targets off by its cadence. */
    method DispatchBatch(now: int, cadence: TargetId -> nat) returns (batch: seq<TargetId>)
      modifies this
      ensures batch == Batch(old(targets), now, batchSize)
      ensures targets == Dispatch(old(targets), now, batchSize, cadence)
      ensures forall i :: 0 <= i < |batch| ==> batch[i] in old(targets) && old(targets)[batch[i]].nextDue <= now
      ensures forall a :: a in targets <==> a in old(targets)
      ensures forall a :: a in targets ==>
                targets[a] == Target(old(targets)[a].version,
                                     if a in batch then now + cadence(a) else old(targets)[a].nextDue)
    {
      hide Take;
      var due := Due(targets, now);
      batch := Sorted(targets, due, batchSize);
      var i := 0;
      while i < |batch|
        invariant 0 <= i <= |batch| && batch == Batch(old(targets), now, batchSize)
        invariant targets == Reschedule(old(targets), Members(batch[..i]), now, cadence)
      {
        var a := batch[i];
        InBatch(old(targets), now, batchSize, i);
        Rescheduled(old(targets), batch, i, now, cadence);
        targets := targets[a := targets[a].(nextDue := now + cadence(a))];
        i := i + 1;
      }
      assert batch[..i] == batch;
      BatchIsEarliest(old(targets), now, batchSize);
    }

    /** Replace the membership; targets whose version is unchanged keep their place. */
    method Refresh(listed: seq<Listing>, now: int, spread: TargetId -> nat) returns (ok: bool)
      modifies this
      ensures ok <==> Acceptable(listed, maximumTargets)
      ensures targets == Refreshed(old(targets), listed, maximumTargets, now, spread)
      ensures ok ==> forall a :: a in targets <==> Lists(listed, a)
      ensures ok ==> forall i :: 0 <= i < |listed| ==>
                var Listing(a, version, _) := listed[i];
                && a in targets
                && targets[a] == if a in old(targets) && old(targets)[a].version == version then old(targets)[a]
                                 else Target(version, now + spread(a))
    {
      hide Orderly, Entered;
      if |listed| > maximumTargets { return false; }
      var replacement: Targets := map[];
      var i := 0;
      NothingEntered(targets, listed, now, spread);
      while i < |listed|
        invariant 0 <= i <= |listed| && targets == old(targets) && Orderly(listed, i)
        invariant replacement == Entered(targets, listed[..i], now, spread)
      {
        var Listing(a, version, valid) := listed[i];
        NextInOrder(targets, listed, i, now, spread);
        EnterOne(targets, listed, i, now, spread);
        if !valid || a in replacement { return false; }
        if a in targets && targets[a].version == version {
          replacement := replacement[a := targets[a]];
        } else {
          replacement := replacement[a := Target(version, now + spread(a))];
        }
        i := i + 1;
      }
      assert listed[..i] == listed;
      EnteredIs(targets, listed, now, spread);
      targets := replacement;
      ok := true;
    }
  }

  lemma NothingEntered(t: Targets, listed: seq<Listing>, now: int, spread: TargetId -> nat)
    ensures Orderly(listed, 0) && Entered(t, listed[..0], now, spread) == map[]
  {
  }

  lemma InBatch(t: Targets, now: int, size: nat, i: nat)
    requires i < |Batch(t, now, size)|
    ensures Batch(t, now, size)[i] in t
    ensures forall j :: 0 <= j < i ==> Batch(t, now, size)[j] != Batch(t, now, size)[i]
  {
    TakeIs(t, Due(t, now), size);
  }

  lemma Rescheduled(t: Targets, batch: seq<TargetId>, i: nat, now: int, cadence: TargetId -> nat)
    requires i < |batch| && batch[i] in t && forall j :: 0 <= j < i ==> batch[j] != batch[i]
    ensures var a := batch[i];
            var done := Reschedule(t, Members(batch[..i]), now, cadence);
            && done.Keys == t.Keys
            && Reschedule(t, Members(batch[..i + 1]), now, cadence) == done[a := done[a].(nextDue := now + cadence(a))]
  {
    assert batch[..i + 1] == batch[..i] + [batch[i]];
  }

  lemma TakeStep(t: Targets, s: set<TargetId>, n: nat, batch: seq<TargetId>)
    requires s <= t.Keys && n > 0 && s != {}
    ensures batch + Take(t, s, n) == batch + [First(t, s)] + Take(t, s - {First(t, s)}, n - 1)
  {
    hide First;
  }

  lemma TakeNone(t: Targets, s: set<TargetId>, n: nat)
    requires s <= t.Keys && (n == 0 || s == {})
    ensures Take(t, s, n) == []
  {
  }

  /** Sort the due targets and keep the first n. */
  method Sorted(t: Targets, due: set<TargetId>, n: nat) returns (batch: seq<TargetId>)
    requires due <= t.Keys
    ensures batch == Take(t, due, n)
  {
    hide Take, First;
    batch := [];
    var left := due;
    assert [] + Take(t, due, n) == Take(t, due, n);
    while left != {} && |batch| < n
      invariant left <= due && |batch| <= n && Take(t, due, n) == batch + Take(t, left, n - |batch|)
      decreases |left|
    {
      TakeStep(t, left, n - |batch|, batch);
      var a := FindFirst(t, left);
      batch := batch + [a];
      left := left - {a};
    }
    TakeNone(t, left, n - |batch|);
    assert batch + [] == batch;
  }

  method FindFirst(t: Targets, s: set<TargetId>) returns (a: TargetId)
    requires s <= t.Keys && s != {}
    ensures a == First(t, s)
  {
    a :| a in s;
    var left := s - {a};
    while left != {}
      invariant left <= s && a in s && a !in left && forall b :: b in s && b !in left && b != a ==> Before(t, a, b)
      decreases |left|
    {
      var b :| b in left;
      if Before(t, b, a) { a := b; }
      left := left - {b};
    }
  }
}
