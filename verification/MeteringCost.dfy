/** The cost of one request: ledger facts bucketed by attempt and added up per
    currency. */
module MeteringCost {
  import opened Wrappers
  import opened Sums
  import opened Pricing
  import opened MeteringModel

  /** A ledger row, named by the event it prices or by its place among corrections. */
  datatype RowId = UsageRow(event: EventId) | CorrectionRow(index: nat)

  /** What is read of a row: its place, its event_id, and what it is about. */
  datatype Fact = Fact(id: RowId, event: LedgerId, attempt: Option<AttemptId>, currency: Currency, quantity: int,
                       amount: int)
  {
    /** ledgerFact.entry: bounds by kind of row. */
    predicate Valid(): (r: bool)
      ensures r ==> -0x20_0000_0000_0000 < quantity < 0x20_0000_0000_0000
      ensures r ==> -0x20_0000_0000_0000 < amount < 0x20_0000_0000_0000
      ensures r && id.UsageRow? ==> quantity > 0 && amount >= 0
      ensures r && id.CorrectionRow? ==> quantity != 0 || amount != 0
      ensures !r && id.UsageRow? ==> quantity < 1 || amount < 0 || quantity >= 0x20_0000_0000_0000
                                     || amount >= 0x20_0000_0000_0000
      ensures !r && id.CorrectionRow? ==>
                || (quantity == 0 && amount == 0) || quantity >= 0x20_0000_0000_0000 || amount >= 0x20_0000_0000_0000
                || quantity <= -0x20_0000_0000_0000 || amount <= -0x20_0000_0000_0000
    {
      if id.CorrectionRow? then
        && -(MAXIMUM_EXACT as int) <= quantity <= MAXIMUM_EXACT
        && -(MAXIMUM_EXACT as int) <= amount <= MAXIMUM_EXACT
        && (quantity != 0 || amount != 0)
      else 1 <= quantity <= MAXIMUM_EXACT && 0 <= amount <= MAXIMUM_EXACT
    }
  }

  datatype AttemptFact = AttemptFact(id: AttemptId, number: int, ended: bool)

  type CurrencyTotals = seq<(Currency, nat)>

  datatype Bucket = Bucket(entries: seq<Fact>, totals: CurrencyTotals)

  datatype RequestCost = RequestCost(attempts: seq<Bucket>, requestLevel: Bucket, totals: CurrencyTotals)

  /** The facts of one attempt, or those of none. */
  function Of(facts: seq<Fact>, a: Option<AttemptId>): seq<Fact> {
    if facts == [] then []
    else
      var rest, last := Of(facts[..|facts| - 1], a), facts[|facts| - 1];
      if last.attempt == a then rest + [last] else rest
  }

  ghost function InCurrency(c: Currency): Fact -> int {
    (f: Fact) => if f.currency == c then f.amount else 0
  }

  ghost predicate Occurs(facts: seq<Fact>, c: Currency) {
    exists i :: 0 <= i < |facts| && facts[i].currency == c
  }

  /** One exact amount for each currency that occurs. */
  ghost predicate IsTotal(totals: map<Currency, int>, facts: seq<Fact>) {
    forall c :: (c in totals <==> Occurs(facts, c)) && (c in totals ==> totals[c] == SumBy(facts, InCurrency(c)))
  }

  ghost predicate InBounds(totals: map<Currency, int>) {
    forall c :: c in totals ==> 0 <= totals[c] <= MAXIMUM_EXACT
  }

  /** Ascending currencies with exactly the amounts of the map. */
  ghost predicate IsListing(listed: CurrencyTotals, totals: map<Currency, int>) {
    && (forall i, j :: 0 <= i < j < |listed| ==> listed[i].0 < listed[j].0)
    && (forall i :: 0 <= i < |listed| ==> listed[i].0 in totals && listed[i].1 == totals[listed[i].0])
    && (forall c :: c in totals ==> Lists(listed, c))
  }

  ghost predicate Lists(listed: CurrencyTotals, c: Currency) {
    exists i :: 0 <= i < |listed| && listed[i].0 == c
  }

  ghost predicate IsBucket(b: Bucket, facts: seq<Fact>) {
    b.entries == facts && TotalsHold(b.totals, facts)
  }

  /** A list of totals is right for some facts. */
  ghost predicate TotalsHold(listed: CurrencyTotals, facts: seq<Fact>) {
    exists totals :: IsTotal(totals, facts) && InBounds(totals) && IsListing(listed, totals)
  }

  /** All currency amounts of the facts are exact and non-negative. */
  ghost predicate Representable(facts: seq<Fact>) {
    forall c: Currency :: 0 <= SumBy(facts, InCurrency(c)) <= MAXIMUM_EXACT
  }

  // ---- the accumulator --------------------------------------------------------

  function Add(totals: map<Currency, int>, c: Currency, amount: int): map<Currency, int> {
    totals[c := (if c in totals then totals[c] else 0) + amount]
  }

  lemma AddIsTotal(totals: map<Currency, int>, facts: seq<Fact>, f: Fact)
    requires IsTotal(totals, facts)
    ensures IsTotal(Add(totals, f.currency, f.amount), facts + [f])
  {
    var all := facts + [f];
    forall c: Currency
      ensures Occurs(all, c) <==> Occurs(facts, c) || c == f.currency
      ensures SumBy(all, InCurrency(c)) == SumBy(facts, InCurrency(c)) + (if c == f.currency then f.amount else 0)
      ensures !Occurs(facts, c) ==> SumBy(facts, InCurrency(c)) == 0
    {
      SumAppend(facts, f, InCurrency(c));
      if Occurs(facts, c) {
        var i :| 0 <= i < |facts| && facts[i].currency == c;
        assert all[i].currency == c;
      } else {
        SumSeqZero(facts, InCurrency(c));
      }
      assert all[|facts|].currency == f.currency;
    }
  }

  lemma EmptyTotal()
    ensures IsTotal(map[], [])
  {
  }

  /** currencyAccumulator.ordered */
  method Ordered(totals: map<Currency, int>) returns (r: Option<CurrencyTotals>)
    ensures r.Some? <==> InBounds(totals)
    ensures r.Some? ==> IsListing(r.value, totals)
  {
    var left := totals.Keys;
    var listed: CurrencyTotals := [];
    while left != {}
      invariant left <= totals.Keys
      invariant forall i, j :: 0 <= i < j < |listed| ==> listed[i].0 < listed[j].0
      invariant forall i :: 0 <= i < |listed| ==> listed[i].0 in totals && listed[i].1 == totals[listed[i].0]
      invariant forall i, c :: 0 <= i < |listed| && c in left ==> listed[i].0 < c
      invariant forall c :: c in totals ==> c in left || (Lists(listed, c) && 0 <= totals[c] <= MAXIMUM_EXACT)
      decreases |left|
    {
      var c := Smallest(left);
      if totals[c] < 0 || totals[c] > MAXIMUM_EXACT { return None; }
      ghost var before := listed;
      listed := listed + [(c, totals[c])];
      left := left - {c};
      assert listed[|before|].0 == c;
      forall d | Lists(before, d) ensures Lists(listed, d) {
        var i :| 0 <= i < |before| && before[i].0 == d;
        assert listed[i].0 == d;
      }
    }
    r := Some(listed);
  }

  method Smallest(s: set<Currency>) returns (c: Currency)
    requires s != {}
    ensures c in s && forall d :: d in s ==> c <= d
  {
    c :| c in s;
    var left := s - {c};
    while left != {}
      invariant left <= s && c in s && forall d :: d in s && d !in left ==> c <= d
      decreases |left|
    {
      var d :| d in left;
      c := if d < c then d else c;
      left := left - {d};
    }
  }

  lemma BoundsAreRepresentable(totals: map<Currency, int>, facts: seq<Fact>)
    requires IsTotal(totals, facts)
    ensures InBounds(totals) <==> Representable(facts)
  {
    forall c: Currency | c !in totals ensures SumBy(facts, InCurrency(c)) == 0 {
      assert !Occurs(facts, c);
      SumSeqZero(facts, InCurrency(c));
    }
    if Representable(facts) {
      forall c | c in totals ensures 0 <= totals[c] <= MAXIMUM_EXACT {
        assert 0 <= SumBy(facts, InCurrency(c)) <= MAXIMUM_EXACT;
      }
    }
  }

  // ---- buildRequestCost -------------------------------------------------------

  /** Attempts in number order, numbered from one, ended and distinct. */
  ghost predicate AttemptsInOrder(attempts: seq<AttemptFact>) {
    (forall i :: 0 <= i < |attempts| ==> attempts[i].number == i + 1 && attempts[i].ended) && Distinct(attempts)
  }

  ghost predicate Distinct(attempts: seq<AttemptFact>) {
    forall i, j :: 0 <= i < j < |attempts| ==> attempts[i].id != attempts[j].id
  }

  ghost predicate KnownAttempt(attempts: seq<AttemptFact>, a: Option<AttemptId>) {
    a.None? || exists i :: 0 <= i < |attempts| && attempts[i].id == a.value
  }

  /** Valid facts with distinct events of known attempts. */
  ghost predicate FactsInOrder(attempts: seq<AttemptFact>, facts: seq<Fact>) {
    && (forall i :: 0 <= i < |facts| ==> facts[i].Valid() && KnownAttempt(attempts, facts[i].attempt))
    && (forall i, j :: 0 <= i < j < |facts| ==> facts[i].event != facts[j].event)
  }

  ghost predicate AllRepresentable(attempts: seq<AttemptFact>, facts: seq<Fact>) {
    && Representable(facts) && Representable(Of(facts, None))
    && forall i :: 0 <= i < |attempts| ==> Representable(Of(facts, Some(attempts[i].id)))
  }

  ghost predicate IsCost(cost: RequestCost, attempts: seq<AttemptFact>, facts: seq<Fact>) {
    && TotalsHold(cost.totals, facts)
    && IsBucket(cost.requestLevel, Of(facts, None))
    && |cost.attempts| == |attempts|
    && forall i :: 0 <= i < |attempts| ==> IsBucket(cost.attempts[i], Of(facts, Some(attempts[i].id)))
  }

  /** Index the attempts, refusing any that is out of order. */
  method IndexAttempts(attempts: seq<AttemptFact>) returns (r: Option<map<AttemptId, nat>>)
    ensures r.Some? <==> AttemptsInOrder(attempts)
    ensures r.Some? ==> IsIndex(r.value, attempts)
  {
    var index: map<AttemptId, nat> := map[];
    var i := 0;
    while i < |attempts|
      invariant 0 <= i <= |attempts| && AttemptsInOrder(attempts[..i]) && IsIndex(index, attempts[..i])
    {
      var a := attempts[i];
      if a.number != i + 1 || !a.ended || a.id in index { return None; }
      index := index[a.id := i];
      i := i + 1;
      assert attempts[..i][..i - 1] == attempts[..i - 1];
    }
    assert attempts[..i] == attempts;
    r := Some(index);
  }

  ghost predicate IsIndex(index: map<AttemptId, nat>, attempts: seq<AttemptFact>) {
    && (forall i :: 0 <= i < |attempts| ==> attempts[i].id in index)
    && (forall a :: a in index ==> index[a] < |attempts| && attempts[index[a]].id == a)
  }

  /** The running sums of the fact loop. */
  datatype Sorted = Sorted(entries: seq<seq<Fact>>, totals: seq<map<Currency, int>>)

  ghost predicate IsSorted(s: Sorted, attempts: seq<AttemptFact>, facts: seq<Fact>) {
    && |s.entries| == |s.totals| == |attempts|
    && forall i :: 0 <= i < |attempts| ==>
         s.entries[i] == Of(facts, Some(attempts[i].id)) && IsTotal(s.totals[i], s.entries[i])
  }

  lemma SortOne(s: Sorted, attempts: seq<AttemptFact>, facts: seq<Fact>, f: Fact, k: nat)
    requires IsSorted(s, attempts, facts) && AttemptsInOrder(attempts) && k < |attempts|
             && f.attempt == Some(attempts[k].id)
    ensures IsSorted(Sorted(s.entries[k := s.entries[k] + [f]], s.totals[k := Add(s.totals[k], f.currency, f.amount)]),
                     attempts, facts + [f])
  {
    hide IsTotal, Add;
    AddIsTotal(s.totals[k], s.entries[k], f);
    OfAppend(facts, f);
  }

  lemma OfAppend(facts: seq<Fact>, f: Fact)
    ensures forall a :: Of(facts + [f], a) == if f.attempt == a then Of(facts, a) + [f] else Of(facts, a)
  {
    assert (facts + [f])[..|facts|] == facts;
  }

  ghost predicate SeenAre(seen: set<LedgerId>, facts: seq<Fact>) {
    forall x :: x in seen <==> exists j :: 0 <= j < |facts| && facts[j].event == x
  }

  lemma SeenGrows(seen: set<LedgerId>, facts: seq<Fact>, f: Fact)
    requires SeenAre(seen, facts)
    ensures SeenAre(seen + {f.event}, facts + [f])
  {
    var all := facts + [f];
    assert all[|facts|] == f;
    forall x ensures x in seen + {f.event} <==> exists j :: 0 <= j < |all| && all[j].event == x {
      if x in seen {
        var j :| 0 <= j < |facts| && facts[j].event == x;
        assert all[j].event == x;
      }
    }
  }

  /** One more fact keeps order exactly if it is valid, known and new. */
  lemma OrderGrows(attempts: seq<AttemptFact>, facts: seq<Fact>, f: Fact, seen: set<LedgerId>)
    requires FactsInOrder(attempts, facts) && SeenAre(seen, facts)
    ensures FactsInOrder(attempts, facts + [f]) <==> f.Valid() && KnownAttempt(attempts, f.attempt) && f.event !in seen
  {
    hide Fact.Valid, KnownAttempt;
    var all := facts + [f];
    assert all[|facts|] == f;
    if f.event in seen {
      var j :| 0 <= j < |facts| && facts[j].event == f.event;
      assert all[j].event == all[|facts|].event;
    }
  }

  lemma OrderOfPrefix(attempts: seq<AttemptFact>, facts: seq<Fact>, n: nat)
    requires n <= |facts| && FactsInOrder(attempts, facts)
    ensures FactsInOrder(attempts, facts[..n])
  {
    hide Fact.Valid, KnownAttempt;
  }

  lemma IndexKnows(attempts: seq<AttemptFact>, index: map<AttemptId, nat>, a: AttemptId)
    requires IsIndex(index, attempts)
    ensures a in index <==> KnownAttempt(attempts, Some(a))
    ensures a in index ==> index[a] < |attempts| && attempts[index[a]].id == a
  {
  }

  lemma SortNone(s: Sorted, attempts: seq<AttemptFact>, facts: seq<Fact>, f: Fact)
    requires IsSorted(s, attempts, facts) && f.attempt.None?
    ensures IsSorted(s, attempts, facts + [f])
  {
    hide IsTotal;
    OfAppend(facts, f);
  }

  lemma SortedStart(attempts: seq<AttemptFact>)
    ensures IsSorted(Sorted(seq(|attempts|, i => []), seq(|attempts|, i => map[])), attempts, [])
    ensures FactsInOrder(attempts, []) && SeenAre({}, [])
  {
    EmptyTotal();
  }

  /** The request-level bucket, as a running sum of its own. */
  ghost predicate IsOwn(entries: seq<Fact>, totals: map<Currency, int>, facts: seq<Fact>) {
    entries == Of(facts, None) && IsTotal(totals, entries)
  }

  lemma OwnGrows(entries: seq<Fact>, totals: map<Currency, int>, facts: seq<Fact>, f: Fact)
    requires IsOwn(entries, totals, facts)
    ensures if f.attempt.None? then IsOwn(entries + [f], Add(totals, f.currency, f.amount), facts + [f])
            else IsOwn(entries, totals, facts + [f])
  {
    hide IsTotal, Add;
    OfAppend(facts, f);
    AddIsTotal(totals, entries, f);
  }

  /** Bucket and add up every ledger fact; any disorder makes the cost unavailable. */
  method SortFacts(attempts: seq<AttemptFact>, index: map<AttemptId, nat>, facts: seq<Fact>)
    returns (ok: bool, s: Sorted, ownEntries: seq<Fact>, ownTotals: map<Currency, int>, all: map<Currency, int>)
    requires AttemptsInOrder(attempts) && IsIndex(index, attempts)
    ensures ok <==> FactsInOrder(attempts, facts)
    ensures ok ==> IsSorted(s, attempts, facts) && IsTotal(all, facts) && IsOwn(ownEntries, ownTotals, facts)
  {
    hide IsTotal, Add, Fact.Valid, FactsInOrder, SeenAre, IsOwn, KnownAttempt, IsIndex, AttemptsInOrder;
    EmptyTotal();
    SortedStart(attempts);
    OwnStart();
    s := Sorted(seq(|attempts|, i => []), seq(|attempts|, i => map[]));
    ownEntries, ownTotals, all := [], map[], map[];
    var seen: set<LedgerId> := {};
    var k := 0;
    ok := false;
    while k < |facts|
      invariant 0 <= k <= |facts| && FactsInOrder(attempts, facts[..k]) && SeenAre(seen, facts[..k])
      invariant IsSorted(s, attempts, facts[..k]) && IsTotal(all, facts[..k])
                && IsOwn(ownEntries, ownTotals, facts[..k])
    {
      var f := facts[k];
      ghost var before := facts[..k];
      assert facts[..k + 1] == before + [f];
      OrderGrows(attempts, before, f, seen);
      if FactsInOrder(attempts, facts) { OrderOfPrefix(attempts, facts, k + 1); }
      if !f.Valid() || f.event in seen { return; }
      SeenGrows(seen, before, f);
      seen := seen + {f.event};
      AddIsTotal(all, before, f);
      all := Add(all, f.currency, f.amount);
      OwnGrows(ownEntries, ownTotals, before, f);
      if f.attempt.None? {
        NoneIsKnown(attempts);
        SortNone(s, attempts, before, f);
        ownEntries, ownTotals := ownEntries + [f], Add(ownTotals, f.currency, f.amount);
      } else {
        IndexKnows(attempts, index, f.attempt.value);
        if f.attempt.value !in index { return; }
        var i := index[f.attempt.value];
        SortOne(s, attempts, before, f, i);
        s := Sorted(s.entries[i := s.entries[i] + [f]], s.totals[i := Add(s.totals[i], f.currency, f.amount)]);
      }
      k := k + 1;
    }
    assert facts[..k] == facts;
    ok := true;
  }

  lemma NoneIsKnown(attempts: seq<AttemptFact>)
    ensures KnownAttempt(attempts, None)
  {
  }

  lemma OwnStart()
    ensures IsOwn([], map[], [])
  {
    EmptyTotal();
  }

  /** The listed totals of a bucket, or none when they are not representable. */
  method Bucketed(entries: seq<Fact>, totals: map<Currency, int>) returns (r: Option<Bucket>)
    requires IsTotal(totals, entries)
    ensures r.Some? <==> Representable(entries)
    ensures r.Some? ==> IsBucket(r.value, entries)
  {
    hide IsTotal, InBounds, IsListing, Representable;
    BoundsAreRepresentable(totals, entries);
    var listed := Ordered(totals);
    if listed.None? { return None; }
    r := Some(Bucket(entries, listed.value));
  }

  // ---- attempts in any order ----------------------------------------------------

  ghost predicate ByNumber(attempts: seq<AttemptFact>) {
    forall i, j :: 0 <= i < j < |attempts| ==> attempts[i].number <= attempts[j].number
  }

  /** The attempts, in the order of their numbers. */
  ghost predicate IsSorting(order: seq<AttemptFact>, attempts: seq<AttemptFact>) {
    multiset(order) == multiset(attempts) && ByNumber(order)
  }

  lemma InsertSorts(order: seq<AttemptFact>, k: nat, a: AttemptFact)
    requires ByNumber(order) && k <= |order|
    requires (forall i :: 0 <= i < k ==> order[i].number <= a.number)
             && (forall i :: k <= i < |order| ==> a.number <= order[i].number)
    ensures ByNumber(order[..k] + [a] + order[k..])
    ensures multiset(order[..k] + [a] + order[k..]) == multiset(order) + multiset{a}
  {
    assert order == order[..k] + order[k..];
  }

  /** Where an attempt goes among attempts in order. */
  method FindPlace(order: seq<AttemptFact>, a: AttemptFact) returns (k: nat)
    requires ByNumber(order)
    ensures k <= |order|
    ensures forall i :: 0 <= i < k ==> order[i].number <= a.number
    ensures forall i :: k <= i < |order| ==> a.number <= order[i].number
  {
    k := |order|;
    while k > 0 && order[k - 1].number > a.number
      invariant 0 <= k <= |order| && forall i :: k <= i < |order| ==> a.number <= order[i].number
    {
      k := k - 1;
    }
  }

  method SortAttempts(attempts: seq<AttemptFact>) returns (order: seq<AttemptFact>)
    ensures IsSorting(order, attempts) && |order| == |attempts|
  {
    hide IsSorting;
    order := [];
    var i := 0;
    SortingGrows([], [], None);
    assert attempts[..0] == [];
    while i < |attempts|
      invariant 0 <= i <= |attempts| && |order| == i && IsSorting(order, attempts[..i])
    {
      SortingIs(order, attempts[..i]);
      var k := FindPlace(order, attempts[i]);
      InsertSorts(order, k, attempts[i]);
      SortingGrows(order[..k] + [attempts[i]] + order[k..], attempts[..i], Some(attempts[i]));
      assert attempts[..i + 1] == attempts[..i] + [attempts[i]];
      order := order[..k] + [attempts[i]] + order[k..];
      i := i + 1;
    }
    assert attempts[..i] == attempts;
  }

  lemma SortingIs(order: seq<AttemptFact>, attempts: seq<AttemptFact>)
    requires IsSorting(order, attempts)
    ensures ByNumber(order) && multiset(order) == multiset(attempts)
  {
  }

  lemma SortingGrows(order: seq<AttemptFact>, attempts: seq<AttemptFact>, a: Option<AttemptFact>)
    requires ByNumber(order)
    ensures a.Some? && multiset(order) == multiset(attempts) + multiset{a.value} ==>
              IsSorting(order, attempts + [a.value])
    ensures a.None? && order == attempts == [] ==> IsSorting(order, attempts)
  {
  }

  ghost predicate Consecutive(attempts: seq<AttemptFact>) {
    forall i :: 0 <= i < |attempts| ==> attempts[i].number == i + 1
  }

  lemma SameLast(order: seq<AttemptFact>, attempts: seq<AttemptFact>)
    requires IsSorting(order, attempts) && |order| == |attempts| && order != [] && Consecutive(attempts)
    ensures order[|order| - 1] == attempts[|order| - 1]
  {
    var n := |order| - 1;
    assert order[n] in multiset(attempts) && attempts[n] in multiset(order);
    var i :| 0 <= i < |order| && order[i] == attempts[n];
    var j :| 0 <= j < |attempts| && attempts[j] == order[n];
  }

  lemma WithoutLast(s: seq<AttemptFact>)
    requires s != []
    ensures multiset(s[..|s| - 1]) == multiset(s) - multiset{s[|s| - 1]}
  {
    assert s == s[..|s| - 1] + [s[|s| - 1]];
  }

  /** Attempts already numbered 1, 2, ... are their own and only sorting. */
  lemma {:induction false} SortedAlready(order: seq<AttemptFact>, attempts: seq<AttemptFact>)
    requires IsSorting(order, attempts) && |order| == |attempts| && Consecutive(attempts)
    ensures order == attempts
    decreases |order|
  {
    hide IsSorting;
    if order != [] {
      var n := |order| - 1;
      SameLast(order, attempts);
      SortingWithoutLast(order, attempts);
      SortedAlready(order[..n], attempts[..n]);
      assert order == order[..n] + [order[n]] && attempts == attempts[..n] + [attempts[n]];
    }
  }

  lemma SortingWithoutLast(order: seq<AttemptFact>, attempts: seq<AttemptFact>)
    requires IsSorting(order, attempts) && |order| == |attempts| && order != []
    requires order[|order| - 1] == attempts[|order| - 1]
    ensures IsSorting(order[..|order| - 1], attempts[..|order| - 1])
  {
    WithoutLast(order);
    WithoutLast(attempts);
  }

  /** buildRequestCost: whatever order its attempts come in, succeeds exactly on an orderly
      request whose amounts are all exact, and then reports them in number order. */
  method BuildRequestCost(terminal: bool, declared: int, given: seq<AttemptFact>, facts: seq<Fact>)
    returns (r: Option<RequestCost>, ghost attempts: seq<AttemptFact>)
    ensures IsSorting(attempts, given) && |attempts| == |given|
    ensures r.Some? <==> terminal && declared == |given| && AttemptsInOrder(attempts)
                         && FactsInOrder(attempts, facts) && AllRepresentable(attempts, facts)
    ensures r.Some? ==> IsCost(r.value, attempts, facts)
  {
    hide IsSorting;
    var order := SortAttempts(given);
    r := CostInOrder(terminal, declared, order, facts);
    attempts := order;
  }

  method CostInOrder(terminal: bool, declared: int, attempts: seq<AttemptFact>,
                     facts: seq<Fact>) returns (r: Option<RequestCost>)
    ensures r.Some? <==> terminal && declared == |attempts| && AttemptsInOrder(attempts)
                         && FactsInOrder(attempts, facts) && AllRepresentable(attempts, facts)
    ensures r.Some? ==> IsCost(r.value, attempts, facts)
  {
    hide IsTotal, AttemptsInOrder, FactsInOrder, Representable, IsBucket, IsIndex;
    if !terminal || declared != |attempts| { return None; }
    var index := IndexAttempts(attempts);
    if index.None? { return None; }
    var ok, s, ownEntries, ownTotals, all := SortFacts(attempts, index.value, facts);
    if !ok { return None; }
    var buckets: seq<Bucket> := [];
    var i := 0;
    while i < |attempts|
      invariant 0 <= i <= |attempts| && |buckets| == i
      invariant forall j :: 0 <= j < i ==> Representable(Of(facts, Some(attempts[j].id)))
      invariant forall j :: 0 <= j < i ==> IsBucket(buckets[j], Of(facts, Some(attempts[j].id)))
    {
      var bucket := Bucketed(s.entries[i], s.totals[i]);
      if bucket.None? { return None; }
      buckets := buckets + [bucket.value];
      i := i + 1;
    }
    var requestLevel := Bucketed(ownEntries, ownTotals);
    if requestLevel.None? { return None; }
    var whole := Bucketed(facts, all);
    if whole.None? { return None; }
    BucketTotals(whole.value, facts);
    r := Some(RequestCost(buckets, requestLevel.value, whole.value.totals));
  }

  lemma BucketTotals(b: Bucket, facts: seq<Fact>)
    requires IsBucket(b, facts)
    ensures TotalsHold(b.totals, facts)
  {
  }

  // ---- what the totals mean ---------------------------------------------------

  ghost function AttemptSum(facts: seq<Fact>, c: Currency): AttemptFact -> int {
    (a: AttemptFact) => SumBy(Of(facts, Some(a.id)), InCurrency(c))
  }

  lemma FindAttempt(attempts: seq<AttemptFact>, facts: seq<Fact>) returns (k: nat)
    requires FactsInOrder(attempts, facts) && facts != [] && facts[|facts| - 1].attempt.Some?
    ensures k < |attempts| && attempts[k].id == facts[|facts| - 1].attempt.value
  {
    hide Fact.Valid;
    assert KnownAttempt(attempts, facts[|facts| - 1].attempt);
    k :| 0 <= k < |attempts| && attempts[k].id == facts[|facts| - 1].attempt.value;
  }

  /** One more fact moves the request-level total or the total of its one attempt. */
  lemma FactMovesOneTotal(attempts: seq<AttemptFact>, init: seq<Fact>, f: Fact, c: Currency)
    requires Distinct(attempts) && FactsInOrder(attempts, init + [f])
    ensures SumBy(Of(init + [f], None), InCurrency(c)) + SumBy(attempts, AttemptSum(init + [f], c))
         == SumBy(Of(init, None), InCurrency(c)) + SumBy(attempts, AttemptSum(init, c)) + InCurrency(c)(f)
  {
    hide Fact.Valid, FactsInOrder, KnownAttempt, SumBy, Of;
    OfAppend(init, f);
    SumAppend(Of(init, f.attempt), f, InCurrency(c));
    if f.attempt.None? {
      SumSeqAgree(attempts, AttemptSum(init, c), AttemptSum(init + [f], c));
    } else {
      var k := FindAttempt(attempts, init + [f]);
      SumBump(attempts, AttemptSum(init, c), AttemptSum(init + [f], c), k, InCurrency(c)(f));
    }
  }

  /** Per currency, the request total is the request-level total plus the totals
      of the attempts: nothing is dropped and nothing is counted twice. */
  lemma {:induction false} TotalSplitsByAttempt(attempts: seq<AttemptFact>, facts: seq<Fact>, c: Currency)
    requires Distinct(attempts) && FactsInOrder(attempts, facts)
    ensures SumBy(facts, InCurrency(c)) == SumBy(Of(facts, None), InCurrency(c)) + SumBy(attempts, AttemptSum(facts, c))
  {
    if facts == [] {
      SumSeqZero(attempts, AttemptSum(facts, c));
    } else {
      var init, f := facts[..|facts| - 1], facts[|facts| - 1];
      assert facts == init + [f];
      OrderOfPrefix(attempts, facts, |facts| - 1);
      TotalSplitsByAttempt(attempts, init, c);
      SumAppend(init, f, InCurrency(c));
      FactMovesOneTotal(attempts, init, f, c);
    }
  }
}
