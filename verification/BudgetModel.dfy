/** The budget tables: accounts, reservations with their unique index and the
    append-only ledger, with the two row-level effects that every committed
    transaction has on them (placing a hold, and finishing one). */
module BudgetModel {
  // The largest integer that Redis Lua and JSON exchange exactly.
  const MAXIMUM_AMOUNT: nat := 9_007_199_254_740_991

  /** UUIDs, request references and caller keys: only their equality matters. */
  type Id = nat

  datatype AccountKey = AccountKey(tenant: Id, id: Id)

  datatype AccountStatus = Open | Closed

  datatype Account = Account(
    status: AccountStatus, periodStart: int, periodEnd: int, soft: nat, hard: nat,
    committed: nat, reserved: nat, version: nat, updatedAt: int)
  {
    predicate Valid() {
      && periodStart < periodEnd
      && 1 <= soft <= hard <= MAXIMUM_AMOUNT
      && committed + reserved <= MAXIMUM_AMOUNT
      && 1 <= version
    }

    predicate ActiveAt(now: int) {
      status.Open? && periodStart <= now < periodEnd
    }

    /** The hard-limit test, written as the code does so that it cannot underflow. */
    predicate Exceeds(amount: nat): (r: bool)
      ensures r <==> committed + reserved + amount > hard
    {
      amount > hard || committed + reserved > hard - amount
    }

    /** GREATEST(updated_at, clock_timestamp()) */
    function EventTime(clock: int): (at: int)
      ensures updatedAt <= at && clock <= at && (at == updatedAt || at == clock)
    {
      if updatedAt < clock then clock else updatedAt
    }
  }

  datatype TerminalStatus = Settled | Cancelled | Expired

  datatype Phase = Pending | Terminal(status: TerminalStatus, actual: nat, released: nat, overage: nat, at: int)

  datatype Reservation = Reservation(
    account: AccountKey, request: Id, key: Id, amount: nat,
    expiresAt: int, createdAt: int, version: nat, phase: Phase)
  {
    predicate Valid() {
      && 1 <= amount <= MAXIMUM_AMOUNT
      && createdAt < expiresAt
      && 1 <= version
      && (phase.Terminal? ==>
            && phase.actual <= MAXIMUM_AMOUNT
            && (phase.released, phase.overage) == Difference(amount, phase.actual)
            && createdAt <= phase.at
            && (phase.status.Expired? ==> phase.actual == 0 && expiresAt <= phase.at))
    }

    /** Only the phase and the version of a reservation ever change. */
    predicate SameHold(other: Reservation) {
      this.(phase := other.phase, version := other.version) == other
    }
  }

  function Difference(reserved: nat, actual: nat): (r: (nat, nat))
    ensures reserved + r.1 == actual + r.0
    ensures r.0 == 0 || r.1 == 0
  {
    if actual <= reserved then (reserved - actual, 0) else (0, actual - reserved)
  }

  datatype EntryKind = ReserveEntry | SettleEntry | ReleaseEntry | ExpireEntry

  /** The idempotency key of a ledger row: the caller's for a reserve, else the
      one derived from the kind and the reservation. */
  datatype EntryKey = CallerKey(key: Id) | DerivedKey(kind: EntryKind, reservation: Id)

  datatype Entry = Entry(
    account: AccountKey, reservation: Id, kind: EntryKind, key: EntryKey,
    committedDelta: int, reservedDelta: int, resultCommitted: nat, resultReserved: nat, at: int)
  {
    predicate Valid() {
      && -(MAXIMUM_AMOUNT as int) <= committedDelta <= MAXIMUM_AMOUNT
      && -(MAXIMUM_AMOUNT as int) <= reservedDelta <= MAXIMUM_AMOUNT
      && resultCommitted + resultReserved <= MAXIMUM_AMOUNT
      && match kind
         case ReserveEntry => committedDelta == 0 && reservedDelta > 0
         case SettleEntry => committedDelta >= 0 && reservedDelta < 0
         case _ => committedDelta == 0 && reservedDelta < 0
    }
  }

  /** The ledger kind of a terminal transition: only a cancellation without
      any observed cost is a release. */
  function TerminalKind(status: TerminalStatus, actual: nat): EntryKind {
    match status
    case Settled => SettleEntry
    case Cancelled => if actual == 0 then ReleaseEntry else SettleEntry
    case Expired => ExpireEntry
  }

  /** What the unique index on reservations is over. */
  datatype UniqueKey = UniqueKey(account: AccountKey, key: Id)

  datatype Store = Store(
    accounts: map<AccountKey, Account>,
    reservations: map<Id, Reservation>,
    ledger: seq<Entry>,
    holdIndex: map<UniqueKey, Id>)

  datatype ReserveInput = ReserveInput(account: AccountKey, request: Id, key: Id, amount: nat, expiresAt: int)
  {
    predicate Valid()
      ensures Valid() <==> 0 < amount < 0x20_0000_0000_0000
    {
      1 <= amount <= MAXIMUM_AMOUNT
    }

    function Unique(): UniqueKey {
      UniqueKey(account, key)
    }

    function NewHold(at: int): Reservation {
      Reservation(account, request, key, amount, expiresAt, at, 1, Pending)
    }

    /** An existing reservation under the same key repeats this command. */
    predicate Repeats(r: Reservation) {
      r.request == request && r.amount == amount && r.expiresAt == expiresAt
    }
  }

  /** The guards under which a hold is placed. */
  predicate CanHold(s: Store, id: Id, input: ReserveInput, clock: int) {
    && input.Valid()
    && input.account in s.accounts
    && !s.accounts[input.account].Exceeds(input.amount)
    && s.accounts[input.account].EventTime(clock) < input.expiresAt
    && id !in s.reservations
    && input.Unique() !in s.holdIndex
  }

  /** Account update, reservation insert and ledger insert of one admitted hold. */
  function Hold(s: Store, id: Id, input: ReserveInput, clock: int): Store
    requires input.account in s.accounts
  {
    var a := s.accounts[input.account];
    var at := a.EventTime(clock);
    var b := a.(reserved := a.reserved + input.amount, version := a.version + 1, updatedAt := at);
    Store(s.accounts[input.account := b],
          s.reservations[id := input.NewHold(at)],
          s.ledger + [Entry(input.account, id, ReserveEntry, CallerKey(input.key), 0, input.amount, b.committed,
                            b.reserved, at)],
          s.holdIndex[input.Unique() := id])
  }

  /** The guards under which a pending reservation reaches a terminal status. */
  predicate CanFinish(s: Store, id: Id, status: TerminalStatus, actual: nat, clock: int) {
    && id in s.reservations
    && s.reservations[id].phase.Pending?
    && s.reservations[id].account in s.accounts
    && var r := s.reservations[id];
       var a := s.accounts[r.account];
    && r.amount <= a.reserved
    && a.committed + actual + (a.reserved - r.amount) <= MAXIMUM_AMOUNT
    && (status.Expired? ==> actual == 0 && r.expiresAt <= a.EventTime(clock))
  }

  function TerminalPhase(amount: nat, status: TerminalStatus, actual: nat, at: int): Phase {
    var (released, overage) := Difference(amount, actual);
    Terminal(status, actual, released, overage, at)
  }

  /** Account update, reservation update and ledger insert of one terminal transition. */
  function Finish(s: Store, id: Id, status: TerminalStatus, actual: nat, clock: int): Store
    requires id in s.reservations && s.reservations[id].account in s.accounts
    requires s.reservations[id].amount <= s.accounts[s.reservations[id].account].reserved
  {
    var r := s.reservations[id];
    var a := s.accounts[r.account];
    var at := a.EventTime(clock);
    var b := a.(committed := a.committed + actual, reserved := a.reserved - r.amount,
                version := a.version + 1, updatedAt := at);
    var kind := TerminalKind(status, actual);
    Store(s.accounts[r.account := b],
          s.reservations[id := r.(phase := TerminalPhase(r.amount, status, actual, at), version := r.version + 1)],
          s.ledger + [Entry(r.account, id, kind, DerivedKey(kind, id), actual, -(r.amount as int), b.committed,
                            b.reserved, at)],
          s.holdIndex)
  }
}

/** What every committed transaction keeps true of the budget tables. */
module BudgetInvariant {
  import opened Sums
  import opened BudgetModel

  // The four readings of a reservation that account balances are sums of.

  ghost function HeldBy(a: AccountKey): (Id, Reservation) -> int {
    (id: Id, r: Reservation) => if r.account == a && r.phase.Pending? then r.amount as int else 0
  }

  ghost function SpentBy(a: AccountKey): (Id, Reservation) -> int {
    (id: Id, r: Reservation) => if r.account == a && r.phase.Terminal? then r.phase.actual as int else 0
  }

  ghost function OverageBy(a: AccountKey): (Id, Reservation) -> int {
    (id: Id, r: Reservation) => if r.account == a && r.phase.Terminal? then r.phase.overage as int else 0
  }

  ghost function CommittedDelta(a: AccountKey): Entry -> int {
    (e: Entry) => if e.account == a then e.committedDelta else 0
  }

  ghost function ReservedDelta(a: AccountKey): Entry -> int {
    (e: Entry) => if e.account == a then e.reservedDelta else 0
  }

  /** Every stored row decodes: no scan of a reachable row is rejected. */
  ghost predicate RowsInv(s: Store) {
    && (forall a :: a in s.accounts ==> s.accounts[a].Valid())
    && (forall id :: id in s.reservations ==>
          s.reservations[id].Valid() && s.reservations[id].account in s.accounts)
    && (forall id :: id in s.reservations ==>
          s.reservations[id].createdAt <= s.accounts[s.reservations[id].account].updatedAt)
  }

  ghost predicate HoldIndexInv(s: Store) {
    && (forall k :: k in s.holdIndex ==>
          && s.holdIndex[k] in s.reservations
          && s.reservations[s.holdIndex[k]].account == k.account
          && s.reservations[s.holdIndex[k]].key == k.key)
    && (forall id :: id in s.reservations ==>
          var k := UniqueKey(s.reservations[id].account, s.reservations[id].key);
          k in s.holdIndex && s.holdIndex[k] == id)
  }

  /** The stored balances of an account are the sums over its reservations and
      the folds of its ledger, and they pass the hard limit by no more than the
      overage that settlements were obliged to record. */
  ghost predicate Balanced(s: Store, a: AccountKey)
    requires a in s.accounts
  {
    && s.accounts[a].reserved == Total(s.reservations, HeldBy(a))
    && s.accounts[a].committed == Total(s.reservations, SpentBy(a))
    && s.accounts[a].reserved == SumBy(s.ledger, ReservedDelta(a))
    && s.accounts[a].committed == SumBy(s.ledger, CommittedDelta(a))
    && s.accounts[a].committed + s.accounts[a].reserved <= s.accounts[a].hard + Total(s.reservations, OverageBy(a))
  }

  ghost predicate BalanceInv(s: Store) {
    forall a :: a in s.accounts ==> Balanced(s, a)
  }

  /** The result fields of entry i are the fold of the ledger up to it. */
  ghost predicate ResultIsFold(ledger: seq<Entry>, i: nat)
    requires i < |ledger|
  {
    && ledger[i].resultReserved == SumBy(ledger[..i + 1], ReservedDelta(ledger[i].account))
    && ledger[i].resultCommitted == SumBy(ledger[..i + 1], CommittedDelta(ledger[i].account))
  }

  /** Result fields are folds, and event times never decrease along one
      account's ledger. */
  ghost predicate LedgerInv(s: Store) {
    && (forall i :: 0 <= i < |s.ledger| ==> s.ledger[i].Valid() && ResultIsFold(s.ledger, i))
    && (forall i :: 0 <= i < |s.ledger| ==>
          s.ledger[i].account in s.accounts && s.ledger[i].at <= s.accounts[s.ledger[i].account].updatedAt)
    && (forall i, j :: 0 <= i < j < |s.ledger| && s.ledger[i].account == s.ledger[j].account ==>
          s.ledger[i].at <= s.ledger[j].at)
  }

  predicate IsReserveEvidence(e: Entry, id: Id, r: Reservation) {
    && e.account == r.account && e.reservation == id && e.kind == ReserveEntry && e.key == CallerKey(r.key)
    && e.committedDelta == 0 && e.reservedDelta == r.amount && e.at == r.createdAt
  }

  predicate IsTerminalEvidence(e: Entry, id: Id, r: Reservation) {
    && r.phase.Terminal?
    && e.account == r.account && e.reservation == id
    && e.key == DerivedKey(e.kind, id)
    && (e.kind == ExpireEntry <==> r.phase.status.Expired?)
    && (e.kind == ReleaseEntry <==> r.phase.status.Cancelled? && r.phase.actual == 0)
    && e.kind != ReserveEntry
    && e.committedDelta == r.phase.actual && e.reservedDelta == -(r.amount as int) && e.at == r.phase.at
  }

  ghost predicate HasReserveEvidence(ledger: seq<Entry>, id: Id, r: Reservation) {
    exists i :: 0 <= i < |ledger| && IsReserveEvidence(ledger[i], id, r)
  }

  ghost predicate HasTerminalEvidence(ledger: seq<Entry>, id: Id, r: Reservation) {
    exists i :: 0 <= i < |ledger| && IsTerminalEvidence(ledger[i], id, r)
  }

  /** The ledger holds one reserve entry for every reservation, one terminal
      entry for every terminal reservation, and nothing else. */
  ghost predicate EvidenceInv(reservations: map<Id, Reservation>, ledger: seq<Entry>) {
    && (forall id :: id in reservations ==> HasReserveEvidence(ledger, id, reservations[id]))
    && (forall id :: id in reservations && reservations[id].phase.Terminal? ==>
          HasTerminalEvidence(ledger, id, reservations[id]))
    && (forall i :: 0 <= i < |ledger| ==> Explained(reservations, ledger[i]))
    && (forall i, j :: 0 <= i < j < |ledger| ==> !SameEvidence(ledger[i], ledger[j]))
  }

  predicate Explained(reservations: map<Id, Reservation>, e: Entry) {
    && e.reservation in reservations
    && var r := reservations[e.reservation];
       IsReserveEvidence(e, e.reservation, r) || IsTerminalEvidence(e, e.reservation, r)
  }

  predicate SameEvidence(e: Entry, f: Entry) {
    e.reservation == f.reservation && (e.kind == ReserveEntry) == (f.kind == ReserveEntry)
  }

  ghost predicate StoreInv(s: Store) {
    && RowsInv(s) && HoldIndexInv(s) && BalanceInv(s) && LedgerInv(s)
    && EvidenceInv(s.reservations, s.ledger)
  }

  /** Accounts that have just been opened, and nothing else. */
  ghost predicate Fresh(s: Store) {
    && s.reservations == map[] && s.ledger == [] && s.holdIndex == map[]
    && forall a :: a in s.accounts ==>
         s.accounts[a].Valid() && s.accounts[a].committed == 0 && s.accounts[a].reserved == 0
  }

  lemma FreshIsConsistent(s: Store)
    requires Fresh(s)
    ensures StoreInv(s)
  {
    forall a | a in s.accounts
      ensures Total(s.reservations, HeldBy(a)) == Total(s.reservations, SpentBy(a))
              == Total(s.reservations, OverageBy(a)) == 0
    {
      TotalEmpty(s.reservations, HeldBy(a));
      TotalEmpty(s.reservations, SpentBy(a));
      TotalEmpty(s.reservations, OverageBy(a));
    }
  }

  // ---- placing a hold -------------------------------------------------------

  lemma HoldKeepsBalance(s: Store, id: Id, input: ReserveInput, clock: int, a: AccountKey)
    requires a in s.accounts && Balanced(s, a) && CanHold(s, id, input, clock)
    ensures Balanced(Hold(s, id, input, clock), a)
  {
    hide Total, SumBy;
    var t := Hold(s, id, input, clock);
    var r := t.reservations[id];
    var e := t.ledger[|s.ledger|];
    TotalInsert(s.reservations, id, r, HeldBy(a));
    TotalInsert(s.reservations, id, r, SpentBy(a));
    TotalInsert(s.reservations, id, r, OverageBy(a));
    SumAppend(s.ledger, e, ReservedDelta(a));
    SumAppend(s.ledger, e, CommittedDelta(a));
    OverageIsNonnegative(s, a);
  }

  lemma OverageIsNonnegative(s: Store, a: AccountKey)
    ensures 0 <= Total(s.reservations, OverageBy(a))
  {
    TotalBound(s.reservations, OverageBy(a));
  }

  lemma AppendKeepsFolds(ledger: seq<Entry>, e: Entry)
    requires forall i :: 0 <= i < |ledger| ==> ResultIsFold(ledger, i)
    requires e.resultReserved == SumBy(ledger + [e], ReservedDelta(e.account))
    requires e.resultCommitted == SumBy(ledger + [e], CommittedDelta(e.account))
    ensures forall i :: 0 <= i < |ledger| + 1 ==> ResultIsFold(ledger + [e], i)
  {
    hide SumBy;
    forall i | 0 <= i < |ledger| + 1
      ensures ResultIsFold(ledger + [e], i)
    {
      if i < |ledger| {
        assert ResultIsFold(ledger, i);
        assert (ledger + [e])[..i + 1] == ledger[..i + 1];
      } else {
        assert (ledger + [e])[..i + 1] == ledger + [e];
      }
    }
  }

  lemma AppendKeepsLedger(s: Store, t: Store, e: Entry)
    requires LedgerInv(s) && t.ledger == s.ledger + [e] && e.Valid()
    requires e.account in t.accounts && Balanced(t, e.account)
    requires s.accounts.Keys == t.accounts.Keys
    requires forall a :: a in s.accounts ==> s.accounts[a].updatedAt <= t.accounts[a].updatedAt
    requires s.accounts[e.account].updatedAt <= e.at == t.accounts[e.account].updatedAt
    requires e.resultReserved == t.accounts[e.account].reserved && e.resultCommitted == t.accounts[e.account].committed
    ensures LedgerInv(t)
  {
    hide SumBy, ResultIsFold;
    AppendKeepsFolds(s.ledger, e);
  }

  lemma EvidencePersists(ledger: seq<Entry>, e: Entry, id: Id, r: Reservation)
    ensures HasReserveEvidence(ledger, id, r) ==> HasReserveEvidence(ledger + [e], id, r)
    ensures HasTerminalEvidence(ledger, id, r) ==> HasTerminalEvidence(ledger + [e], id, r)
  {
    if i :| 0 <= i < |ledger| && IsReserveEvidence(ledger[i], id, r) {
      assert IsReserveEvidence((ledger + [e])[i], id, r);
    }
    if i :| 0 <= i < |ledger| && IsTerminalEvidence(ledger[i], id, r) {
      assert IsTerminalEvidence((ledger + [e])[i], id, r);
    }
  }

  lemma HoldKeepsEvidence(rs: map<Id, Reservation>, ledger: seq<Entry>, id: Id, r: Reservation, e: Entry)
    requires EvidenceInv(rs, ledger) && id !in rs && r.phase.Pending? && IsReserveEvidence(e, id, r)
    ensures EvidenceInv(rs[id := r], ledger + [e])
  {
    var rs', ledger' := rs[id := r], ledger + [e];
    forall x | x in rs'
      ensures HasReserveEvidence(ledger', x, rs'[x])
      ensures rs'[x].phase.Terminal? ==> HasTerminalEvidence(ledger', x, rs'[x])
    {
      if x == id {
        assert IsReserveEvidence(ledger'[|ledger|], id, r);
      } else {
        assert HasReserveEvidence(ledger, x, rs[x]);
        EvidencePersists(ledger, e, x, rs[x]);
      }
    }
    assert forall i :: 0 <= i < |ledger| ==> Explained(rs, ledger[i]);
  }

  lemma HoldKeepsRows(s: Store, id: Id, input: ReserveInput, clock: int)
    requires RowsInv(s) && HoldIndexInv(s) && CanHold(s, id, input, clock)
    ensures RowsInv(Hold(s, id, input, clock)) && HoldIndexInv(Hold(s, id, input, clock))
  {
    var t := Hold(s, id, input, clock);
    assert s.accounts[input.account].Valid();
    assert RowsInv(t);
  }

  lemma HoldKeepsLedger(s: Store, id: Id, input: ReserveInput, clock: int)
    requires RowsInv(s) && LedgerInv(s) && CanHold(s, id, input, clock)
    requires Balanced(Hold(s, id, input, clock), input.account)
    ensures LedgerInv(Hold(s, id, input, clock))
  {
    var t := Hold(s, id, input, clock);
    assert s.accounts[input.account].Valid();
    AppendKeepsLedger(s, t, t.ledger[|s.ledger|]);
  }

  lemma HoldKeepsInvariant(s: Store, id: Id, input: ReserveInput, clock: int)
    requires StoreInv(s) && CanHold(s, id, input, clock)
    ensures StoreInv(Hold(s, id, input, clock))
  {
    var t := Hold(s, id, input, clock);
    HoldKeepsRows(s, id, input, clock);
    forall a | a in s.accounts ensures Balanced(t, a) { HoldKeepsBalance(s, id, input, clock, a); }
    HoldKeepsLedger(s, id, input, clock);
    HoldKeepsEvidence(s.reservations, s.ledger, id, t.reservations[id], t.ledger[|s.ledger|]);
  }

  // ---- finishing a hold -----------------------------------------------------

  lemma FinishKeepsBalance(s: Store, id: Id, status: TerminalStatus, actual: nat, clock: int, a: AccountKey)
    requires a in s.accounts && Balanced(s, a) && CanFinish(s, id, status, actual, clock)
    ensures Balanced(Finish(s, id, status, actual, clock), a)
  {
    hide Total, SumBy;
    var t := Finish(s, id, status, actual, clock);
    var r := t.reservations[id];
    var e := t.ledger[|s.ledger|];
    TotalUpdate(s.reservations, id, r, HeldBy(a));
    TotalUpdate(s.reservations, id, r, SpentBy(a));
    TotalUpdate(s.reservations, id, r, OverageBy(a));
    SumAppend(s.ledger, e, ReservedDelta(a));
    SumAppend(s.ledger, e, CommittedDelta(a));
  }

  lemma FinishKeepsEvidence(rs: map<Id, Reservation>, ledger: seq<Entry>, id: Id, r: Reservation, e: Entry)
    requires EvidenceInv(rs, ledger) && id in rs && rs[id].phase.Pending?
    requires rs[id].SameHold(r) && e.kind != ReserveEntry && IsTerminalEvidence(e, id, r)
    ensures EvidenceInv(rs[id := r], ledger + [e])
  {
    var rs', ledger' := rs[id := r], ledger + [e];
    forall x | x in rs'
      ensures HasReserveEvidence(ledger', x, rs'[x])
      ensures rs'[x].phase.Terminal? ==> HasTerminalEvidence(ledger', x, rs'[x])
    {
      assert HasReserveEvidence(ledger, x, rs[x]);
      if x == id {
        assert IsTerminalEvidence(ledger'[|ledger|], id, r);
        var i :| 0 <= i < |ledger| && IsReserveEvidence(ledger[i], x, rs[x]);
        assert IsReserveEvidence(ledger'[i], x, r);
      } else {
        EvidencePersists(ledger, e, x, rs[x]);
      }
    }
    assert forall i :: 0 <= i < |ledger| ==> Explained(rs, ledger[i]);
  }

  lemma FinishKeepsRows(s: Store, id: Id, status: TerminalStatus, actual: nat, clock: int)
    requires RowsInv(s) && HoldIndexInv(s) && CanFinish(s, id, status, actual, clock)
    ensures RowsInv(Finish(s, id, status, actual, clock)) && HoldIndexInv(Finish(s, id, status, actual, clock))
  {
  }

  lemma FinishKeepsLedger(s: Store, id: Id, status: TerminalStatus, actual: nat, clock: int)
    requires RowsInv(s) && LedgerInv(s) && CanFinish(s, id, status, actual, clock)
    requires Balanced(Finish(s, id, status, actual, clock), s.reservations[id].account)
    ensures LedgerInv(Finish(s, id, status, actual, clock))
  {
    var t := Finish(s, id, status, actual, clock);
    assert s.reservations[id].Valid();
    AppendKeepsLedger(s, t, t.ledger[|s.ledger|]);
  }

  lemma FinishKeepsInvariant(s: Store, id: Id, status: TerminalStatus, actual: nat, clock: int)
    requires StoreInv(s) && CanFinish(s, id, status, actual, clock)
    ensures StoreInv(Finish(s, id, status, actual, clock))
  {
    var t := Finish(s, id, status, actual, clock);
    FinishKeepsRows(s, id, status, actual, clock);
    forall a | a in s.accounts ensures Balanced(t, a) { FinishKeepsBalance(s, id, status, actual, clock, a); }
    FinishKeepsLedger(s, id, status, actual, clock);
    FinishKeepsEvidence(s.reservations, s.ledger, id, t.reservations[id], t.ledger[|s.ledger|]);
  }

  // ---- consequences ---------------------------------------------------------

  /** A pending hold is always covered by its account's reserved balance: the
      "account reserved below reservation" branches cannot be taken. */
  lemma PendingHoldIsCovered(s: Store, id: Id)
    requires id in s.reservations && s.reservations[id].phase.Pending?
    requires s.reservations[id].account in s.accounts && Balanced(s, s.reservations[id].account)
    ensures s.reservations[id].amount <= s.accounts[s.reservations[id].account].reserved
  {
    TotalBound(s.reservations, HeldBy(s.reservations[id].account));
  }
}
