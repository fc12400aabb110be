/** Reserve, settle and reap as interleaved transactions: separate reads of
    committed rows, row locks held by settle and reap, and one guarded commit. */
module BudgetProtocol {
  import opened Wrappers
  import opened BudgetModel

  datatype Outcome = Succeeded | Failed | Cancelled | CacheHit

  datatype RequestStatus =
    | RequestSucceeded | RequestFailed | RequestPartialFailed | RequestCancelled | RequestUnfinished

  predicate StatusMatches(status: RequestStatus, outcome: Outcome) {
    match outcome
    case Succeeded | CacheHit => status.RequestSucceeded?
    case Failed => status.RequestFailed? || status.RequestPartialFailed?
    case Cancelled => status.RequestCancelled?
  }

  function StatusFor(outcome: Outcome): TerminalStatus {
    if outcome.Cancelled? then TerminalStatus.Cancelled else Settled
  }

  /** A validated settlement command; its charges sum to actual. */
  datatype SettleInput = SettleInput(account: AccountKey, reservation: Id, request: Id, outcome: Outcome, actual: nat)

  datatype Error =
    | Invalid | AccountNotFound | AccountInactive | BudgetExceeded | IdempotencyConflict
    | ReservationNotFound | SettlementConflict | Conflict | Unavailable | RetryExhausted

  /** What one step answers: nothing yet, a conflict to be retried, an error, or
      the stored facts (replayed if an earlier transaction committed them). */
  datatype Reply =
    | Blocked | Going | Retry | Refused(error: Error)
    | Done(reservation: Reservation, entry: Entry, replayed: bool)

  /** What a transaction that holds a reservation's row lock will do with it. */
  datatype Job = SettleJob(input: SettleInput, status: RequestStatus) | ReapJob
  {
    function Status(): TerminalStatus {
      if SettleJob? then StatusFor(input.outcome) else Expired
    }

    function Actual(): nat {
      if SettleJob? then input.actual else 0
    }
  }

  datatype Txn =
    | KeyAbsent(input: ReserveInput, now: int)
    | AccountSeen(input: ReserveInput, seen: Account)
    | RowLocked(job: Job, id: Id, row: Reservation)
    | RowLockedAccountSeen(job: Job, id: Id, row: Reservation, seen: Account)
  {
    predicate HoldsLock() {
      RowLocked? || RowLockedAccountSeen?
    }
  }

  datatype Sys = Sys(store: Store, txns: map<nat, Txn>, locks: map<Id, nat>)

  function End(s: Sys, t: nat): Sys {
    s.(txns := s.txns - {t}, locks := map id | id in s.locks && s.locks[id] != t :: s.locks[id])
  }

  predicate EntryMatches(e: Entry, account: AccountKey, id: Id, kind: EntryKind, key: EntryKey) {
    e.account == account && e.reservation == id && e.kind == kind && e.key == key
  }

  function FindEntry(ledger: seq<Entry>, account: AccountKey, id: Id, kind: EntryKind,
                     key: EntryKey): (r: Option<Entry>)
    ensures r.Some? ==> r.value in ledger && EntryMatches(r.value, account, id, kind, key)
    ensures r.None? ==> forall i :: 0 <= i < |ledger| ==> !EntryMatches(ledger[i], account, id, kind, key)
  {
    if |ledger| == 0 then None
    else if EntryMatches(ledger[0], account, id, kind, key) then Some(ledger[0])
    else FindEntry(ledger[1..], account, id, kind, key)
  }

  function Replay(s: Store, id: Id, r: Reservation, kind: EntryKind, key: EntryKey): Reply {
    var e := FindEntry(s.ledger, r.account, id, kind, key);
    if r.account !in s.accounts || e.None? then Refused(Unavailable) else Done(r, e.value, true)
  }

  // ---- reserve --------------------------------------------------------------

  /** The idempotency lookup, first statement of a reserve transaction. */
  function BeginReserve(s: Sys, t: nat, input: ReserveInput, now: int): (Sys, Reply) {
    if t in s.txns then (s, Blocked)
    else if !input.Valid() || input.expiresAt <= now then (s, Refused(Invalid))
    else if input.Unique() !in s.store.holdIndex then (s.(txns := s.txns[t := KeyAbsent(input, now)]), Going)
    else
      var id := s.store.holdIndex[input.Unique()];
      if id !in s.store.reservations then (s, Refused(Unavailable))
      else if !input.Repeats(s.store.reservations[id]) then (s, Refused(IdempotencyConflict))
      else (s, Replay(s.store, id, s.store.reservations[id], ReserveEntry, CallerKey(input.key)))
  }

  /** The account read, a second statement that sees later commits. */
  function ReadForReserve(s: Sys, t: nat): (Sys, Reply) {
    if t !in s.txns || !s.txns[t].KeyAbsent? then (s, Blocked)
    else
      var input, now := s.txns[t].input, s.txns[t].now;
      if input.account !in s.store.accounts then (End(s, t), Refused(AccountNotFound))
      else
        var a := s.store.accounts[input.account];
        if !a.ActiveAt(now) then (End(s, t), Refused(AccountInactive))
        else if a.Exceeds(input.amount) then (End(s, t), Refused(BudgetExceeded))
        else (s.(txns := s.txns[t := AccountSeen(input, a)]), Going)
  }

  /** The guarded account update, reservation insert and ledger insert. */
  function CommitReserve(s: Sys, t: nat, id: Id, clock: int): (Sys, Reply) {
    if t !in s.txns || !s.txns[t].AccountSeen? then (s, Blocked)
    else
      var input, seen, s' := s.txns[t].input, s.txns[t].seen, End(s, t);
      if || input.account !in s.store.accounts
         || s.store.accounts[input.account].version != seen.version
         || !s.store.accounts[input.account].ActiveAt(clock)
         || s.store.accounts[input.account].Exceeds(input.amount)
      then (s', Retry)
      else if input.expiresAt <= s.store.accounts[input.account].EventTime(clock) then (s', Refused(Invalid))
      else if id in s.store.reservations then (s', Refused(Conflict))
      else if input.Unique() in s.store.holdIndex then (s', Retry)
      else
        var store := Hold(s.store, id, input, clock);
        (s'.(store := store), Done(store.reservations[id], store.ledger[|s.store.ledger|], false))
  }

  // ---- settle and reap ------------------------------------------------------

  /** The locking reservation read, the request-status check and, for a terminal
      reservation, the replay. */
  function BeginSettle(s: Sys, t: nat, input: SettleInput, status: RequestStatus): (Sys, Reply) {
    if t in s.txns || input.reservation in s.locks then (s, Blocked)
    else if input.actual > MAXIMUM_AMOUNT then (s, Refused(Invalid))
    else if || input.reservation !in s.store.reservations
            || s.store.reservations[input.reservation].account != input.account
    then (s, Refused(ReservationNotFound))
    else
      var r := s.store.reservations[input.reservation];
      if r.request != input.request || !StatusMatches(status, input.outcome) then (s, Refused(SettlementConflict))
      else if r.phase.Pending? then
        (s.(txns := s.txns[t := RowLocked(SettleJob(input, status), input.reservation, r)],
            locks := s.locks[input.reservation := t]), Going)
      else if r.phase.status != StatusFor(input.outcome) || r.phase.actual != input.actual then
        (s, Refused(SettlementConflict))
      else
        var kind := TerminalKind(r.phase.status, r.phase.actual);
        (s, Replay(s.store, input.reservation, r, kind, DerivedKey(kind, input.reservation)))
  }

  /** FOR UPDATE SKIP LOCKED over expired pending reservations. */
  function BeginReap(s: Sys, t: nat, id: Id, clock: int): (Sys, Reply) {
    if || t in s.txns || id in s.locks || id !in s.store.reservations
       || !s.store.reservations[id].phase.Pending? || clock < s.store.reservations[id].expiresAt
    then (s, Blocked)
    else
      (s.(txns := s.txns[t := RowLocked(ReapJob, id, s.store.reservations[id])], locks := s.locks[id := t]), Going)
  }

  /** The account read of a settle or reap, with the arithmetic checks made on
      the row that was read. */
  function ReadForFinish(s: Sys, t: nat): (Sys, Reply) {
    if t !in s.txns || !s.txns[t].RowLocked? then (s, Blocked)
    else
      var RowLocked(job, id, row) := s.txns[t];
      if row.account !in s.store.accounts then (End(s, t), Refused(Unavailable))
      else
        var a := s.store.accounts[row.account];
        if a.reserved < row.amount then (End(s, t), if job.SettleJob? then Retry else Refused(Conflict))
        else if job.SettleJob? && a.committed + job.Actual() + (a.reserved - row.amount) > MAXIMUM_AMOUNT then
          (End(s, t), Refused(Conflict))
        else (s.(txns := s.txns[t := RowLockedAccountSeen(job, id, row, a)]), Going)
  }

  /** The guarded account update, reservation update and ledger insert. */
  function CommitFinish(s: Sys, t: nat, clock: int): (Sys, Reply) {
    if t !in s.txns || !s.txns[t].RowLockedAccountSeen? then (s, Blocked)
    else
      var RowLockedAccountSeen(job, id, row, seen) := s.txns[t];
      var s' := End(s, t);
      if || row.account !in s.store.accounts
         || s.store.accounts[row.account].version != seen.version
         || s.store.accounts[row.account].reserved < row.amount
         || (job.SettleJob? &&
               s.store.accounts[row.account].committed + job.Actual()
               + (s.store.accounts[row.account].reserved - row.amount) > MAXIMUM_AMOUNT)
      then (s', Retry)
      else if || id !in s.store.reservations
              || !s.store.reservations[id].phase.Pending?
              || s.store.reservations[id].version != row.version
              || s.store.reservations[id].account != row.account
              || s.store.reservations[id].amount != row.amount
              || (job.ReapJob? && s.store.accounts[row.account].EventTime(clock) < s.store.reservations[id].expiresAt)
      then (s', Retry)
      else
        var store := Finish(s.store, id, job.Status(), job.Actual(), clock);
        (s'.(store := store), Done(store.reservations[id], store.ledger[|s.store.ledger|], false))
  }

  datatype Step =
    | StepBeginReserve(input: ReserveInput, now: int)
    | StepReadForReserve
    | StepCommitReserve(id: Id, clock: int)
    | StepBeginSettle(settle: SettleInput, status: RequestStatus)
    | StepBeginReap(id: Id, clock: int)
    | StepReadForFinish
    | StepCommitFinish(clock: int)
    | StepAbort

  function Next(s: Sys, t: nat, step: Step): (Sys, Reply) {
    match step
    case StepBeginReserve(input, now) => BeginReserve(s, t, input, now)
    case StepReadForReserve => ReadForReserve(s, t)
    case StepCommitReserve(id, clock) => CommitReserve(s, t, id, clock)
    case StepBeginSettle(input, status) => BeginSettle(s, t, input, status)
    case StepBeginReap(id, clock) => BeginReap(s, t, id, clock)
    case StepReadForFinish => ReadForFinish(s, t)
    case StepCommitFinish(clock) => CommitFinish(s, t, clock)
    case StepAbort => (End(s, t), Refused(Unavailable))
  }

  /** One move of one transaction; any sequence of moves is an interleaving. */
  datatype Move = Move(txn: nat, step: Step)

  function Run(s: Sys, moves: seq<Move>): Sys
    decreases |moves|
  {
    if |moves| == 0 then s else Run(Next(s, moves[0].txn, moves[0].step).0, moves[1..])
  }
}

/** Safety of every interleaving of reserve, settle and reap. */
module BudgetSafety {
  import opened BudgetModel
  import opened BudgetInvariant
  import opened BudgetProtocol

  /** A row read earlier is either still the row, or has an older version. */
  predicate Snapshot(seen: Account, current: Account) {
    seen.version <= current.version && (seen.version == current.version ==> seen == current)
  }

  ghost predicate TxnOk(s: Sys, t: nat)
    requires t in s.txns
  {
    match s.txns[t]
    case KeyAbsent(input, _) => input.Valid()
    case AccountSeen(input, seen) =>
      && input.Valid() && input.account in s.store.accounts && Snapshot(seen, s.store.accounts[input.account])
      && seen.committed + seen.reserved + input.amount <= seen.hard
    case RowLocked(job, id, row) =>
      LockOk(s, t, id, row) && JobOk(job, id, row)
    case RowLockedAccountSeen(job, id, row, seen) =>
      && LockOk(s, t, id, row) && JobOk(job, id, row)
      && row.account in s.store.accounts && Snapshot(seen, s.store.accounts[row.account])
      && (job.SettleJob? ==> seen.committed + job.input.actual + (seen.reserved - row.amount) <= MAXIMUM_AMOUNT)
  }

  /** What the locking read checked of the command and the row it found. */
  predicate JobOk(job: Job, id: Id, row: Reservation) {
    job.SettleJob? ==>
      && job.input.actual <= MAXIMUM_AMOUNT && job.input.reservation == id
      && job.input.account == row.account && job.input.request == row.request
      && StatusMatches(job.status, job.input.outcome)
  }

  /** A locked reservation row cannot change under its lock. */
  predicate LockOk(s: Sys, t: nat, id: Id, row: Reservation) {
    && id in s.locks && s.locks[id] == t
    && id in s.store.reservations && s.store.reservations[id] == row && row.phase.Pending?
  }

  ghost predicate TxnInv(s: Sys) {
    && (forall t :: t in s.txns ==> TxnOk(s, t))
    && (forall id :: id in s.locks ==>
          && s.locks[id] in s.txns && s.txns[s.locks[id]].HoldsLock()
          && s.txns[s.locks[id]].id == id)
  }

  ghost predicate SysInv(s: Sys) {
    StoreInv(s.store) && TxnInv(s)
  }

  /** How the tables may move in one step: versions grow with every change of
      an account, reservations are never dropped, a terminal one never changes,
      and the ledger is append-only. */
  ghost predicate Grows(s: Store, t: Store) {
    && s.accounts.Keys == t.accounts.Keys
    && (forall a :: a in s.accounts ==>
          Snapshot(s.accounts[a], t.accounts[a]) && s.accounts[a].hard == t.accounts[a].hard)
    && (forall id :: id in s.reservations ==>
          && id in t.reservations
          && s.reservations[id].SameHold(t.reservations[id])
          && (s.reservations[id].phase.Terminal? ==> t.reservations[id] == s.reservations[id]))
    && s.ledger <= t.ledger
  }

  lemma GrowsTransitive(s: Store, t: Store, u: Store)
    requires Grows(s, t) && Grows(t, u)
    ensures Grows(s, u)
  {
  }

  /** Ending transaction t while the store moves under everyone else. */
  lemma EndKeepsTxns(s: Sys, t: nat, store: Store)
    requires TxnInv(s) && Grows(s.store, store)
    requires forall id :: id in s.locks && s.locks[id] != t ==> store.reservations[id] == s.store.reservations[id]
    ensures TxnInv(End(s, t).(store := store))
  {
    var s' := End(s, t).(store := store);
    forall u | u in s'.txns
      ensures TxnOk(s', u)
    {
      assert TxnOk(s, u);
    }
  }

  lemma HoldGrows(s: Store, id: Id, input: ReserveInput, clock: int)
    requires input.account in s.accounts && id !in s.reservations
    ensures Grows(s, Hold(s, id, input, clock))
  {
  }

  lemma FinishGrows(s: Store, id: Id, status: TerminalStatus, actual: nat, clock: int)
    requires CanFinish(s, id, status, actual, clock)
    ensures Grows(s, Finish(s, id, status, actual, clock))
  {
  }

  lemma ReserveStepKeeps(s: Sys, t: nat, id: Id, clock: int)
    requires SysInv(s)
    ensures SysInv(CommitReserve(s, t, id, clock).0) && Grows(s.store, CommitReserve(s, t, id, clock).0.store)
  {
    hide StoreInv, Grows;
    var (s', reply) := CommitReserve(s, t, id, clock);
    if t in s.txns && s.txns[t].AccountSeen? {
      assert TxnOk(s, t);
      if reply.Done? {
        var input := s.txns[t].input;
        HoldKeepsInvariant(s.store, id, input, clock);
        HoldGrows(s.store, id, input, clock);
        LocksAreLive(s);
      } else {
        GrowsReflexive(s.store);
      }
      EndKeepsTxns(s, t, s'.store);
    } else {
      GrowsReflexive(s.store);
    }
  }

  lemma GrowsReflexive(s: Store)
    ensures Grows(s, s)
  {
  }

  lemma LocksAreLive(s: Sys)
    requires TxnInv(s)
    ensures forall id :: id in s.locks ==> id in s.store.reservations
  {
    forall id | id in s.locks ensures id in s.store.reservations {
      assert TxnOk(s, s.locks[id]);
    }
  }

  lemma RowsDecode(s: Store)
    requires StoreInv(s)
    ensures RowsInv(s)
  {
  }

  /** A commit that answers Done finished exactly the locked, still pending
      row; with the row locked, only the account guard could have stopped it. */
  lemma FinishStepCommits(s: Sys, t: nat, clock: int)
    requires t in s.txns && TxnOk(s, t) && s.txns[t].RowLockedAccountSeen? && CommitFinish(s, t, clock).1.Done?
    requires RowsInv(s.store)
    ensures var job, id := s.txns[t].job, s.txns[t].id;
            && CanFinish(s.store, id, job.Status(), job.Actual(), clock)
            && CommitFinish(s, t, clock).0
               == End(s, t).(store := Finish(s.store, id, job.Status(), job.Actual(), clock))
  {
    hide End;
    assert s.store.accounts[s.txns[t].row.account].Valid();
  }

  lemma FinishStepKeeps(s: Sys, t: nat, clock: int)
    requires SysInv(s)
    ensures SysInv(CommitFinish(s, t, clock).0) && Grows(s.store, CommitFinish(s, t, clock).0.store)
  {
    hide StoreInv, RowsInv, Grows, CanFinish;
    var (s', reply) := CommitFinish(s, t, clock);
    if t in s.txns && s.txns[t].RowLockedAccountSeen? {
      if reply.Done? {
        var job, id := s.txns[t].job, s.txns[t].id;
        assert TxnOk(s, t);
        RowsDecode(s.store);
        FinishStepCommits(s, t, clock);
        FinishKeepsInvariant(s.store, id, job.Status(), job.Actual(), clock);
        FinishGrows(s.store, id, job.Status(), job.Actual(), clock);
        LocksAreLive(s);
      } else {
        GrowsReflexive(s.store);
      }
      EndKeepsTxns(s, t, s'.store);
    } else {
      GrowsReflexive(s.store);
    }
  }

  /** Adding or advancing one transaction without touching the store. */
  lemma AdvanceKeepsTxns(s: Sys, s': Sys, t: nat)
    requires TxnInv(s) && s'.store == s.store && t in s'.txns && s'.txns == s.txns[t := s'.txns[t]]
    requires TxnOk(s', t)
    requires || (s'.locks == s.locks && (t in s.txns ==> s.txns[t].HoldsLock() == s'.txns[t].HoldsLock())
                 && (t in s.txns && s'.txns[t].HoldsLock() ==> s.txns[t].id == s'.txns[t].id))
             || (t !in s.txns && s'.txns[t].HoldsLock() && s'.txns[t].id !in s.locks
                 && s'.locks == s.locks[s'.txns[t].id := t])
    ensures TxnInv(s')
  {
    forall u | u in s'.txns
      ensures TxnOk(s', u)
    {
      if u != t {
        assert TxnOk(s, u);
      }
    }
  }

  lemma ReadStepKeeps(s: Sys, t: nat, step: Step)
    requires SysInv(s) && !step.StepCommitReserve? && !step.StepCommitFinish?
    ensures SysInv(Next(s, t, step).0) && Next(s, t, step).0.store == s.store
  {
    hide StoreInv, Replay;
    var s' := Next(s, t, step).0;
    GrowsReflexive(s.store);
    EndKeepsTxns(s, t, s.store);
    if s' != End(s, t) && s' != s {
      assert t in s.txns ==> TxnOk(s, t);
      AdvanceKeepsTxns(s, s', t);
    }
  }

  /** Every step of every transaction keeps the whole invariant. */
  lemma StepKeepsInvariant(s: Sys, t: nat, step: Step)
    requires SysInv(s)
    ensures SysInv(Next(s, t, step).0) && Grows(s.store, Next(s, t, step).0.store)
  {
    hide StoreInv, Grows, TxnInv;
    match step
    case StepCommitReserve(id, clock) => ReserveStepKeeps(s, t, id, clock);
    case StepCommitFinish(clock) => FinishStepKeeps(s, t, clock);
    case _ => ReadStepKeeps(s, t, step); GrowsReflexive(s.store);
  }

  /** Main safety theorem: from freshly opened accounts, every interleaving of
      every number of transactions leaves the tables consistent, and from any
      reachable point on the tables only grow. */
  lemma {:induction false} EveryRunIsSafe(s: Sys, moves: seq<Move>)
    requires SysInv(s)
    ensures SysInv(Run(s, moves)) && Grows(s.store, Run(s, moves).store)
    decreases |moves|
  {
    hide SysInv, Grows, Next;
    GrowsReflexive(s.store);
    if |moves| > 0 {
      var s' := Next(s, moves[0].txn, moves[0].step).0;
      StepKeepsInvariant(s, moves[0].txn, moves[0].step);
      EveryRunIsSafe(s', moves[1..]);
      GrowsTransitive(s.store, s'.store, Run(s', moves[1..]).store);
    }
  }

  /** The new hold is within the limit and the first under its key. */
  ghost predicate ReserveFits(before: Store, after: Store, input: ReserveInput, id: Id) {
    && input.account in after.accounts
    && var account := after.accounts[input.account];
    && account.committed + account.reserved <= account.hard
    && input.Unique() !in before.holdIndex && input.Unique() in after.holdIndex && after.holdIndex[input.Unique()] == id
  }

  /** A newly committed reserve leaves the account at or below its hard limit. */
  lemma CommittedReserveFits(s: Sys, t: nat, id: Id, clock: int)
    requires CommitReserve(s, t, id, clock).1.Done?
    ensures t in s.txns && s.txns[t].AccountSeen?
            && ReserveFits(s.store, CommitReserve(s, t, id, clock).0.store, s.txns[t].input, id)
  {
  }

  /** The theorem spelled out, from freshly opened accounts and for every
      interleaving: balances are the sums of holds and of terminal actuals and the
      folds of the ledger; they pass the hard limit by no more than settled overage;
      every ledger entry reports that fold as of itself, in time order; one key has
      one reservation; and the ledger holds exactly one reserve entry for each
      reservation and one terminal entry for each terminal one. */
  lemma EveryInterleavingBalances(store: Store, moves: seq<Move>)
    requires Fresh(store)
    ensures var end := Run(Sys(store, map[], map[]), moves).store;
            && end.accounts.Keys == store.accounts.Keys
            && (forall a :: a in end.accounts ==> Balanced(end, a) && end.accounts[a].hard == store.accounts[a].hard)
            && (forall i :: 0 <= i < |end.ledger| ==>
                  ResultIsFold(end.ledger, i) && Explained(end.reservations, end.ledger[i]))
            && (forall i, j :: 0 <= i < j < |end.ledger| ==> !SameEvidence(end.ledger[i], end.ledger[j]))
            && (forall i, j :: 0 <= i < j < |end.ledger| && end.ledger[i].account == end.ledger[j].account ==>
                  end.ledger[i].at <= end.ledger[j].at)
            && OneReservationPerKey(end)
            && (forall id :: id in end.reservations ==> HasReserveEvidence(end.ledger, id, end.reservations[id]))
            && (forall id :: id in end.reservations && end.reservations[id].phase.Terminal? ==>
                  HasTerminalEvidence(end.ledger, id, end.reservations[id]))
  {
    hide Balanced, ResultIsFold, Explained, SameEvidence, HasReserveEvidence, HasTerminalEvidence,
         OneReservationPerKey, Run;
    FreshIsConsistent(store);
    var start := Sys(store, map[], map[]);
    EveryRunIsSafe(start, moves);
    IndexSeparatesKeys(Run(start, moves).store);
  }

  ghost predicate OneReservationPerKey(s: Store) {
    forall x, y :: x in s.reservations && y in s.reservations ==>
      s.reservations[x].account == s.reservations[y].account && s.reservations[x].key == s.reservations[y].key ==>
        x == y
  }

  lemma IndexSeparatesKeys(s: Store)
    requires HoldIndexInv(s)
    ensures OneReservationPerKey(s)
  {
    forall x, y | x in s.reservations && y in s.reservations
      ensures s.reservations[x].account == s.reservations[y].account
              && s.reservations[x].key == s.reservations[y].key ==>
                x == y
    {
      var k := UniqueKey(s.reservations[x].account, s.reservations[x].key);
      assert s.holdIndex[k] == x;
    }
  }
}
