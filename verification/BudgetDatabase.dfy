/** The budget tables as they are changed in place: one mutable database shared by
    everyone, and the statements of reserve, settle and reap on it, each proved to be
    the step of the protocol that it stands for. */
module BudgetDatabase {
  import opened Wrappers
  import opened BudgetModel
  import opened BudgetProtocol

  class Database {
    var accounts: map<AccountKey, Account>
    var reservations: map<Id, Reservation>
    var holdIndex: map<UniqueKey, Id>
    var ledger: seq<Entry>
    var txns: map<nat, Txn>
    var locks: map<Id, nat>

    function Tables(): Store
      reads this
    {
      Store(accounts, reservations, ledger, holdIndex)
    }

    function View(): Sys
      reads this
    {
      Sys(Tables(), txns, locks)
    }

    constructor (initial: map<AccountKey, Account>)
      ensures View() == Sys(Store(initial, map[], [], map[]), map[], map[])
    {
      accounts, reservations, holdIndex, ledger, txns, locks := initial, map[], map[], [], map[], map[];
    }

    method Finish(t: nat)
      modifies this`txns, this`locks
      ensures View() == End(old(View()), t)
    {
      txns := txns - {t};
      locks := map id | id in locks && locks[id] != t :: locks[id];
    }

    /** SELECT from the ledger by reservation, kind and key. */
    method LoadEntry(account: AccountKey, id: Id, kind: EntryKind, key: EntryKey) returns (r: Option<Entry>)
      ensures r == FindEntry(ledger, account, id, kind, key)
    {
      var i := 0;
      while i < |ledger|
        invariant 0 <= i <= |ledger|
        invariant FindEntry(ledger, account, id, kind, key) == FindEntry(ledger[i..], account, id, kind, key)
      {
        if EntryMatches(ledger[i], account, id, kind, key) {
          return Some(ledger[i]);
        }
        assert ledger[i..][1..] == ledger[i + 1..];
        i := i + 1;
      }
      r := None;
    }

    method DoReserveLookup(t: nat, input: ReserveInput, now: int) returns (reply: Reply)
      modifies this`txns
      ensures (View(), reply) == BeginReserve(old(View()), t, input, now)
    {
      if t in txns { return Blocked; }
      if !input.Valid() || input.expiresAt <= now { return Refused(Invalid); }
      if input.Unique() !in holdIndex {
        txns := txns[t := KeyAbsent(input, now)];
        return Going;
      }
      var id := holdIndex[input.Unique()];
      if id !in reservations { return Refused(Unavailable); }
      var r := reservations[id];
      if !input.Repeats(r) { return Refused(IdempotencyConflict); }
      var entry := LoadEntry(r.account, id, ReserveEntry, CallerKey(input.key));
      if r.account !in accounts || entry.None? { return Refused(Unavailable); }
      return Done(r, entry.value, true);
    }

    method DoReserveRead(t: nat) returns (reply: Reply)
      modifies this`txns, this`locks
      ensures (View(), reply) == ReadForReserve(old(View()), t)
    {
      if t !in txns || !txns[t].KeyAbsent? { return Blocked; }
      var input, now := txns[t].input, txns[t].now;
      if input.account !in accounts {
        Finish(t);
        return Refused(AccountNotFound);
      }
      var account := accounts[input.account];
      if !account.ActiveAt(now) {
        Finish(t);
        return Refused(AccountInactive);
      }
      if account.Exceeds(input.amount) {
        Finish(t);
        return Refused(BudgetExceeded);
      }
      txns := txns[t := AccountSeen(input, account)];
      return Going;
    }

    method DoReserveCommit(t: nat, id: Id, clock: int) returns (reply: Reply)
      modifies this
      ensures (View(), reply) == CommitReserve(old(View()), t, id, clock)
    {
      if t !in txns || !txns[t].AccountSeen? { return Blocked; }
      var input, seen := txns[t].input, txns[t].seen;
      Finish(t);
      if || input.account !in accounts || accounts[input.account].version != seen.version
         || !accounts[input.account].ActiveAt(clock) || accounts[input.account].Exceeds(input.amount)
      { return Retry; }
      var a := accounts[input.account];
      var at := a.EventTime(clock);
      if input.expiresAt <= at { return Refused(Invalid); }
      if id in reservations { return Refused(Conflict); }
      if input.Unique() in holdIndex { return Retry; }
      var b := a.(reserved := a.reserved + input.amount, version := a.version + 1, updatedAt := at);
      accounts := accounts[input.account := b];
      reservations := reservations[id := input.NewHold(at)];
      holdIndex := holdIndex[input.Unique() := id];
      var entry := Entry(input.account, id, ReserveEntry, CallerKey(input.key), 0, input.amount, b.committed,
                         b.reserved, at);
      ledger := ledger + [entry];
      return Done(reservations[id], entry, false);
    }

    method DoSettleLock(t: nat, input: SettleInput, status: RequestStatus) returns (reply: Reply)
      modifies this`txns, this`locks
      ensures (View(), reply) == BeginSettle(old(View()), t, input, status)
    {
      var id := input.reservation;
      if t in txns || id in locks { return Blocked; }
      if input.actual > MAXIMUM_AMOUNT { return Refused(Invalid); }
      if id !in reservations || reservations[id].account != input.account { return Refused(ReservationNotFound); }
      var r := reservations[id];
      if r.request != input.request || !StatusMatches(status, input.outcome) { return Refused(SettlementConflict); }
      if r.phase.Pending? {
        txns, locks := txns[t := RowLocked(SettleJob(input, status), id, r)], locks[id := t];
        return Going;
      }
      if r.phase.status != StatusFor(input.outcome) || r.phase.actual != input.actual {
        return Refused(SettlementConflict);
      }
      var kind := TerminalKind(r.phase.status, r.phase.actual);
      var entry := LoadEntry(r.account, id, kind, DerivedKey(kind, id));
      if r.account !in accounts || entry.None? { return Refused(Unavailable); }
      return Done(r, entry.value, true);
    }

    method DoReapLock(t: nat, id: Id, clock: int) returns (reply: Reply)
      modifies this`txns, this`locks
      ensures (View(), reply) == BeginReap(old(View()), t, id, clock)
    {
      if || t in txns || id in locks || id !in reservations
         || !reservations[id].phase.Pending? || clock < reservations[id].expiresAt
      { return Blocked; }
      txns, locks := txns[t := RowLocked(ReapJob, id, reservations[id])], locks[id := t];
      return Going;
    }

    method DoFinishRead(t: nat) returns (reply: Reply)
      modifies this`txns, this`locks
      ensures (View(), reply) == ReadForFinish(old(View()), t)
    {
      if t !in txns || !txns[t].RowLocked? { return Blocked; }
      var RowLocked(job, id, row) := txns[t];
      if row.account !in accounts {
        Finish(t);
        return Refused(Unavailable);
      }
      var a := accounts[row.account];
      if a.reserved < row.amount {
        Finish(t);
        return if job.SettleJob? then Retry else Refused(Conflict);
      }
      if job.SettleJob? && a.committed + job.Actual() + (a.reserved - row.amount) > MAXIMUM_AMOUNT {
        Finish(t);
        return Refused(Conflict);
      }
      txns := txns[t := RowLockedAccountSeen(job, id, row, a)];
      return Going;
    }

    method DoFinishCommit(t: nat, clock: int) returns (reply: Reply)
      modifies this
      ensures (View(), reply) == CommitFinish(old(View()), t, clock)
    {
      if t !in txns || !txns[t].RowLockedAccountSeen? { return Blocked; }
      var RowLockedAccountSeen(job, id, row, seen) := txns[t];
      Finish(t);
      if || row.account !in accounts || accounts[row.account].version != seen.version
         || accounts[row.account].reserved < row.amount
      { return Retry; }
      var a := accounts[row.account];
      if job.SettleJob? && a.committed + job.Actual() + (a.reserved - row.amount) > MAXIMUM_AMOUNT { return Retry; }
      var at := a.EventTime(clock);
      if || id !in reservations || !reservations[id].phase.Pending? || reservations[id].version != row.version
         || reservations[id].account != row.account || reservations[id].amount != row.amount
         || (job.ReapJob? && at < reservations[id].expiresAt)
      { return Retry; }
      var status, actual := job.Status(), job.Actual();
      var b := a.(committed := a.committed + actual, reserved := a.reserved - row.amount,
                  version := a.version + 1, updatedAt := at);
      accounts := accounts[row.account := b];
      var r := reservations[id];
      reservations := reservations[id := r.(phase := TerminalPhase(r.amount, status, actual, at),
                                            version := r.version + 1)];
      var kind := TerminalKind(status, actual);
      var entry := Entry(row.account, id, kind, DerivedKey(kind, id), actual, -(row.amount as int), b.committed,
                         b.reserved, at);
      ledger := ledger + [entry];
      return Done(reservations[id], entry, false);
    }

    method Perform(t: nat, step: Step) returns (reply: Reply)
      modifies this
      ensures (View(), reply) == Next(old(View()), t, step)
    {
      match step
      case StepBeginReserve(input, now) => reply := DoReserveLookup(t, input, now);
      case StepReadForReserve => reply := DoReserveRead(t);
      case StepCommitReserve(id, clock) => reply := DoReserveCommit(t, id, clock);
      case StepBeginSettle(input, status) => reply := DoSettleLock(t, input, status);
      case StepBeginReap(id, clock) => reply := DoReapLock(t, id, clock);
      case StepReadForFinish => reply := DoFinishRead(t);
      case StepCommitFinish(clock) => reply := DoFinishCommit(t, clock);
      case StepAbort => Finish(t); reply := Refused(Unavailable);
    }

    /** The other transactions make some moves. */
    method Others(moves: seq<Move>)
      modifies this
      ensures View() == Run(old(View()), moves)
    {
      var i := 0;
      while i < |moves|
        invariant 0 <= i <= |moves|
        invariant Run(old(View()), moves) == Run(View(), moves[i..])
      {
        assert moves[i..][1..] == moves[i + 1..];
        var _ := Perform(moves[i].txn, moves[i].step);
        i := i + 1;
      }
    }
  }
}
