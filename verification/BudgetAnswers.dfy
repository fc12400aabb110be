/** What each statement of reserve, settle and reap answers, in terms of the rows alone and
    for every reachable state. */
module BudgetAnswers {
  import opened BudgetModel
  import opened BudgetInvariant
  import opened BudgetProtocol
  import opened BudgetSafety
  import opened BudgetBook

  function Max(x: int, y: int): int { if x < y then y else x }

  predicate InForce(a: Account, t: int) {
    a.status.Open? && a.periodStart <= t < a.periodEnd
  }

  /** The reservation that the key of the command has. */
  predicate HasKey(s: Store, id: Id, input: ReserveInput) {
    id in s.reservations && s.reservations[id].account == input.account && s.reservations[id].key == input.key
  }

  lemma KeyIs(s: Sys, input: ReserveInput)
    requires SysInv(s)
    ensures forall id :: HasKey(s.store, id, input) <==>
              input.Unique() in s.store.holdIndex && s.store.holdIndex[input.Unique()] == id
  {
    hide TxnInv, RowsInv, BalanceInv, LedgerInv, EvidenceInv;
    forall id
      ensures HasKey(s.store, id, input) <==>
                input.Unique() in s.store.holdIndex && s.store.holdIndex[input.Unique()] == id
    {
      if HasKey(s.store, id, input) {
        assert UniqueKey(s.store.reservations[id].account, s.store.reservations[id].key) == input.Unique();
      }
    }
  }

  lemma KeyIsHeld(s: Sys, input: ReserveInput)
    requires SysInv(s) && input.Unique() in s.store.holdIndex
    ensures HasKey(s.store, s.store.holdIndex[input.Unique()], input)
  {
    hide SysInv;
    KeyIs(s, input);
  }

  lemma KeyIsFree(s: Sys, input: ReserveInput)
    requires SysInv(s) && forall x :: !HasKey(s.store, x, input)
    ensures input.Unique() !in s.store.holdIndex && forall x :: !Under(Abs(s.store), x, input)
  {
    hide SysInv;
    if input.Unique() in s.store.holdIndex {
      KeyIsHeld(s, input);
    }
    forall x ensures !Under(Abs(s.store), x, input) {
      assert !HasKey(s.store, x, input);
    }
  }

  // ---- reserve ----------------------------------------------------------------------

  /** The lookup refuses a malformed or late command, lets one with a free key go on, and
      answers a repeat with the stored hold exactly if request, amount and expiry agree. */
  lemma LookupIsExact(s: Sys, t: nat, input: ReserveInput, now: int)
    requires SysInv(s) && t !in s.txns
    ensures var (s', reply) := BeginReserve(s, t, input, now);
            && (reply == Refused(Invalid) <==> input.amount < 1 || input.amount > EXACT || input.expiresAt <= now)
            && (!reply.Going? ==> s' == s)
            && (reply != Refused(Invalid) && (forall id :: !HasKey(s.store, id, input)) ==>
                  reply.Going? && s' == s.(txns := s.txns[t := KeyAbsent(input, now)]))
            && (reply != Refused(Invalid) ==>
                  forall id :: HasKey(s.store, id, input) ==>
                    var r := s.store.reservations[id];
                    && s' == s
                    && (if r.request == input.request && r.amount == input.amount && r.expiresAt == input.expiresAt
                        then reply.Done? && reply.reservation == r && reply.replayed && reply.entry in s.store.ledger
                             && IsReserveEvidence(reply.entry, id, r)
                        else reply == Refused(IdempotencyConflict)))
  {
    hide SysInv, Abs, BookReserve, Replay;
    KeyIs(s, input);
    if input.Valid() && now < input.expiresAt {
      LookupIsAtomic(s, t, input, 0, now, now);
      if input.Unique() in s.store.holdIndex {
        var id := s.store.holdIndex[input.Unique()];
        assert HasKey(s.store, id, input);
        HeldRowReplays(s, id);
      }
    }
  }

  lemma HeldRowReplays(s: Sys, id: Id)
    requires SysInv(s) && id in s.store.reservations
    ensures var r := s.store.reservations[id];
            var reply := Replay(s.store, id, r, ReserveEntry, CallerKey(r.key));
            && reply.Done? && reply.replayed && reply.reservation == r && reply.entry in s.store.ledger
            && IsReserveEvidence(reply.entry, id, r)
  {
    hide StoreInv, TxnInv, RowsInv, HoldIndexInv, BalanceInv, LedgerInv, EvidenceInv, Replay;
    Parts(s);
    ReplayFindsEvidence(s.store, id, false);
  }

  /** The account read refuses exactly for a missing account, one that is not in force, and
      one that the hold would push over its hard limit; else the row is remembered. */
  lemma ReserveReadIsExact(s: Sys, t: nat)
    requires SysInv(s) && t in s.txns && s.txns[t].KeyAbsent?
    ensures var (s', reply) := ReadForReserve(s, t);
            var input, now := s.txns[t].input, s.txns[t].now;
            && (reply == Refused(AccountNotFound) <==> input.account !in s.store.accounts)
            && (input.account in s.store.accounts ==>
                  var a := s.store.accounts[input.account];
                  && (reply == Refused(AccountInactive) <==> !InForce(a, now))
                  && (reply == Refused(BudgetExceeded) <==>
                        InForce(a, now) && a.committed + a.reserved + input.amount > a.hard)
                  && (reply.Going? <==> InForce(a, now) && a.committed + a.reserved + input.amount <= a.hard)
                  && (reply.Going? ==> s' == s.(txns := s.txns[t := AccountSeen(input, a)])))
            && (!reply.Going? ==> reply.Refused? && s'.store == s.store && s'.txns == s.txns - {t})
  {
  }

  /** The tables after a hold is placed. */
  ghost predicate Placed(s: Store, s': Store, id: Id, input: ReserveInput, at: int, entry: Entry)
    requires input.account in s.accounts
  {
    var a := s.accounts[input.account];
    && s'.accounts == s.accounts[input.account := a.(reserved := a.reserved + input.amount, version := a.version + 1,
                                                     updatedAt := at)]
    && s'.reservations == s.reservations[id := Reservation(input.account, input.request, input.key, input.amount,
                                                           input.expiresAt, at, 1, Pending)]
    && s'.ledger == s.ledger + [entry]
    && entry == Entry(input.account, id, ReserveEntry, CallerKey(input.key), 0, input.amount, a.committed,
                      a.reserved + input.amount, at)
    && s'.holdIndex == s.holdIndex[UniqueKey(input.account, input.key) := id]
  }

  /** A reserve commit retries exactly if the account has moved since it was read, has left
      its period, or the key was taken; it refuses exactly a hold that would expire at once
      or whose identifier exists; and otherwise places exactly this hold. */
  lemma ReserveCommitIsExact(s: Sys, t: nat, id: Id, clock: int)
    requires SysInv(s) && t in s.txns && s.txns[t].AccountSeen?
    ensures var (s', reply) := CommitReserve(s, t, id, clock);
            var input, seen := s.txns[t].input, s.txns[t].seen;
            && input.account in s.store.accounts
            && var a := s.store.accounts[input.account];
               var at := Max(a.updatedAt, clock);
               var taken := exists x :: HasKey(s.store, x, input);
            && (reply.Retry? <==>
                  || a.version != seen.version || !InForce(a, clock)
                  || (at < input.expiresAt && id !in s.store.reservations && taken))
            && (!reply.Retry? ==>
                  && (reply == Refused(Invalid) <==> input.expiresAt <= at)
                  && (reply == Refused(Conflict) <==> at < input.expiresAt && id in s.store.reservations)
                  && (reply.Done? <==> at < input.expiresAt && id !in s.store.reservations))
            && s'.txns == s.txns - {t}
            && (!reply.Done? ==> (reply.Retry? || reply.Refused?) && s'.store == s.store)
            && (reply.Done? ==> !reply.replayed && reply.reservation == s'.store.reservations[id]
                                && Placed(s.store, s'.store, id, input, at, reply.entry))
  {
    hide StoreInv, HoldIndexInv, RowsInv, BalanceInv, LedgerInv, EvidenceInv;
    assert TxnOk(s, t);
    KeyIs(s, s.txns[t].input);
    var input := s.txns[t].input;
    if input.Unique() in s.store.holdIndex {
      assert HasKey(s.store, s.store.holdIndex[input.Unique()], input);
    }
  }

  // ---- settle and reap ----------------------------------------------------------------

  /** The locking read of a settlement. */
  lemma SettleLockIsExact(s: Sys, t: nat, input: SettleInput, status: RequestStatus)
    requires SysInv(s) && t !in s.txns && input.reservation !in s.locks
    ensures var (s', reply) := BeginSettle(s, t, input, status);
            var known := input.reservation in s.store.reservations
                         && s.store.reservations[input.reservation].account == input.account;
            && (reply == Refused(Invalid) <==> input.actual > EXACT)
            && (reply == Refused(ReservationNotFound) <==> input.actual <= EXACT && !known)
            && (!reply.Going? ==> s' == s)
            && (input.actual <= EXACT && known ==>
                  var r := s.store.reservations[input.reservation];
                  var agrees := r.request == input.request && Bears(status, input.outcome);
                  var ended := if input.outcome.Cancelled? then TerminalStatus.Cancelled else Settled;
                  && (reply.Going? <==> agrees && r.phase.Pending?)
                  && (reply.Going? ==>
                        s' == s.(txns := s.txns[t := RowLocked(SettleJob(input, status), input.reservation, r)],
                                 locks := s.locks[input.reservation := t]))
                  && (reply.Done? <==>
                        agrees && r.phase.Terminal? && r.phase.status == ended && r.phase.actual == input.actual)
                  && (reply.Done? ==> reply.reservation == r && reply.replayed && reply.entry in s.store.ledger
                                      && IsTerminalEvidence(reply.entry, input.reservation, r))
                  && (!reply.Going? && !reply.Done? ==> reply == Refused(SettlementConflict)))
  {
    hide SysInv, Abs, BookSettle, Replay;
    if input.actual <= EXACT && input.reservation in s.store.reservations
       && s.store.reservations[input.reservation].phase.Terminal? {
      EndedRowReplays(s, input.reservation);
    }
  }

  lemma EndedRowReplays(s: Sys, id: Id)
    requires SysInv(s) && id in s.store.reservations && s.store.reservations[id].phase.Terminal?
    ensures var r := s.store.reservations[id];
            var kind := TerminalKind(r.phase.status, r.phase.actual);
            var reply := Replay(s.store, id, r, kind, DerivedKey(kind, id));
            && reply.Done? && reply.replayed && reply.reservation == r && reply.entry in s.store.ledger
            && IsTerminalEvidence(reply.entry, id, r)
  {
    hide StoreInv, TxnInv, RowsInv, HoldIndexInv, BalanceInv, LedgerInv, EvidenceInv, Replay;
    Parts(s);
    ReplayFindsEvidence(s.store, id, true);
  }

  /** A reap takes a row exactly if it is there, pending, expired and not locked. */
  lemma ReapLockIsExact(s: Sys, t: nat, id: Id, clock: int)
    requires t !in s.txns
    ensures var (s', reply) := BeginReap(s, t, id, clock);
            var due := id in s.store.reservations && s.store.reservations[id].phase.Pending?
                       && s.store.reservations[id].expiresAt <= clock && id !in s.locks;
            && (reply.Going? <==> due) && (!due ==> reply.Blocked? && s' == s)
            && (due ==> s' == s.(txns := s.txns[t := RowLocked(ReapJob, id, s.store.reservations[id])],
                                 locks := s.locks[id := t]))
  {
  }

  /** The account read of a settle or reap goes on, unless a settlement would pass the
      exact-integer range. */
  lemma FinishReadIsExact(s: Sys, t: nat)
    requires SysInv(s) && t in s.txns && s.txns[t].RowLocked?
    ensures var (s', reply) := ReadForFinish(s, t);
            var RowLocked(job, id, row) := s.txns[t];
            && row.account in s.store.accounts
            && var a := s.store.accounts[row.account];
            && (reply.Going? <==>
                  (job.SettleJob? ==> a.committed + job.input.actual + a.reserved - row.amount <= EXACT))
            && (reply.Going? ==> s' == s.(txns := s.txns[t := RowLockedAccountSeen(job, id, row, a)]))
            && (!reply.Going? ==> reply == Refused(Conflict) && s'.store == s.store && s'.txns == s.txns - {t})
  {
    hide StoreInv, TxnInv, RowsInv, HoldIndexInv, BalanceInv, LedgerInv, EvidenceInv;
    Parts(s);
    assert TxnOk(s, t);
    RowsOf(s.store, s.txns[t].row.account, s.txns[t].id);
    PendingHoldIsCovered(s.store, s.txns[t].id);
  }

  /** The tables after a pending hold has ended. */
  ghost predicate Concluded(s: Store, s': Store, id: Id, status: TerminalStatus, actual: nat, at: int, entry: Entry)
    requires id in s.reservations && s.reservations[id].account in s.accounts
  {
    var r := s.reservations[id];
    var a := s.accounts[r.account];
    var kind := if status.Expired? then ExpireEntry
                else if status.Cancelled? && actual == 0 then ReleaseEntry else SettleEntry;
    && r.amount <= a.reserved
    && s'.accounts == s.accounts[r.account := a.(committed := a.committed + actual, reserved := a.reserved - r.amount,
                                                 version := a.version + 1, updatedAt := at)]
    && s'.reservations == s.reservations[id := r.(version := r.version + 1,
                                                  phase := Terminal(status, actual, Max(r.amount - actual, 0),
                                                                    Max(actual - r.amount, 0), at))]
    && s'.ledger == s.ledger + [entry]
    && entry == Entry(r.account, id, kind, DerivedKey(kind, id), actual, -(r.amount as int), a.committed + actual,
                      a.reserved - r.amount, at)
    && s'.holdIndex == s.holdIndex
  }

  /** A settle or reap commit retries exactly if the account has moved since it was read,
      or a reap comes too early for the account's own time; otherwise it ends exactly this
      hold, with the status and the cost that its job says. */
  lemma FinishCommitIsExact(s: Sys, t: nat, clock: int)
    requires SysInv(s) && t in s.txns && s.txns[t].RowLockedAccountSeen?
    ensures var (s', reply) := CommitFinish(s, t, clock);
            var RowLockedAccountSeen(job, id, row, seen) := s.txns[t];
            && row.account in s.store.accounts && id in s.store.reservations && s.store.reservations[id] == row
            && var a := s.store.accounts[row.account];
               var at := Max(a.updatedAt, clock);
               var status := if job.ReapJob? then Expired
                             else if job.input.outcome.Cancelled? then TerminalStatus.Cancelled else Settled;
               var actual := if job.ReapJob? then 0 else job.input.actual;
            && (reply.Retry? <==> a.version != seen.version || (job.ReapJob? && at < row.expiresAt))
            && s'.txns == s.txns - {t}
            && (reply.Retry? ==> s'.store == s.store)
            && (!reply.Retry? ==>
                  && reply.Done? && !reply.replayed && id in s'.store.reservations
                  && reply.reservation == s'.store.reservations[id]
                  && Concluded(s.store, s'.store, id, status, actual, at, reply.entry))
  {
    hide StoreInv, TxnInv, RowsInv, HoldIndexInv, BalanceInv, LedgerInv, EvidenceInv, CommitFinish;
    Parts(s);
    assert TxnOk(s, t);
    RowsOf(s.store, s.txns[t].row.account, s.txns[t].id);
    PendingHoldIsCovered(s.store, s.txns[t].id);
    CommitFinishIs(s, t, clock);
  }

  lemma CommitFinishIs(s: Sys, t: nat, clock: int)
    requires TxnInv(s) && t in s.txns && s.txns[t].RowLockedAccountSeen? && TxnOk(s, t)
    requires s.txns[t].row.amount <= s.store.accounts[s.txns[t].row.account].reserved
    ensures var (s', reply) := CommitFinish(s, t, clock);
            var RowLockedAccountSeen(job, id, row, seen) := s.txns[t];
            var a := s.store.accounts[row.account];
            var at := Max(a.updatedAt, clock);
            var status := if job.ReapJob? then Expired
                          else if job.input.outcome.Cancelled? then TerminalStatus.Cancelled else Settled;
            var actual := if job.ReapJob? then 0 else job.input.actual;
            && (reply.Retry? <==> a.version != seen.version || (job.ReapJob? && at < row.expiresAt))
            && s'.txns == s.txns - {t}
            && (reply.Retry? ==> s'.store == s.store)
            && (!reply.Retry? ==>
                  && reply.Done? && !reply.replayed && id in s'.store.reservations
                  && reply.reservation == s'.store.reservations[id]
                  && Concluded(s.store, s'.store, id, status, actual, at, reply.entry))
  {
    hide TxnInv;
  }
}
