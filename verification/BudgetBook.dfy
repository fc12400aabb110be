/** The atomic ledger that the interleaved protocol implements: fixed account
    terms and a set of holds, with balances computed and never stored, no
    versions, no locks and no separate reads. */
module BudgetBook {
  import opened Wrappers
  import opened Sums
  import opened BudgetModel
  import opened BudgetInvariant
  import opened BudgetProtocol
  import opened BudgetSafety

  datatype Terms = Terms(status: AccountStatus, periodStart: int, periodEnd: int, hard: nat)

  datatype Book = Book(terms: map<AccountKey, Terms>, holds: map<Id, Reservation>)

  // 2^53 - 1
  const EXACT: nat := 0x20_0000_0000_0000 - 1

  datatype Verdict = Declined(error: Error) | Recorded(reservation: Reservation, replayed: bool)

  ghost function Abs(s: Store): Book {
    Book(map a | a in s.accounts ::
           Terms(s.accounts[a].status, s.accounts[a].periodStart, s.accounts[a].periodEnd, s.accounts[a].hard),
         s.reservations)
  }

  ghost function Spent(b: Book, a: AccountKey): int {
    Total(b.holds, SpentBy(a))
  }

  ghost function Held(b: Book, a: AccountKey): int {
    Total(b.holds, HeldBy(a))
  }

  predicate Under(b: Book, id: Id, input: ReserveInput) {
    id in b.holds && b.holds[id].account == input.account && b.holds[id].key == input.key
  }

  /** Reserve in one indivisible step, at event time at. */
  ghost function BookReserve(b: Book, input: ReserveInput, id: Id, now: int, at: int): (Book, Verdict) {
    if x :| Under(b, x, input) then
      (b, if b.holds[x].request == input.request && b.holds[x].amount == input.amount
             && b.holds[x].expiresAt == input.expiresAt
          then Recorded(b.holds[x], true) else Declined(IdempotencyConflict))
    else if input.account !in b.terms then (b, Declined(AccountNotFound))
    else
      var terms := b.terms[input.account];
      if !(terms.status.Open? && terms.periodStart <= now < terms.periodEnd) then (b, Declined(AccountInactive))
      else if Spent(b, input.account) + Held(b, input.account) + input.amount > terms.hard then
        (b, Declined(BudgetExceeded))
      else if input.expiresAt <= at then (b, Declined(Invalid))
      else if id in b.holds then (b, Declined(Conflict))
      else
        var hold := Reservation(input.account, input.request, input.key, input.amount, input.expiresAt, at, 1, Pending);
        (b.(holds := b.holds[id := hold]), Recorded(hold, false))
  }

  /** The request has ended as the settlement says. */
  predicate Bears(status: RequestStatus, outcome: Outcome) {
    match status
    case RequestSucceeded => outcome.Succeeded? || outcome.CacheHit?
    case RequestFailed => outcome.Failed?
    case RequestPartialFailed => outcome.Failed?
    case RequestCancelled => outcome.Cancelled?
    case RequestUnfinished => false
  }

  /** Settle in one indivisible step. */
  ghost function BookSettle(b: Book, input: SettleInput, status: RequestStatus, at: int): (Book, Verdict) {
    if input.reservation !in b.holds || b.holds[input.reservation].account != input.account then
      (b, Declined(ReservationNotFound))
    else
      var r := b.holds[input.reservation];
      var ended := if input.outcome.Cancelled? then TerminalStatus.Cancelled else Settled;
      if r.request != input.request || !Bears(status, input.outcome) then (b, Declined(SettlementConflict))
      else if r.phase.Terminal? then
        (b, if r.phase.status == ended && r.phase.actual == input.actual
            then Recorded(r, true) else Declined(SettlementConflict))
      else if Spent(b, r.account) + input.actual + Held(b, r.account) - r.amount > EXACT then (b, Declined(Conflict))
      else BookFinish(b, input.reservation, ended, input.actual, at)
  }

  /** What is left of the hold is released, what it did not cover is overage. */
  function BookFinish(b: Book, id: Id, status: TerminalStatus, actual: nat, at: int): (Book, Verdict)
    requires id in b.holds
  {
    var hold := b.holds[id];
    var released := if hold.amount > actual then hold.amount - actual else 0;
    var overage := if actual > hold.amount then actual - hold.amount else 0;
    var r := hold.(phase := Terminal(status, actual, released, overage, at), version := hold.version + 1);
    (b.(holds := b.holds[id := r]), Recorded(r, false))
  }

  ghost function VerdictOf(reply: Reply): Verdict
    requires reply.Done? || reply.Refused?
  {
    if reply.Done? then Recorded(reply.reservation, reply.replayed) else Declined(reply.error)
  }

  lemma Parts(s: Sys)
    requires SysInv(s)
    ensures RowsInv(s.store) && HoldIndexInv(s.store) && BalanceInv(s.store)
    ensures LedgerInv(s.store) && EvidenceInv(s.store.reservations, s.store.ledger)
    ensures forall t :: t in s.txns ==> TxnOk(s, t)
  {
  }

  /** The unique index answers exactly the atomic ledger's question. */
  lemma IndexAnswers(s: Store, input: ReserveInput)
    requires HoldIndexInv(s)
    ensures input.Unique() in s.holdIndex <==> exists x :: Under(Abs(s), x, input)
    ensures forall x :: Under(Abs(s), x, input) ==> input.Unique() in s.holdIndex && s.holdIndex[input.Unique()] == x
  {
    forall x | Under(Abs(s), x, input)
      ensures input.Unique() in s.holdIndex && s.holdIndex[input.Unique()] == x
    {
      assert UniqueKey(s.reservations[x].account, s.reservations[x].key) == input.Unique();
    }
    if input.Unique() in s.holdIndex {
      assert Under(Abs(s), s.holdIndex[input.Unique()], input);
    }
  }

  lemma IndexedRow(s: Store, input: ReserveInput)
    requires HoldIndexInv(s) && input.Unique() in s.holdIndex
    ensures s.holdIndex[input.Unique()] in s.reservations
    ensures s.reservations[s.holdIndex[input.Unique()]].key == input.key
    ensures Abs(s).holds == s.reservations
  {
  }

  /** The evidence a replay returns always exists: it is the original entry. */
  lemma ReplayFindsEvidence(s: Store, id: Id, terminal: bool)
    requires EvidenceInv(s.reservations, s.ledger) && RowsInv(s) && id in s.reservations
    requires terminal ==> s.reservations[id].phase.Terminal?
    ensures var r := s.reservations[id];
            var kind := if terminal then TerminalKind(r.phase.status, r.phase.actual) else ReserveEntry;
            var reply := Replay(s, id, r, kind, if terminal then DerivedKey(kind, id) else CallerKey(r.key));
            && reply.Done? && reply.replayed && reply.reservation == r && reply.entry in s.ledger
            && (if terminal then IsTerminalEvidence(reply.entry, id, r) else IsReserveEvidence(reply.entry, id, r))
  {
    var r := s.reservations[id];
    if terminal {
      assert HasTerminalEvidence(s.ledger, id, r);
      var i :| 0 <= i < |s.ledger| && IsTerminalEvidence(s.ledger[i], id, r);
      var kind := TerminalKind(r.phase.status, r.phase.actual);
      assert EntryMatches(s.ledger[i], r.account, id, kind, DerivedKey(kind, id));
      var e := FindEntry(s.ledger, r.account, id, kind, DerivedKey(kind, id)).value;
      assert Explained(s.reservations, e);
    } else {
      assert HasReserveEvidence(s.ledger, id, r);
      var i :| 0 <= i < |s.ledger| && IsReserveEvidence(s.ledger[i], id, r);
      assert EntryMatches(s.ledger[i], r.account, id, ReserveEntry, CallerKey(r.key));
      var e := FindEntry(s.ledger, r.account, id, ReserveEntry, CallerKey(r.key)).value;
      assert Explained(s.reservations, e);
    }
  }

  lemma {:induction false} FirstMatchStays(ledger: seq<Entry>, more: seq<Entry>, account: AccountKey, id: Id,
                                           kind: EntryKind, key: EntryKey)
    requires FindEntry(ledger, account, id, kind, key).Some?
    ensures FindEntry(ledger + more, account, id, kind, key) == FindEntry(ledger, account, id, kind, key)
    decreases |ledger|
  {
    if !EntryMatches(ledger[0], account, id, kind, key) {
      assert (ledger + more)[1..] == ledger[1..] + more;
      FirstMatchStays(ledger[1..], more, account, id, kind, key);
    }
  }

  /** A replay reads reservation, account and ledger entry one after the other; whatever
      commits in between, it answers as if it had read all three at the first. */
  lemma ReplayReadsAgree(s: Store, next: Store, last: Store, id: Id, kind: EntryKind, key: EntryKey)
    requires id in s.reservations && Replay(s, id, s.reservations[id], kind, key).Done? && Grows(s, next)
             && Grows(next, last)
    ensures var r := s.reservations[id];
            && r.account in next.accounts
            && FindEntry(last.ledger, r.account, id, kind, key) == Some(Replay(s, id, r, kind, key).entry)
  {
    var r := s.reservations[id];
    GrowsTransitive(s, next, last);
    assert last.ledger == s.ledger + last.ledger[|s.ledger|..];
    FirstMatchStays(s.ledger, last.ledger[|s.ledger|..], r.account, id, kind, key);
  }

  /** Whatever the idempotency lookup answers is the atomic answer; an agreeing
      repeat gets the original reservation and its original ledger entry. */
  lemma LookupIsAtomic(s: Sys, t: nat, input: ReserveInput, id: Id, now: int, at: int)
    requires SysInv(s) && t !in s.txns && input.Valid() && now < input.expiresAt
    ensures var (s', reply) := BeginReserve(s, t, input, now);
            && s'.store == s.store
            && (reply.Going? <==> input.Unique() !in s.store.holdIndex)
            && (!reply.Going? ==>
                  && (reply.Refused? || reply.Done?)
                  && BookReserve(Abs(s.store), input, id, now, at) == (Abs(s.store), VerdictOf(reply))
                  && (reply.Done? ==> reply.entry in s.store.ledger
                                      && IsReserveEvidence(reply.entry, s.store.holdIndex[input.Unique()],
                                                           reply.reservation)))
  {
    hide StoreInv, TxnInv, RowsInv, HoldIndexInv, BalanceInv, LedgerInv, EvidenceInv, Replay, Abs;
    Parts(s);
    IndexAnswers(s.store, input);
    if input.Unique() in s.store.holdIndex {
      var x := s.store.holdIndex[input.Unique()];
      IndexedRow(s.store, input);
      assert Under(Abs(s.store), x, input);
      ReplayFindsEvidence(s.store, x, false);
    }
  }

  lemma RowsOf(s: Store, a: AccountKey, id: Id)
    requires RowsInv(s) && BalanceInv(s) && id in s.reservations && s.reservations[id].account == a
    ensures a in s.accounts && Balanced(s, a) && s.accounts[a].Valid()
  {
  }

  lemma SpentAndHeld(s: Store, a: AccountKey)
    requires BalanceInv(s) && a in s.accounts
    ensures s.accounts[a].committed == Spent(Abs(s), a) && s.accounts[a].reserved == Held(Abs(s), a)
  {
    assert Balanced(s, a);
  }

  /** A rejection made on the second read is the atomic answer if and only if
      no reservation has taken the key since the lookup. */
  lemma RejectionIsAtomicIffKeyStillAbsent(s: Sys, t: nat, id: Id, at: int)
    requires SysInv(s) && t in s.txns && s.txns[t].KeyAbsent? && ReadForReserve(s, t).1.Refused?
    ensures ReadForReserve(s, t).0.store == s.store
    ensures var input, now := s.txns[t].input, s.txns[t].now;
            BookReserve(Abs(s.store), input, id, now, at) == (Abs(s.store), VerdictOf(ReadForReserve(s, t).1))
            <==> input.Unique() !in s.store.holdIndex
  {
    hide StoreInv, TxnInv, RowsInv, HoldIndexInv, BalanceInv, LedgerInv, EvidenceInv, Total;
    var input := s.txns[t].input;
    Parts(s);
    IndexAnswers(s.store, input);
    if input.account in s.store.accounts {
      SpentAndHeld(s.store, input.account);
    }
  }

  /** A successful reserve commit did what the atomic ledger does to the
      current state, and appended the evidence of it. */
  ghost predicate ReserveAgrees(s: Store, input: ReserveInput, id: Id, clock: int, s': Store, reply: Reply) {
    && reply.Done? && input.account in s.accounts
    && BookReserve(Abs(s), input, id, clock, s.accounts[input.account].EventTime(clock)) == (Abs(s'), VerdictOf(reply))
    && s'.ledger == s.ledger + [reply.entry] && IsReserveEvidence(reply.entry, id, reply.reservation)
  }

  lemma ReserveCommitIsAtomic(s: Sys, t: nat, id: Id, clock: int)
    requires SysInv(s) && t in s.txns && s.txns[t].AccountSeen?
    ensures var (s', reply) := CommitReserve(s, t, id, clock);
            || (!reply.Done? && s'.store == s.store)
            || ReserveAgrees(s.store, s.txns[t].input, id, clock, s'.store, reply)
  {
    hide StoreInv, TxnInv, RowsInv, HoldIndexInv, BalanceInv, LedgerInv, EvidenceInv, Total, Abs, BookReserve;
    Parts(s);
    assert TxnOk(s, t);
    if CommitReserve(s, t, id, clock).1.Done? {
      HoldIsAtomic(s.store, s.txns[t].input, id, clock);
    }
  }

  /** A refusal made at the commit is the atomic answer if and only if no reservation
      has taken the key since the lookup. */
  lemma CommitRefusalIsAtomicIffKeyStillAbsent(s: Sys, t: nat, id: Id, clock: int)
    requires SysInv(s) && t in s.txns && s.txns[t].AccountSeen? && CommitReserve(s, t, id, clock).1.Refused?
    ensures CommitReserve(s, t, id, clock).0.store == s.store && s.txns[t].input.account in s.store.accounts
    ensures var input := s.txns[t].input;
            BookReserve(Abs(s.store), input, id, clock, s.store.accounts[input.account].EventTime(clock))
            == (Abs(s.store), VerdictOf(CommitReserve(s, t, id, clock).1))
            <==> input.Unique() !in s.store.holdIndex
  {
    hide StoreInv, TxnInv, RowsInv, HoldIndexInv, BalanceInv, LedgerInv, EvidenceInv, Total;
    Parts(s);
    IndexAnswers(s.store, s.txns[t].input);
    SpentAndHeld(s.store, s.txns[t].input.account);
  }

  lemma HoldIsAtomic(s: Store, input: ReserveInput, id: Id, clock: int)
    requires HoldIndexInv(s) && BalanceInv(s) && CanHold(s, id, input, clock)
    requires s.accounts[input.account].ActiveAt(clock)
    ensures var at := s.accounts[input.account].EventTime(clock);
            BookReserve(Abs(s), input, id, clock, at)
            == (Abs(Hold(s, id, input, clock)), Recorded(input.NewHold(at), false))
  {
    hide HoldIndexInv, BalanceInv, Total;
    IndexAnswers(s, input);
    SpentAndHeld(s, input.account);
    assert Abs(Hold(s, id, input, clock)).terms == Abs(s).terms;
  }

  /** Whatever the locking read of a settlement answers is the atomic answer. */
  lemma SettleLookupIsAtomic(s: Sys, t: nat, input: SettleInput, status: RequestStatus, at: int)
    requires SysInv(s) && t !in s.txns && input.reservation !in s.locks && input.actual <= MAXIMUM_AMOUNT
    ensures var (s', reply) := BeginSettle(s, t, input, status);
            && s'.store == s.store
            && !reply.Blocked? && !reply.Retry?
            && (!reply.Going? ==>
                  && BookSettle(Abs(s.store), input, status, at) == (Abs(s.store), VerdictOf(reply))
                  && (reply.Done? ==> reply.entry in s.store.ledger
                                      && IsTerminalEvidence(reply.entry, input.reservation, reply.reservation)))
  {
    hide StoreInv, TxnInv, RowsInv, HoldIndexInv, BalanceInv, LedgerInv, EvidenceInv, Replay, Total, Spent, Held;
    Parts(s);
    if input.reservation in s.store.reservations && s.store.reservations[input.reservation].phase.Terminal? {
      ReplayFindsEvidence(s.store, input.reservation, true);
    }
  }

  /** On the account read, the row's own account always exists and covers the
      hold, so the retry and the conflict kept for "reserved below reservation"
      are dead; only exact-amount overflow refuses, and that is atomic too. */
  lemma FinishReadIsAtomic(s: Sys, t: nat, status: RequestStatus, at: int)
    requires SysInv(s) && t in s.txns && s.txns[t].RowLocked?
    ensures var (s', reply) := ReadForFinish(s, t);
            && s'.store == s.store
            && (reply.Going? || reply == Refused(Conflict))
            && (s.txns[t].job.ReapJob? ==> reply.Going?)
            && (reply.Refused? && SettleChecked(s, t, status) ==>
                  BookSettle(Abs(s.store), s.txns[t].job.input, status, at) == (Abs(s.store), VerdictOf(reply)))
  {
    hide StoreInv, TxnInv, RowsInv, HoldIndexInv, BalanceInv, LedgerInv, EvidenceInv, Total;
    Parts(s);
    assert TxnOk(s, t);
    var row := s.txns[t].row;
    RowsOf(s.store, row.account, s.txns[t].id);
    PendingHoldIsCovered(s.store, s.txns[t].id);
    SpentAndHeld(s.store, row.account);
  }

  /** What BeginSettle checked of the locked row, and the lock keeps true. */
  predicate SettleChecked(s: Sys, t: nat, status: RequestStatus)
    requires t in s.txns && s.txns[t].HoldsLock()
  {
    && s.txns[t].job.SettleJob?
    && var input := s.txns[t].job.input;
    && input.reservation == s.txns[t].id
    && input.account == s.txns[t].row.account && input.request == s.txns[t].row.request
    && StatusMatches(status, input.outcome)
  }

  /** A settle commit that succeeds is the atomic settlement of the current state. */
  lemma SettleCommitIsAtomic(s: Sys, t: nat, status: RequestStatus, clock: int)
    requires SysInv(s) && t in s.txns && s.txns[t].RowLockedAccountSeen? && SettleChecked(s, t, status)
    ensures var (s', reply) := CommitFinish(s, t, clock);
            && (!reply.Done? ==> reply.Retry? && s'.store == s.store)
            && (reply.Done? ==>
                  && s.txns[t].row.account in s.store.accounts
                  && BookSettle(Abs(s.store), s.txns[t].job.input, status,
                                s.store.accounts[s.txns[t].row.account].EventTime(clock))
                     == (Abs(s'.store), VerdictOf(reply))
                  && s'.store.ledger == s.store.ledger + [reply.entry]
                  && IsTerminalEvidence(reply.entry, s.txns[t].id, reply.reservation))
  {
    hide StoreInv, TxnInv, RowsInv, HoldIndexInv, BalanceInv, LedgerInv, EvidenceInv, Total, Spent, Held;
    Parts(s);
    assert TxnOk(s, t);
    var (s', reply) := CommitFinish(s, t, clock);
    if reply.Done? {
      FinishStepCommits(s, t, clock);
      SpentAndHeld(s.store, s.txns[t].row.account);
      hide CommitFinish;
      FinishIsAtomic(s.store, s.txns[t].id, s.txns[t].job.Status(), s.txns[t].job.Actual(), clock);
    }
  }

  lemma FinishIsAtomic(s: Store, id: Id, status: TerminalStatus, actual: nat, clock: int)
    requires CanFinish(s, id, status, actual, clock)
    ensures var t := Finish(s, id, status, actual, clock);
            BookFinish(Abs(s), id, status, actual, s.accounts[s.reservations[id].account].EventTime(clock))
            == (Abs(t), Recorded(t.reservations[id], false))
  {
    var t := Finish(s, id, status, actual, clock);
    assert Abs(t).terms == Abs(s).terms;
  }

  /** A reap commit that succeeds is the atomic expiry of a pending hold whose
      time has come. */
  lemma ReapCommitIsAtomic(s: Sys, t: nat, clock: int)
    requires SysInv(s) && t in s.txns && s.txns[t].RowLockedAccountSeen? && s.txns[t].job.ReapJob?
    ensures var (s', reply) := CommitFinish(s, t, clock);
            && (!reply.Done? ==> reply.Retry? && s'.store == s.store)
            && (reply.Done? ==>
                  && s.txns[t].id in s.store.reservations && s.store.reservations[s.txns[t].id].phase.Pending?
                  && s.txns[t].row.account in s.store.accounts
                  && var at := s.store.accounts[s.txns[t].row.account].EventTime(clock);
                  && s.store.reservations[s.txns[t].id].expiresAt <= at
                  && BookFinish(Abs(s.store), s.txns[t].id, Expired, 0, at) == (Abs(s'.store), VerdictOf(reply)))
  {
    hide StoreInv, TxnInv, RowsInv, HoldIndexInv, BalanceInv, LedgerInv, EvidenceInv;
    Parts(s);
    assert TxnOk(s, t);
    var (s', reply) := CommitFinish(s, t, clock);
    if reply.Done? {
      FinishStepCommits(s, t, clock);
      FinishIsAtomic(s.store, s.txns[t].id, Expired, 0, clock);
    }
  }

  // ---- whole runs -----------------------------------------------------------

  datatype BookOp =
    | OpReserve(input: ReserveInput, id: Id, now: int, at: int)
    | OpSettle(settle: SettleInput, status: RequestStatus, at: int)
    | OpExpire(id: Id, at: int)

  ghost function BookDo(b: Book, op: BookOp): (Book, Verdict) {
    match op
    case OpReserve(input, id, now, at) => BookReserve(b, input, id, now, at)
    case OpSettle(input, status, at) => BookSettle(b, input, status, at)
    case OpExpire(id, at) =>
      if id in b.holds && b.holds[id].phase.Pending? && b.holds[id].expiresAt <= at
      then BookFinish(b, id, Expired, 0, at)
      else (b, Declined(ReservationNotFound))
  }

  /** An answer that a transaction gave, the atomic operation it answers, and whether a
      refused reserve found its key taken since its lookup. */
  datatype Answer = Answer(op: BookOp, verdict: Verdict, overtaken: bool)

  ghost function BookRun(b: Book, answers: seq<Answer>): Book
    decreases |answers|
  {
    if answers == [] then b else BookRun(BookDo(b, answers[0].op).0, answers[1..])
  }

  /** Performed one after the other, the atomic operations give exactly these answers,
      except for exactly the overtaken ones. */
  ghost predicate Linear(b: Book, answers: seq<Answer>)
    decreases |answers|
  {
    answers != [] ==>
      && (BookDo(b, answers[0].op).1 == answers[0].verdict <==> !answers[0].overtaken)
      && Linear(BookDo(b, answers[0].op).0, answers[1..])
  }

  /** What a step answers its caller with, if it does: anything that ends a transaction
      but a conflict to be retried, an abort or a command that is malformed or late. */
  ghost function AnswerOf(s: Sys, t: nat, step: Step): seq<Answer> {
    var reply := Next(s, t, step).1;
    if !(reply.Done? || reply.Refused?) then []
    else
      match step
      case StepBeginReserve(input, now) =>
        if input.Valid() && now < input.expiresAt then [Answer(OpReserve(input, 0, now, now), VerdictOf(reply), false)]
        else []
      case StepReadForReserve =>
        var input, now := s.txns[t].input, s.txns[t].now;
        [Answer(OpReserve(input, 0, now, now), VerdictOf(reply), input.Unique() in s.store.holdIndex)]
      case StepCommitReserve(id, clock) =>
        var input := s.txns[t].input;
        if input.account !in s.store.accounts then []
        else [Answer(OpReserve(input, id, clock, s.store.accounts[input.account].EventTime(clock)), VerdictOf(reply),
                     reply.Refused? && input.Unique() in s.store.holdIndex)]
      case StepBeginSettle(input, status) =>
        if input.actual <= MAXIMUM_AMOUNT then [Answer(OpSettle(input, status, 0), VerdictOf(reply), false)] else []
      case StepBeginReap(_, _) => []
      case StepReadForFinish =>
        if s.txns[t].job.SettleJob?
        then [Answer(OpSettle(s.txns[t].job.input, s.txns[t].job.status, 0), VerdictOf(reply), false)] else []
      case StepCommitFinish(clock) =>
        var RowLockedAccountSeen(job, id, row, _) := s.txns[t];
        if row.account !in s.store.accounts then []
        else
          var at := s.store.accounts[row.account].EventTime(clock);
          [Answer(if job.SettleJob? then OpSettle(job.input, job.status, at)
                  else OpExpire(id, at), VerdictOf(reply), false)]
      case StepAbort => []
  }

  ghost function Answers(s: Sys, moves: seq<Move>): seq<Answer>
    decreases |moves|
  {
    if moves == [] then []
    else AnswerOf(s, moves[0].txn, moves[0].step) + Answers(Next(s, moves[0].txn, moves[0].step).0, moves[1..])
  }

  lemma {:induction false} LinearConcat(b: Book, x: seq<Answer>, y: seq<Answer>)
    ensures BookRun(b, x + y) == BookRun(BookRun(b, x), y)
    ensures Linear(b, x + y) <==> Linear(b, x) && Linear(BookRun(b, x), y)
    decreases |x|
  {
    hide BookDo;
    if x == [] {
      assert x + y == y;
    } else {
      assert (x + y)[0] == x[0] && (x + y)[1..] == x[1..] + y;
      LinearConcat(BookDo(b, x[0].op).0, x[1..], y);
    }
  }

  /** One answer, at most: the step does to the tables what the operation does. */
  ghost predicate OneLinear(b: Book, b': Book, answers: seq<Answer>) {
    BookRun(b, answers) == b' && Linear(b, answers)
  }

  lemma LinearOne(b: Book, b': Book, a: Answer)
    requires BookDo(b, a.op).0 == b' && (BookDo(b, a.op).1 == a.verdict <==> !a.overtaken)
    ensures OneLinear(b, b', [a])
  {
    hide BookDo;
    assert [a][1..] == [];
    assert BookRun(b', []) == b' && Linear(b', []);
    assert BookRun(b, [a]) == BookRun(b', [a][1..]);
    assert Linear(b, [a]) <==> Linear(b', [a][1..]);
  }

  lemma LinearNone(b: Book)
    ensures OneLinear(b, b, [])
  {
  }

  lemma OvertakenLeavesBook(s: Store, input: ReserveInput, id: Id, now: int, at: int)
    requires HoldIndexInv(s) && input.Unique() in s.holdIndex
    ensures BookReserve(Abs(s), input, id, now, at).0 == Abs(s)
  {
    hide HoldIndexInv, Abs;
    IndexAnswers(s, input);
  }

  lemma IndexIsSound(s: Sys)
    requires SysInv(s)
    ensures HoldIndexInv(s.store)
  {
  }

  lemma LookupIsLinear(s: Sys, t: nat, input: ReserveInput, now: int)
    requires SysInv(s)
    ensures var step := StepBeginReserve(input, now);
            OneLinear(Abs(s.store), Abs(Next(s, t, step).0.store), AnswerOf(s, t, step))
  {
    hide SysInv, Abs, BookReserve, OneLinear, Replay;
    LinearNone(Abs(s.store));
    if t !in s.txns && input.Valid() && now < input.expiresAt {
      LookupIsAtomic(s, t, input, 0, now, now);
      var reply := BeginReserve(s, t, input, now).1;
      if !reply.Going? {
        LinearOne(Abs(s.store), Abs(s.store), Answer(OpReserve(input, 0, now, now), VerdictOf(reply), false));
      }
    }
  }

  lemma ReserveReadIsLinear(s: Sys, t: nat)
    requires SysInv(s)
    ensures OneLinear(Abs(s.store), Abs(Next(s, t, StepReadForReserve).0.store), AnswerOf(s, t, StepReadForReserve))
  {
    hide SysInv, Abs, BookReserve, OneLinear, HoldIndexInv, BookSettle;
    LinearNone(Abs(s.store));
    var reply := ReadForReserve(s, t).1;
    if reply.Refused? {
      var input, now := s.txns[t].input, s.txns[t].now;
      RejectionIsAtomicIffKeyStillAbsent(s, t, 0, now);
      IndexIsSound(s);
      if input.Unique() in s.store.holdIndex {
        OvertakenLeavesBook(s.store, input, 0, now, now);
      }
      LinearOne(Abs(s.store), Abs(s.store),
                Answer(OpReserve(input, 0, now, now), VerdictOf(reply), input.Unique() in s.store.holdIndex));
    }
  }

  lemma ReserveCommitIsLinear(s: Sys, t: nat, id: Id, clock: int)
    requires SysInv(s)
    ensures var step := StepCommitReserve(id, clock);
            OneLinear(Abs(s.store), Abs(Next(s, t, step).0.store), AnswerOf(s, t, step))
  {
    hide SysInv, Abs, BookReserve, OneLinear, CommitReserve, HoldIndexInv, BookSettle;
    LinearNone(Abs(s.store));
    var (s', reply) := CommitReserve(s, t, id, clock);
    CommitAnswersItsOwn(s, t, id, clock);
    if t in s.txns && s.txns[t].AccountSeen? {
      ReserveCommitIsAtomic(s, t, id, clock);
      var input := s.txns[t].input;
      if reply.Done? || reply.Refused? {
        if reply.Refused? {
          CommitRefusalIsAtomicIffKeyStillAbsent(s, t, id, clock);
        }
        var at := s.store.accounts[input.account].EventTime(clock);
        var overtaken := reply.Refused? && input.Unique() in s.store.holdIndex;
        IndexIsSound(s);
        if overtaken {
          OvertakenLeavesBook(s.store, input, id, clock, at);
        }
        LinearOne(Abs(s.store), Abs(s'.store), Answer(OpReserve(input, id, clock, at), VerdictOf(reply), overtaken));
      }
    }
  }

  lemma CommitAnswersItsOwn(s: Sys, t: nat, id: Id, clock: int)
    ensures !(t in s.txns && s.txns[t].AccountSeen?) ==> CommitReserve(s, t, id, clock) == (s, Blocked)
    ensures !(t in s.txns && s.txns[t].RowLockedAccountSeen?) ==> CommitFinish(s, t, clock) == (s, Blocked)
  {
  }

  lemma SettleLockIsLinear(s: Sys, t: nat, input: SettleInput, status: RequestStatus)
    requires SysInv(s)
    ensures var step := StepBeginSettle(input, status);
            OneLinear(Abs(s.store), Abs(Next(s, t, step).0.store), AnswerOf(s, t, step))
  {
    hide SysInv, Abs, BookSettle, OneLinear, Replay;
    LinearNone(Abs(s.store));
    if t !in s.txns && input.reservation !in s.locks && input.actual <= MAXIMUM_AMOUNT {
      SettleLookupIsAtomic(s, t, input, status, 0);
      var reply := BeginSettle(s, t, input, status).1;
      if !reply.Going? {
        LinearOne(Abs(s.store), Abs(s.store), Answer(OpSettle(input, status, 0), VerdictOf(reply), false));
      }
    }
  }

  /** What the locking read checked is still so under the lock. */
  lemma StillChecked(s: Sys, t: nat)
    requires SysInv(s) && t in s.txns && s.txns[t].HoldsLock() && s.txns[t].job.SettleJob?
    ensures SettleChecked(s, t, s.txns[t].job.status)
  {
    hide StoreInv, LockOk;
    assert TxnOk(s, t);
  }

  lemma FinishReadIsLinear(s: Sys, t: nat)
    requires SysInv(s)
    ensures OneLinear(Abs(s.store), Abs(Next(s, t, StepReadForFinish).0.store), AnswerOf(s, t, StepReadForFinish))
  {
    hide SysInv, Abs, BookSettle, OneLinear, SettleChecked;
    LinearNone(Abs(s.store));
    if t in s.txns && s.txns[t].RowLocked? && s.txns[t].job.SettleJob? {
      var job := s.txns[t].job;
      StillChecked(s, t);
      FinishReadIsAtomic(s, t, job.status, 0);
      var reply := ReadForFinish(s, t).1;
      if reply.Refused? {
        LinearOne(Abs(s.store), Abs(s.store), Answer(OpSettle(job.input, job.status, 0), VerdictOf(reply), false));
      }
    }
  }

  lemma FinishCommitIsLinear(s: Sys, t: nat, clock: int)
    requires SysInv(s)
    ensures var step := StepCommitFinish(clock);
            OneLinear(Abs(s.store), Abs(Next(s, t, step).0.store), AnswerOf(s, t, step))
  {
    hide SysInv, BookSettle, BookFinish, CommitFinish, SettleChecked, IsTerminalEvidence, OneLinear;
    LinearNone(Abs(s.store));
    CommitAnswersItsOwn(s, t, 0, clock);
    if t in s.txns && s.txns[t].RowLockedAccountSeen? {
      var RowLockedAccountSeen(job, id, row, _) := s.txns[t];
      var (s', reply) := CommitFinish(s, t, clock);
      if job.SettleJob? {
        StillChecked(s, t);
        SettleCommitIsAtomic(s, t, job.status, clock);
      } else {
        ReapCommitIsAtomic(s, t, clock);
      }
      if reply.Done? {
        var at := s.store.accounts[row.account].EventTime(clock);
        var op := if job.SettleJob? then OpSettle(job.input, job.status, at) else OpExpire(id, at);
        LinearOne(Abs(s.store), Abs(s'.store), Answer(op, VerdictOf(reply), false));
      }
    }
  }

  lemma StepIsLinear(s: Sys, t: nat, step: Step)
    requires SysInv(s)
    ensures OneLinear(Abs(s.store), Abs(Next(s, t, step).0.store), AnswerOf(s, t, step))
  {
    hide SysInv, Abs, OneLinear;
    LinearNone(Abs(s.store));
    match step
    case StepBeginReserve(input, now) => LookupIsLinear(s, t, input, now);
    case StepReadForReserve => ReserveReadIsLinear(s, t);
    case StepCommitReserve(id, clock) => ReserveCommitIsLinear(s, t, id, clock);
    case StepBeginSettle(input, status) => SettleLockIsLinear(s, t, input, status);
    case StepReadForFinish => FinishReadIsLinear(s, t);
    case StepCommitFinish(clock) => FinishCommitIsLinear(s, t, clock);
    case _ => ReadStepKeeps(s, t, step);
  }

  /** Refinement: every interleaving of reserve, settle and reap has the effect of the
      atomic ledger performing, one after the other, the operations that answered, in
      the order in which they did; and each answer, success, replay or refusal, is the
      one that the atomic ledger gives there, except for exactly the reserves refused
      after a twin took their key. */
  lemma {:induction false} EveryRunRefines(s: Sys, moves: seq<Move>)
    requires SysInv(s)
    ensures Abs(Run(s, moves).store) == BookRun(Abs(s.store), Answers(s, moves))
    ensures Linear(Abs(s.store), Answers(s, moves))
    decreases |moves|
  {
    hide SysInv, Abs, BookDo, AnswerOf, Next;
    if moves != [] {
      var s' := Next(s, moves[0].txn, moves[0].step).0;
      StepKeepsInvariant(s, moves[0].txn, moves[0].step);
      StepIsLinear(s, moves[0].txn, moves[0].step);
      EveryRunRefines(s', moves[1..]);
      LinearConcat(Abs(s.store), AnswerOf(s, moves[0].txn, moves[0].step), Answers(s', moves[1..]));
    }
  }

  // ---- two reads are not one ------------------------------------------------

  /** A duplicate that is admitted between the other's lookup and account read. */
  function RaceStart(hard: nat): Sys {
    Sys(Store(map[AccountKey(1, 1) := Account(Open, 0, 100, hard, hard, 0, 0, 1, 0)], map[], [], map[]), map[], map[])
  }

  const RaceInput: ReserveInput := ReserveInput(AccountKey(1, 1), 5, 7, 10, 50)

  const RaceMoves: seq<Move> :=
    [Move(1, StepBeginReserve(RaceInput, 1)), Move(2, StepBeginReserve(RaceInput, 1)),
     Move(2, StepReadForReserve), Move(2, StepCommitReserve(3, 2))]

  lemma RunStep(s: Sys, m: Move, rest: seq<Move>)
    ensures Run(s, [m] + rest) == Run(Next(s, m.txn, m.step).0, rest)
  {
    assert ([m] + rest)[1..] == rest;
  }

  lemma RaceRuns(hard: nat)
    requires 10 <= hard <= MAXIMUM_AMOUNT
    ensures var s := Run(RaceStart(hard), RaceMoves);
            && SysInv(s)
            && s.txns == map[1 := KeyAbsent(RaceInput, 1)]
            && s.store == Hold(RaceStart(hard).store, 3, RaceInput, 2)
  {
    hide StoreInv, TxnInv;
    var s0 := RaceStart(hard);
    RaceStartIsConsistent(hard);
    EveryRunIsSafe(s0, RaceMoves);
    var absent := KeyAbsent(RaceInput, 1);
    var s1 := s0.(txns := map[1 := absent]);
    var s2 := s0.(txns := map[1 := absent, 2 := absent]);
    var s3 := s0.(txns := map[1 := absent, 2 := AccountSeen(RaceInput, s0.store.accounts[RaceInput.account])]);
    assert Next(s0, 1, RaceMoves[0].step).0 == s1;
    assert Next(s1, 2, RaceMoves[1].step).0 == s2;
    assert Next(s2, 2, RaceMoves[2].step).0 == s3;
    var s4 := Next(s3, 2, RaceMoves[3].step).0;
    assert s4.txns == map[1 := absent];
    hide Next;
    RunStep(s0, RaceMoves[0], RaceMoves[1..]);
    RunStep(s1, RaceMoves[1], RaceMoves[2..]);
    RunStep(s2, RaceMoves[2], RaceMoves[3..]);
    RunStep(s3, RaceMoves[3], []);
    assert RaceMoves == [RaceMoves[0]] + RaceMoves[1..];
    assert RaceMoves[1..] == [RaceMoves[1]] + RaceMoves[2..];
    assert RaceMoves[2..] == [RaceMoves[2]] + RaceMoves[3..];
    assert RaceMoves[3..] == [RaceMoves[3]] + [];
  }

  lemma RaceStartIsConsistent(hard: nat)
    requires 10 <= hard <= MAXIMUM_AMOUNT
    ensures SysInv(RaceStart(hard))
  {
    FreshIsConsistent(RaceStart(hard).store);
  }

  /** Reserve is not atomic for refusals: a duplicate can be told that the budget
      is exceeded by the very hold its own key already has. */
  lemma DuplicateCanBeRefused()
    ensures var s := Run(RaceStart(10), RaceMoves);
            && SysInv(s)
            && ReadForReserve(s, 1).1 == Refused(BudgetExceeded)
            && RaceInput.Unique() in s.store.holdIndex
            && s.store.holdIndex[RaceInput.Unique()] in s.store.reservations
            && RaceInput.Repeats(s.store.reservations[s.store.holdIndex[RaceInput.Unique()]])
  {
    hide SysInv;
    RaceRuns(10);
  }

  /** The same at the commit: with room for both, a duplicate that commits as its time
      runs out is told that its command is invalid, although its key is held. */
  lemma DuplicateCanBeInvalid()
    ensures var s := ReadForReserve(Run(RaceStart(20), RaceMoves), 1).0;
            && SysInv(s) && 1 in s.txns && s.txns[1].AccountSeen?
            && CommitReserve(s, 1, 4, RaceInput.expiresAt).1 == Refused(Invalid)
            && RaceInput.Unique() in s.store.holdIndex
            && s.store.holdIndex[RaceInput.Unique()] in s.store.reservations
            && RaceInput.Repeats(s.store.reservations[s.store.holdIndex[RaceInput.Unique()]])
  {
    hide SysInv;
    RaceRuns(20);
    StepKeepsInvariant(Run(RaceStart(20), RaceMoves), 1, StepReadForReserve);
  }

  /** The version check alone would admit a second hold: the duplicate reads the
      current account, passes every guard of the account update, and only the
      unique index turns its commit into a retry. */
  lemma VersionCheckAloneAdmitsDuplicate()
    ensures var s := ReadForReserve(Run(RaceStart(20), RaceMoves), 1).0;
            && 1 in s.txns && s.txns[1].AccountSeen?
            && RaceInput.account in s.store.accounts && s.store.accounts[RaceInput.account] == s.txns[1].seen
            && !s.txns[1].seen.Exceeds(RaceInput.amount)
            && RaceInput.Unique() in s.store.holdIndex
            && CommitReserve(s, 1, 4, 3).1 == Retry
  {
    hide SysInv;
    RaceRuns(20);
  }
}
