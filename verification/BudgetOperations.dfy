/** The public budget operations: bounded retries around one transaction, with
    any moves of any other transactions between its statements. */
module BudgetOperations {
  import opened Wrappers
  import opened Sums
  import opened BudgetModel
  import opened BudgetInvariant
  import opened BudgetProtocol
  import opened BudgetSafety
  import opened BudgetBook
  import opened BudgetAnswers
  import opened BudgetDatabase

  /** Moves of transactions other than me. */
  predicate Foreign(moves: seq<Move>, me: nat) {
    forall i :: 0 <= i < |moves| ==> moves[i].txn != me
  }

  predicate SameTxn(s: Sys, s': Sys, me: nat) {
    (me in s.txns <==> me in s'.txns) && (me in s.txns ==> s.txns[me] == s'.txns[me])
  }

  lemma StepLeavesMine(s: Sys, t: nat, step: Step, me: nat)
    requires t != me
    ensures SameTxn(s, Next(s, t, step).0, me)
  {
    hide Replay, Hold, BudgetModel.Finish, FindEntry;
  }

  lemma {:induction false} OthersLeaveMine(s: Sys, moves: seq<Move>, me: nat)
    requires Foreign(moves, me)
    ensures SameTxn(s, Run(s, moves), me)
    decreases |moves|
  {
    if |moves| > 0 {
      hide Next;
      StepLeavesMine(s, moves[0].txn, moves[0].step, me);
      OthersLeaveMine(Next(s, moves[0].txn, moves[0].step).0, moves[1..], me);
    }
  }

  // ---- what an operation is: rounds of others and one own statement -----------

  datatype Round = Round(others: seq<Move>, step: Step)

  /** One transaction: in each round everyone else moves and then its next statement
      runs, until one answers. A lock that is never released is waited for until the
      caller's patience ends. */
  function Play(s: Sys, me: nat, rounds: seq<Round>): (Sys, Reply)
    requires rounds != []
    decreases |rounds|
  {
    var (s', reply) := Next(Run(s, rounds[0].others), me, rounds[0].step);
    if reply.Blocked? then (s', Refused(Unavailable))
    else if reply.Going? && |rounds| > 1 then Play(s', me, rounds[1..])
    else (s', reply)
  }

  ghost predicate Playable(attempts: seq<seq<Round>>) {
    forall i :: 0 <= i < |attempts| ==> attempts[i] != []
  }

  /** One attempt after the other until one does not end in a conflict, and how many
      were made. */
  ghost function Retrying(s: Sys, me: nat, attempts: seq<seq<Round>>): (Sys, Reply, nat)
    requires Playable(attempts)
    decreases |attempts|
  {
    if attempts == [] then (s, Refused(RetryExhausted), 0)
    else
      var (s', reply) := Play(s, me, attempts[0]);
      if !reply.Retry? then (s', reply, 1)
      else
        var (end, last, n) := Retrying(s', me, attempts[1..]);
        (end, last, n + 1)
  }

  /** The reply is that of my statement at the end of the moves. */
  ghost predicate AnsweredAt(s: Sys, moves: seq<Move>, me: nat, reply: Reply) {
    && moves != [] && moves[|moves| - 1].txn == me
    && var last := Next(Run(s, moves[..|moves| - 1]), me, moves[|moves| - 1].step).1;
       reply == if last.Blocked? then Refused(Unavailable) else last
  }

  lemma {:induction false} RunJoins(s: Sys, x: seq<Move>, y: seq<Move>)
    ensures Run(s, x + y) == Run(Run(s, x), y)
    decreases |x|
  {
    hide Next;
    if x == [] {
      assert x + y == y;
    } else {
      assert (x + y)[1..] == x[1..] + y;
      RunJoins(Next(s, x[0].txn, x[0].step).0, x[1..], y);
    }
  }

  lemma RunOne(s: Sys, m: Move)
    ensures Run(s, [m]) == Next(s, m.txn, m.step).0
  {
    hide Next;
    assert [m][1..] == [];
  }

  lemma AnsweredLater(s: Sys, before: seq<Move>, moves: seq<Move>, me: nat, reply: Reply)
    requires AnsweredAt(Run(s, before), moves, me, reply)
    ensures AnsweredAt(s, before + moves, me, reply)
  {
    hide Run, Next;
    assert (before + moves)[..|before + moves| - 1] == before + moves[..|moves| - 1];
    RunJoins(s, before, moves[..|moves| - 1]);
  }

  /** A transaction is a run of the protocol, and answers what its last statement did;
      so everything proved of runs and of answers holds of it. */
  lemma {:induction false} PlayRuns(s: Sys, me: nat, rounds: seq<Round>) returns (moves: seq<Move>)
    requires rounds != []
    ensures Play(s, me, rounds).0 == Run(s, moves) && AnsweredAt(s, moves, me, Play(s, me, rounds).1)
    decreases |rounds|
  {
    hide Run, Next, AnsweredAt;
    var first := rounds[0].others + [Move(me, rounds[0].step)];
    RunJoins(s, rounds[0].others, [Move(me, rounds[0].step)]);
    RunOne(Run(s, rounds[0].others), Move(me, rounds[0].step));
    var (s', reply) := Next(Run(s, rounds[0].others), me, rounds[0].step);
    if reply.Going? && |rounds| > 1 {
      var rest := PlayRuns(s', me, rounds[1..]);
      moves := first + rest;
      RunJoins(s, first, rest);
      AnsweredLater(s, first, rest, me, Play(s, me, rounds).1);
    } else {
      moves := first;
      AnsweredHere(s, rounds[0].others, me, rounds[0].step);
    }
  }

  lemma AnsweredHere(s: Sys, others: seq<Move>, me: nat, step: Step)
    ensures var reply := Next(Run(s, others), me, step).1;
            AnsweredAt(s, others + [Move(me, step)], me, if reply.Blocked? then Refused(Unavailable) else reply)
  {
    hide Run, Next;
    assert (others + [Move(me, step)])[..|others|] == others;
  }

  lemma NoStepExhausts(s: Sys, t: nat, step: Step)
    ensures Next(s, t, step).1 != Refused(RetryExhausted)
  {
    hide Hold, BudgetModel.Finish, FindEntry;
  }

  /** A retried operation is a run too. It answers what its last statement did, and is
      exhausted only after every attempt ended in a conflict. */
  lemma {:induction false} RetryingRuns(s: Sys, me: nat, attempts: seq<seq<Round>>) returns (moves: seq<Move>)
    requires Playable(attempts)
    ensures var (s', reply, n) := Retrying(s, me, attempts);
            && s' == Run(s, moves) && n <= |attempts| && !reply.Retry?
            && (reply == Refused(RetryExhausted) ==> n == |attempts|)
            && (reply != Refused(RetryExhausted) ==> 1 <= n && AnsweredAt(s, moves, me, reply))
    decreases |attempts|
  {
    hide Run, Next, AnsweredAt, Play;
    if attempts == [] {
      moves := [];
      RunNothing(s);
    } else {
      moves := PlayRuns(s, me, attempts[0]);
      var (s', reply) := Play(s, me, attempts[0]);
      if reply.Retry? {
        var rest := RetryingRuns(s', me, attempts[1..]);
        RunJoins(s, moves, rest);
        if Retrying(s', me, attempts[1..]).1 != Refused(RetryExhausted) {
          AnsweredLater(s, moves, rest, me, Retrying(s', me, attempts[1..]).1);
        }
        moves := moves + rest;
      } else if reply == Refused(RetryExhausted) {
        AnswerIsNotExhaustion(s, moves, me);
      }
    }
  }

  lemma RunNothing(s: Sys)
    ensures Run(s, []) == s
  {
  }

  lemma AnswerIsNotExhaustion(s: Sys, moves: seq<Move>, me: nat)
    ensures !AnsweredAt(s, moves, me, Refused(RetryExhausted))
  {
    hide Next;
    if moves != [] {
      NoStepExhausts(Run(s, moves[..|moves| - 1]), me, moves[|moves| - 1].step);
    }
  }

  lemma PlayStep(s: Sys, me: nat, rounds: seq<Round>)
    requires rounds != []
    ensures var (s', reply) := Next(Run(s, rounds[0].others), me, rounds[0].step);
            Play(s, me, rounds) == if reply.Blocked? then (s', Refused(Unavailable))
                                   else if reply.Going? && |rounds| > 1 then Play(s', me, rounds[1..]) else (s', reply)
  {
  }

  /** Attempt k and the ones after it. */
  lemma RetryStep(s: Sys, me: nat, attempts: seq<seq<Round>>, k: nat)
    requires Playable(attempts) && k < |attempts|
    ensures var (s', reply) := Play(s, me, attempts[k]);
            var rest := Retrying(s', me, attempts[k + 1..]);
            Retrying(s, me, attempts[k..]) == if reply.Retry? then (rest.0, rest.1, rest.2 + 1) else (s', reply, 1)
  {
    hide Play;
    assert attempts[k..][1..] == attempts[k + 1..];
  }

  lemma NoAttemptLeft(s: Sys, me: nat, attempts: seq<seq<Round>>)
    ensures Playable(attempts[|attempts|..])
    ensures Retrying(s, me, attempts[|attempts|..]) == (s, Refused(RetryExhausted), 0)
  {
  }

  /** Everyone else moves; the invariant and my own transaction survive. */
  method Interleave(db: Database, me: nat, moves: seq<Move>)
    requires SysInv(db.View()) && Foreign(moves, me)
    modifies db
    ensures db.View() == Run(old(db.View()), moves)
    ensures SysInv(db.View()) && Grows(old(db.Tables()), db.Tables()) && SameTxn(old(db.View()), db.View(), me)
  {
    EveryRunIsSafe(db.View(), moves);
    OthersLeaveMine(db.View(), moves, me);
    db.Others(moves);
  }

  method Perform(db: Database, me: nat, step: Step) returns (reply: Reply)
    requires SysInv(db.View())
    modifies db
    ensures (db.View(), reply) == Next(old(db.View()), me, step)
    ensures SysInv(db.View()) && Grows(old(db.Tables()), db.Tables())
  {
    StepKeepsInvariant(db.View(), me, step);
    reply := db.Perform(me, step);
  }

  // ---- reserve --------------------------------------------------------------

  /** The reservation holds what the command asks for. */
  predicate IsHoldOf(r: Reservation, input: ReserveInput) {
    && r.account == input.account && r.key == input.key && r.request == input.request && r.amount == input.amount
    && r.expiresAt == input.expiresAt
  }

  /** The stored hold and the ledger entry that a successful reserve reports. */
  ghost predicate HoldRecorded(s: Store, input: ReserveInput, reply: Reply) {
    && reply.Done?
    && input.Unique() in s.holdIndex && s.holdIndex[input.Unique()] in s.reservations
    && var id := s.holdIndex[input.Unique()];
    && s.reservations[id] == reply.reservation && IsHoldOf(reply.reservation, input)
    && reply.entry in s.ledger && IsReserveEvidence(reply.entry, id, reply.reservation)
    && (!reply.replayed ==> reply.reservation.phase.Pending?)
  }

  lemma LookupRecordsHold(s: Sys, t: nat, input: ReserveInput, now: int)
    requires SysInv(s) && t !in s.txns
    ensures var (s', reply) := Next(s, t, StepBeginReserve(input, now));
            && (reply.Going? ==> t in s'.txns && s'.txns[t] == KeyAbsent(input, now))
            && (!reply.Going? ==>
                  t !in s'.txns
                  && (reply.Refused? || (reply.Done? && reply.replayed && HoldRecorded(s'.store, input, reply))))
  {
    hide SysInv, BookReserve, Abs, Replay;
    if input.Valid() && now < input.expiresAt {
      LookupIsAtomic(s, t, input, 0, now, 0);
    }
    if BeginReserve(s, t, input, now).1.Done? {
      LookupFindsRow(s, t, input, now);
    }
  }

  lemma LookupFindsRow(s: Sys, t: nat, input: ReserveInput, now: int)
    requires SysInv(s) && BeginReserve(s, t, input, now).1.Done?
    ensures var reply := BeginReserve(s, t, input, now).1;
            && reply.replayed && input.Unique() in s.store.holdIndex
            && s.store.holdIndex[input.Unique()] in s.store.reservations
            && s.store.reservations[s.store.holdIndex[input.Unique()]] == reply.reservation
            && IsHoldOf(reply.reservation, input)
  {
    hide SysInv;
    IndexIsSound(s);
  }

  lemma ReadAdvances(s: Sys, t: nat)
    requires t in s.txns && s.txns[t].KeyAbsent?
    ensures var (s', reply) := Next(s, t, StepReadForReserve);
            && (reply.Going? ==> t in s'.txns && s'.txns[t].AccountSeen? && s'.txns[t].input == s.txns[t].input)
            && (!reply.Going? ==> reply.Refused? && t !in s'.txns)
  {
  }

  lemma CommitRecordsHold(s: Sys, t: nat, id: Id, clock: int)
    requires SysInv(s) && t in s.txns && s.txns[t].AccountSeen?
    ensures var (s', reply) := Next(s, t, StepCommitReserve(id, clock));
            var input := s.txns[t].input;
            && t !in s'.txns && (reply.Done? || reply.Refused? || reply.Retry?)
            && (reply.Done? ==> HoldRecorded(s'.store, input, reply) && WithinLimit(s'.store, input.account))
  {
    hide SysInv;
  }

  predicate WithinLimit(s: Store, a: AccountKey) {
    a in s.accounts && s.accounts[a].committed + s.accounts[a].reserved <= s.accounts[a].hard
  }

  /** Lookup, account read and guarded commit. */
  function ReserveRounds(input: ReserveInput, id: Id, now: int, clock: int, first: seq<Move>, second: seq<Move>,
                         third: seq<Move>): seq<Round> {
    [Round(first, StepBeginReserve(input, now)), Round(second, StepReadForReserve),
     Round(third, StepCommitReserve(id, clock))]
  }

  method ReserveOnce(db: Database, me: nat, input: ReserveInput, id: Id, now: int, clock: int,
                     first: seq<Move>, second: seq<Move>, third: seq<Move>) returns (reply: Reply)
    requires SysInv(db.View()) && me !in db.txns
    requires Foreign(first, me) && Foreign(second, me) && Foreign(third, me)
    modifies db
    ensures (db.View(), reply) == Play(old(db.View()), me, ReserveRounds(input, id, now, clock, first, second, third))
    ensures SysInv(db.View()) && me !in db.txns && Grows(old(db.Tables()), db.Tables())
    ensures reply.Done? || reply.Refused? || reply.Retry?
    ensures reply.Done? ==> HoldRecorded(db.Tables(), input, reply)
    ensures reply.Done? && !reply.replayed ==> WithinLimit(db.Tables(), input.account)
  {
    hide SysInv, Grows, Next, HoldRecorded, Run, Play;
    ghost var rounds := ReserveRounds(input, id, now, clock, first, second, third);
    assert rounds[1..][0] == rounds[1] && rounds[2..][0] == rounds[2] && rounds[1..][1..] == rounds[2..];
    ghost var s0 := db.View();
    PlayStep(s0, me, rounds);
    Interleave(db, me, first);
    ghost var s1 := db.View();
    LookupRecordsHold(s1, me, input, now);
    reply := Perform(db, me, StepBeginReserve(input, now));
    ghost var s2 := db.View();
    GrowsTransitive(s0.store, s1.store, s2.store);
    if !reply.Going? { return; }
    PlayStep(s2, me, rounds[1..]);
    Interleave(db, me, second);
    ghost var s3 := db.View();
    GrowsTransitive(s0.store, s2.store, s3.store);
    ReadAdvances(s3, me);
    reply := Perform(db, me, StepReadForReserve);
    ghost var s4 := db.View();
    GrowsTransitive(s0.store, s3.store, s4.store);
    if !reply.Going? { return; }
    PlayStep(s4, me, rounds[2..]);
    Interleave(db, me, third);
    ghost var s5 := db.View();
    GrowsTransitive(s0.store, s4.store, s5.store);
    CommitRecordsHold(s5, me, id, clock);
    reply := Perform(db, me, StepCommitReserve(id, clock));
    GrowsTransitive(s0.store, s5.store, db.Tables());
  }

  /** What one attempt meets: the clocks, the status of the request, and everyone else. */
  datatype Try = Try(now: int, clock: int, status: RequestStatus, first: seq<Move>, second: seq<Move>, third: seq<Move>)
  {
    predicate AreOthers(me: nat) {
      Foreign(first, me) && Foreign(second, me) && Foreign(third, me)
    }

    /** Nobody else moves. */
    predicate Quiet() {
      first == second == third == []
    }
  }

  function ReserveAttempts(input: ReserveInput, id: Id, tries: seq<Try>): (plan: seq<seq<Round>>)
    ensures |plan| == |tries| && Playable(plan)
  {
    seq(|tries|, i requires 0 <= i < |tries| =>
      ReserveRounds(input, id, tries[i].now, tries[i].clock, tries[i].first, tries[i].second, tries[i].third))
  }

  /** What a valid reserve comes to that nobody interferes with: a conflict exactly if the
      account leaves its period between read and commit, and else the atomic answer. */
  ghost predicate ReservesAlone(s: Store, input: ReserveInput, id: Id, now: int, clock: int, s': Store, reply: Reply) {
    var free := forall x :: !HasKey(s, x, input);
    var at := if input.account in s.accounts then Max(s.accounts[input.account].updatedAt, clock) else clock;
    if input.expiresAt <= now then reply == Refused(Invalid) && s' == s
    else if free && input.account in s.accounts && InForce(s.accounts[input.account], now)
            && !InForce(s.accounts[input.account], clock)
            && s.accounts[input.account].committed + s.accounts[input.account].reserved + input.amount
               <= s.accounts[input.account].hard
    then reply == Retry && s' == s
    else (reply.Done? || reply.Refused?) && BookReserve(Abs(s), input, id, now, at) == (Abs(s'), VerdictOf(reply))
  }

  lemma ReserveAlone(s: Sys, me: nat, input: ReserveInput, id: Id, now: int, clock: int)
    requires SysInv(s) && me !in s.txns && input.Valid()
    ensures var (s', reply) := Play(s, me, ReserveRounds(input, id, now, clock, [], [], []));
            ReservesAlone(s.store, input, id, now, clock, s'.store, reply)
  {
    hide SysInv, Play, Next, Run, Abs, BookReserve, ReservesAlone;
    var rounds := ReserveRounds(input, id, now, clock, [], [], []);
    assert rounds[1..][0] == rounds[1] && rounds[2..][0] == rounds[2] && rounds[1..][1..] == rounds[2..];
    RunNothing(s);
    PlayStep(s, me, rounds);
    var step := StepBeginReserve(input, now);
    NextIs(s, me, step);
    LookupIsExact(s, me, input, now);
    KeyIs(s, input);
    var (s1, reply) := Next(s, me, step);
    if !reply.Going? {
      LookupAlone(s, me, input, id, now, clock);
    } else {
      StepKeepsInvariant(s, me, step);
      RunNothing(s1);
      PlayStep(s1, me, rounds[1..]);
      NextIs(s1, me, StepReadForReserve);
      ReserveReadIsExact(s1, me);
      var (s2, read) := Next(s1, me, StepReadForReserve);
      if !read.Going? {
        ReadAlone(s1, me, input, id, now, clock);
      } else {
        StepKeepsInvariant(s1, me, StepReadForReserve);
        RunNothing(s2);
        PlayStep(s2, me, rounds[2..]);
        NextIs(s2, me, StepCommitReserve(id, clock));
        CommitAlone(s2, me, input, id, now, clock);
      }
    }
  }

  lemma NextIs(s: Sys, me: nat, step: Step)
    ensures step.StepBeginReserve? ==> Next(s, me, step) == BeginReserve(s, me, step.input, step.now)
    ensures step.StepReadForReserve? ==> Next(s, me, step) == ReadForReserve(s, me)
    ensures step.StepCommitReserve? ==> Next(s, me, step) == CommitReserve(s, me, step.id, step.clock)
    ensures step.StepBeginSettle? ==> Next(s, me, step) == BeginSettle(s, me, step.settle, step.status)
    ensures step.StepReadForFinish? ==> Next(s, me, step) == ReadForFinish(s, me)
    ensures step.StepCommitFinish? ==> Next(s, me, step) == CommitFinish(s, me, step.clock)
  {
  }

  lemma LookupAlone(s: Sys, me: nat, input: ReserveInput, id: Id, now: int, clock: int)
    requires SysInv(s) && me !in s.txns && input.Valid()
    requires !BeginReserve(s, me, input, now).1.Going?
    ensures var (s', reply) := BeginReserve(s, me, input, now);
            ReservesAlone(s.store, input, id, now, clock, s'.store, reply)
  {
    hide SysInv, BeginReserve, Abs, BookReserve;
    LookupIsExact(s, me, input, now);
    KeyIs(s, input);
    if now < input.expiresAt {
      var accounts := s.store.accounts;
      var at := if input.account in accounts then Max(accounts[input.account].updatedAt, clock) else clock;
      LookupIsAtomic(s, me, input, id, now, at);
    }
  }

  lemma ReadAlone(s: Sys, me: nat, input: ReserveInput, id: Id, now: int, clock: int)
    requires SysInv(s) && me in s.txns && s.txns[me] == KeyAbsent(input, now) && now < input.expiresAt
    requires (forall x :: !HasKey(s.store, x, input)) && !ReadForReserve(s, me).1.Going?
    ensures var (s', reply) := ReadForReserve(s, me);
            ReservesAlone(s.store, input, id, now, clock, s'.store, reply)
  {
    hide SysInv, ReadForReserve, Abs, BookReserve;
    ReserveReadIsExact(s, me);
    KeyIsFree(s, input);
    var accounts := s.store.accounts;
    var at := if input.account in accounts then Max(accounts[input.account].updatedAt, clock) else clock;
    RejectionIsAtomicIffKeyStillAbsent(s, me, id, at);
  }

  lemma CommitAlone(s: Sys, me: nat, input: ReserveInput, id: Id, now: int, clock: int)
    requires SysInv(s) && me in s.txns && input.account in s.store.accounts && now < input.expiresAt
    requires s.txns[me] == AccountSeen(input, s.store.accounts[input.account])
    requires (forall x :: !HasKey(s.store, x, input)) && InForce(s.store.accounts[input.account], now)
    requires var a := s.store.accounts[input.account];
             a.committed + a.reserved + input.amount <= a.hard
    ensures var (s', reply) := CommitReserve(s, me, id, clock);
            ReservesAlone(s.store, input, id, now, clock, s'.store, reply)
  {
    hide SysInv, CommitReserve, HoldIndexInv;
    ReserveCommitIsExact(s, me, id, clock);
    KeyIsFree(s, input);
    var (s', reply) := CommitReserve(s, me, id, clock);
    if reply.Refused? {
      CommitRefusalIsAtomicIffKeyStillAbsent(s, me, id, clock);
    } else if reply.Done? {
      ReserveCommitIsAtomic(s, me, id, clock);
    }
    if InForce(s.store.accounts[input.account], clock) {
      SameWhileInForce(Abs(s.store), input, id, now, clock, Max(s.store.accounts[input.account].updatedAt, clock));
    }
  }

  lemma SameWhileInForce(b: Book, input: ReserveInput, id: Id, now: int, clock: int, at: int)
    requires input.account in b.terms && (forall x :: !Under(b, x, input))
    requires var terms := b.terms[input.account];
             terms.periodStart <= now < terms.periodEnd && terms.periodStart <= clock < terms.periodEnd
    ensures BookReserve(b, input, id, now, at) == BookReserve(b, input, id, clock, at)
  {
    hide Spent, Held;
  }

  /** Reserve: whatever everyone else does, the retry loop plays the attempts of this
      command one after the other, and answers what its last statement did unless every
      attempt ended in a conflict. A success reports the one hold that the key has, with
      its original ledger entry, and a newly placed hold leaves the account at or below
      its hard limit. */
  method Reserve(db: Database, me: nat, input: ReserveInput, id: Id, tries: seq<Try>)
    returns (reply: Reply, attempts: nat, ghost moves: seq<Move>)
    requires SysInv(db.View()) && me !in db.txns && forall i :: 0 <= i < |tries| ==> tries[i].AreOthers(me)
    modifies db
    ensures !input.Valid() ==> reply == Refused(Invalid) && attempts == 0 && db.View() == old(db.View())
    ensures input.Valid() ==>
              (db.View(), reply, attempts) == Retrying(old(db.View()), me, ReserveAttempts(input, id, tries))
    ensures db.View() == Run(old(db.View()), moves)
    ensures reply == Refused(RetryExhausted) ==> attempts == |tries|
    ensures input.Valid() && reply != Refused(RetryExhausted) ==> AnsweredAt(old(db.View()), moves, me, reply)
    ensures SysInv(db.View()) && me !in db.txns && Grows(old(db.Tables()), db.Tables())
    ensures reply.Done? || reply.Refused?
    ensures reply.Done? ==> 1 <= attempts && HoldRecorded(db.Tables(), input, reply)
    ensures reply.Done? && !reply.replayed ==> WithinLimit(db.Tables(), input.account)
    ensures input.Valid() && |tries| == 1 && tries[0].Quiet() ==>
              || ReservesAlone(old(db.Tables()), input, id, tries[0].now, tries[0].clock, db.Tables(), reply)
              || (reply == Refused(RetryExhausted)
                  && ReservesAlone(old(db.Tables()), input, id, tries[0].now, tries[0].clock, db.Tables(), Retry))
  {
    hide SysInv, Grows, HoldRecorded, Play, Retrying, Run, AnsweredAt, ReserveRounds, WithinLimit, ReservesAlone;
    attempts, moves := 0, [];
    GrowsReflexive(db.Tables());
    RunNothing(db.View());
    if !input.Valid() { return Refused(Invalid), 0, []; }
    ghost var plan := ReserveAttempts(input, id, tries);
    moves := RetryingRuns(db.View(), me, plan);
    if |tries| == 1 && tries[0].Quiet() {
      ReserveAlone(db.View(), me, input, id, tries[0].now, tries[0].clock);
      RetryStep(db.View(), me, plan, 0);
      NoAttemptLeft(Play(db.View(), me, plan[0]).0, me, plan);
    }
    assert plan[0..] == plan;
    while attempts < |tries|
      invariant attempts <= |tries|
      invariant SysInv(db.View()) && me !in db.txns && Grows(old(db.Tables()), db.Tables())
      invariant var rest := Retrying(db.View(), me, plan[attempts..]);
                Retrying(old(db.View()), me, plan) == (rest.0, rest.1, rest.2 + attempts)
    {
      RetryStep(db.View(), me, plan, attempts);
      var try := tries[attempts];
      ghost var before := db.Tables();
      reply := ReserveOnce(db, me, input, id, try.now, try.clock, try.first, try.second, try.third);
      attempts := attempts + 1;
      GrowsTransitive(old(db.Tables()), before, db.Tables());
      if !reply.Retry? { return; }
    }
    NoAttemptLeft(db.View(), me, plan);
    reply := Refused(RetryExhausted);
  }

  // ---- settle ---------------------------------------------------------------

  /** The terminal reservation and the ledger entry that a success reports. */
  ghost predicate SettlementRecorded(s: Store, input: SettleInput, reply: Reply) {
    && reply.Done?
    && input.reservation in s.reservations && s.reservations[input.reservation] == reply.reservation
    && reply.reservation.phase.Terminal?
    && (reply.reservation.phase.status == if input.outcome.Cancelled? then TerminalStatus.Cancelled else Settled)
    && reply.reservation.phase.actual == input.actual
    && reply.entry in s.ledger && IsTerminalEvidence(reply.entry, input.reservation, reply.reservation)
  }

  lemma LockRecordsSettlement(s: Sys, t: nat, input: SettleInput, status: RequestStatus)
    requires SysInv(s) && t !in s.txns
    ensures var (s', reply) := Next(s, t, StepBeginSettle(input, status));
            && (reply.Going? ==> t in s'.txns && s'.txns[t].RowLocked? && s'.txns[t].job == SettleJob(input, status)
                                 && s'.txns[t].id == input.reservation)
            && (!reply.Going? ==> t !in s'.txns && !reply.Retry?)
            && (reply.Done? ==> SettlementRecorded(s'.store, input, reply))
  {
    hide SysInv, BookSettle, Abs;
    if input.reservation !in s.locks && input.actual <= MAXIMUM_AMOUNT {
      SettleLookupIsAtomic(s, t, input, status, 0);
    }
    if BeginSettle(s, t, input, status).1.Done? {
      SettleFindsRow(s, t, input, status);
    }
  }

  lemma SettleFindsRow(s: Sys, t: nat, input: SettleInput, status: RequestStatus)
    requires BeginSettle(s, t, input, status).1.Done?
    ensures var reply := BeginSettle(s, t, input, status).1;
            && input.reservation in s.store.reservations && s.store.reservations[input.reservation] == reply.reservation
            && reply.reservation.phase.Terminal?
            && reply.reservation.phase.status == StatusFor(input.outcome)
               && reply.reservation.phase.actual == input.actual
  {
  }

  lemma FinishReadAdvances(s: Sys, t: nat)
    requires SysInv(s) && t in s.txns && s.txns[t].RowLocked?
    ensures var (s', reply) := Next(s, t, StepReadForFinish);
            && (reply.Going? ==> t in s'.txns && s'.txns[t].RowLockedAccountSeen?
                                 && s'.txns[t].job == s.txns[t].job && s'.txns[t].id == s.txns[t].id)
            && (!reply.Going? ==> reply.Refused? && t !in s'.txns && s.txns[t].job.SettleJob?)
  {
    hide SysInv, BookSettle, Abs;
    FinishReadIsAtomic(s, t, RequestUnfinished, 0);
  }

  lemma CommitRecordsSettlement(s: Sys, t: nat, clock: int, input: SettleInput)
    requires SysInv(s) && t in s.txns && s.txns[t].RowLockedAccountSeen?
    requires s.txns[t].job.SettleJob? && s.txns[t].job.input == input && s.txns[t].id == input.reservation
    ensures var (s', reply) := Next(s, t, StepCommitFinish(clock));
            && t !in s'.txns && (reply.Done? || reply.Retry?)
            && (reply.Done? ==> SettlementRecorded(s'.store, input, reply))
  {
    hide SysInv, StoreInv, RowsInv, HoldIndexInv, BalanceInv, LedgerInv, EvidenceInv, TxnInv;
    Parts(s);
    assert TxnOk(s, t);
    if CommitFinish(s, t, clock).1.Done? {
      FinishStepCommits(s, t, clock);
    }
  }

  /** Locking read, account read and guarded commit. */
  function SettleRounds(input: SettleInput, status: RequestStatus, clock: int, first: seq<Move>, second: seq<Move>,
                        third: seq<Move>): seq<Round> {
    [Round(first, StepBeginSettle(input, status)), Round(second, StepReadForFinish),
     Round(third, StepCommitFinish(clock))]
  }

  method SettleOnce(db: Database, me: nat, input: SettleInput, status: RequestStatus, clock: int,
                    first: seq<Move>, second: seq<Move>, third: seq<Move>) returns (reply: Reply)
    requires SysInv(db.View()) && me !in db.txns
    requires Foreign(first, me) && Foreign(second, me) && Foreign(third, me)
    modifies db
    ensures (db.View(), reply) == Play(old(db.View()), me, SettleRounds(input, status, clock, first, second, third))
    ensures SysInv(db.View()) && me !in db.txns && Grows(old(db.Tables()), db.Tables())
    ensures reply.Done? || reply.Refused? || reply.Retry?
    ensures reply.Done? ==> SettlementRecorded(db.Tables(), input, reply)
  {
    hide SysInv, Grows, Next, SettlementRecorded, Run, Play;
    ghost var rounds := SettleRounds(input, status, clock, first, second, third);
    assert rounds[1..][0] == rounds[1] && rounds[2..][0] == rounds[2] && rounds[1..][1..] == rounds[2..];
    ghost var s0 := db.View();
    PlayStep(s0, me, rounds);
    Interleave(db, me, first);
    ghost var s1 := db.View();
    LockRecordsSettlement(s1, me, input, status);
    reply := Perform(db, me, StepBeginSettle(input, status));
    ghost var s2 := db.View();
    GrowsTransitive(s0.store, s1.store, s2.store);
    // A row lock that is never released is waited for until the context ends.
    if reply.Blocked? { return Refused(Unavailable); }
    if !reply.Going? { return; }
    PlayStep(s2, me, rounds[1..]);
    Interleave(db, me, second);
    ghost var s3 := db.View();
    GrowsTransitive(s0.store, s2.store, s3.store);
    FinishReadAdvances(s3, me);
    reply := Perform(db, me, StepReadForFinish);
    ghost var s4 := db.View();
    GrowsTransitive(s0.store, s3.store, s4.store);
    if !reply.Going? { return; }
    PlayStep(s4, me, rounds[2..]);
    Interleave(db, me, third);
    ghost var s5 := db.View();
    GrowsTransitive(s0.store, s4.store, s5.store);
    CommitRecordsSettlement(s5, me, clock, input);
    reply := Perform(db, me, StepCommitFinish(clock));
    GrowsTransitive(s0.store, s5.store, db.Tables());
  }

  function SettleAttempts(input: SettleInput, tries: seq<Try>): (plan: seq<seq<Round>>)
    ensures |plan| == |tries| && Playable(plan)
  {
    seq(|tries|, i requires 0 <= i < |tries| =>
      SettleRounds(input, tries[i].status, tries[i].clock, tries[i].first, tries[i].second, tries[i].third))
  }

  /** What a settlement comes to that nobody interferes with: the atomic answer. */
  ghost predicate SettlesAlone(s: Store, input: SettleInput, status: RequestStatus, clock: int, s': Store,
                               reply: Reply) {
    var known := input.reservation in s.reservations && s.reservations[input.reservation].account in s.accounts;
    var at := if known then Max(s.accounts[s.reservations[input.reservation].account].updatedAt, clock) else clock;
    (reply.Done? || reply.Refused?) && BookSettle(Abs(s), input, status, at) == (Abs(s'), VerdictOf(reply))
  }

  lemma SettleAlone(s: Sys, me: nat, input: SettleInput, status: RequestStatus, clock: int)
    requires SysInv(s) && me !in s.txns && input.reservation !in s.locks && input.actual <= EXACT
    ensures var (s', reply) := Play(s, me, SettleRounds(input, status, clock, [], [], []));
            SettlesAlone(s.store, input, status, clock, s'.store, reply)
  {
    hide SysInv, Play, Next, Run, Abs, BookSettle, BeginSettle, ReadForFinish, CommitFinish;
    var rounds := SettleRounds(input, status, clock, [], [], []);
    assert rounds[1..][0] == rounds[1] && rounds[2..][0] == rounds[2] && rounds[1..][1..] == rounds[2..];
    var known := input.reservation in s.store.reservations
                 && s.store.reservations[input.reservation].account in s.store.accounts;
    var at := if known then Max(s.store.accounts[s.store.reservations[input.reservation].account].updatedAt, clock)
              else clock;
    RunNothing(s);
    PlayStep(s, me, rounds);
    var step := StepBeginSettle(input, status);
    NextIs(s, me, step);
    SettleLockIsExact(s, me, input, status);
    SettleLookupIsAtomic(s, me, input, status, at);
    var (s1, reply) := Next(s, me, step);
    if reply.Going? {
      StepKeepsInvariant(s, me, step);
      RunNothing(s1);
      PlayStep(s1, me, rounds[1..]);
      NextIs(s1, me, StepReadForFinish);
      FinishReadIsExact(s1, me);
      BearsIs(status, input.outcome);
      FinishReadIsAtomic(s1, me, status, at);
      var (s2, read) := Next(s1, me, StepReadForFinish);
      if read.Going? {
        StepKeepsInvariant(s1, me, StepReadForFinish);
        RunNothing(s2);
        PlayStep(s2, me, rounds[2..]);
        NextIs(s2, me, StepCommitFinish(clock));
        FinishCommitIsExact(s2, me, clock);
        SettleCommitIsAtomic(s2, me, status, clock);
      }
    }
  }

  lemma BearsIs(status: RequestStatus, outcome: Outcome)
    ensures Bears(status, outcome) <==> StatusMatches(status, outcome)
  {
  }

  /** Settle: the same retry loop around the settling transaction. Whatever everyone else
      does, a success means that the reservation is terminal with this outcome's status
      and this actual cost, whoever committed it, and reports the one ledger entry of
      that transition. */
  method Settle(db: Database, me: nat, input: SettleInput, tries: seq<Try>)
    returns (reply: Reply, attempts: nat, ghost moves: seq<Move>)
    requires SysInv(db.View()) && me !in db.txns && forall i :: 0 <= i < |tries| ==> tries[i].AreOthers(me)
    modifies db
    ensures (db.View(), reply, attempts) == Retrying(old(db.View()), me, SettleAttempts(input, tries))
    ensures db.View() == Run(old(db.View()), moves)
    ensures reply == Refused(RetryExhausted) ==> attempts == |tries|
    ensures reply != Refused(RetryExhausted) ==> AnsweredAt(old(db.View()), moves, me, reply)
    ensures SysInv(db.View()) && me !in db.txns && Grows(old(db.Tables()), db.Tables())
    ensures reply.Done? || reply.Refused?
    ensures reply.Done? ==> 1 <= attempts && SettlementRecorded(db.Tables(), input, reply)
    ensures 1 <= |tries| && tries[0].Quiet() && input.reservation !in old(db.locks) && input.actual <= EXACT ==>
              attempts == 1
              && SettlesAlone(old(db.Tables()), input, tries[0].status, tries[0].clock, db.Tables(), reply)
  {
    hide SysInv, Grows, SettlementRecorded, Play, Retrying, Run, AnsweredAt, SettleRounds, Abs, BookSettle;
    attempts := 0;
    GrowsReflexive(db.Tables());
    ghost var plan := SettleAttempts(input, tries);
    moves := RetryingRuns(db.View(), me, plan);
    if 1 <= |tries| && tries[0].Quiet() && input.reservation !in db.locks && input.actual <= EXACT {
      SettleAlone(db.View(), me, input, tries[0].status, tries[0].clock);
      RetryStep(db.View(), me, plan, 0);
    }
    assert plan[0..] == plan;
    while attempts < |tries|
      invariant attempts <= |tries|
      invariant SysInv(db.View()) && me !in db.txns && Grows(old(db.Tables()), db.Tables())
      invariant var rest := Retrying(db.View(), me, plan[attempts..]);
                Retrying(old(db.View()), me, plan) == (rest.0, rest.1, rest.2 + attempts)
    {
      RetryStep(db.View(), me, plan, attempts);
      var try := tries[attempts];
      ghost var before := db.Tables();
      reply := SettleOnce(db, me, input, try.status, try.clock, try.first, try.second, try.third);
      attempts := attempts + 1;
      GrowsTransitive(old(db.Tables()), before, db.Tables());
      if !reply.Retry? { return; }
    }
    NoAttemptLeft(db.View(), me, plan);
    reply := Refused(RetryExhausted);
  }

  // ---- reap -----------------------------------------------------------------

  predicate Reapable(s: Sys, id: Id, clock: int) {
    && id in s.store.reservations && s.store.reservations[id].phase.Pending?
    && s.store.reservations[id].expiresAt <= clock && id !in s.locks
  }

  /** ORDER BY expires_at, id. */
  predicate DueBefore(s: Store, x: Id, y: Id)
    requires x in s.reservations && y in s.reservations
  {
    || s.reservations[x].expiresAt < s.reservations[y].expiresAt
    || (s.reservations[x].expiresAt == s.reservations[y].expiresAt && x <= y)
  }

  /** The expired pending reservation that is due first among the unlocked ones. */
  method LoadNextExpired(db: Database, clock: int) returns (next: Option<Id>)
    ensures next.None? ==> forall id :: !Reapable(db.View(), id, clock)
    ensures next.Some? ==> Reapable(db.View(), next.value, clock)
    ensures next.Some? ==> forall id :: Reapable(db.View(), id, clock) ==> DueBefore(db.Tables(), next.value, id)
    ensures next.Some? ==>
              && next.value in db.reservations && db.reservations[next.value].expiresAt <= clock
              && next.value !in db.locks && db.reservations[next.value].phase.Pending?
    ensures forall id :: id in db.reservations && db.reservations[id].phase.Pending?
                         && db.reservations[id].expiresAt <= clock && id !in db.locks ==>
              && next.Some? && db.reservations[next.value].expiresAt <= db.reservations[id].expiresAt
              && (db.reservations[next.value].expiresAt == db.reservations[id].expiresAt ==> next.value <= id)
  {
    next := None;
    var rest := db.reservations.Keys;
    while rest != {}
      invariant rest <= db.reservations.Keys
      invariant next.Some? ==> Reapable(db.View(), next.value, clock)
      invariant forall id :: id !in rest && Reapable(db.View(), id, clock) ==>
                  next.Some? && DueBefore(db.Tables(), next.value, id)
      decreases rest
    {
      var id :| id in rest;
      rest := rest - {id};
      if Reapable(db.View(), id, clock) && (next.None? || !DueBefore(db.Tables(), next.value, id)) {
        next := Some(id);
      }
    }
    forall id | id in db.reservations && db.reservations[id].phase.Pending? && db.reservations[id].expiresAt <= clock
                && id !in db.locks
      ensures next.Some? && DueBefore(db.Tables(), next.value, id)
    {
      assert Reapable(db.View(), id, clock);
    }
  }

  /** One expiration event: the reservation, and the evidence of its expiry. */
  ghost predicate ExpiryRecorded(s: Store, id: Id, entry: Entry) {
    && id in s.reservations && s.reservations[id].phase.Terminal? && s.reservations[id].phase.status.Expired?
    && s.reservations[id].phase.actual == 0 && s.reservations[id].phase.released == s.reservations[id].amount
    && s.reservations[id].expiresAt <= entry.at
    && entry in s.ledger && IsTerminalEvidence(entry, id, s.reservations[id])
  }

  lemma ReapLocks(s: Sys, t: nat, id: Id, clock: int)
    requires t !in s.txns && Reapable(s, id, clock)
    ensures var (s', reply) := Next(s, t, StepBeginReap(id, clock));
            reply.Going? && t in s'.txns && s'.txns[t].RowLocked? && s'.txns[t].job == ReapJob && s'.txns[t].id == id
  {
  }

  lemma CommitRecordsExpiry(s: Sys, t: nat, clock: int)
    requires SysInv(s) && t in s.txns && s.txns[t].RowLockedAccountSeen? && s.txns[t].job == ReapJob
    ensures var (s', reply) := Next(s, t, StepCommitFinish(clock));
            && t !in s'.txns && (reply.Done? || reply.Retry?)
            && (reply.Done? ==> ExpiryRecorded(s'.store, s.txns[t].id, reply.entry))
  {
    hide SysInv, StoreInv, RowsInv, HoldIndexInv, BalanceInv, LedgerInv, EvidenceInv, TxnInv;
    Parts(s);
    assert TxnOk(s, t);
    if CommitFinish(s, t, clock).1.Done? {
      FinishStepCommits(s, t, clock);
    }
  }

  lemma ExpiryPersists(s: Store, t: Store, id: Id, entry: Entry)
    requires ExpiryRecorded(s, id, entry) && Grows(s, t)
    ensures ExpiryRecorded(t, id, entry)
  {
    var i :| 0 <= i < |s.ledger| && s.ledger[i] == entry;
    assert t.ledger[i] == entry;
  }

  datatype ReapReply = Nothing | Again | Reaped(id: Id, entry: Entry)

  /** The reservation to reap at this time. */
  ghost predicate IsNextDue(s: Sys, id: Id, clock: int) {
    Reapable(s, id, clock) && forall x :: Reapable(s, x, clock) ==> DueBefore(s.store, id, x)
  }

  ghost function NextDue(s: Sys, clock: int): Option<Id> {
    if id :| IsNextDue(s, id, clock) then Some(id) else None
  }

  /** When a reap looks and commits, and who moves in between. */
  datatype Look = Look(found: int, clock: int, second: seq<Move>, third: seq<Move>)

  function ReapRounds(id: Id, look: Look): seq<Round> {
    [Round([], StepBeginReap(id, look.found)), Round(look.second, StepReadForFinish),
     Round(look.third, StepCommitFinish(look.clock))]
  }

  /** One reap transaction: of the reservation due next, or of none. */
  ghost function ReapDue(s: Sys, me: nat, look: Look): (Sys, ReapReply) {
    var next := NextDue(s, look.found);
    if next.None? then (s, Nothing)
    else
      var (s', reply) := Play(s, me, ReapRounds(next.value, look));
      (s', if reply.Done? then Reaped(next.value, reply.entry) else Again)
  }

  lemma NextDueIs(s: Sys, next: Option<Id>, clock: int)
    requires next.Some? ==> IsNextDue(s, next.value, clock)
    requires next.None? ==> forall id :: !Reapable(s, id, clock)
    ensures NextDue(s, clock) == next
  {
    if next.Some? {
      assert IsNextDue(s, next.value, clock);
    }
  }

  /** Look after look: a batch ends when it is full, when a look finds nothing, or when
      one reservation met as many conflicts as allowed. */
  ghost function ReapBatch(s: Sys, me: nat, look: nat -> Look, k: nat, attempts: nat, left: nat,
                           maximum: nat): (Sys, seq<(Id, Entry)>, Option<Error>, nat)
    requires attempts < maximum
    decreases left, maximum - attempts
  {
    if left == 0 then (s, [], None, k)
    else
      var (s', r) := ReapDue(s, me, look(k + 1));
      match r
      case Nothing => (s', [], None, k + 1)
      case Again =>
        if attempts + 1 == maximum then (s', [], Some(RetryExhausted), k + 1)
        else ReapBatch(s', me, look, k + 1, attempts + 1, left, maximum)
      case Reaped(id, entry) =>
        var (end, events, error, looks) := ReapBatch(s', me, look, k + 1, 0, left - 1, maximum);
        (end, [(id, entry)] + events, error, looks)
  }

  /** A reap that nobody interferes with: the reservation due first is expired, exactly if
      the account's own time has reached its expiry too. */
  ghost predicate ReapsAlone(s: Sys, look: Look, s': Store, r: ReapReply) {
    && (r.Nothing? ==> forall id :: !Reapable(s, id, look.found))
    && (!r.Nothing? ==>
          exists id ::
            && IsNextDue(s, id, look.found) && s.store.reservations[id].account in s.store.accounts
            && var at := Max(s.store.accounts[s.store.reservations[id].account].updatedAt, look.clock);
            && (if s.store.reservations[id].expiresAt <= at
                then r.Reaped? && r.id == id && BookFinish(Abs(s.store), id, Expired, 0, at).0 == Abs(s')
                else r.Again? && s' == s.store))
  }

  lemma ReapAlone(s: Sys, me: nat, look: Look)
    requires SysInv(s) && me !in s.txns && look.second == look.third == []
    ensures ReapsAlone(s, look, ReapDue(s, me, look).0.store, ReapDue(s, me, look).1)
  {
    hide SysInv, Play, Next, Run, Abs, BeginReap, ReadForFinish, CommitFinish, DueBefore, BookFinish;
    var due := NextDue(s, look.found);
    if due.None? {
      NothingDue(s, look.found);
    } else {
      var id := due.value;
      var rounds := ReapRounds(id, look);
      assert rounds[1..][0] == rounds[1] && rounds[2..][0] == rounds[2] && rounds[1..][1..] == rounds[2..];
      RunNothing(s);
      PlayStep(s, me, rounds);
      var step := StepBeginReap(id, look.found);
      ReapStepIs(s, me, id, look.found);
      ReapLockIsExact(s, me, id, look.found);
      var s1 := Next(s, me, step).0;
      StepKeepsInvariant(s, me, step);
      RunNothing(s1);
      PlayStep(s1, me, rounds[1..]);
      NextIs(s1, me, StepReadForFinish);
      FinishReadIsExact(s1, me);
      var s2 := Next(s1, me, StepReadForFinish).0;
      StepKeepsInvariant(s1, me, StepReadForFinish);
      RunNothing(s2);
      PlayStep(s2, me, rounds[2..]);
      NextIs(s2, me, StepCommitFinish(look.clock));
      FinishCommitIsExact(s2, me, look.clock);
      ReapCommitIsAtomic(s2, me, look.clock);
      assert IsNextDue(s, id, look.found);
    }
  }

  lemma ReapStepIs(s: Sys, me: nat, id: Id, clock: int)
    ensures Next(s, me, StepBeginReap(id, clock)) == BeginReap(s, me, id, clock)
  {
  }

  /** If any row can be reaped, one is due next. */
  lemma NothingDue(s: Sys, clock: int)
    requires NextDue(s, clock).None?
    ensures forall id :: !Reapable(s, id, clock)
  {
    var due := set id | id in s.store.reservations && Reapable(s, id, clock);
    if due != {} {
      var first := FirstDue(s.store, due);
      assert IsNextDue(s, first, clock) by {
        forall x | Reapable(s, x, clock) ensures DueBefore(s.store, first, x) {
          assert x in due;
        }
      }
    }
    forall id ensures !Reapable(s, id, clock) {
      assert id !in due;
    }
  }

  lemma {:induction false} FirstDue(s: Store, due: set<Id>) returns (first: Id)
    requires due != {} && due <= s.reservations.Keys
    ensures first in due && forall x :: x in due ==> DueBefore(s, first, x)
    decreases |due|
  {
    first :| first in due;
    var rest := due - {first};
    assert due == rest + {first};
    if rest != {} {
      var other := FirstDue(s, rest);
      if !DueBefore(s, first, other) {
        first := other;
      }
      forall x | x in due ensures DueBefore(s, first, x) {
        assert x in rest ==> DueBefore(s, other, x);
      }
    }
  }

  method ReapOnce(db: Database, me: nat, look: Look) returns (r: ReapReply)
    requires SysInv(db.View()) && me !in db.txns && Foreign(look.second, me) && Foreign(look.third, me)
    modifies db
    ensures (db.View(), r) == ReapDue(old(db.View()), me, look)
    ensures SysInv(db.View()) && me !in db.txns && Grows(old(db.Tables()), db.Tables())
    ensures r.Nothing? <==> forall id :: !Reapable(old(db.View()), id, look.found)
    ensures r.Nothing? ==> db.View() == old(db.View())
    ensures r.Reaped? ==> IsNextDue(old(db.View()), r.id, look.found) && ExpiryRecorded(db.Tables(), r.id, r.entry)
  {
    hide SysInv, Grows, Next, ExpiryRecorded, Run, Play, NextDue;
    ghost var s0 := db.View();
    var next := LoadNextExpired(db, look.found);
    assert db.View() == s0;
    NextDueIs(s0, next, look.found);
    GrowsReflexive(db.Tables());
    if next.None? { return Nothing; }
    ghost var rounds := ReapRounds(next.value, look);
    assert rounds[1..][0] == rounds[1] && rounds[2..][0] == rounds[2] && rounds[1..][1..] == rounds[2..];
    PlayStep(s0, me, rounds);
    RunNothing(s0);
    ReapLocks(s0, me, next.value, look.found);
    hide Reapable;
    var reply := Perform(db, me, StepBeginReap(next.value, look.found));
    ghost var s2 := db.View();
    PlayStep(s2, me, rounds[1..]);
    Interleave(db, me, look.second);
    ghost var s3 := db.View();
    GrowsTransitive(s0.store, s2.store, s3.store);
    FinishReadAdvances(s3, me);
    reply := Perform(db, me, StepReadForFinish);
    ghost var s4 := db.View();
    GrowsTransitive(s0.store, s3.store, s4.store);
    PlayStep(s4, me, rounds[2..]);
    Interleave(db, me, look.third);
    ghost var s5 := db.View();
    GrowsTransitive(s0.store, s4.store, s5.store);
    CommitRecordsExpiry(s5, me, look.clock);
    reply := Perform(db, me, StepCommitFinish(look.clock));
    GrowsTransitive(s0.store, s5.store, db.Tables());
    r := if reply.Done? then Reaped(next.value, reply.entry) else Again;
  }

  ghost predicate ForeignLooks(look: nat -> Look, me: nat) {
    forall k :: Foreign(look(k).second, me) && Foreign(look(k).third, me)
  }

  /** Distinct reservations, each expired for good with the evidence of it. */
  ghost predicate AllExpired(s: Store, events: seq<(Id, Entry)>) {
    && (forall i :: 0 <= i < |events| ==> ExpiryRecorded(s, events[i].0, events[i].1))
    && (forall i, j :: 0 <= i < j < |events| ==> events[i].0 != events[j].0)
  }

  lemma ExpiredStay(s: Store, t: Store, events: seq<(Id, Entry)>)
    requires AllExpired(s, events) && Grows(s, t)
    ensures AllExpired(t, events)
  {
    hide ExpiryRecorded, Grows;
    forall i | 0 <= i < |events| ensures ExpiryRecorded(t, events[i].0, events[i].1) {
      ExpiryPersists(s, t, events[i].0, events[i].1);
    }
  }

  /** A reservation that was due before is none of those expired before. */
  lemma OneMoreExpired(s: Sys, t: Store, events: seq<(Id, Entry)>, id: Id, entry: Entry, clock: int)
    requires AllExpired(s.store, events) && AllExpired(t, events)
    requires Reapable(s, id, clock) && ExpiryRecorded(t, id, entry)
    ensures AllExpired(t, events + [(id, entry)])
  {
    forall i | 0 <= i < |events| ensures events[i].0 != id {
      assert ExpiryRecorded(s.store, events[i].0, events[i].1);
    }
  }

  lemma BatchStep(s: Sys, me: nat, look: nat -> Look, k: nat, attempts: nat, left: nat, maximum: nat)
    requires attempts < maximum
    ensures left == 0 ==> ReapBatch(s, me, look, k, attempts, left, maximum) == (s, [], None, k)
    ensures left > 0 ==>
              var (s', r) := ReapDue(s, me, look(k + 1));
              ReapBatch(s, me, look, k, attempts, left, maximum) ==
              match r
              case Nothing => (s', [], None, k + 1)
              case Again =>
                if attempts + 1 == maximum then (s', [], Some(RetryExhausted), k + 1)
                else ReapBatch(s', me, look, k + 1, attempts + 1, left, maximum)
              case Reaped(id, entry) =>
                var (end, events, error, looks) := ReapBatch(s', me, look, k + 1, 0, left - 1, maximum);
                (end, [(id, entry)] + events, error, looks)
  {
    hide ReapDue;
  }

  /** Reap: every reported event is a distinct reservation that this call found due and
      that is now expired for good; a batch is at capacity exactly when it is full, and
      one that ends below it without an error ends on a look that found nothing to reap.
      The conflict kept for uncovered holds is never returned. */
  method Reap(db: Database, me: nat, batch: nat, maxAttempts: nat, look: nat -> Look)
    returns (events: seq<(Id, Entry)>, atCapacity: bool, error: Option<Error>, ghost looks: nat)
    requires SysInv(db.View()) && me !in db.txns && ForeignLooks(look, me) && 1 <= maxAttempts
    modifies db
    ensures (db.View(), events, error, looks) == ReapBatch(old(db.View()), me, look, 0, 0, batch, maxAttempts)
    ensures SysInv(db.View()) && me !in db.txns && Grows(old(db.Tables()), db.Tables())
    ensures |events| <= batch && (atCapacity <==> |events| == batch)
    ensures error.Some? ==> error.value == RetryExhausted && |events| < batch && maxAttempts <= looks
    ensures error.None? && !atCapacity ==> 1 <= looks && forall id :: !Reapable(db.View(), id, look(looks).found)
    ensures AllExpired(db.Tables(), events)
  {
    hide SysInv, ReapDue, ReapBatch, Grows, AllExpired, ExpiryRecorded, Reapable, DueBefore;
    events, atCapacity, error, looks := [], false, None, 0;
    var attempts, tick := 0, 0;
    ghost var whole := ReapBatch(db.View(), me, look, 0, 0, batch, maxAttempts);
    GrowsReflexive(db.Tables());
    NoneExpired(db.Tables());
    assert [] + whole.1 == whole.1;
    while |events| < batch
      invariant |events| <= batch && !atCapacity && error.None? && attempts < maxAttempts && attempts <= tick
      invariant SysInv(db.View()) && me !in db.txns && Grows(old(db.Tables()), db.Tables())
      invariant AllExpired(db.Tables(), events)
      invariant var rest := ReapBatch(db.View(), me, look, tick, attempts, batch - |events|, maxAttempts);
                whole == (rest.0, events + rest.1, rest.2, rest.3)
      decreases batch - |events|, maxAttempts - attempts
    {
      ghost var before := db.View();
      ghost var rest := ReapBatch(before, me, look, tick, attempts, batch - |events|, maxAttempts);
      BatchStep(before, me, look, tick, attempts, batch - |events|, maxAttempts);
      tick := tick + 1;
      attempts := attempts + 1;
      assert Foreign(look(tick).second, me) && Foreign(look(tick).third, me);
      var r := ReapOnce(db, me, look(tick));
      GrowsTransitive(old(db.Tables()), before.store, db.Tables());
      ExpiredStay(before.store, db.Tables(), events);
      assert events + [] == events;
      match r
      case Nothing => return events, false, None, tick;
      case Again => if attempts == maxAttempts { return events, false, Some(RetryExhausted), tick; }
      case Reaped(id, entry) =>
        OneMoreExpired(before, db.Tables(), events, id, entry, look(tick).found);
        assert events + rest.1 == (events + [(id, entry)]) + rest.1[1..];
        events := events + [(id, entry)];
        attempts := 0;
    }
    BatchStep(db.View(), me, look, tick, attempts, 0, maxAttempts);
    assert events + [] == events;
    atCapacity, looks := true, tick;
  }

  lemma NoneExpired(s: Store)
    ensures AllExpired(s, [])
  {
  }

  // ---- the settlement command -----------------------------------------------

  datatype ChargeKind = AttemptCharge | CacheCharge

  datatype Charge = Charge(kind: ChargeKind, reference: Id, amount: nat)

  function AmountOf(): Charge -> int {
    (c: Charge) => c.amount as int
  }

  predicate SameSource(c: Charge, d: Charge) {
    c.kind == d.kind && c.reference == d.reference
  }

  /** Every source is charged once. */
  ghost predicate ChargedOnce(charges: seq<Charge>) {
    forall i, j :: 0 <= i < j < |charges| ==> !SameSource(charges[i], charges[j])
  }

  /** A cache hit has its one cache charge; anything else has attempt charges, and a success
      some. */
  ghost predicate KindsFit(outcome: Outcome, charges: seq<Charge>) {
    match outcome
    case Succeeded => |charges| > 0 && forall i :: 0 <= i < |charges| ==> charges[i].kind == AttemptCharge
    case Failed | Cancelled => forall i :: 0 <= i < |charges| ==> charges[i].kind == AttemptCharge
    case CacheHit => |charges| == 1 && charges[0].kind == CacheCharge
  }

  ghost predicate SourcesAre(seen: set<(ChargeKind, Id)>, charges: seq<Charge>) {
    && (forall j :: 0 <= j < |charges| ==> (charges[j].kind, charges[j].reference) in seen)
    && forall c :: c in seen ==> exists j :: 0 <= j < |charges| && c == (charges[j].kind, charges[j].reference)
  }

  lemma SourceRepeats(seen: set<(ChargeKind, Id)>, charges: seq<Charge>, i: nat)
    requires i < |charges| && SourcesAre(seen, charges[..i]) && (charges[i].kind, charges[i].reference) in seen
    ensures !ChargedOnce(charges)
  {
    var c := (charges[i].kind, charges[i].reference);
    var j :| 0 <= j < i && c == (charges[..i][j].kind, charges[..i][j].reference);
    assert SameSource(charges[j], charges[i]);
  }

  lemma SourceIsNew(seen: set<(ChargeKind, Id)>, charges: seq<Charge>, c: Charge)
    requires SourcesAre(seen, charges) && ChargedOnce(charges) && (c.kind, c.reference) !in seen
    ensures SourcesAre(seen + {(c.kind, c.reference)}, charges + [c]) && ChargedOnce(charges + [c])
  {
    var all, more := charges + [c], seen + {(c.kind, c.reference)};
    forall x | x in more ensures exists j :: 0 <= j < |all| && x == (all[j].kind, all[j].reference) {
      if x in seen {
        var j :| 0 <= j < |charges| && x == (charges[j].kind, charges[j].reference);
        assert all[j] == charges[j];
      } else {
        assert all[|charges|] == c;
      }
    }
  }

  /** Validate and sum the charges: accepted exactly when every source is charged
      once, the exact total fits, and the kinds fit the outcome. */
  method ActualMicros(outcome: Outcome, charges: seq<Charge>) returns (actual: Option<nat>)
    ensures actual.Some? <==>
              ChargedOnce(charges) && SumBy(charges, AmountOf()) <= MAXIMUM_AMOUNT && KindsFit(outcome, charges)
    ensures actual.Some? ==> actual.value == SumBy(charges, AmountOf())
  {
    hide ChargedOnce, SourcesAre, SumBy;
    var seen: set<(ChargeKind, Id)>, sum: nat, attemptsOnly := {}, 0, true;
    var i := 0;
    SumSeqBound(charges, AmountOf());
    NothingCharged();
    assert charges[..0] == [];
    while i < |charges|
      invariant 0 <= i <= |charges|
      invariant sum == SumBy(charges[..i], AmountOf()) <= MAXIMUM_AMOUNT
      invariant SourcesAre(seen, charges[..i]) && ChargedOnce(charges[..i])
      invariant attemptsOnly <==> forall j :: 0 <= j < i ==> charges[j].kind == AttemptCharge
    {
      var c := charges[i];
      PrefixIsSmaller(charges, i + 1);
      assert charges[..i + 1] == charges[..i] + [c];
      SumAppend(charges[..i], c, AmountOf());
      if c.amount > MAXIMUM_AMOUNT || sum > MAXIMUM_AMOUNT - c.amount { return None; }
      if (c.kind, c.reference) in seen {
        SourceRepeats(seen, charges, i);
        return None;
      }
      SourceIsNew(seen, charges[..i], c);
      seen, sum := seen + {(c.kind, c.reference)}, sum + c.amount;
      attemptsOnly := attemptsOnly && c.kind == AttemptCharge;
      i := i + 1;
    }
    assert charges[..i] == charges;
    var fit;
    match outcome {
      case Succeeded => fit := attemptsOnly && |charges| > 0;
      case Failed | Cancelled => fit := attemptsOnly;
      case CacheHit => fit := |charges| == 1 && charges[0].kind == CacheCharge;
    }
    actual := if fit then Some(sum) else None;
  }

  lemma NothingCharged()
    ensures SourcesAre({}, []) && ChargedOnce([]) && SumBy([], AmountOf()) == 0
  {
  }

  lemma PrefixIsSmaller(charges: seq<Charge>, n: nat)
    requires n <= |charges|
    ensures 0 <= SumBy(charges[..n], AmountOf()) <= SumBy(charges, AmountOf())
  {
    assert charges == charges[..n] + charges[n..];
    SumConcat(charges[..n], charges[n..], AmountOf());
    SumSeqBound(charges[..n], AmountOf());
    SumSeqBound(charges[n..], AmountOf());
  }
}
