/** What the locking strategy guarantees over whole runs. */
module LockingTheorems {
  import opened Core
  import opened Ledger
  import opened RowLocks
  import opened Wallet
  import opened Locking
  import opened LockingInvariant
  import opened Uuids

  /**
   * In every state of every run of concurrent, crashing requests, the committed tables are exactly
   * those the serial wallet reaches by serving the committed requests one at a time in commit order,
   * answering each as it was answered.
   */
  lemma LockingRefinesSerialWallet(trace: seq<State>, n: nat)
    requires IsRun(trace) && n < |trace|
    ensures Legal(trace[0].db, trace[n].log)
    ensures trace[n].db == Run(trace[0].db, trace[n].log)
  {
    RunKeepsInv(trace, n);
  }

  /** Double entry, no overdraft, keys and events one-to-one with transfers, and zero total, in every state. */
  lemma EveryStateSound(trace: seq<State>, n: nat)
    requires IsRun(trace) && n < |trace|
    ensures Sound(trace[n].db)
    ensures SumBalances(trace[n].db.accounts.Keys, trace[n].db.entries) == 0
  {
    RunKeepsInv(trace, n);
    RefinesSound(trace[0].db, trace[n].db, trace[n].log);
    Conservation(trace[n].db);
  }

  /** The source balance a transaction read under both locks is still the balance when it commits. */
  lemma BalanceExactAtCommit(trace: seq<State>, n: nat, t: nat)
    requires IsRun(trace) && n < |trace| && t in trace[n].txs && trace[n].txs[t].pc == Commit
    ensures trace[n].txs[t].balance == Balance(trace[n].db.entries, trace[n].txs[t].cmd.from)
  {
    RunKeepsInv(trace, n);
    CommitAdmitted(trace[n].db, trace[n].nextId, trace[n].txs[t]);
  }

  /**
   * Any two successful replies for one key carry the same transfer id and response, whoever sent the
   * requests and however they interleaved, and both requests had the fingerprint stored with the key.
   */
  lemma RepliesAgree(trace: seq<State>, n: nat, t: nat, u: nat, r: TransferResult, q: TransferResult)
    requires IsRun(trace) && n < |trace| && t in trace[n].txs && u in trace[n].txs
    requires trace[n].txs[t].reply == Some(Success(r)) && trace[n].txs[u].reply == Some(Success(q))
    requires trace[n].txs[t].cmd.key == trace[n].txs[u].cmd.key
    ensures r.transferId == q.transferId && r.response == q.response
    ensures trace[n].txs[t].cmd.fingerprint == trace[n].txs[u].cmd.fingerprint
    ensures r.transferId in trace[n].db.transfers && r.response == Created(r.transferId)
  {
    RunKeepsInv(trace, n);
    RefinesSound(trace[0].db, trace[n].db, trace[n].log);
    assert Facts(trace[n].db, trace[n].nextId, trace[n].txs[t]);
    assert Facts(trace[n].db, trace[n].nextId, trace[n].txs[u]);
  }

  /** At most one committed transfer per key, and only for the fingerprint the key was claimed with. */
  lemma OneTransferPerKey(trace: seq<State>, n: nat, i: nat, j: nat)
    requires IsRun(trace) && n < |trace| && i < j < |trace[n].log|
    requires trace[n].log[i].Moved? && trace[n].log[j].Moved? && trace[n].log[i].cmd.key == trace[n].log[j].cmd.key
    ensures trace[n].log[j].result.replayed
    ensures trace[n].log[i].result.transferId == trace[n].log[j].result.transferId
    ensures trace[n].log[i].cmd.fingerprint == trace[n].log[j].cmd.fingerprint
  {
    RunKeepsInv(trace, n);
    ExactlyOncePerKey(trace[0].db, trace[n].log, i, j);
  }

  /**
   * A request whose fingerprint differs from the one its key was completed with never succeeds and
   * never moves money; and no request is ever told of an overflow, an in-flight key or a missing row.
   */
  lemma OnlyGenuineReplies(trace: seq<State>, n: nat, t: nat)
    requires IsRun(trace) && n < |trace| && t in trace[n].txs
    ensures trace[n].txs[t].reply.Some? && trace[n].txs[t].reply.value.Refused? ==>
              Genuine(trace[n].txs[t].reply.value.error)
    ensures var db, cmd := trace[n].db, trace[n].txs[t].cmd;
            cmd.key in db.keys && db.keys[cmd.key].fingerprint != cmd.fingerprint ==>
              && !(trace[n].txs[t].reply.Some? && trace[n].txs[t].reply.value.Success?)
              && forall i :: 0 <= i < |trace[n].log| && trace[n].log[i].Moved? ==> trace[n].log[i].cmd != cmd
  {
    RunKeepsInv(trace, n);
    var s := trace[n];
    assert Facts(s.db, s.nextId, s.txs[t]);
    forall i | 0 <= i < |s.log| && s.log[i].Moved?
      ensures s.log[i].cmd.key in s.db.keys && s.db.keys[s.log[i].cmd.key].fingerprint == s.log[i].cmd.fingerprint
    {
      AnswerIsKept(trace[0].db, s.log, i);
    }
  }

  function VerdictOf(tx: Tx): Result<()> {
    Decision(FromKind(tx), ToKind(tx), tx.balance, tx.cmd.amount)
  }

  /** What the serial wallet would decide on these tables. */
  function VerdictNow(db: Database, cmd: Command): Result<()> {
    Decision(KindOf(db, cmd.from), KindOf(db, cmd.to), Balance(db.entries, cmd.from), cmd.amount)
  }

  /**
   * A request's verdict is the serial wallet's verdict on the tables of that very moment, unless it found
   * an account missing that has been opened since; a refusal for lack of funds is never due to a stale
   * read.
   */
  lemma RefusalsAreCurrent(trace: seq<State>, n: nat, t: nat)
    requires IsRun(trace) && n < |trace| && t in trace[n].txs && trace[n].txs[t].pc == Decide
    ensures var tx, db := trace[n].txs[t], trace[n].db;
            && (VerdictOf(tx) == VerdictNow(db, tx.cmd) <==>
                  (FromKind(tx).Some? && ToKind(tx).Some?) || tx.cmd.from !in db.accounts || tx.cmd.to !in db.accounts)
            && (VerdictOf(tx).Err? && VerdictOf(tx) == VerdictNow(db, tx.cmd) ==>
                  forall drawn :: Serve(db, tx.cmd, drawn) == Served(db, Refused(VerdictOf(tx).error)))
  {
    RunKeepsInv(trace, n);
    var tx, db := trace[n].txs[t], trace[n].db;
    assert Facts(db, trace[n].nextId, tx);
    assert FromKind(tx).Some? && ToKind(tx).Some? ==>
        KindOf(db, tx.cmd.from) == FromKind(tx) && KindOf(db, tx.cmd.to) == ToKind(tx);
  }

  /** The exception is real: FOR UPDATE locks nothing where there is no row, so the account may be opened meanwhile. */
  lemma NotFoundCanBeStale(start: Database, cmd: Command) returns (trace: seq<State>)
    requires Initial(start) && Valid(cmd)
    requires LockOrder(cmd.from, cmd.to).0 !in start.accounts && LockOrder(cmd.from, cmd.to).1 in start.accounts
    ensures |trace| > 0 && IsRun(trace)
    ensures var s := trace[|trace| - 1];
            && 0 in s.txs && s.txs[0].pc == Decide && s.txs[0].cmd == cmd
            && VerdictOf(s.txs[0]) == Err(AccountNotFound) != VerdictNow(s.db, cmd)
  {
    var s0 := State(start, 1, map[], map[], []);
    var s1, s2, s3 := LowNotFound(s0, cmd);
    var s4 := Next(s3, Open(s3.txs[0].low));
    assert Step(s3, s4);
    var s5, s6 := ThenDecides(s4, cmd);
    trace := RunOfSeven(s0, s1, s2, s3, s4, s5, s6);
    StaleVerdict(s6, s6.txs[0]);
  }

  lemma RunOfSeven(s0: State, s1: State, s2: State, s3: State, s4: State, s5: State, s6: State)
    returns (trace: seq<State>)
    requires Init(s0) && Step(s0, s1) && Step(s1, s2) && Step(s2, s3) && Step(s3, s4) && Step(s4, s5) && Step(s5, s6)
    ensures |trace| > 0 && IsRun(trace) && trace[|trace| - 1] == s6
  {
    trace := [s0, s1, s2, s3, s4, s5, s6];
  }

  /** A transaction that has claimed its key and found no row for the lower account. */
  function LowMissing(cmd: Command): Tx {
    StartTx(cmd).(pc := LockHigh, held := {KeyLock(cmd.key)})
  }

  lemma LowNotFound(s0: State, cmd: Command) returns (s1: State, s2: State, s3: State)
    requires Init(s0) && Valid(cmd) && LockOrder(cmd.from, cmd.to).0 !in s0.db.accounts
    ensures Step(s0, s1) && Step(s1, s2) && Step(s2, s3)
    ensures s3.db == s0.db && 0 in s3.txs && s3.txs[0] == LowMissing(cmd) && s3.locks == map[KeyLock(cmd.key) := 0]
  {
    s1 := Next(s0, Begin(0, cmd));
    assert Enabled(s0, Begin(0, cmd));
    var tx := s1.txs[0].(pc := LockLow, held := {KeyLock(cmd.key)});
    assert tx.held == s1.txs[0].held + {KeyLock(cmd.key)};
    s2 := Executes(s1, 0, Effect(tx, Some(KeyLock(cmd.key)), false));
    s3 := Executes(s2, 0, Quiet(LowMissing(cmd)));
  }

  lemma ThenDecides(s4: State, cmd: Command) returns (s5: State, s6: State)
    requires 0 in s4.txs && s4.txs[0] == LowMissing(cmd) && Valid(cmd) && s4.locks == map[KeyLock(cmd.key) := 0]
    requires LockOrder(cmd.from, cmd.to).1 in s4.db.accounts
    ensures Step(s4, s5) && Step(s5, s6) && s6.db == s4.db
    ensures 0 in s6.txs && s6.txs[0].pc == Decide && s6.txs[0].cmd == cmd
    ensures s6.txs[0].low == LockOrder(cmd.from, cmd.to).0 && s6.txs[0].lowKind.None?
  {
    var high := LockOrder(cmd.from, cmd.to).1;
    var held := s4.txs[0].held + {AccountLock(high)};
    var tx := s4.txs[0].(pc := ReadBalance, highKind := KindOf(s4.db, high), held := held);
    s5 := Executes(s4, 0, Effect(tx, Some(AccountLock(high)), false));
    s6 := Executes(s5, 0, Quiet(tx.(pc := Decide, balance := Balance(s4.db.entries, cmd.from))));
  }

  lemma Executes(s: State, t: nat, e: Effect<Tx, Resource>) returns (s': State)
    requires CanProceed(s, t) && s.txs[t].failure.None? && !Committing(s.txs[t])
    requires Statement(s.db, s.nextId, s.txs[t], s.txs[t].drawn.id, s.txs[t].drawn.eventId) == e
    ensures Step(s, s') && s' == Perform(s, t, e)
  {
    var l := Advance(t, s.txs[t].drawn.id, s.txs[t].drawn.eventId, true);
    s' := Next(s, l);
    assert Enabled(s, l);
  }

  lemma StaleVerdict(s: State, tx: Tx)
    requires tx.lowKind.None? && (tx.low == tx.cmd.from || tx.low == tx.cmd.to)
    requires tx.cmd.from in s.db.accounts && tx.cmd.to in s.db.accounts
    ensures VerdictOf(tx) == Err(AccountNotFound) && VerdictNow(s.db, tx.cmd) != Err(AccountNotFound)
  {
  }

  // ---- How committed tables evolve along a run ----

  lemma QuietStep(s: State, l: Label)
    requires Enabled(s, l) && !l.Open? && (l.Advance? ==> !Committing(s.txs[l.t]))
    ensures Next(s, l).db == s.db && Next(s, l).log == s.log
  {
  }

  lemma CommittingStep(start: Database, s: State, t: nat, acked: bool) returns (item: LogItem)
    requires Inv(start, s) && CanProceed(s, t) && Committing(s.txs[t])
    ensures var s' := CommitTx(s, t, acked);
            Admits(s.db, item) && s'.db == Apply(s.db, item) && s'.log == s.log + [item]
  {
    var tx := s.txs[t];
    item := Moved(tx.cmd, tx.drawn, tx.result.value);
    assert Facts(s.db, s.nextId, tx);
    if tx.pc == Commit { CommitAdmitted(s.db, s.nextId, tx); }
  }

  ghost predicate Commits(s: State, s': State, item: LogItem) {
    Admits(s.db, item) && s'.db == Apply(s.db, item) && s'.log == s.log + [item]
  }

  /** A step commits one admitted item of work or leaves the committed tables and the log alone. */
  lemma StepCommitsAtMostOne(start: Database, s: State, s': State)
    requires Inv(start, s) && Step(s, s')
    ensures (s'.db == s.db && s'.log == s.log) || exists item :: Commits(s, s', item)
  {
    var l :| Enabled(s, l) && s' == Next(s, l);
    if l.Open? {
      assert Commits(s, s', Opened(l.account));
    } else if l.Advance? && Committing(s.txs[l.t]) {
      var item := CommittingStep(start, s, l.t, l.acked);
      assert Commits(s, s', item);
    } else {
      QuietStep(s, l);
    }
  }

  /** Nothing committed is ever changed or taken back. */
  lemma {:induction false} CommittedStays(trace: seq<State>, m: nat, n: nat)
    requires IsRun(trace) && m <= n < |trace|
    ensures Extends(trace[m].db, trace[n].db)
    ensures trace[m].log <= trace[n].log
    decreases n - m
  {
    if m < n {
      RunKeepsInv(trace, m);
      var s, s' := trace[m], trace[m + 1];
      StepCommitsAtMostOne(trace[0].db, s, s');
      if item :| Commits(s, s', item) {
        ApplyExtends(s.db, item);
      }
      CommittedStays(trace, m + 1, n);
    }
  }

  /** A request that has been answered keeps its answer. */
  lemma {:induction false} AnswersStay(trace: seq<State>, m: nat, n: nat, t: nat)
    requires IsRun(trace) && m <= n < |trace| && t in trace[m].txs && trace[m].txs[t].pc.Done?
    ensures t in trace[n].txs && trace[n].txs[t] == trace[m].txs[t]
    decreases n - m
  {
    if m < n {
      assert Step(trace[m], trace[m + 1]);
      AnswersStay(trace, m + 1, n, t);
    }
  }

  // ---- The order in which an account's entries become visible ----

  lemma {:induction false} OfAccountOrdered(entries: seq<EntryRow>, account: Uuid)
    requires InIdOrder(entries)
    ensures forall i, j :: 0 <= i < j < |OfAccount(entries, account)| ==>
                             OfAccount(entries, account)[i].id < OfAccount(entries, account)[j].id
  {
    if entries != [] {
      var front, last := entries[..|entries| - 1], entries[|entries| - 1];
      OfAccountOrdered(front, account);
      var rows := OfAccount(front, account);
      forall i | 0 <= i < |rows| && last.account == account
        ensures rows[i].id < last.id
      {
        assert rows[i] in front;
      }
    }
  }

  /**
   * Under the locking strategy an account's entries become visible in increasing id order: what a
   * later state adds comes after, by position and by id, everything an earlier state shows.
   */
  lemma VisibleInIdOrder(trace: seq<State>, m: nat, n: nat, account: Uuid)
    requires IsRun(trace) && m <= n < |trace|
    ensures OfAccount(trace[m].db.entries, account) <= OfAccount(trace[n].db.entries, account)
    ensures var rows := OfAccount(trace[n].db.entries, account);
            forall i, j :: 0 <= i < j < |rows| ==> rows[i].id < rows[j].id
    ensures forall e :: e in OfAccount(trace[n].db.entries, account) ==> e.id > 0
  {
    RunKeepsInv(trace, n);
    CommittedStays(trace, m, n);
    OfAccountPrefix(trace[m].db.entries, trace[n].db.entries, account);
    OfAccountOrdered(trace[n].db.entries, account);
  }
}
