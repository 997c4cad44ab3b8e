/**
 * What requests are told under the locking strategy. Every reply is the serial wallet's answer on the
 * committed tables of some moment between the request's start and its end, and a request that nobody
 * holds up gets exactly the answer, and leaves exactly the tables, of the serial wallet.
 */
module LockingAnswers {
  import opened Core
  import opened Money
  import opened Ledger
  import opened Paths
  import opened RowLocks
  import opened Uuids
  import opened Wallet
  import opened Locking
  import opened LockingInvariant
  import opened LockingTheorems

  // ---- What a step does with what has been read ----

  /** With both account rows found, the serial wallet's answer on the tables of that moment decides the next step. */
  lemma DecideStep(trace: seq<State>, n: nat, t: nat, drawn: Drawn, l: Label)
    requires IsRun(trace) && n < |trace| && t in trace[n].txs && l.Advance? && l.t == t
    requires var tx := trace[n].txs[t]; tx.pc == Decide && tx.failure.None? && FromKind(tx).Some? && ToKind(tx).Some?
    requires drawn.id !in trace[n].db.transfers && drawn.eventId !in trace[n].db.outbox
    ensures Enabled(trace[n], l)
    ensures var tx' := Next(trace[n], l).txs[t];
            match Serve(trace[n].db, trace[n].txs[t].cmd, drawn).answer
            case Success(_) => tx'.pc == InsertTransfer && tx'.failure.None?
            case Refused(e) => tx'.failure == Some(e)
  {
    RefusalsAreCurrent(trace, n, t);
    RunKeepsInv(trace, n);
    assert Facts(trace[n].db, trace[n].nextId, trace[n].txs[t]);
  }

  /** A request whose key is taken replays a completed request with its fingerprint, and is refused otherwise. */
  lemma LoadStep(trace: seq<State>, n: nat, t: nat, l: Label)
    requires IsRun(trace) && n < |trace| && t in trace[n].txs && l.Advance? && l.t == t
    requires trace[n].txs[t].pc == Load && trace[n].txs[t].failure.None?
    ensures Enabled(trace[n], l) && trace[n].txs[t].cmd.key in trace[n].db.keys
    ensures var row, tx' := trace[n].db.keys[trace[n].txs[t].cmd.key], Next(trace[n], l).txs[t];
            if row.fingerprint == trace[n].txs[t].cmd.fingerprint then
              && tx'.pc == ReplayCommit && tx'.failure.None?
              && tx'.result == Some(TransferResult(row.transferId, row.response, true))
            else tx'.failure == Some(KeyReuse)
  {
    RunKeepsInv(trace, n);
    RefinesSound(trace[0].db, trace[n].db, trace[n].log);
    assert Facts(trace[n].db, trace[n].nextId, trace[n].txs[t]);
  }

  /** Whoever ends without being interrupted is told something. */
  lemma EndsWithReply(s: State, l: Label)
    requires l.Advance? && Enabled(s, l) && l.acked && Next(s, l).txs[l.t].pc.Done?
    ensures Next(s, l).txs[l.t].reply.Some?
  {
  }

  // ---- Every reply is an answer of the serial wallet ----

  predicate ServedAt(s: State, t: nat, cmd: Command, drawn: Drawn, answer: Answer) {
    t in s.txs && Serve(s.db, cmd, drawn).answer == answer
  }

  /** At some moment since the request began, the serial wallet would have given this answer. */
  ghost predicate ServedSince(trace: seq<State>, n: nat, t: nat, cmd: Command, drawn: Drawn, answer: Answer)
    requires n < |trace|
  {
    exists m :: 0 <= m <= n && ServedAt(trace[m], t, cmd, drawn, answer)
  }

  /** One of the two accounts is not there. */
  predicate Missing(db: Database, cmd: Command) {
    Valid(cmd) && cmd.key !in db.keys && (cmd.from !in db.accounts || cmd.to !in db.accounts)
  }

  predicate MissingAt(s: State, t: nat, cmd: Command) {
    t in s.txs && Missing(s.db, cmd)
  }

  ghost predicate MissingSince(trace: seq<State>, n: nat, t: nat, cmd: Command)
    requires n < |trace|
  {
    exists m :: 0 <= m <= n && MissingAt(trace[m], t, cmd)
  }

  /** What the request found missing was missing, and what it failed with or was told, it had coming. */
  ghost predicate Explained(trace: seq<State>, n: nat, t: nat, tx: Tx)
    requires n < |trace|
  {
    && (tx.failure.Some? ==> ServedSince(trace, n, t, tx.cmd, tx.drawn, Refused(tx.failure.value)))
    && (tx.reply.Some? ==> ServedSince(trace, n, t, tx.cmd, tx.drawn, tx.reply.value))
    && (Rank(tx.pc) >= 2 && tx.lowKind.None? ==> MissingSince(trace, n, t, tx.cmd))
    && (Rank(tx.pc) >= 3 && tx.highKind.None? ==> MissingSince(trace, n, t, tx.cmd))
  }

  lemma ExplainedLater(trace: seq<State>, n: nat, t: nat, tx: Tx)
    requires n + 1 < |trace| && Explained(trace, n, t, tx)
    ensures Explained(trace, n + 1, t, tx)
  {
  }

  lemma MissingMeansNotFound(trace: seq<State>, n: nat, t: nat, cmd: Command, drawn: Drawn)
    requires n < |trace| && MissingSince(trace, n, t, cmd)
    ensures ServedSince(trace, n, t, cmd, drawn, Refused(AccountNotFound))
  {
    var m :| 0 <= m <= n && MissingAt(trace[m], t, cmd);
    assert ServedAt(trace[m], t, cmd, drawn, Refused(AccountNotFound));
  }

  /** How a statement turned tx into tx': what it failed with, or found missing, is the serial wallet's answer now. */
  predicate FairStep(db: Database, tx: Tx, tx': Tx) {
    && tx'.cmd == tx.cmd && tx'.reply.None?
    && (tx'.failure.Some? ==>
          || Serve(db, tx.cmd, tx'.drawn).answer == Refused(tx'.failure.value)
          || (tx'.failure.value == AccountNotFound && tx.pc == Decide && (tx.lowKind.None? || tx.highKind.None?)))
    && (Rank(tx'.pc) >= 2 && tx'.lowKind.None? ==> Missing(db, tx.cmd) || (Rank(tx.pc) >= 2 && tx.lowKind.None?))
    && (Rank(tx'.pc) >= 3 && tx'.highKind.None? ==> Missing(db, tx.cmd) || (Rank(tx.pc) >= 3 && tx.highKind.None?))
  }

  predicate Underway(tx: Tx) {
    tx.failure.None? && tx.reply.None? && !Committing(tx) && !tx.pc.Done?
  }

  lemma KeyStatements(db: Database, nextId: int, tx: Tx, id: Uuid)
    requires Facts(db, nextId, tx) && Underway(tx)
    ensures tx.pc == Claim ==> FairStep(db, tx, ClaimKey(db, tx, id).tx)
    ensures tx.pc == Load ==> FairStep(db, tx, LoadKey(db, tx).tx)
  {
  }

  lemma LockStatements(db: Database, nextId: int, tx: Tx)
    requires Facts(db, nextId, tx) && Underway(tx)
    ensures tx.pc == LockLow ==> FairStep(db, tx, LockFirst(db, tx).tx)
    ensures tx.pc == LockHigh ==> FairStep(db, tx, LockSecond(db, tx).tx)
    ensures tx.pc == ReadBalance ==> FairStep(db, tx, ReadSource(db, tx).tx)
  {
  }

  lemma DecideStatement(db: Database, nextId: int, tx: Tx)
    requires Facts(db, nextId, tx) && Underway(tx) && tx.pc == Decide
    ensures FairStep(db, tx, DecideDebit(tx).tx)
  {
    if tx.lowKind.Some? && tx.highKind.Some? {
      VerdictStands(db, nextId, tx);
    }
  }

  lemma InsertStatements(db: Database, nextId: int, tx: Tx)
    requires Facts(db, nextId, tx) && Underway(tx)
    ensures tx.pc == InsertTransfer ==> FairStep(db, tx, AddTransfer(db, tx).tx)
    ensures tx.pc == AppendEvent ==> FairStep(db, tx, AddEvent(db, tx).tx)
  {
    if tx.pc in {InsertTransfer, AppendEvent} {
      VerdictStands(db, nextId, tx);
    }
  }

  lemma QuietStatements(db: Database, tx: Tx, nextId: int, eventId: Uuid)
    requires Underway(tx)
    ensures tx.pc == InsertDebit ==> FairStep(db, tx, AddDebit(tx, nextId).tx)
    ensures tx.pc == InsertCredit ==> FairStep(db, tx, AddCredit(tx, nextId, eventId).tx)
    ensures tx.pc == CompleteKey ==> FairStep(db, tx, Complete(tx).tx)
  {
  }

  lemma VerdictStands(db: Database, nextId: int, tx: Tx)
    requires Facts(db, nextId, tx) && tx.failure.None? && tx.pc in {Decide, InsertTransfer, AppendEvent}
    requires tx.pc == Decide ==> tx.lowKind.Some? && tx.highKind.Some?
    ensures KindOf(db, tx.cmd.from) == FromKind(tx) && KindOf(db, tx.cmd.to) == ToKind(tx)
    ensures Balance(db.entries, tx.cmd.from) == tx.balance
  {
  }

  lemma StatementExplains(db: Database, nextId: int, tx: Tx, id: Uuid, eventId: Uuid)
    requires Facts(db, nextId, tx) && Underway(tx)
    ensures FairStep(db, tx, Statement(db, nextId, tx, id, eventId).tx)
  {
    match tx.pc
    case Claim => KeyStatements(db, nextId, tx, id);
    case Load => KeyStatements(db, nextId, tx, id);
    case LockLow => LockStatements(db, nextId, tx);
    case LockHigh => LockStatements(db, nextId, tx);
    case ReadBalance => LockStatements(db, nextId, tx);
    case Decide => DecideStatement(db, nextId, tx);
    case InsertTransfer => InsertStatements(db, nextId, tx);
    case AppendEvent => InsertStatements(db, nextId, tx);
    case InsertDebit => QuietStatements(db, tx, nextId, eventId);
    case InsertCredit => QuietStatements(db, tx, nextId, eventId);
    case CompleteKey => QuietStatements(db, tx, nextId, eventId);
  }

  /** A fair step keeps the request explained. */
  lemma FairStepExplained(trace: seq<State>, n: nat, t: nat, tx: Tx, tx': Tx)
    requires n + 1 < |trace| && t in trace[n].txs && Explained(trace, n, t, tx) && FairStep(trace[n].db, tx, tx')
    ensures Explained(trace, n + 1, t, tx')
  {
    if Missing(trace[n].db, tx.cmd) {
      assert MissingAt(trace[n], t, tx.cmd);
    }
    if tx'.failure.Some? {
      if Serve(trace[n].db, tx.cmd, tx'.drawn).answer == Refused(tx'.failure.value) {
        assert ServedAt(trace[n], t, tx.cmd, tx'.drawn, Refused(tx'.failure.value));
      } else {
        MissingMeansNotFound(trace, n, t, tx.cmd, tx'.drawn);
      }
    }
  }

  /** A reply, if there is one, is what the request failed with or what it committed. */
  lemma EndExplained(trace: seq<State>, n: nat, t: nat, tx: Tx, reply: Option<Answer>)
    requires n + 1 < |trace| && t in trace[n].txs
    requires reply.Some? ==> ServedSince(trace, n, t, tx.cmd, tx.drawn, reply.value)
    ensures Explained(trace, n + 1, t, Ended(tx, reply))
  {
  }

  lemma StartExplained(trace: seq<State>, n: nat, t: nat, cmd: Command)
    requires n < |trace| && t in trace[n].txs
    ensures Explained(trace, n, t, StartTx(cmd))
  {
    var tx := StartTx(cmd);
    if tx.reply.Some? {
      assert ServedAt(trace[n], t, cmd, tx.drawn, tx.reply.value);
    }
  }

  lemma AdvanceExplained(trace: seq<State>, n: nat, l: Label)
    requires n + 1 < |trace| && Inv(trace[0].db, trace[n]) && l.Advance? && Enabled(trace[n], l)
    requires Explained(trace, n, l.t, trace[n].txs[l.t])
    ensures Explained(trace, n + 1, l.t, Next(trace[n], l).txs[l.t])
  {
    var s, t := trace[n], l.t;
    var tx := s.txs[t];
    assert Facts(s.db, s.nextId, tx);
    if tx.failure.Some? {
      EndExplained(trace, n, t, tx, Some(Refused(tx.failure.value)));
    } else if Committing(tx) {
      CommitServed(trace[0].db, s, t);
      assert ServedAt(s, t, tx.cmd, tx.drawn, Success(tx.result.value));
      EndExplained(trace, n, t, tx, if l.acked then Some(Success(tx.result.value)) else None);
    } else {
      StatementExplains(s.db, s.nextId, tx, l.id, l.eventId);
      FairStepExplained(trace, n, t, tx, Statement(s.db, s.nextId, tx, l.id, l.eventId).tx);
    }
  }

  lemma CommitServed(start: Database, s: State, t: nat)
    requires Inv(start, s) && CanProceed(s, t) && Committing(s.txs[t])
    ensures Serve(s.db, s.txs[t].cmd, s.txs[t].drawn).answer == Success(s.txs[t].result.value)
  {
    var tx := s.txs[t];
    assert Facts(s.db, s.nextId, tx);
    if tx.pc == Commit { CommitAdmitted(s.db, s.nextId, tx); }
  }

  lemma StepExplained(trace: seq<State>, n: nat, t: nat)
    requires n + 1 < |trace| && Inv(trace[0].db, trace[n]) && Step(trace[n], trace[n + 1])
    requires t in trace[n + 1].txs && (t in trace[n].txs ==> Explained(trace, n, t, trace[n].txs[t]))
    ensures Explained(trace, n + 1, t, trace[n + 1].txs[t])
  {
    var l :| Enabled(trace[n], l) && trace[n + 1] == Next(trace[n], l);
    if l.Begin? && l.t == t {
      StartExplained(trace, n + 1, t, l.cmd);
    } else if l.Advance? && l.t == t {
      AdvanceExplained(trace, n, l);
    } else if l.Crash? && l.t == t {
      EndExplained(trace, n, t, trace[n].txs[t], None);
    } else {
      ExplainedLater(trace, n, t, trace[n].txs[t]);
    }
  }

  lemma {:induction false} RunExplained(trace: seq<State>, n: nat, t: nat)
    requires IsRun(trace) && n < |trace| && t in trace[n].txs
    ensures Explained(trace, n, t, trace[n].txs[t])
  {
    if n > 0 {
      RunKeepsInv(trace, n - 1);
      if t in trace[n - 1].txs {
        RunExplained(trace, n - 1, t);
      }
      StepExplained(trace, n - 1, t);
    }
  }

  /**
   * Whatever a request is told, success or refusal, is what the serial wallet would have answered, with
   * the ids the request drew, on the committed tables of some moment between its start and its end.
   */
  lemma RepliesAreServed(trace: seq<State>, n: nat, t: nat)
    requires IsRun(trace) && n < |trace| && t in trace[n].txs && trace[n].txs[t].reply.Some?
    ensures var tx := trace[n].txs[t];
            exists m :: && 0 <= m <= n && t in trace[m].txs
                        && Serve(trace[m].db, tx.cmd, tx.drawn).answer == tx.reply.value
  {
    RunExplained(trace, n, t);
    var tx := trace[n].txs[t];
    var m :| 0 <= m <= n && ServedAt(trace[m], t, tx.cmd, tx.drawn, tx.reply.value);
  }

  // ---- A request left alone ----

  /** One step of request t, which draws these ids and whose commit is acknowledged. */
  ghost predicate SoloStep(t: nat, id: Uuid, eventId: Uuid, s: State, s': State) {
    CanProceed(s, t) && s' == Proceed(s, t, id, eventId, true)
  }

  ghost function Solo(t: nat, id: Uuid, eventId: Uuid): (State, State) -> bool {
    (s: State, s': State) => SoloStep(t, id, eventId, s, s')
  }

  /** The rows the request will want to itself. */
  function Wants(cmd: Command, id: Uuid, eventId: Uuid): set<Resource> {
    {KeyLock(cmd.key), AccountLock(cmd.from), AccountLock(cmd.to), TransferLock(id), EventLock(eventId)}
  }

  /** Nobody else has any of them. */
  ghost predicate Clear(s: State, t: nat, cmd: Command, id: Uuid, eventId: Uuid) {
    forall r :: r in Wants(cmd, id, eventId) ==> r !in s.locks || s.locks[r] == t
  }

  function Bare(tx: Tx): Tx {
    tx.(held := {})
  }

  /** After some steps of its own the request stands at `tx`, with the tables as they were. */
  ghost predicate Stands(s0: State, s: State, t: nat, id: Uuid, eventId: Uuid, tx: Tx) {
    && Reaches(Solo(t, id, eventId), s0, s) && s.db == s0.db && t in s.txs && Bare(s.txs[t]) == tx
    && Clear(s, t, tx.cmd, id, eventId)
  }

  /** The next statement, which leads from `tx` to `tx'`. */
  lemma Runs(s0: State, s: State, t: nat, id: Uuid, eventId: Uuid, tx: Tx, tx': Tx) returns (s': State)
    requires Stands(s0, s, t, id, eventId, tx) && tx.failure.None? && !Committing(tx) && !tx.pc.Done?
    requires Need(tx).Some? ==> Need(tx).value in Wants(tx.cmd, id, eventId)
    requires Bare(Statement(s.db, s.nextId, tx, id, eventId).tx) == tx' && tx'.cmd == tx.cmd
    ensures Stands(s0, s', t, id, eventId, tx')
    ensures s'.nextId == s.nextId + if tx.pc in {InsertDebit, InsertCredit} then 1 else 0
  {
    assert CanProceed(s, t);
    s' := Proceed(s, t, id, eventId, true);
    HeldIsIrrelevant(s.db, s.nextId, s.txs[t], id, eventId);
    StatementTakes(s.db, s.nextId, s.txs[t], id, eventId);
    assert Solo(t, id, eventId)(s, s');
    ReachesOn(Solo(t, id, eventId), s0, s, s');
  }

  /** What a statement does depends on nothing the transaction holds. */
  predicate SameButHeld(e: Effect<Tx, Resource>, e': Effect<Tx, Resource>) {
    Bare(e.tx) == Bare(e'.tx) && e.drew == e'.drew
  }

  lemma HeldIsIrrelevantForKeys(db: Database, tx: Tx, id: Uuid)
    ensures SameButHeld(ClaimKey(db, tx, id), ClaimKey(db, Bare(tx), id))
    ensures SameButHeld(LoadKey(db, tx), LoadKey(db, Bare(tx)))
  {
  }

  lemma HeldIsIrrelevantForReads(db: Database, tx: Tx)
    ensures SameButHeld(LockFirst(db, tx), LockFirst(db, Bare(tx)))
    ensures SameButHeld(LockSecond(db, tx), LockSecond(db, Bare(tx)))
    ensures SameButHeld(ReadSource(db, tx), ReadSource(db, Bare(tx)))
    ensures SameButHeld(DecideDebit(tx), DecideDebit(Bare(tx)))
  {
  }

  lemma HeldIsIrrelevantForWrites(db: Database, tx: Tx)
    ensures SameButHeld(AddTransfer(db, tx), AddTransfer(db, Bare(tx)))
    ensures SameButHeld(AddEvent(db, tx), AddEvent(db, Bare(tx)))
  {
  }

  lemma HeldIsIrrelevant(db: Database, nextId: int, tx: Tx, id: Uuid, eventId: Uuid)
    ensures SameButHeld(Statement(db, nextId, tx, id, eventId), Statement(db, nextId, Bare(tx), id, eventId))
    ensures Statement(db, nextId, tx, id, eventId).drew <==> tx.pc in {InsertDebit, InsertCredit}
  {
    if tx.pc in {Claim, Load} {
      HeldIsIrrelevantForKeys(db, tx, id);
    } else if tx.pc in {LockLow, LockHigh, ReadBalance, Decide} {
      HeldIsIrrelevantForReads(db, tx);
    } else if tx.pc in {InsertTransfer, AppendEvent} {
      HeldIsIrrelevantForWrites(db, tx);
    }
  }

  /** A request that failed is told so, and the tables stay. */
  lemma FailsAlone(s0: State, s: State, t: nat, id: Uuid, eventId: Uuid, tx: Tx) returns (s': State)
    requires Stands(s0, s, t, id, eventId, tx) && tx.failure.Some? && !tx.pc.Done?
    ensures Concludes(s0, s', t, id, eventId, Served(s0.db, Refused(tx.failure.value)))
  {
    s' := Proceed(s, t, id, eventId, true);
    assert Solo(t, id, eventId)(s, s');
    ReachesOn(Solo(t, id, eventId), s0, s, s');
  }

  /** The request has ended, with this answer and these tables. */
  ghost predicate Concludes(s0: State, s': State, t: nat, id: Uuid, eventId: Uuid, served: Served) {
    && Reaches(Solo(t, id, eventId), s0, s') && t in s'.txs && s'.txs[t].pc.Done?
    && s'.txs[t].reply == Some(served.answer) && s'.db == served.db
  }

  lemma CommitsAlone(s0: State, s: State, t: nat, id: Uuid, eventId: Uuid, tx: Tx) returns (s': State)
    requires Stands(s0, s, t, id, eventId, tx) && Committing(tx) && tx.result.Some?
    ensures var db' := if tx.pc == Commit then Post(s0.db, tx.cmd, tx.drawn) else s0.db;
            Concludes(s0, s', t, id, eventId, Served(db', Success(tx.result.value)))
  {
    s' := Proceed(s, t, id, eventId, true);
    assert Solo(t, id, eventId)(s, s');
    ReachesOn(Solo(t, id, eventId), s0, s, s');
  }

  /** A request whose key is taken. */
  lemma ReplaysAlone(s0: State, t: nat, id: Uuid, eventId: Uuid, cmd: Command) returns (s': State)
    requires Stands(s0, s0, t, id, eventId, StartTx(cmd)) && Valid(cmd) && cmd.key in s0.db.keys
    ensures Concludes(s0, s', t, id, eventId, Served(s0.db, Replay(s0.db.keys[cmd.key], cmd)))
  {
    var tx := StartTx(cmd).(pc := Load);
    var s := Runs(s0, s0, t, id, eventId, StartTx(cmd), tx);
    match Replay(s0.db.keys[cmd.key], cmd)
    case Refused(e) =>
      s := Runs(s0, s, t, id, eventId, tx, tx.(failure := Some(e)));
      s' := FailsAlone(s0, s, t, id, eventId, tx.(failure := Some(e)));
    case Success(r) =>
      var tx' := tx.(pc := ReplayCommit, result := Some(r));
      s := Runs(s0, s, t, id, eventId, tx, tx');
      s' := CommitsAlone(s0, s, t, id, eventId, tx');
  }

  /** The request once it has claimed its key, locked both accounts and read the balance. */
  function HasRead(db: Database, cmd: Command, id: Uuid): Tx {
    var tx := StartTx(cmd);
    tx.(pc := Decide, drawn := tx.drawn.(id := id), lowKind := KindOf(db, tx.low), highKind := KindOf(db, tx.high),
        balance := Balance(db.entries, cmd.from))
  }

  lemma ReadsAlone(s0: State, t: nat, id: Uuid, eventId: Uuid, cmd: Command) returns (s: State)
    requires Stands(s0, s0, t, id, eventId, StartTx(cmd)) && Valid(cmd) && cmd.key !in s0.db.keys
    ensures Stands(s0, s, t, id, eventId, HasRead(s0.db, cmd, id)) && s.nextId == s0.nextId
  {
    var tx0 := StartTx(cmd);
    var tx1 := tx0.(pc := LockLow, drawn := tx0.drawn.(id := id));
    s := Runs(s0, s0, t, id, eventId, tx0, tx1);
    var tx2 := tx1.(pc := LockHigh, lowKind := KindOf(s0.db, tx0.low));
    s := Runs(s0, s, t, id, eventId, tx1, tx2);
    var tx3 := tx2.(pc := ReadBalance, highKind := KindOf(s0.db, tx0.high));
    s := Runs(s0, s, t, id, eventId, tx2, tx3);
    s := Runs(s0, s, t, id, eventId, tx3, HasRead(s0.db, cmd, id));
  }

  lemma HasReadRight(db: Database, cmd: Command, id: Uuid)
    requires Valid(cmd)
    ensures FromKind(HasRead(db, cmd, id)) == KindOf(db, cmd.from) && ToKind(HasRead(db, cmd, id)) == KindOf(db, cmd.to)
  {
  }

  /** From the transfer row on: the writes, the key and the commit, or a taken id. */
  lemma WritesAlone(s0: State, s: State, t: nat, id: Uuid, eventId: Uuid, tx: Tx) returns (s': State)
    requires Stands(s0, s, t, id, eventId, tx) && tx.pc == InsertTransfer && tx.failure.None? && tx.drawn.id == id
    requires tx.reply.None?
    ensures var drawn := Drawn(id, s.nextId, s.nextId + 1, eventId);
            Concludes(s0, s', t, id, eventId,
                      if id in s0.db.transfers || eventId in s0.db.outbox then Served(s0.db, Refused(DuplicateRow))
                      else Served(Post(s0.db, tx.cmd, drawn), Success(TransferResult(id, Created(id), false))))
  {
    var n := s.nextId;
    if id in s0.db.transfers {
      var at := Runs(s0, s, t, id, eventId, tx, tx.(failure := Some(DuplicateRow)));
      s' := FailsAlone(s0, at, t, id, eventId, tx.(failure := Some(DuplicateRow)));
      return;
    }
    var tx1 := tx.(pc := InsertDebit);
    var at := Runs(s0, s, t, id, eventId, tx, tx1);
    var tx2 := tx1.(pc := InsertCredit, drawn := tx1.drawn.(debitId := n));
    at := Runs(s0, at, t, id, eventId, tx1, tx2);
    var tx3 := tx2.(pc := AppendEvent, drawn := Drawn(id, n, n + 1, eventId));
    at := Runs(s0, at, t, id, eventId, tx2, tx3);
    s' := AppendsAlone(s0, at, t, id, eventId, tx3);
  }

  lemma AppendsAlone(s0: State, s: State, t: nat, id: Uuid, eventId: Uuid, tx: Tx) returns (s': State)
    requires Stands(s0, s, t, id, eventId, tx) && tx.pc == AppendEvent && tx.failure.None? && tx.reply.None?
    requires tx.drawn.id == id && tx.drawn.eventId == eventId
    ensures Concludes(s0, s', t, id, eventId,
                      if eventId in s0.db.outbox then Served(s0.db, Refused(DuplicateRow))
                      else Served(Post(s0.db, tx.cmd, tx.drawn), Success(TransferResult(id, Created(id), false))))
  {
    if eventId in s0.db.outbox {
      var at := Runs(s0, s, t, id, eventId, tx, tx.(failure := Some(DuplicateRow)));
      s' := FailsAlone(s0, at, t, id, eventId, tx.(failure := Some(DuplicateRow)));
      return;
    }
    var tx1 := tx.(pc := CompleteKey);
    var at := Runs(s0, s, t, id, eventId, tx, tx1);
    var tx2 := tx1.(pc := Commit, result := Some(TransferResult(id, Created(id), false)));
    at := Runs(s0, at, t, id, eventId, tx1, tx2);
    s' := CommitsAlone(s0, at, t, id, eventId, tx2);
  }

  lemma FirstTimeAlone(s0: State, t: nat, id: Uuid, eventId: Uuid, cmd: Command) returns (s': State)
    requires Stands(s0, s0, t, id, eventId, StartTx(cmd)) && Valid(cmd) && cmd.key !in s0.db.keys
    ensures Concludes(s0, s', t, id, eventId, Serve(s0.db, cmd, Drawn(id, s0.nextId, s0.nextId + 1, eventId)))
  {
    var s := ReadsAlone(s0, t, id, eventId, cmd);
    var tx := HasRead(s0.db, cmd, id);
    HasReadRight(s0.db, cmd, id);
    match Decision(FromKind(tx), ToKind(tx), tx.balance, cmd.amount)
    case Err(e) =>
      s := Runs(s0, s, t, id, eventId, tx, tx.(failure := Some(e)));
      s' := FailsAlone(s0, s, t, id, eventId, tx.(failure := Some(e)));
    case Ok(_) =>
      s := Runs(s0, s, t, id, eventId, tx, tx.(pc := InsertTransfer));
      s' := WritesAlone(s0, s, t, id, eventId, tx.(pc := InsertTransfer));
  }

  /**
   * Whatever else is under way, a request whose rows nobody else holds, left to run, gets the serial
   * wallet's answer on the tables it found and leaves the serial wallet's tables.
   */
  lemma ServedAlone(s: State, t: nat, cmd: Command, id: Uuid, eventId: Uuid) returns (s': State)
    requires t !in s.txs && Clear(s, t, cmd, id, eventId)
    ensures var drawn := Drawn(id, s.nextId, s.nextId + 1, eventId);
            Concludes(Next(s, Begin(t, cmd)), s', t, id, eventId, Serve(s.db, cmd, drawn))
  {
    var s0 := Next(s, Begin(t, cmd));
    ReachesItself(Solo(t, id, eventId), s0);
    if !Valid(cmd) {
      s' := s0;
    } else if cmd.key in s.db.keys {
      s' := ReplaysAlone(s0, t, id, eventId, cmd);
    } else {
      s' := FirstTimeAlone(s0, t, id, eventId, cmd);
    }
  }
}
