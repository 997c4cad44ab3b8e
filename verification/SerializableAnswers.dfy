/**
 * What attempts are told under the serializable strategy. Every reply but a serialization failure or a
 * taken id is the serial wallet's answer on the attempt's snapshot, which is the committed tables as the
 * attempt found them; and an attempt that nobody disturbs gets exactly that answer and leaves exactly
 * the serial wallet's tables.
 */
module SerializableAnswers {
  import opened Core
  import opened Money
  import opened Ledger
  import opened Paths
  import opened RowLocks
  import opened Wallet
  import opened Serializable
  import opened SerializableInvariant
  import opened SerializableIds

  // ---- What a step does with what has been read ----

  /** An attempt whose key is taken in its snapshot replays a request with its fingerprint, and is refused otherwise. */
  lemma SerializableLoadStep(trace: seq<State>, n: nat, t: nat, l: Label)
    requires IsRun(trace) && n < |trace| && t in trace[n].txs && l.Advance? && l.t == t
    requires trace[n].txs[t].pc == Load && trace[n].txs[t].failure.None?
    ensures Enabled(trace[n], l) && trace[n].txs[t].cmd.key in trace[n].txs[t].snap.keys
    ensures var row, tx' := trace[n].txs[t].snap.keys[trace[n].txs[t].cmd.key], Next(trace[n], l).txs[t];
            if row.fingerprint == trace[n].txs[t].cmd.fingerprint then
              && tx'.pc == ReplayCommit && tx'.failure.None?
              && tx'.result == Some(TransferResult(row.transferId, row.response, true))
            else tx'.failure == Some(KeyReuse)
  {
    RunKeepsInv(trace, n);
    assert Facts(trace[n].db, trace[n].txs[t]) && SnapshotSound(trace[n].txs[t].snap);
  }

  /** The serial wallet's answer on the snapshot decides whether the attempt goes on to write. */
  lemma SerializableDecideStep(trace: seq<State>, n: nat, t: nat, drawn: Drawn, l: Label)
    requires IsRun(trace) && n < |trace| && t in trace[n].txs && l.Advance? && l.t == t
    requires trace[n].txs[t].pc == Decide && trace[n].txs[t].failure.None?
    requires drawn.id !in trace[n].txs[t].snap.transfers && drawn.eventId !in trace[n].txs[t].snap.outbox
    ensures Enabled(trace[n], l)
    ensures var tx' := Next(trace[n], l).txs[t];
            match Serve(trace[n].txs[t].snap, trace[n].txs[t].cmd, drawn).answer
            case Success(_) => tx'.pc == InsertTransfer && tx'.failure.None?
            case Refused(e) => tx'.failure == Some(e)
  {
    RunTold(trace, n);
    assert Told(trace[n].db, trace[n].txs[t]);
    RunKeepsInv(trace, n);
    assert Facts(trace[n].db, trace[n].txs[t]);
  }

  // ---- Every reply is an answer of the serial wallet ----

  /** The serial wallet's answer on the attempt's snapshot, with the ids it drew. */
  function OnSnapshot(tx: Tx): Answer {
    Serve(tx.snap, tx.cmd, tx.drawn).answer
  }

  /** An error the attempt may end with: a lost race, an id taken by now, or the serial wallet's refusal. */
  predicate HadItComing(db: Database, tx: Tx, e: Error) {
    || e == SerializationFailure
    || (e == DuplicateRow && (tx.drawn.id in db.transfers || tx.drawn.eventId in db.outbox))
    || OnSnapshot(tx) == Refused(e)
  }

  /** What the attempt read is its snapshot, which is still part of the tables, and its outcome follows from it. */
  ghost predicate Told(db: Database, tx: Tx) {
    && Extends(tx.snap, db)
    && (Rank(tx.pc) >= 1 ==> tx.cmd.key !in tx.snap.keys)
    && (Rank(tx.pc) >= 2 ==> tx.fromKind == KindOf(tx.snap, tx.cmd.from) && tx.toKind == KindOf(tx.snap, tx.cmd.to))
    && (tx.failure.Some? ==> HadItComing(db, tx, tx.failure.value))
    && (Committing(tx) && tx.result.Some? ==> OnSnapshot(tx) == Success(tx.result.value))
    && match tx.reply
       case None => true
       case Some(Refused(e)) => HadItComing(db, tx, e)
       case Some(Success(r)) => OnSnapshot(tx) == Success(r)
  }

  ghost predicate AllTold(db: Database, txs: map<nat, Tx>) {
    forall t :: t in txs ==> Told(db, txs[t])
  }

  lemma ToldLater(db: Database, db': Database, tx: Tx)
    requires Told(db, tx) && Extends(db, db')
    ensures Told(db', tx)
  {
    ExtendsTransitive(tx.snap, db, db');
  }

  lemma AllToldLater(db: Database, db': Database, txs: map<nat, Tx>, t: nat, tx': Tx)
    requires AllTold(db, txs) && Extends(db, db') && Told(db', tx')
    ensures AllTold(db', txs[t := tx'])
  {
    forall u | u in txs && u != t
      ensures Told(db', txs[u])
    {
      ToldLater(db, db', txs[u]);
    }
  }

  lemma ExtendsItself(db: Database)
    ensures Extends(db, db)
  {
  }

  predicate Underway(tx: Tx) {
    tx.failure.None? && tx.reply.None? && !Committing(tx) && !tx.pc.Done?
  }

  lemma KeyStatementsTold(db: Database, tx: Tx, id: Uuid)
    requires Facts(db, tx) && Told(db, tx) && Underway(tx)
    ensures tx.pc == Claim ==> Told(db, ClaimKey(db, tx, id).tx)
    ensures tx.pc == Load ==> Told(db, LoadKey(tx).tx)
  {
  }

  lemma ReadStatementsTold(db: Database, tx: Tx)
    requires Facts(db, tx) && Told(db, tx) && Underway(tx)
    ensures tx.pc == Read ==> Told(db, ReadSnapshot(tx).tx)
    ensures tx.pc == Decide ==> Told(db, DecideDebit(tx).tx)
  {
  }

  lemma WriteStatementsTold(db: Database, tx: Tx, nextId: int, eventId: Uuid)
    requires Facts(db, tx) && Told(db, tx) && Underway(tx)
    ensures tx.pc == InsertTransfer ==> Told(db, AddTransfer(db, tx).tx)
    ensures tx.pc == InsertDebit ==> Told(db, AddDebit(tx, nextId).tx)
    ensures tx.pc == InsertCredit ==> Told(db, AddCredit(tx, nextId, eventId).tx)
    ensures tx.pc == AppendEvent ==> Told(db, AddEvent(db, tx).tx)
  {
  }

  lemma CompleteTold(db: Database, tx: Tx)
    requires Facts(db, tx) && Told(db, tx) && Underway(tx) && tx.pc == CompleteKey
    ensures Told(db, Complete(tx).tx)
  {
    assert tx.drawn.id !in tx.snap.transfers && tx.drawn.eventId !in tx.snap.outbox;
  }

  lemma StatementTold(db: Database, nextId: int, tx: Tx, id: Uuid, eventId: Uuid)
    requires Facts(db, tx) && Told(db, tx) && Underway(tx)
    ensures Told(db, Statement(db, nextId, tx, id, eventId).tx)
  {
    match tx.pc
    case Claim => KeyStatementsTold(db, tx, id);
    case Load => KeyStatementsTold(db, tx, id);
    case Read => ReadStatementsTold(db, tx);
    case Decide => ReadStatementsTold(db, tx);
    case InsertTransfer => WriteStatementsTold(db, tx, nextId, eventId);
    case InsertDebit => WriteStatementsTold(db, tx, nextId, eventId);
    case InsertCredit => WriteStatementsTold(db, tx, nextId, eventId);
    case AppendEvent => WriteStatementsTold(db, tx, nextId, eventId);
    case CompleteKey => CompleteTold(db, tx);
  }

  lemma EndTold(db: Database, tx: Tx, reply: Option<Answer>)
    requires Told(db, tx)
    requires match reply
             case None => true
             case Some(Refused(e)) => HadItComing(db, tx, e)
             case Some(Success(r)) => OnSnapshot(tx) == Success(r)
    ensures Told(db, Ended(tx, reply))
  {
  }

  lemma StartTold(db: Database, cmd: Command)
    ensures Told(db, StartTx(db, cmd))
  {
    ExtendsItself(db);
  }

  lemma NextTold(db: Database, nextId: int, tx: Tx, id: Uuid, eventId: Uuid)
    requires Facts(db, tx) && Told(db, tx) && !Committing(tx) && !tx.pc.Done?
    ensures Told(db, if tx.failure.Some? then Ended(tx, Some(Refused(tx.failure.value)))
                     else Statement(db, nextId, tx, id, eventId).tx)
  {
    if tx.failure.Some? {
      EndTold(db, tx, Some(Refused(tx.failure.value)));
    } else {
      StatementTold(db, nextId, tx, id, eventId);
    }
  }

  lemma AdvanceTold(s: State, l: Label)
    requires AllTold(s.db, s.txs) && l.Advance? && Enabled(s, l) && Facts(s.db, s.txs[l.t])
    ensures AllTold(Next(s, l).db, Next(s, l).txs)
  {
    NextTold(s.db, s.nextId, s.txs[l.t], l.id, l.eventId);
    Replaced(s.db, s.txs, l.t, Next(s, l).txs[l.t]);
  }

  lemma Replaced(db: Database, txs: map<nat, Tx>, t: nat, tx': Tx)
    requires AllTold(db, txs) && Told(db, tx')
    ensures AllTold(db, txs[t := tx'])
  {
  }

  lemma CommitTold(s: State, l: Label)
    requires AllTold(s.db, s.txs) && l.CommitAt? && Enabled(s, l) && Extends(s.db, Next(s, l).db)
    ensures AllTold(Next(s, l).db, Next(s, l).txs)
  {
    var tx, db' := s.txs[l.t], Next(s, l).db;
    ToldLater(s.db, db', tx);
    EndTold(db', tx, if l.acked then Some(Success(tx.result.value)) else None);
    AllToldLater(s.db, db', s.txs, l.t, Next(s, l).txs[l.t]);
  }

  lemma OtherStepsTold(s: State, l: Label)
    requires AllTold(s.db, s.txs) && (l.Begin? || l.Abort?) && Enabled(s, l)
    ensures AllTold(Next(s, l).db, Next(s, l).txs)
  {
    if l.Abort? {
      EndTold(s.db, s.txs[l.t], Some(Refused(SerializationFailure)));
    } else {
      StartTold(s.db, l.cmd);
    }
    Replaced(s.db, s.txs, l.t, Next(s, l).txs[l.t]);
  }

  lemma OpenTold(s: State, l: Label)
    requires AllTold(s.db, s.txs) && l.Open? && Enabled(s, l)
    ensures AllTold(Next(s, l).db, Next(s, l).txs)
  {
    forall u | u in s.txs
      ensures Told(Next(s, l).db, s.txs[u])
    {
      ToldLater(s.db, Next(s, l).db, s.txs[u]);
    }
  }

  lemma StepTold(s: State, s': State)
    requires Inv(s) && AllTold(s.db, s.txs) && Step(s, s')
    ensures AllTold(s'.db, s'.txs)
  {
    var l :| Enabled(s, l) && s' == Next(s, l);
    if l.Advance? {
      assert Facts(s.db, s.txs[l.t]);
      AdvanceTold(s, l);
    } else if l.CommitAt? {
      StepExtends(s, s');
      CommitTold(s, l);
    } else if l.Open? {
      OpenTold(s, l);
    } else {
      OtherStepsTold(s, l);
    }
  }

  lemma {:induction false} RunTold(trace: seq<State>, n: nat)
    requires IsRun(trace) && n < |trace|
    ensures AllTold(trace[n].db, trace[n].txs)
  {
    if n == 0 {
      assert trace[0].txs == map[];
    } else {
      RunTold(trace, n - 1);
      assert AllTold(trace[n].db, trace[n].txs) by {
        RunKeepsInv(trace, n - 1);
        StepTold(trace[n - 1], trace[n]);
      }
    }
  }

  /** The snapshot is the committed tables as they were when the attempt began. */
  ghost predicate TakenAtStart(trace: seq<State>, n: nat, t: nat, snap: Database)
    requires n < |trace|
  {
    exists m, k :: 0 <= m < n && k == m + 1 && t !in trace[m].txs && t in trace[k].txs && snap == trace[m].db
  }

  lemma StepKeepsSnapshot(s: State, s': State, t: nat)
    requires Step(s, s') && t in s'.txs
    ensures s'.txs[t].snap == if t in s.txs then s.txs[t].snap else s.db
  {
    var l :| Enabled(s, l) && s' == Next(s, l);
    if l.Advance? {
      StatementKeepsSnapshot(s.db, s.nextId, s.txs[l.t], l.id, l.eventId);
    }
  }

  lemma StatementKeepsSnapshot(db: Database, nextId: int, tx: Tx, id: Uuid, eventId: Uuid)
    ensures Statement(db, nextId, tx, id, eventId).tx.snap == tx.snap
  {
  }

  lemma {:induction false} SnapshotTaken(trace: seq<State>, n: nat, t: nat)
    requires IsRun(trace) && n < |trace| && t in trace[n].txs
    ensures TakenAtStart(trace, n, t, trace[n].txs[t].snap)
  {
    if n > 0 {
      assert Step(trace[n - 1], trace[n]);
      StepKeepsSnapshot(trace[n - 1], trace[n], t);
      if t in trace[n - 1].txs {
        SnapshotTaken(trace, n - 1, t);
      } else {
        var m := n - 1;
        assert 0 <= m < n && n == m + 1 && t !in trace[m].txs;
      }
    }
  }

  /**
   * Whatever an attempt is told is what the serial wallet answers, with the ids it drew, on the committed
   * tables it found when it began; except that it may have lost a race or drawn an id that is taken now.
   */
  lemma SerializableRepliesAreServed(trace: seq<State>, n: nat, t: nat)
    requires IsRun(trace) && n < |trace| && t in trace[n].txs && trace[n].txs[t].reply.Some?
    ensures var (tx, db) := (trace[n].txs[t], trace[n].db);
            || tx.reply.value == Refused(SerializationFailure)
            || (&& tx.reply.value == Refused(DuplicateRow)
                && (tx.drawn.id in db.transfers || tx.drawn.eventId in db.outbox))
            || tx.reply.value == Serve(tx.snap, tx.cmd, tx.drawn).answer
    ensures TakenAtStart(trace, n, t, trace[n].txs[t].snap)
  {
    RunTold(trace, n);
    assert Told(trace[n].db, trace[n].txs[t]);
    SnapshotTaken(trace, n, t);
  }

  // ---- An attempt left alone ----

  /** One step of attempt t, which draws these ids and, if the database lets it, commits after all others. */
  ghost predicate SoloStep(t: nat, id: Uuid, eventId: Uuid, s: State, s': State) {
    || (Enabled(s, Advance(t, id, eventId)) && s' == Next(s, Advance(t, id, eventId)))
    || (Enabled(s, CommitAt(t, |s.order|, true)) && s' == Next(s, CommitAt(t, |s.order|, true)))
  }

  ghost function Solo(t: nat, id: Uuid, eventId: Uuid): (State, State) -> bool {
    (s: State, s': State) => SoloStep(t, id, eventId, s, s')
  }

  /** The rows the attempt will want to itself. */
  function Wants(cmd: Command, id: Uuid, eventId: Uuid): set<Resource> {
    {KeyEntry(cmd.key), TransferEntry(id), EventEntry(eventId)}
  }

  ghost predicate Clear(locks: map<Resource, nat>, cmd: Command, id: Uuid, eventId: Uuid) {
    forall r :: r in Wants(cmd, id, eventId) ==> r !in locks
  }

  /** The lock table has changed only by rows that t has taken. */
  ghost predicate OnlyTook(locks: map<Resource, nat>, locks': map<Resource, nat>, t: nat, wants: set<Resource>) {
    forall r :: r in locks' ==> (r in locks && locks'[r] == locks[r]) || (r in wants && locks'[r] == t)
  }

  function Bare(tx: Tx): Tx {
    tx.(held := {})
  }

  /** After some steps of its own the attempt stands at `tx`, and nothing else has changed. */
  ghost predicate Stands(s0: State, s: State, t: nat, id: Uuid, eventId: Uuid, tx: Tx) {
    && Reaches(Solo(t, id, eventId), s0, s)
    && s.start == s0.start && s.db == s0.db && s.order == s0.order
    && t in s.txs && s.txs == s0.txs[t := s.txs[t]] && Bare(s.txs[t]) == tx
    && Clear(s0.locks, tx.cmd, id, eventId) && OnlyTook(s0.locks, s.locks, t, Wants(tx.cmd, id, eventId))
  }

  lemma SoloOn(s0: State, s: State, s': State, t: nat, id: Uuid, eventId: Uuid)
    requires Reaches(Solo(t, id, eventId), s0, s) && SoloStep(t, id, eventId, s, s')
    ensures Reaches(Solo(t, id, eventId), s0, s')
  {
    assert Solo(t, id, eventId)(s, s');
    ReachesOn(Solo(t, id, eventId), s0, s, s');
  }

  /** Steps of one attempt are steps of the machine. */
  lemma SoloIsRun(s: State, s': State, t: nat, id: Uuid, eventId: Uuid)
    requires Reaches(Solo(t, id, eventId), s, s')
    ensures Reaches(Step, s, s')
  {
    var path :| Leads(Solo(t, id, eventId), s, s', path);
    forall i, j | 0 <= i < |path| && j == i + 1 < |path|
      ensures Step(path[i], path[j])
    {
      assert Solo(t, id, eventId)(path[i], path[j]);
    }
    assert Leads(Step, s, s', path);
  }

  /** What a statement does depends on nothing the attempt holds, and it takes only what it needs. */
  lemma HeldIsIrrelevant(db: Database, nextId: int, tx: Tx, id: Uuid, eventId: Uuid)
    ensures var e, e' := Statement(db, nextId, tx, id, eventId), Statement(db, nextId, Bare(tx), id, eventId);
            && Bare(e.tx) == Bare(e'.tx) && (e.drew <==> tx.pc in {InsertDebit, InsertCredit})
            && (tx.failure.None? && e.took.Some? ==> e.took == Need(tx))
  {
  }

  /** The next statement, which leads from `tx` to `tx'`. */
  lemma Runs(s0: State, s: State, t: nat, id: Uuid, eventId: Uuid, tx: Tx, tx': Tx) returns (s': State)
    requires Stands(s0, s, t, id, eventId, tx) && tx.failure.None? && !Committing(tx) && !tx.pc.Done?
    requires Need(tx).Some? ==> Need(tx).value in Wants(tx.cmd, id, eventId)
    requires Bare(Statement(s.db, s.nextId, tx, id, eventId).tx) == tx' && tx'.cmd == tx.cmd
    ensures Stands(s0, s', t, id, eventId, tx')
    ensures s'.nextId == s.nextId + if tx.pc in {InsertDebit, InsertCredit} then 1 else 0
  {
    assert Enabled(s, Advance(t, id, eventId));
    s' := Next(s, Advance(t, id, eventId));
    HeldIsIrrelevant(s.db, s.nextId, s.txs[t], id, eventId);
    SoloOn(s0, s, s', t, id, eventId);
  }

  /** The attempt has ended, with this answer and these tables. */
  ghost predicate Concludes(s0: State, s': State, t: nat, id: Uuid, eventId: Uuid, served: Served) {
    && Reaches(Solo(t, id, eventId), s0, s') && t in s'.txs && s'.txs[t].pc.Done?
    && s'.txs[t].reply == Some(served.answer) && s'.db == served.db
  }

  lemma FailsAlone(s0: State, s: State, t: nat, id: Uuid, eventId: Uuid, tx: Tx) returns (s': State)
    requires Stands(s0, s, t, id, eventId, tx) && tx.failure.Some? && !tx.pc.Done?
    ensures Concludes(s0, s', t, id, eventId, Served(s0.db, Refused(tx.failure.value)))
  {
    assert Enabled(s, Advance(t, id, eventId));
    s' := Next(s, Advance(t, id, eventId));
    SoloOn(s0, s, s', t, id, eventId);
  }

  /** What was read is current, so there is a place for the attempt after all others. */
  lemma FitsLast(start: Database, db: Database, order: seq<LogItem>, tx: Tx)
    requires Refines(start, db, order) && tx.result.Some? && ReadsAgree(tx, db)
    ensures Serializes(start, order, tx, |order|)
  {
    assert order[..|order|] == order;
    assert Balance(Run(start, order).entries, tx.cmd.from) == Balance(db.entries, tx.cmd.from);
  }

  lemma CommitsAlone(s0: State, s: State, t: nat, id: Uuid, eventId: Uuid, tx: Tx) returns (s': State)
    requires Stands(s0, s, t, id, eventId, tx) && Committing(tx) && tx.result.Some?
    requires Refines(s0.start, s0.db, s0.order) && ReadsAgree(tx, s0.db)
    ensures var db' := if tx.pc == Commit then Post(s0.db, tx.cmd, tx.drawn) else s0.db;
            Concludes(s0, s', t, id, eventId, Served(db', Success(tx.result.value)))
  {
    FitsLast(s.start, s.db, s.order, s.txs[t]);
    assert Enabled(s, CommitAt(t, |s.order|, true));
    s' := Next(s, CommitAt(t, |s.order|, true));
    SoloOn(s0, s, s', t, id, eventId);
  }

  lemma ReplaysAlone(s0: State, t: nat, id: Uuid, eventId: Uuid, cmd: Command) returns (s': State)
    requires Stands(s0, s0, t, id, eventId, StartTx(s0.db, cmd)) && Valid(cmd) && cmd.key in s0.db.keys
    requires Refines(s0.start, s0.db, s0.order)
    ensures Concludes(s0, s', t, id, eventId, Served(s0.db, Replay(s0.db.keys[cmd.key], cmd)))
  {
    var tx := StartTx(s0.db, cmd).(pc := Load);
    var s := Runs(s0, s0, t, id, eventId, StartTx(s0.db, cmd), tx);
    match Replay(s0.db.keys[cmd.key], cmd)
    case Refused(e) =>
      s := Runs(s0, s, t, id, eventId, tx, tx.(failure := Some(e)));
      s' := FailsAlone(s0, s, t, id, eventId, tx.(failure := Some(e)));
    case Success(r) =>
      var tx' := tx.(pc := ReplayCommit, result := Some(r));
      s := Runs(s0, s, t, id, eventId, tx, tx');
      s' := CommitsAlone(s0, s, t, id, eventId, tx');
  }

  /** The attempt once it has claimed its key and read its snapshot. */
  function HasRead(db: Database, cmd: Command, id: Uuid): Tx {
    var tx := StartTx(db, cmd);
    tx.(pc := Decide, drawn := tx.drawn.(id := id), fromKind := KindOf(db, cmd.from), toKind := KindOf(db, cmd.to),
        balance := Balance(db.entries, cmd.from))
  }

  lemma ReadsAlone(s0: State, t: nat, id: Uuid, eventId: Uuid, cmd: Command) returns (s: State)
    requires Stands(s0, s0, t, id, eventId, StartTx(s0.db, cmd)) && Valid(cmd) && cmd.key !in s0.db.keys
    ensures Stands(s0, s, t, id, eventId, HasRead(s0.db, cmd, id)) && s.nextId == s0.nextId
  {
    var tx0 := StartTx(s0.db, cmd);
    var tx1 := tx0.(pc := Read, drawn := tx0.drawn.(id := id));
    s := Runs(s0, s0, t, id, eventId, tx0, tx1);
    s := Runs(s0, s, t, id, eventId, tx1, HasRead(s0.db, cmd, id));
  }

  predicate Accepts(db: Database, cmd: Command) {
    && Valid(cmd)
    && Decision(KindOf(db, cmd.from), KindOf(db, cmd.to), Balance(db.entries, cmd.from), cmd.amount).Ok?
  }

  /** The attempt after its transfer row and its two entries. */
  function HasWritten(db: Database, cmd: Command, drawn: Drawn): Tx {
    HasRead(db, cmd, drawn.id).(pc := AppendEvent, drawn := drawn)
  }

  lemma WritesAlone(s0: State, t: nat, id: Uuid, eventId: Uuid, cmd: Command) returns (s: State)
    requires Stands(s0, s0, t, id, eventId, StartTx(s0.db, cmd)) && cmd.key !in s0.db.keys
    requires Accepts(s0.db, cmd) && id !in s0.db.transfers
    ensures Stands(s0, s, t, id, eventId, HasWritten(s0.db, cmd, Drawn(id, s0.nextId, s0.nextId + 1, eventId)))
    ensures s.nextId == s0.nextId + 2
  {
    var n, tx := s0.nextId, HasRead(s0.db, cmd, id);
    s := ReadsAlone(s0, t, id, eventId, cmd);
    s := Runs(s0, s, t, id, eventId, tx, tx.(pc := InsertTransfer));
    s := Runs(s0, s, t, id, eventId, tx.(pc := InsertTransfer), tx.(pc := InsertDebit));
    var tx1 := tx.(pc := InsertCredit, drawn := tx.drawn.(debitId := n));
    s := Runs(s0, s, t, id, eventId, tx.(pc := InsertDebit), tx1);
    s := Runs(s0, s, t, id, eventId, tx1, HasWritten(s0.db, cmd, Drawn(id, n, n + 1, eventId)));
  }

  /** The attempt after all its statements have run against `db`. */
  function Prepared(db: Database, cmd: Command, drawn: Drawn): Tx {
    HasRead(db, cmd, drawn.id).(
      pc := Commit, drawn := drawn, result := Some(TransferResult(drawn.id, Created(drawn.id), false)))
  }

  /** An acceptable first-time attempt comes to its commit. */
  lemma PreparesAlone(s0: State, t: nat, id: Uuid, eventId: Uuid, cmd: Command) returns (s: State)
    requires Stands(s0, s0, t, id, eventId, StartTx(s0.db, cmd)) && cmd.key !in s0.db.keys
    requires Accepts(s0.db, cmd) && id !in s0.db.transfers && eventId !in s0.db.outbox
    ensures Stands(s0, s, t, id, eventId, Prepared(s0.db, cmd, Drawn(id, s0.nextId, s0.nextId + 1, eventId)))
    ensures s.nextId == s0.nextId + 2
  {
    var drawn := Drawn(id, s0.nextId, s0.nextId + 1, eventId);
    var tx := HasWritten(s0.db, cmd, drawn);
    s := WritesAlone(s0, t, id, eventId, cmd);
    s := Runs(s0, s, t, id, eventId, tx, tx.(pc := CompleteKey));
    s := Runs(s0, s, t, id, eventId, tx.(pc := CompleteKey), Prepared(s0.db, cmd, drawn));
  }

  /** One that is not acceptable, or has drawn an id that is taken, is refused. */
  lemma RefusedAlone(s0: State, t: nat, id: Uuid, eventId: Uuid, cmd: Command) returns (s': State)
    requires Stands(s0, s0, t, id, eventId, StartTx(s0.db, cmd)) && Valid(cmd) && cmd.key !in s0.db.keys
    requires !Accepts(s0.db, cmd) || id in s0.db.transfers || eventId in s0.db.outbox
    ensures Concludes(s0, s', t, id, eventId, Serve(s0.db, cmd, Drawn(id, s0.nextId, s0.nextId + 1, eventId)))
  {
    var tx := HasRead(s0.db, cmd, id);
    var s;
    if !Accepts(s0.db, cmd) {
      s := ReadsAlone(s0, t, id, eventId, cmd);
      var e := Decision(tx.fromKind, tx.toKind, tx.balance, cmd.amount).error;
      s := Runs(s0, s, t, id, eventId, tx, tx.(failure := Some(e)));
      tx := tx.(failure := Some(e));
    } else if id in s0.db.transfers {
      s := ReadsAlone(s0, t, id, eventId, cmd);
      s := Runs(s0, s, t, id, eventId, tx, tx.(pc := InsertTransfer));
      tx := tx.(pc := InsertTransfer, failure := Some(DuplicateRow));
      s := Runs(s0, s, t, id, eventId, tx.(failure := None), tx);
    } else {
      s := WritesAlone(s0, t, id, eventId, cmd);
      tx := HasWritten(s0.db, cmd, Drawn(id, s0.nextId, s0.nextId + 1, eventId)).(failure := Some(DuplicateRow));
      s := Runs(s0, s, t, id, eventId, tx.(failure := None), tx);
    }
    s' := FailsAlone(s0, s, t, id, eventId, tx);
  }

  lemma StandsAtStart(s: State, t: nat, cmd: Command, id: Uuid, eventId: Uuid)
    requires t !in s.txs && Clear(s.locks, cmd, id, eventId)
    ensures var s0 := Next(s, Begin(t, cmd)); Stands(s0, s0, t, id, eventId, StartTx(s.db, cmd))
  {
    ReachesItself(Solo(t, id, eventId), Next(s, Begin(t, cmd)));
  }

  /**
   * In every reachable state an attempt whose rows nobody else is inserting, left to run, gets the serial
   * wallet's answer on the tables it found and leaves the serial wallet's tables.
   */
  lemma SerializableServedAlone(trace: seq<State>, n: nat, t: nat, cmd: Command, id: Uuid, eventId: Uuid)
    returns (s': State)
    requires IsRun(trace) && n < |trace| && t !in trace[n].txs && Clear(trace[n].locks, cmd, id, eventId)
    ensures var s := trace[n];
            var drawn := Drawn(id, s.nextId, s.nextId + 1, eventId);
            Concludes(Next(s, Begin(t, cmd)), s', t, id, eventId, Serve(s.db, cmd, drawn))
  {
    var s := trace[n];
    var s0 := Next(s, Begin(t, cmd));
    RunKeepsInv(trace, n);
    StandsAtStart(s, t, cmd, id, eventId);
    if !Valid(cmd) {
      s' := s0;
    } else if cmd.key in s.db.keys {
      s' := ReplaysAlone(s0, t, id, eventId, cmd);
    } else if !Accepts(s.db, cmd) || id in s.db.transfers || eventId in s.db.outbox {
      s' := RefusedAlone(s0, t, id, eventId, cmd);
    } else {
      var at := PreparesAlone(s0, t, id, eventId, cmd);
      s' := CommitsAlone(s0, at, t, id, eventId, Prepared(s.db, cmd, Drawn(id, s.nextId, s.nextId + 1, eventId)));
    }
  }
}
