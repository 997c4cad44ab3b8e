/** What every step of the serializable strategy keeps true. */
module SerializableInvariant {
  import opened Core
  import opened Ledger
  import opened RowLocks
  import opened Wallet
  import opened Serializable

  // ---- The invariant ----

  function Rank(pc: Pc): nat {
    match pc
    case Read => 1
    case Decide => 2
    case InsertTransfer => 3
    case InsertDebit => 4
    case InsertCredit => 5
    case AppendEvent => 6
    case CompleteKey => 7
    case Commit => 8
    case _ => 0
  }

  predicate ShouldHold(tx: Tx, r: Resource) {
    var rank := Rank(tx.pc);
    match r
    case KeyEntry(k) => rank >= 1 && k == tx.cmd.key
    case TransferEntry(id) => rank >= 4 && id == tx.drawn.id
    case EventEntry(e) => rank >= 7 && e == tx.drawn.eventId
  }

  ghost predicate HeldOk(tx: Tx) {
    forall r :: r in tx.held <==> ShouldHold(tx, r)
  }

  /** The attempt's reads came from its snapshot, and its verdict follows from them. */
  ghost predicate ReadsHold(tx: Tx) {
    var rank := Rank(tx.pc);
    && (rank >= 2 ==>
          tx.fromKind == KindOf(tx.snap, tx.cmd.from) && tx.balance == Balance(tx.snap.entries, tx.cmd.from))
    && (rank >= 3 ==> Decision(tx.fromKind, tx.toKind, tx.balance, tx.cmd.amount).Ok?)
  }

  ghost predicate WritesFit(db: Database, tx: Tx) {
    var rank, drawn := Rank(tx.pc), tx.drawn;
    && (rank >= 1 ==> tx.cmd.key !in db.keys)
    && (rank >= 4 ==> drawn.id !in db.transfers)
    && (rank >= 7 ==> drawn.eventId !in db.outbox)
    && (rank >= 8 ==> tx.result == Some(TransferResult(drawn.id, Created(drawn.id), false)))
  }

  ghost predicate RepliesHold(db: Database, tx: Tx) {
    && (tx.pc == Load ==> tx.cmd.key in tx.snap.keys)
    && (tx.cmd.key in tx.snap.keys ==> tx.cmd.key in db.keys && db.keys[tx.cmd.key] == tx.snap.keys[tx.cmd.key])
    && (tx.pc == ReplayCommit ==>
          && tx.result.Some? && tx.cmd.key in tx.snap.keys
          && Replay(tx.snap.keys[tx.cmd.key], tx.cmd) == Success(tx.result.value))
    && (tx.failure.Some? ==> Genuine(tx.failure.value))
    && match tx.reply
       case None => true
       case Some(Refused(e)) => tx.pc.Done? && Genuine(e)
       case Some(Success(r)) => tx.pc.Done? && tx.cmd.key in db.keys && RowAnswers(db.keys[tx.cmd.key], tx.cmd, r)
  }

  ghost predicate SnapshotSound(snap: Database) {
    NoOverdraft(snap) && KeysMatch(snap)
  }

  ghost predicate Facts(db: Database, tx: Tx) {
    && (!tx.pc.Done? ==> Valid(tx.cmd))
    && HeldOk(tx) && ReadsHold(tx) && WritesFit(db, tx) && RepliesHold(db, tx)
  }

  ghost predicate AllFacts(db: Database, txs: map<nat, Tx>) {
    forall t :: t in txs ==> Facts(db, txs[t]) && SnapshotSound(txs[t].snap)
  }

  /** Up to the order of independent rows, the committed tables are those of the serial wallet after `order`. */
  ghost predicate Refines(start: Database, db: Database, order: seq<LogItem>) {
    Initial(start) && Legal(start, order) && SameTables(Run(start, order), db)
  }

  ghost predicate Inv(s: State) {
    Refines(s.start, s.db, s.order) && LocksOk(s.locks, s.txs, HeldBy) && AllFacts(s.db, s.txs)
  }

  lemma RefinesSound(start: Database, db: Database, order: seq<LogItem>)
    requires Refines(start, db, order)
    ensures Sound(db)
  {
    InitialSound(start);
    RunSound(start, order);
    SameTablesSound(Run(start, order), db);
  }

  // ---- Statements keep it ----

  lemma ClaimFacts(db: Database, tx: Tx, id: Uuid)
    requires Facts(db, tx) && tx.failure.None? && tx.pc == Claim
    ensures Facts(db, ClaimKey(db, tx, id).tx)
  {
  }

  lemma LoadFacts(db: Database, tx: Tx)
    requires Facts(db, tx) && tx.failure.None? && tx.pc == Load
    requires tx.cmd.key in tx.snap.keys ==> tx.snap.keys[tx.cmd.key].state == Completed
    ensures Facts(db, LoadKey(tx).tx)
  {
  }

  lemma ReadFacts(db: Database, tx: Tx)
    requires Facts(db, tx) && tx.failure.None? && tx.pc == Read
    ensures Facts(db, ReadSnapshot(tx).tx)
  {
  }

  /** Snapshots are committed states, where no customer is overdrawn, so the check never overflows. */
  lemma DecisionGenuine(snap: Database, tx: Tx)
    requires NoOverdraft(snap) && tx.cmd.amount > 0
    requires tx.fromKind == KindOf(snap, tx.cmd.from) && tx.balance == Balance(snap.entries, tx.cmd.from)
    ensures var verdict := Decision(tx.fromKind, tx.toKind, tx.balance, tx.cmd.amount);
            verdict.Err? ==> Genuine(verdict.error)
  {
  }

  lemma DecideFacts(db: Database, tx: Tx)
    requires NoOverdraft(tx.snap) && Facts(db, tx) && tx.failure.None? && tx.pc == Decide
    ensures Facts(db, DecideDebit(tx).tx)
  {
    DecisionGenuine(tx.snap, tx);
  }

  lemma WriteFacts(db: Database, tx: Tx, nextId: int, eventId: Uuid)
    requires Facts(db, tx) && tx.failure.None?
    ensures tx.pc == InsertTransfer ==> Facts(db, AddTransfer(db, tx).tx)
    ensures tx.pc == InsertDebit ==> Facts(db, AddDebit(tx, nextId).tx)
    ensures tx.pc == InsertCredit ==> Facts(db, AddCredit(tx, nextId, eventId).tx)
  {
  }

  lemma EventFacts(db: Database, tx: Tx)
    requires Facts(db, tx) && tx.failure.None?
    ensures tx.pc == AppendEvent ==> Facts(db, AddEvent(db, tx).tx)
    ensures tx.pc == CompleteKey ==> Facts(db, Complete(tx).tx)
  {
  }

  lemma StatementFacts(db: Database, nextId: int, tx: Tx, id: Uuid, eventId: Uuid)
    requires SnapshotSound(tx.snap) && Facts(db, tx) && tx.failure.None? && !Committing(tx) && !tx.pc.Done?
    ensures Facts(db, Statement(db, nextId, tx, id, eventId).tx)
    ensures Statement(db, nextId, tx, id, eventId).tx.snap == tx.snap
  {
    match tx.pc
    case Claim => ClaimFacts(db, tx, id);
    case Load => LoadFacts(db, tx);
    case Read => ReadFacts(db, tx);
    case Decide => DecideFacts(db, tx);
    case InsertTransfer => WriteFacts(db, tx, nextId, eventId);
    case InsertDebit => WriteFacts(db, tx, nextId, eventId);
    case InsertCredit => WriteFacts(db, tx, nextId, eventId);
    case AppendEvent => EventFacts(db, tx);
    case CompleteKey => EventFacts(db, tx);
  }

  lemma StatementTakes(db: Database, nextId: int, tx: Tx, id: Uuid, eventId: Uuid)
    requires tx.failure.None?
    ensures var e := Statement(db, nextId, tx, id, eventId);
            && (e.took.None? ==> e.tx.held == tx.held)
            && (e.took.Some? ==> e.took == Need(tx) && e.tx.held == tx.held + {e.took.value})
  {
  }

  lemma AllFactsUpdate(db: Database, txs: map<nat, Tx>, t: nat, tx': Tx)
    requires AllFacts(db, txs) && Facts(db, tx') && SnapshotSound(tx'.snap)
    ensures AllFacts(db, txs[t := tx'])
  {
  }

  lemma PerformKeepsInv(s: State, t: nat, id: Uuid, eventId: Uuid)
    requires Inv(s) && Enabled(s, Advance(t, id, eventId)) && s.txs[t].failure.None?
    ensures Inv(Perform(s, t, Statement(s.db, s.nextId, s.txs[t], id, eventId)))
  {
    var tx := s.txs[t];
    var e := Statement(s.db, s.nextId, tx, id, eventId);
    StatementFacts(s.db, s.nextId, tx, id, eventId);
    AllFactsUpdate(s.db, s.txs, t, e.tx);
    StatementTakes(s.db, s.nextId, tx, id, eventId);
    if e.took.Some? {
      LocksTaken(s.locks, s.txs, HeldBy, t, e.tx, e.took.value);
    } else {
      LocksKept(s.locks, s.txs, HeldBy, t, e.tx);
    }
  }

  lemma EndedFacts(db: Database, tx: Tx, reply: Option<Answer>)
    requires Facts(db, tx) && RepliesHold(db, Ended(tx, reply))
    ensures Facts(db, Ended(tx, reply))
  {
  }

  lemma RefusedReply(db: Database, tx: Tx, e: Error)
    requires Facts(db, tx) && Genuine(e)
    ensures RepliesHold(db, Ended(tx, Some(Refused(e))))
  {
  }

  lemma FinishKeepsInv(s: State, t: nat, reply: Option<Answer>)
    requires Inv(s) && t in s.txs && RepliesHold(s.db, Ended(s.txs[t], reply))
    ensures Inv(Finish(s, t, reply))
  {
    EndedFacts(s.db, s.txs[t], reply);
    AllFactsUpdate(s.db, s.txs, t, Ended(s.txs[t], reply));
    LocksReleased(s.locks, s.txs, HeldBy, t, Ended(s.txs[t], reply));
  }

  lemma StartFacts(db: Database, cmd: Command)
    requires KeysMatch(db)
    ensures Facts(db, StartTx(db, cmd)) && StartTx(db, cmd).held == {} && StartTx(db, cmd).snap == db
  {
  }

  lemma BeginKeepsInv(s: State, t: nat, cmd: Command)
    requires Inv(s) && Enabled(s, Begin(t, cmd))
    ensures Inv(Next(s, Begin(t, cmd)))
  {
    assert KeysMatch(s.db) && NoOverdraft(s.db) by { RefinesSound(s.start, s.db, s.order); }
    StartFacts(s.db, cmd);
    AllFactsUpdate(s.db, s.txs, t, StartTx(s.db, cmd));
    LocksKept(s.locks, s.txs, HeldBy, t, StartTx(s.db, cmd));
  }

  // ---- Commits ----

  /** At its place in the serial order the serial wallet gives the attempt the answer it computed. */
  lemma CommitAdmitted(prefix: Database, tx: Tx)
    requires Valid(tx.cmd) && ReadsHold(tx) && tx.pc == Commit
    requires tx.result == Some(TransferResult(tx.drawn.id, Created(tx.drawn.id), false)) && ReadsAgree(tx, prefix)
    requires tx.drawn.id !in prefix.transfers && tx.drawn.eventId !in prefix.outbox
    ensures Serve(prefix, tx.cmd, tx.drawn) == Served(Post(prefix, tx.cmd, tx.drawn), Success(tx.result.value))
  {
  }

  /** Ids unused at the end of a legal run are unused after every prefix of it. */
  lemma PrefixLacks(start: Database, order: seq<LogItem>, p: nat, drawn: Drawn)
    requires Legal(start, order) && p <= |order|
    requires drawn.id !in Run(start, order).transfers && drawn.eventId !in Run(start, order).outbox
    ensures drawn.id !in Run(start, order[..p]).transfers && drawn.eventId !in Run(start, order[..p]).outbox
  {
    SplitRun(start, order, p);
    RunExtends(Run(start, order[..p]), order[p..]);
  }

  lemma CommitRefines(
    start: Database, db: Database, order: seq<LogItem>, p: nat, cmd: Command, drawn: Drawn, result: TransferResult)
    requires Refines(start, db, order) && p <= |order|
    requires forall i :: p <= i < |order| ==> Undisturbed(order[i], cmd)
    requires var prefix := Run(start, order[..p]);
             Serve(prefix, cmd, drawn) == Served(Post(prefix, cmd, drawn), Success(result))
    requires cmd.key !in db.keys && drawn.id !in db.transfers && drawn.eventId !in db.outbox
    ensures Refines(start, Post(db, cmd, drawn), order[..p] + [Moved(cmd, drawn, result)] + order[p..])
  {
    var order' := order[..p] + [Moved(cmd, drawn, result)] + order[p..];
    InsertTransferAt(start, order, p, cmd, drawn, result);
    PostAlike(Run(start, order), db, cmd, drawn);
    SameTablesTransitive(Run(start, order'), Post(Run(start, order), cmd, drawn), Post(db, cmd, drawn));
  }

  lemma CommitterHolds(db: Database, tx: Tx)
    requires Facts(db, tx) && tx.pc == Commit
    ensures {KeyEntry(tx.cmd.key), TransferEntry(tx.drawn.id), EventEntry(tx.drawn.eventId)} <= tx.held
  {
    forall r | r in {KeyEntry(tx.cmd.key), TransferEntry(tx.drawn.id), EventEntry(tx.drawn.eventId)}
      ensures r in tx.held
    {
      assert ShouldHold(tx, r);
    }
  }

  /** Unique index entries held by the committer are not those of any other attempt in progress. */
  lemma FactsSurviveCommit(db: Database, tx: Tx, other: Tx)
    requires Facts(db, tx) && tx.pc == Commit && Facts(db, other) && tx.held !! other.held
    ensures Facts(Post(db, tx.cmd, tx.drawn), other)
  {
    CommitterHolds(db, tx);
    if Rank(other.pc) >= 1 { assert ShouldHold(other, KeyEntry(other.cmd.key)); }
    if Rank(other.pc) >= 4 { assert ShouldHold(other, TransferEntry(other.drawn.id)); }
    if Rank(other.pc) >= 7 { assert ShouldHold(other, EventEntry(other.drawn.eventId)); }
  }

  lemma CommittedFacts(db: Database, tx: Tx, acked: bool)
    requires Facts(db, tx) && tx.pc == Commit
    ensures Facts(Post(db, tx.cmd, tx.drawn), Ended(tx, if acked then Some(Success(tx.result.value)) else None))
  {
  }

  lemma CommitKeepsFacts(s: State, t: nat, acked: bool)
    requires Inv(s) && t in s.txs && s.txs[t].pc == Commit && s.txs[t].result.Some?
    ensures var tx := s.txs[t];
            AllFacts(Post(s.db, tx.cmd, tx.drawn),
                     s.txs[t := Ended(tx, if acked then Some(Success(tx.result.value)) else None)])
  {
    CommittedFacts(s.db, s.txs[t], acked);
    forall u | u in s.txs && u != t
      ensures Facts(Post(s.db, s.txs[t].cmd, s.txs[t].drawn), s.txs[u])
    {
      HoldersApart(s.locks, s.txs, HeldBy, t, u);
      FactsSurviveCommit(s.db, s.txs[t], s.txs[u]);
    }
  }

  lemma CommitKeepsInv(s: State, t: nat, p: nat, acked: bool)
    requires Inv(s) && Enabled(s, CommitAt(t, p, acked)) && s.txs[t].pc == Commit
    ensures Inv(CommitTx(s, t, p, acked))
  {
    PrefixLacks(s.start, s.order, p, s.txs[t].drawn);
    CommitAdmitted(Run(s.start, s.order[..p]), s.txs[t]);
    CommitRefines(s.start, s.db, s.order, p, s.txs[t].cmd, s.txs[t].drawn, s.txs[t].result.value);
    CommitKeepsFacts(s, t, acked);
    var reply := if acked then Some(Success(s.txs[t].result.value)) else None;
    LocksReleased(s.locks, s.txs, HeldBy, t, Ended(s.txs[t], reply));
  }

  lemma ReplayReply(db: Database, tx: Tx, acked: bool)
    requires Facts(db, tx) && tx.pc == ReplayCommit && tx.result.Some?
    ensures RepliesHold(db, Ended(tx, if acked then Some(Success(tx.result.value)) else None))
    ensures Valid(tx.cmd)
  {
  }

  lemma ReplayCommitKeepsInv(s: State, t: nat, p: nat, acked: bool)
    requires Inv(s) && Enabled(s, CommitAt(t, p, acked)) && s.txs[t].pc == ReplayCommit
    ensures Inv(CommitTx(s, t, p, acked))
  {
    var tx := s.txs[t];
    ReplayReply(s.db, tx, acked);
    InsertReplayAt(s.start, s.order, p, tx.cmd, tx.drawn, tx.result.value);
    FinishKeepsInv(s, t, if acked then Some(Success(tx.result.value)) else None);
  }

  lemma OpenRefines(start: Database, db: Database, order: seq<LogItem>, account: Uuid)
    requires Refines(start, db, order) && account !in db.accounts
    ensures Refines(start, Apply(db, Opened(account)), order + [Opened(account)])
  {
    RunSnoc(start, order, Opened(account));
    SameTablesApplyAlike(Run(start, order), db, Opened(account));
  }

  lemma OpenKeepsInv(s: State, account: Uuid)
    requires Inv(s) && Enabled(s, Open(account))
    ensures Inv(Next(s, Open(account)))
  {
    OpenRefines(s.start, s.db, s.order, account);
  }

  lemma StepKeepsInv(s: State, s': State)
    requires Inv(s) && Step(s, s')
    ensures Inv(s') && s'.start == s.start
  {
    var l :| Enabled(s, l) && s' == Next(s, l);
    match l
    case Begin(t, cmd) => BeginKeepsInv(s, t, cmd);
    case Advance(t, id, eventId) =>
      if s.txs[t].failure.Some? {
        RefusedReply(s.db, s.txs[t], s.txs[t].failure.value);
        FinishKeepsInv(s, t, Some(Refused(s.txs[t].failure.value)));
      } else {
        PerformKeepsInv(s, t, id, eventId);
      }
    case CommitAt(t, p, acked) =>
      if s.txs[t].pc == Commit {
        CommitKeepsInv(s, t, p, acked);
      } else {
        ReplayCommitKeepsInv(s, t, p, acked);
      }
    case Abort(t) =>
      RefusedReply(s.db, s.txs[t], SerializationFailure);
      FinishKeepsInv(s, t, Some(Refused(SerializationFailure)));
    case Open(account) => OpenKeepsInv(s, account);
  }

  lemma InitInv(s: State)
    requires Init(s)
    ensures Inv(s)
  {
  }

  lemma {:induction false} RunKeepsInv(trace: seq<State>, n: nat)
    requires IsRun(trace) && n < |trace|
    ensures Inv(trace[n]) && trace[n].start == trace[0].db
  {
    if n == 0 {
      InitInv(trace[0]);
    } else {
      RunKeepsInv(trace, n - 1);
      StepKeepsInv(trace[n - 1], trace[n]);
    }
  }
}
