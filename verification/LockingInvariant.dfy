/** What every step of the locking strategy keeps true. */
module LockingInvariant {
  import opened Core
  import opened Money
  import opened Ledger
  import opened RowLocks
  import opened Wallet
  import opened Locking

  // ---- The invariant ----

  /** How far along the working path a transaction is; 0 before the key is claimed. */
  function Rank(pc: Pc): nat {
    match pc
    case LockLow => 1
    case LockHigh => 2
    case ReadBalance => 3
    case Decide => 4
    case InsertTransfer => 5
    case InsertDebit => 6
    case InsertCredit => 7
    case AppendEvent => 8
    case CompleteKey => 9
    case Commit => 10
    case _ => 0
  }

  /** The rows a transaction has at each point of the working path. */
  predicate ShouldHold(tx: Tx, r: Resource) {
    var rank := Rank(tx.pc);
    match r
    case KeyLock(k) => rank >= 1 && k == tx.cmd.key
    case AccountLock(a) =>
      || (rank >= 2 && tx.lowKind.Some? && a == tx.low)
      || (rank >= 3 && tx.highKind.Some? && a == tx.high)
    case TransferLock(id) => rank >= 6 && id == tx.drawn.id
    case EventLock(e) => rank >= 9 && e == tx.drawn.eventId
  }

  ghost predicate HeldOk(tx: Tx) {
    forall r :: r in tx.held <==> ShouldHold(tx, r)
  }

  ghost predicate Above(entries: seq<EntryRow>, account: Uuid, id: int) {
    forall e :: e in entries && e.account == account ==> e.id < id
  }

  /** What the rows read so far still say about the committed tables. */
  ghost predicate ReadsHold(db: Database, tx: Tx) {
    var rank := Rank(tx.pc);
    && (rank >= 1 ==> tx.cmd.key !in db.keys)
    && (rank >= 2 && tx.lowKind.Some? ==> KindOf(db, tx.low) == tx.lowKind)
    && (rank >= 3 && tx.highKind.Some? ==> KindOf(db, tx.high) == tx.highKind)
    && (rank >= 4 && FromKind(tx).Some? ==> tx.balance == Balance(db.entries, tx.cmd.from))
    && (rank >= 5 ==> Decision(FromKind(tx), ToKind(tx), tx.balance, tx.cmd.amount).Ok?)
  }

  ghost predicate WritesFit(db: Database, nextId: int, tx: Tx) {
    var rank, drawn := Rank(tx.pc), tx.drawn;
    && (rank >= 6 ==> drawn.id !in db.transfers)
    && (rank >= 7 ==> 0 < drawn.debitId < nextId && Above(db.entries, tx.cmd.from, drawn.debitId))
    && (rank >= 8 ==> drawn.debitId < drawn.creditId < nextId && Above(db.entries, tx.cmd.to, drawn.creditId))
    && (rank >= 9 ==> drawn.eventId !in db.outbox)
    && (rank >= 10 ==> tx.result == Some(TransferResult(drawn.id, Created(drawn.id), false)))
  }

  ghost predicate RepliesHold(db: Database, tx: Tx) {
    && (tx.pc == Load ==> tx.cmd.key in db.keys)
    && (tx.pc == ReplayCommit ==>
          tx.result.Some? && tx.cmd.key in db.keys && Replay(db.keys[tx.cmd.key], tx.cmd) == Success(tx.result.value))
    && (tx.failure.Some? ==> Genuine(tx.failure.value))
    && match tx.reply
       case None => true
       case Some(Refused(e)) => tx.pc.Done? && Genuine(e)
       case Some(Success(r)) => tx.pc.Done? && tx.cmd.key in db.keys && RowAnswers(db.keys[tx.cmd.key], tx.cmd, r)
  }

  ghost predicate Facts(db: Database, nextId: int, tx: Tx) {
    && (!tx.pc.Done? ==> Valid(tx.cmd))
    && ((tx.low == tx.cmd.from && tx.high == tx.cmd.to) || (tx.low == tx.cmd.to && tx.high == tx.cmd.from))
    && HeldOk(tx) && ReadsHold(db, tx) && WritesFit(db, nextId, tx) && RepliesHold(db, tx)
  }

  ghost predicate AllFacts(db: Database, nextId: int, txs: map<nat, Tx>) {
    forall t :: t in txs ==> Facts(db, nextId, txs[t])
  }

  ghost predicate InIdOrder(entries: seq<EntryRow>) {
    forall i, j :: 0 <= i < j < |entries| && entries[i].account == entries[j].account ==> entries[i].id < entries[j].id
  }

  ghost predicate IdsOk(entries: seq<EntryRow>, nextId: int) {
    nextId >= 1 && InIdOrder(entries) && forall e :: e in entries ==> 0 < e.id < nextId
  }

  /** The committed tables are those of the serial wallet after the committed work, in commit order. */
  ghost predicate Refines(start: Database, db: Database, log: seq<LogItem>) {
    Initial(start) && Legal(start, log) && db == Run(start, log)
  }

  ghost predicate Inv(start: Database, s: State) {
    && Refines(start, s.db, s.log)
    && IdsOk(s.db.entries, s.nextId)
    && LocksOk(s.locks, s.txs, HeldBy)
    && AllFacts(s.db, s.nextId, s.txs)
  }

  lemma RefinesSound(start: Database, db: Database, log: seq<LogItem>)
    requires Refines(start, db, log)
    ensures Sound(db)
  {
    InitialSound(start);
    RunSound(start, log);
  }

  // ---- Every statement keeps its transaction's facts ----

  lemma ClaimFacts(db: Database, nextId: int, tx: Tx, id: Uuid)
    requires Facts(db, nextId, tx) && tx.failure.None? && tx.pc == Claim
    ensures Facts(db, nextId, ClaimKey(db, tx, id).tx)
  {
  }

  /** The row that beat the claim is committed and completed, so loading it never comes back empty-handed. */
  lemma LoadFacts(db: Database, nextId: int, tx: Tx)
    requires Facts(db, nextId, tx) && tx.failure.None? && tx.pc == Load
    requires tx.cmd.key in db.keys ==> db.keys[tx.cmd.key].state == Completed
    ensures Facts(db, nextId, LoadKey(db, tx).tx)
  {
  }

  lemma LockFacts(db: Database, nextId: int, tx: Tx)
    requires Facts(db, nextId, tx) && tx.failure.None?
    ensures tx.pc == LockLow ==> Facts(db, nextId, LockFirst(db, tx).tx)
    ensures tx.pc == LockHigh ==> Facts(db, nextId, LockSecond(db, tx).tx)
  {
  }

  lemma ReadFacts(db: Database, nextId: int, tx: Tx)
    requires Facts(db, nextId, tx) && tx.failure.None? && tx.pc == ReadBalance
    ensures Facts(db, nextId, ReadSource(db, tx).tx)
  {
  }

  /** A customer's balance is not negative, so the debit check never reports an overflow. */
  lemma DecisionGenuine(db: Database, tx: Tx)
    requires NoOverdraft(db) && tx.cmd.amount > 0
    requires FromKind(tx).Some? ==>
               KindOf(db, tx.cmd.from) == FromKind(tx) && tx.balance == Balance(db.entries, tx.cmd.from)
    ensures var verdict := Decision(FromKind(tx), ToKind(tx), tx.balance, tx.cmd.amount);
            verdict.Err? ==> Genuine(verdict.error)
  {
  }

  lemma DecideFacts(db: Database, nextId: int, tx: Tx)
    requires NoOverdraft(db) && Facts(db, nextId, tx) && tx.failure.None? && tx.pc == Decide
    ensures Facts(db, nextId, DecideDebit(tx).tx)
  {
    DecisionGenuine(db, tx);
  }

  lemma AddTransferFacts(db: Database, nextId: int, tx: Tx)
    requires Facts(db, nextId, tx) && tx.failure.None? && tx.pc == InsertTransfer
    ensures Facts(db, nextId, AddTransfer(db, tx).tx)
  {
  }

  /** A number drawn while the account is locked is above every number visible on that account. */
  lemma AddEntryFacts(db: Database, nextId: int, tx: Tx, eventId: Uuid)
    requires IdsOk(db.entries, nextId) && Facts(db, nextId, tx) && tx.failure.None?
    ensures tx.pc == InsertDebit ==> Facts(db, nextId + 1, AddDebit(tx, nextId).tx)
    ensures tx.pc == InsertCredit ==> Facts(db, nextId + 1, AddCredit(tx, nextId, eventId).tx)
  {
  }

  lemma AddEventFacts(db: Database, nextId: int, tx: Tx)
    requires Facts(db, nextId, tx) && tx.failure.None? && tx.pc == AppendEvent
    ensures Facts(db, nextId, AddEvent(db, tx).tx)
  {
  }

  lemma CompleteFacts(db: Database, nextId: int, tx: Tx)
    requires Facts(db, nextId, tx) && tx.failure.None? && tx.pc == CompleteKey
    ensures Facts(db, nextId, Complete(tx).tx)
  {
  }

  lemma ReadingFacts(db: Database, nextId: int, tx: Tx, id: Uuid, eventId: Uuid)
    requires KeysMatch(db) && NoOverdraft(db) && Facts(db, nextId, tx) && tx.failure.None?
    requires tx.pc in {Claim, Load, LockLow, LockHigh, ReadBalance, Decide}
    ensures !Statement(db, nextId, tx, id, eventId).drew
    ensures Facts(db, nextId, Statement(db, nextId, tx, id, eventId).tx)
  {
    match tx.pc
    case Claim => ClaimFacts(db, nextId, tx, id);
    case Load => LoadFacts(db, nextId, tx);
    case LockLow => LockFacts(db, nextId, tx);
    case LockHigh => LockFacts(db, nextId, tx);
    case ReadBalance => ReadFacts(db, nextId, tx);
    case Decide => DecideFacts(db, nextId, tx);
  }

  lemma WritingFacts(db: Database, nextId: int, tx: Tx, id: Uuid, eventId: Uuid)
    requires IdsOk(db.entries, nextId) && Facts(db, nextId, tx) && tx.failure.None?
    requires tx.pc in {InsertTransfer, InsertDebit, InsertCredit, AppendEvent, CompleteKey}
    ensures var e := Statement(db, nextId, tx, id, eventId);
            Facts(db, nextId + if e.drew then 1 else 0, e.tx)
  {
    match tx.pc
    case InsertTransfer => AddTransferFacts(db, nextId, tx);
    case InsertDebit => AddEntryFacts(db, nextId, tx, eventId);
    case InsertCredit => AddEntryFacts(db, nextId, tx, eventId);
    case AppendEvent => AddEventFacts(db, nextId, tx);
    case CompleteKey => CompleteFacts(db, nextId, tx);
  }

  lemma StatementFacts(db: Database, nextId: int, tx: Tx, id: Uuid, eventId: Uuid)
    requires KeysMatch(db) && NoOverdraft(db) && IdsOk(db.entries, nextId) && Facts(db, nextId, tx)
    requires tx.failure.None? && !Committing(tx) && !tx.pc.Done?
    ensures var e := Statement(db, nextId, tx, id, eventId);
            Facts(db, nextId + if e.drew then 1 else 0, e.tx)
  {
    if tx.pc in {Claim, Load, LockLow, LockHigh, ReadBalance, Decide} {
      ReadingFacts(db, nextId, tx, id, eventId);
    } else {
      WritingFacts(db, nextId, tx, id, eventId);
    }
  }

  /** A statement takes at most the row it needed, and gives none back. */
  lemma StatementTakes(db: Database, nextId: int, tx: Tx, id: Uuid, eventId: Uuid)
    requires tx.failure.None?
    ensures var e := Statement(db, nextId, tx, id, eventId);
            && (e.took.None? ==> e.tx.held == tx.held)
            && (e.took.Some? ==> e.took == Need(tx) && e.tx.held == tx.held + {e.took.value})
  {
  }

  // ---- Every step keeps the invariant ----

  lemma FactsLater(db: Database, nextId: int, nextId': int, tx: Tx)
    requires Facts(db, nextId, tx) && nextId <= nextId'
    ensures Facts(db, nextId', tx)
  {
  }

  lemma AllFactsUpdate(db: Database, nextId: int, nextId': int, txs: map<nat, Tx>, t: nat, tx': Tx)
    requires AllFacts(db, nextId, txs) && nextId <= nextId' && Facts(db, nextId', tx')
    ensures AllFacts(db, nextId', txs[t := tx'])
  {
    forall u | u in txs && u != t
      ensures Facts(db, nextId', txs[u])
    {
      FactsLater(db, nextId, nextId', txs[u]);
    }
  }

  /** A statement whose own transaction stays well described leaves the whole state so. */
  lemma EffectKeepsInv(start: Database, s: State, t: nat, e: Effect<Tx, Resource>)
    requires Inv(start, s) && t in s.txs && Facts(s.db, s.nextId + if e.drew then 1 else 0, e.tx)
    requires e.took.None? ==> e.tx.held == s.txs[t].held
    requires e.took.Some? ==>
               && e.tx.held == s.txs[t].held + {e.took.value}
               && (e.took.value !in s.locks || s.locks[e.took.value] == t)
    ensures Inv(start, Perform(s, t, e))
  {
    AllFactsUpdate(s.db, s.nextId, s.nextId + if e.drew then 1 else 0, s.txs, t, e.tx);
    if e.took.Some? {
      LocksTaken(s.locks, s.txs, HeldBy, t, e.tx, e.took.value);
    } else {
      LocksKept(s.locks, s.txs, HeldBy, t, e.tx);
    }
  }

  lemma PerformKeepsInv(start: Database, s: State, t: nat, id: Uuid, eventId: Uuid)
    requires Inv(start, s) && CanProceed(s, t) && s.txs[t].failure.None? && !Committing(s.txs[t])
    ensures Inv(start, Perform(s, t, Statement(s.db, s.nextId, s.txs[t], id, eventId)))
  {
    assert KeysMatch(s.db) && NoOverdraft(s.db) by { RefinesSound(start, s.db, s.log); }
    StatementFacts(s.db, s.nextId, s.txs[t], id, eventId);
    StatementTakes(s.db, s.nextId, s.txs[t], id, eventId);
    EffectKeepsInv(start, s, t, Statement(s.db, s.nextId, s.txs[t], id, eventId));
  }

  /** Rollbacks and crashes leave the committed tables alone. */
  lemma FinishKeepsInv(start: Database, s: State, t: nat, reply: Option<Answer>)
    requires Inv(start, s) && t in s.txs
    requires RepliesHold(s.db, Ended(s.txs[t], reply))
    ensures Inv(start, Finish(s, t, reply))
  {
    EndedFacts(s.db, s.nextId, s.txs[t], reply);
    AllFactsUpdate(s.db, s.nextId, s.nextId, s.txs, t, Ended(s.txs[t], reply));
    LocksReleased(s.locks, s.txs, HeldBy, t, Ended(s.txs[t], reply));
  }

  lemma EndedFacts(db: Database, nextId: int, tx: Tx, reply: Option<Answer>)
    requires Facts(db, nextId, tx) && RepliesHold(db, Ended(tx, reply))
    ensures Facts(db, nextId, Ended(tx, reply))
  {
  }

  lemma StartFacts(db: Database, nextId: int, cmd: Command)
    ensures Facts(db, nextId, StartTx(cmd)) && StartTx(cmd).held == {}
  {
  }

  lemma BeginKeepsInv(start: Database, s: State, t: nat, cmd: Command)
    requires Inv(start, s) && Enabled(s, Begin(t, cmd))
    ensures Inv(start, Next(s, Begin(t, cmd)))
  {
    StartFacts(s.db, s.nextId, cmd);
    AllFactsUpdate(s.db, s.nextId, s.nextId, s.txs, t, StartTx(cmd));
    LocksKept(s.locks, s.txs, HeldBy, t, StartTx(cmd));
  }

  // ---- Commits ----

  /** The balance read under both locks is still exact, so the serial wallet admits the transfer here. */
  lemma CommitAdmitted(db: Database, nextId: int, tx: Tx)
    requires Facts(db, nextId, tx) && tx.pc == Commit
    ensures tx.balance == Balance(db.entries, tx.cmd.from)
    ensures Serve(db, tx.cmd, tx.drawn) == Served(Post(db, tx.cmd, tx.drawn), Success(tx.result.value))
  {
    assert KindOf(db, tx.cmd.from) == FromKind(tx);
    assert KindOf(db, tx.cmd.to) == ToKind(tx);
  }

  lemma CommitIdsOk(db: Database, nextId: int, tx: Tx)
    requires Facts(db, nextId, tx) && tx.pc == Commit && IdsOk(db.entries, nextId)
    ensures IdsOk(Post(db, tx.cmd, tx.drawn).entries, nextId)
  {
    var d, c := Debit(tx.cmd, tx.drawn), Credit(tx.cmd, tx.drawn);
    var entries := db.entries + [d, c];
    forall i, j | 0 <= i < j < |entries| && entries[i].account == entries[j].account
      ensures entries[i].id < entries[j].id
    {
      if i < |db.entries| <= j {
        assert entries[i] in db.entries;
      }
    }
  }

  /** A transaction at its commit holds its key, both accounts, its transfer row and its event row. */
  lemma CommitterHolds(db: Database, nextId: int, tx: Tx)
    requires Facts(db, nextId, tx) && tx.pc == Commit
    ensures {KeyLock(tx.cmd.key), AccountLock(tx.cmd.from), AccountLock(tx.cmd.to),
             TransferLock(tx.drawn.id), EventLock(tx.drawn.eventId)} <= tx.held
  {
    forall r | r in {KeyLock(tx.cmd.key), AccountLock(tx.cmd.from), AccountLock(tx.cmd.to),
                     TransferLock(tx.drawn.id), EventLock(tx.drawn.eventId)}
      ensures r in tx.held
    {
      assert ShouldHold(tx, r);
    }
  }

  lemma OtherAccountsDiffer(db: Database, nextId: int, tx: Tx, other: Tx)
    requires Facts(db, nextId, tx) && tx.pc == Commit && Facts(db, nextId, other) && tx.held !! other.held
    ensures Rank(other.pc) >= 3 && FromKind(other).Some? ==> other.cmd.from !in {tx.cmd.from, tx.cmd.to}
    ensures Rank(other.pc) >= 3 && ToKind(other).Some? ==> other.cmd.to !in {tx.cmd.from, tx.cmd.to}
  {
    CommitterHolds(db, nextId, tx);
    if Rank(other.pc) >= 3 && FromKind(other).Some? {
      assert ShouldHold(other, AccountLock(other.cmd.from));
    }
    if Rank(other.pc) >= 3 && ToKind(other).Some? {
      assert ShouldHold(other, AccountLock(other.cmd.to));
    }
  }

  lemma ReadsSurviveCommit(db: Database, nextId: int, tx: Tx, other: Tx)
    requires Facts(db, nextId, tx) && tx.pc == Commit && Facts(db, nextId, other) && tx.held !! other.held
    ensures ReadsHold(Post(db, tx.cmd, tx.drawn), other)
  {
    CommitterHolds(db, nextId, tx);
    OtherAccountsDiffer(db, nextId, tx, other);
    SnocTwo(db.entries, Debit(tx.cmd, tx.drawn), Credit(tx.cmd, tx.drawn));
    if Rank(other.pc) >= 1 {
      assert ShouldHold(other, KeyLock(other.cmd.key));
    }
  }

  lemma WritesSurviveCommit(db: Database, nextId: int, tx: Tx, other: Tx)
    requires Facts(db, nextId, tx) && tx.pc == Commit && Facts(db, nextId, other) && tx.held !! other.held
    ensures WritesFit(Post(db, tx.cmd, tx.drawn), nextId, other)
  {
    CommitterHolds(db, nextId, tx);
    OtherAccountsDiffer(db, nextId, tx, other);
    if Rank(other.pc) >= 6 {
      assert ShouldHold(other, TransferLock(other.drawn.id));
    }
    if Rank(other.pc) >= 9 {
      assert ShouldHold(other, EventLock(other.drawn.eventId));
    }
  }

  lemma RepliesSurvive(db: Database, later: Database, tx: Tx)
    requires RepliesHold(db, tx) && Extends(db, later)
    ensures RepliesHold(later, tx)
  {
  }

  lemma FactsSurviveCommit(db: Database, nextId: int, tx: Tx, other: Tx)
    requires Facts(db, nextId, tx) && tx.pc == Commit && Facts(db, nextId, other) && tx.held !! other.held
    ensures Facts(Post(db, tx.cmd, tx.drawn), nextId, other)
  {
    ReadsSurviveCommit(db, nextId, tx, other);
    WritesSurviveCommit(db, nextId, tx, other);
    RepliesSurvive(db, Post(db, tx.cmd, tx.drawn), other);
  }

  lemma CommitKeepsFacts(start: Database, s: State, t: nat, reply: Option<Answer>)
    requires Inv(start, s) && t in s.txs && s.txs[t].pc == Commit
    requires var db' := Post(s.db, s.txs[t].cmd, s.txs[t].drawn);
             Facts(db', s.nextId, Ended(s.txs[t], reply))
    ensures var db' := Post(s.db, s.txs[t].cmd, s.txs[t].drawn);
            AllFacts(db', s.nextId, s.txs[t := Ended(s.txs[t], reply)])
  {
    forall u | u in s.txs && u != t
      ensures Facts(Post(s.db, s.txs[t].cmd, s.txs[t].drawn), s.nextId, s.txs[u])
    {
      HoldersApart(s.locks, s.txs, HeldBy, t, u);
      FactsSurviveCommit(s.db, s.nextId, s.txs[t], s.txs[u]);
    }
  }

  lemma CommittedFacts(db: Database, nextId: int, tx: Tx, acked: bool)
    requires Facts(db, nextId, tx) && tx.pc == Commit
    ensures Facts(Post(db, tx.cmd, tx.drawn), nextId,
                  Ended(tx, if acked then Some(Success(tx.result.value)) else None))
  {
  }

  lemma CommitKeepsInv(start: Database, s: State, t: nat, acked: bool)
    requires Inv(start, s) && CanProceed(s, t) && s.txs[t].failure.None? && s.txs[t].pc == Commit
    ensures Inv(start, CommitTx(s, t, acked))
  {
    var tx := s.txs[t];
    var reply := if acked then Some(Success(tx.result.value)) else None;
    CommitAdmitted(s.db, s.nextId, tx);
    RunSnoc(start, s.log, Moved(tx.cmd, tx.drawn, tx.result.value));
    CommitIdsOk(s.db, s.nextId, tx);
    LocksReleased(s.locks, s.txs, HeldBy, t, Ended(tx, reply));
    CommittedFacts(s.db, s.nextId, tx, acked);
    CommitKeepsFacts(start, s, t, reply);
  }

  lemma ReplayAdmitted(db: Database, nextId: int, tx: Tx)
    requires Facts(db, nextId, tx) && tx.pc == ReplayCommit
    ensures Serve(db, tx.cmd, tx.drawn) == Served(db, Success(tx.result.value))
    ensures RepliesHold(db, Ended(tx, Some(Success(tx.result.value)))) && RepliesHold(db, Ended(tx, None))
  {
  }

  /** A replay commits nothing; its answer is the serial wallet's answer at the moment it commits. */
  lemma ReplayCommitKeepsInv(start: Database, s: State, t: nat, acked: bool)
    requires Inv(start, s) && CanProceed(s, t) && s.txs[t].failure.None? && s.txs[t].pc == ReplayCommit
    ensures Inv(start, CommitTx(s, t, acked))
  {
    var tx := s.txs[t];
    ReplayAdmitted(s.db, s.nextId, tx);
    RunSnoc(start, s.log, Moved(tx.cmd, tx.drawn, tx.result.value));
    FinishKeepsInv(start, s, t, if acked then Some(Success(tx.result.value)) else None);
  }

  lemma FactsSurviveOpen(db: Database, nextId: int, tx: Tx, account: Uuid)
    requires Facts(db, nextId, tx) && account !in db.accounts
    ensures Facts(db.(accounts := db.accounts[account := Customer]), nextId, tx)
  {
    RepliesSurvive(db, db.(accounts := db.accounts[account := Customer]), tx);
  }

  lemma OpenKeepsInv(start: Database, s: State, account: Uuid)
    requires Inv(start, s) && Enabled(s, Open(account))
    ensures Inv(start, Next(s, Open(account)))
  {
    var s' := Next(s, Open(account));
    RunSnoc(start, s.log, Opened(account));
    forall u | u in s'.txs
      ensures Facts(s'.db, s'.nextId, s'.txs[u])
    {
      FactsSurviveOpen(s.db, s.nextId, s.txs[u], account);
    }
  }

  lemma ProceedKeepsInv(start: Database, s: State, t: nat, id: Uuid, eventId: Uuid, acked: bool)
    requires Inv(start, s) && CanProceed(s, t)
    ensures Inv(start, Proceed(s, t, id, eventId, acked))
  {
    var tx := s.txs[t];
    if tx.failure.Some? {
      assert Facts(s.db, s.nextId, tx);
      FinishKeepsInv(start, s, t, Some(Refused(tx.failure.value)));
    } else if tx.pc == Commit {
      CommitKeepsInv(start, s, t, acked);
    } else if tx.pc == ReplayCommit {
      ReplayCommitKeepsInv(start, s, t, acked);
    } else {
      PerformKeepsInv(start, s, t, id, eventId);
    }
  }

  lemma StepKeepsInv(start: Database, s: State, s': State)
    requires Inv(start, s) && Step(s, s')
    ensures Inv(start, s')
  {
    var l :| Enabled(s, l) && s' == Next(s, l);
    match l
    case Begin(t, cmd) => BeginKeepsInv(start, s, t, cmd);
    case Advance(t, id, eventId, acked) => ProceedKeepsInv(start, s, t, id, eventId, acked);
    case Crash(t) =>
      assert Facts(s.db, s.nextId, s.txs[t]);
      FinishKeepsInv(start, s, t, None);
    case Open(account) => OpenKeepsInv(start, s, account);
  }

  /** The invariant holds in every state of every run. */
  lemma {:induction false} RunKeepsInv(trace: seq<State>, n: nat)
    requires IsRun(trace) && n < |trace|
    ensures Inv(trace[0].db, trace[n])
  {
    if n > 0 {
      RunKeepsInv(trace, n - 1);
      StepKeepsInv(trace[0].db, trace[n - 1], trace[n]);
    }
  }
}
