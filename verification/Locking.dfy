/**
 * The locking strategy as a state machine: any number of transfer requests interleave one SQL
 * statement at a time, each in its own READ COMMITTED transaction, and any of them may crash or be
 * rolled back at any point.
 *
 * What is assumed of the database: a statement sees everything committed before it starts; FOR
 * UPDATE and an insert into a unique index wait until the holder of the row ends; sequence numbers
 * are handed out in increasing order and never taken back; commit is atomic.
 */
module Locking {
  import opened Core
  import opened Money
  import opened Ledger
  import opened RowLocks
  import opened Wallet
  import opened Uuids

  /** A row some statement can wait for, listed in the order in which a transaction takes them. */
  datatype Resource =
    | KeyLock(key: Key)
    | AccountLock(account: Uuid)
    | TransferLock(transfer: Uuid)
    | EventLock(event: Uuid)

  /** The statement a transaction executes next. */
  datatype Pc =
    | Claim | Load | ReplayCommit
    | LockLow | LockHigh | ReadBalance | Decide
    | InsertTransfer | InsertDebit | InsertCredit | AppendEvent | CompleteKey | Commit
    | Done

  /**
   * One transaction. `held` are the rows it has to itself until it ends; `low` and `high` are its two
   * accounts in locking order. `failure` is set when the request's code returned an error and only the
   * rollback is left; `result` is the captured variable; `reply` is what the caller gets, if anything.
   */
  datatype Tx = Tx(
    cmd: Command, pc: Pc, failure: Option<Error>, held: set<Resource>, drawn: Drawn,
    low: Uuid, high: Uuid,
    lowKind: Option<AccountKind>, highKind: Option<AccountKind>, balance: int,
    result: Option<TransferResult>, reply: Option<Answer>)

  /** `log` records committed work in commit order. */
  datatype State = State(
    db: Database, nextId: int, locks: map<Resource, nat>, txs: map<nat, Tx>, log: seq<LogItem>)

  predicate Init(s: State) {
    Initial(s.db) && s.nextId == 1 && s.locks == map[] && s.txs == map[] && s.log == []
  }

  function HeldBy(tx: Tx): set<Resource> {
    tx.held
  }

  function FromKind(tx: Tx): Option<AccountKind> {
    if tx.cmd.from == tx.low then tx.lowKind else tx.highKind
  }

  function ToKind(tx: Tx): Option<AccountKind> {
    if tx.cmd.to == tx.low then tx.lowKind else tx.highKind
  }

  // ---- Statements ----

  /** The row the next statement must have to itself. */
  function Need(tx: Tx): Option<Resource> {
    if tx.failure.Some? then None else
    match tx.pc
    case Claim => Some(KeyLock(tx.cmd.key))
    case LockLow => Some(AccountLock(tx.low))
    case LockHigh => Some(AccountLock(tx.high))
    case InsertTransfer => Some(TransferLock(tx.drawn.id))
    case AppendEvent => Some(EventLock(tx.drawn.eventId))
    case _ => None
  }

  predicate Blocked(s: State, t: nat)
    requires t in s.txs
  {
    var need := Need(s.txs[t]);
    need.Some? && need.value in s.locks && s.locks[need.value] != t
  }

  predicate WaitsOn(s: State, t: nat, holder: nat) {
    t in s.txs && !s.txs[t].pc.Done? && Blocked(s, t) && holder == s.locks[Need(s.txs[t]).value]
  }

  function Fails(tx: Tx, e: Error): Effect<Tx, Resource> {
    Quiet(tx.(failure := Some(e)))
  }

  function Takes(tx: Tx, r: Resource): Effect<Tx, Resource> {
    Effect(tx.(held := tx.held + {r}), Some(r), false)
  }

  /** INSERT ... ON CONFLICT DO NOTHING, once no other transaction is claiming the key. */
  function ClaimKey(db: Database, tx: Tx, id: Uuid): Effect<Tx, Resource> {
    if tx.cmd.key in db.keys then Quiet(tx.(pc := Load))
    else Takes(tx.(pc := LockLow, drawn := tx.drawn.(id := id)), KeyLock(tx.cmd.key))
  }

  function LoadKey(db: Database, tx: Tx): Effect<Tx, Resource> {
    if tx.cmd.key !in db.keys then Fails(tx, KeyMissing)
    else
      match Replay(db.keys[tx.cmd.key], tx.cmd)
      case Refused(e) => Fails(tx, e)
      case Success(r) => Quiet(tx.(pc := ReplayCommit, result := Some(r)))
  }

  /** FOR UPDATE on a row that does not exist locks nothing and finds nothing. */
  function LockFirst(db: Database, tx: Tx): Effect<Tx, Resource> {
    var tx' := tx.(pc := LockHigh, lowKind := KindOf(db, tx.low));
    if tx.low in db.accounts then Takes(tx', AccountLock(tx.low)) else Quiet(tx')
  }

  function LockSecond(db: Database, tx: Tx): Effect<Tx, Resource> {
    var tx' := tx.(pc := ReadBalance, highKind := KindOf(db, tx.high));
    if tx.high in db.accounts then Takes(tx', AccountLock(tx.high)) else Quiet(tx')
  }

  function ReadSource(db: Database, tx: Tx): Effect<Tx, Resource> {
    Quiet(tx.(pc := Decide, balance := Balance(db.entries, tx.cmd.from)))
  }

  function DecideDebit(tx: Tx): Effect<Tx, Resource> {
    match Decision(FromKind(tx), ToKind(tx), tx.balance, tx.cmd.amount)
    case Err(e) => Fails(tx, e)
    case Ok(_) => Quiet(tx.(pc := InsertTransfer))
  }

  function AddTransfer(db: Database, tx: Tx): Effect<Tx, Resource> {
    if tx.drawn.id in db.transfers then Fails(tx, DuplicateRow)
    else Takes(tx.(pc := InsertDebit), TransferLock(tx.drawn.id))
  }

  function AddDebit(tx: Tx, nextId: int): Effect<Tx, Resource> {
    Effect(tx.(pc := InsertCredit, drawn := tx.drawn.(debitId := nextId)), None, true)
  }

  function AddCredit(tx: Tx, nextId: int, eventId: Uuid): Effect<Tx, Resource> {
    Effect(tx.(pc := AppendEvent, drawn := tx.drawn.(creditId := nextId, eventId := eventId)), None, true)
  }

  function AddEvent(db: Database, tx: Tx): Effect<Tx, Resource> {
    if tx.drawn.eventId in db.outbox then Fails(tx, DuplicateRow)
    else Takes(tx.(pc := CompleteKey), EventLock(tx.drawn.eventId))
  }

  function Complete(tx: Tx): Effect<Tx, Resource> {
    Quiet(tx.(pc := Commit, result := Some(TransferResult(tx.drawn.id, Created(tx.drawn.id), false))))
  }

  /** The next statement of a transaction that is neither failed nor ready to commit. */
  function Statement(db: Database, nextId: int, tx: Tx, id: Uuid, eventId: Uuid): Effect<Tx, Resource> {
    match tx.pc
    case Claim => ClaimKey(db, tx, id)
    case Load => LoadKey(db, tx)
    case LockLow => LockFirst(db, tx)
    case LockHigh => LockSecond(db, tx)
    case ReadBalance => ReadSource(db, tx)
    case Decide => DecideDebit(tx)
    case InsertTransfer => AddTransfer(db, tx)
    case InsertDebit => AddDebit(tx, nextId)
    case InsertCredit => AddCredit(tx, nextId, eventId)
    case AppendEvent => AddEvent(db, tx)
    case CompleteKey => Complete(tx)
    case _ => Quiet(tx)
  }

  function Perform(s: State, t: nat, e: Effect<Tx, Resource>): State {
    s.(txs := s.txs[t := e.tx],
       locks := if e.took.Some? then s.locks[e.took.value := t] else s.locks,
       nextId := s.nextId + if e.drew then 1 else 0)
  }

  function Ended(tx: Tx, reply: Option<Answer>): Tx {
    tx.(pc := Done, failure := None, held := {}, reply := reply)
  }

  /** Ends a transaction and releases its rows. */
  function Finish(s: State, t: nat, reply: Option<Answer>): State
    requires t in s.txs
  {
    s.(txs := s.txs[t := Ended(s.txs[t], reply)],
       locks := map r | r in s.locks && s.locks[r] != t :: s.locks[r])
  }

  /** The commit takes effect whether or not its acknowledgement reaches the caller. */
  function CommitTx(s: State, t: nat, acked: bool): State
    requires t in s.txs && s.txs[t].result.Some?
  {
    var tx := s.txs[t];
    var db' := if tx.pc == Commit then Post(s.db, tx.cmd, tx.drawn) else s.db;
    Finish(s, t, if acked then Some(Success(tx.result.value)) else None)
    .(db := db', log := s.log + [Moved(tx.cmd, tx.drawn, tx.result.value)])
  }

  function StartTx(cmd: Command): Tx {
    var (low, high) := LockOrder(cmd.from, cmd.to);
    var idle := Tx(cmd, Claim, None, {}, Drawn(Uuid([]), 0, 0, Uuid([])), low, high, None, None, 0, None, None);
    if cmd.amount <= 0 then idle.(pc := Done, reply := Some(Refused(InvalidAmount)))
    else if cmd.from == cmd.to then idle.(pc := Done, reply := Some(Refused(SameAccount)))
    else idle
  }

  predicate Committing(tx: Tx) {
    tx.failure.None? && (tx.pc == Commit || tx.pc == ReplayCommit)
  }

  predicate CanProceed(s: State, t: nat) {
    && t in s.txs && !s.txs[t].pc.Done? && !Blocked(s, t)
    && (Committing(s.txs[t]) ==> s.txs[t].result.Some?)
  }

  /** The next move of transaction t, given the uuids it draws and the fate of its commit's reply. */
  function Proceed(s: State, t: nat, id: Uuid, eventId: Uuid, acked: bool): State
    requires CanProceed(s, t)
  {
    var tx := s.txs[t];
    if tx.failure.Some? then Finish(s, t, Some(Refused(tx.failure.value)))
    else if Committing(tx) then CommitTx(s, t, acked)
    else Perform(s, t, Statement(s.db, s.nextId, tx, id, eventId))
  }

  datatype Label =
    | Begin(t: nat, cmd: Command)
    | Advance(t: nat, id: Uuid, eventId: Uuid, acked: bool)
    | Crash(t: nat)
    | Open(account: Uuid)

  predicate Enabled(s: State, l: Label) {
    match l
    case Begin(t, _) => t !in s.txs
    case Advance(t, _, _, _) => CanProceed(s, t)
    case Crash(t) => t in s.txs && !s.txs[t].pc.Done?
    case Open(account) => account !in s.db.accounts
  }

  function Next(s: State, l: Label): State
    requires Enabled(s, l)
  {
    match l
    case Begin(t, cmd) => s.(txs := s.txs[t := StartTx(cmd)])
    case Advance(t, id, eventId, acked) => Proceed(s, t, id, eventId, acked)
    case Crash(t) => Finish(s, t, None)
    case Open(account) =>
      s.(db := s.db.(accounts := s.db.accounts[account := Customer]), log := s.log + [Opened(account)])
  }

  ghost predicate Step(s: State, s': State) {
    exists l :: Enabled(s, l) && s' == Next(s, l)
  }

  ghost predicate IsRun(trace: seq<State>) {
    && |trace| > 0 && Init(trace[0])
    && forall i, j :: 0 <= i < |trace| && j == i + 1 < |trace| ==> Step(trace[i], trace[j])
  }
}
