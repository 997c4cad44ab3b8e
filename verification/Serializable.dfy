/**
 * The serializable strategy as a state machine: no row locks on accounts; every attempt reads from
 * its own snapshot, and the database decides at commit whether the attempt may stand.
 *
 * What is assumed of the database: reads come from one snapshot of the committed tables; an insert
 * into a unique index waits for a rival still in progress, fails on a committed duplicate, and for
 * ON CONFLICT DO NOTHING raises a serialization failure when the duplicate is newer than the
 * snapshot; and an attempt commits only where it fits into a serial order, that is, at a position
 * where what it read is what the work before it wrote, and where nothing placed after it read what
 * it writes. Reads that are still current at commit are the special case of the last position.
 */
module Serializable {
  import opened Core
  import opened Money
  import opened Ledger
  import opened RowLocks
  import opened Wallet

  datatype Resource = KeyEntry(key: Key) | TransferEntry(transfer: Uuid) | EventEntry(event: Uuid)

  datatype Pc =
    | Claim | Load | ReplayCommit
    | Read | Decide | InsertTransfer | InsertDebit | InsertCredit | AppendEvent | CompleteKey | Commit
    | Done

  /** One attempt. */
  datatype Tx = Tx(
    cmd: Command, pc: Pc, failure: Option<Error>, held: set<Resource>, drawn: Drawn, snap: Database,
    fromKind: Option<AccountKind>, toKind: Option<AccountKind>, balance: int,
    result: Option<TransferResult>, reply: Option<Answer>)

  /** `order` lists committed work in the serial order the database settled on. */
  datatype State = State(
    start: Database, db: Database, nextId: int, locks: map<Resource, nat>, txs: map<nat, Tx>, order: seq<LogItem>)

  predicate Init(s: State) {
    && Initial(s.start) && s.db == s.start && s.nextId == 1
    && s.locks == map[] && s.txs == map[] && s.order == []
  }

  function HeldBy(tx: Tx): set<Resource> {
    tx.held
  }

  // ---- Statements ----

  function Need(tx: Tx): Option<Resource> {
    if tx.failure.Some? then None else
    match tx.pc
    case Claim => Some(KeyEntry(tx.cmd.key))
    case InsertTransfer => Some(TransferEntry(tx.drawn.id))
    case AppendEvent => Some(EventEntry(tx.drawn.eventId))
    case _ => None
  }

  function Fails(tx: Tx, e: Error): Effect<Tx, Resource> {
    Quiet(tx.(failure := Some(e)))
  }

  function Takes(tx: Tx, r: Resource): Effect<Tx, Resource> {
    Effect(tx.(held := tx.held + {r}), Some(r), false)
  }

  function ClaimKey(db: Database, tx: Tx, id: Uuid): Effect<Tx, Resource> {
    if tx.cmd.key in tx.snap.keys then Quiet(tx.(pc := Load))
    else if tx.cmd.key in db.keys then Fails(tx, SerializationFailure)
    else Takes(tx.(pc := Read, drawn := tx.drawn.(id := id)), KeyEntry(tx.cmd.key))
  }

  function LoadKey(tx: Tx): Effect<Tx, Resource> {
    if tx.cmd.key !in tx.snap.keys then Fails(tx, KeyMissing)
    else
      match Replay(tx.snap.keys[tx.cmd.key], tx.cmd)
      case Refused(e) => Fails(tx, e)
      case Success(r) => Quiet(tx.(pc := ReplayCommit, result := Some(r)))
  }

  /** Both kinds and the source balance, all from the snapshot. */
  function ReadSnapshot(tx: Tx): Effect<Tx, Resource> {
    Quiet(tx.(pc := Decide, fromKind := KindOf(tx.snap, tx.cmd.from), toKind := KindOf(tx.snap, tx.cmd.to),
              balance := Balance(tx.snap.entries, tx.cmd.from)))
  }

  function DecideDebit(tx: Tx): Effect<Tx, Resource> {
    match Decision(tx.fromKind, tx.toKind, tx.balance, tx.cmd.amount)
    case Err(e) => Fails(tx, e)
    case Ok(_) => Quiet(tx.(pc := InsertTransfer))
  }

  function AddTransfer(db: Database, tx: Tx): Effect<Tx, Resource> {
    if tx.drawn.id in db.transfers then Fails(tx, DuplicateRow)
    else Takes(tx.(pc := InsertDebit), TransferEntry(tx.drawn.id))
  }

  function AddDebit(tx: Tx, nextId: int): Effect<Tx, Resource> {
    Effect(tx.(pc := InsertCredit, drawn := tx.drawn.(debitId := nextId)), None, true)
  }

  function AddCredit(tx: Tx, nextId: int, eventId: Uuid): Effect<Tx, Resource> {
    Effect(tx.(pc := AppendEvent, drawn := tx.drawn.(creditId := nextId, eventId := eventId)), None, true)
  }

  function AddEvent(db: Database, tx: Tx): Effect<Tx, Resource> {
    if tx.drawn.eventId in db.outbox then Fails(tx, DuplicateRow)
    else Takes(tx.(pc := CompleteKey), EventEntry(tx.drawn.eventId))
  }

  function Complete(tx: Tx): Effect<Tx, Resource> {
    Quiet(tx.(pc := Commit, result := Some(TransferResult(tx.drawn.id, Created(tx.drawn.id), false))))
  }

  function Statement(db: Database, nextId: int, tx: Tx, id: Uuid, eventId: Uuid): Effect<Tx, Resource> {
    match tx.pc
    case Claim => ClaimKey(db, tx, id)
    case Load => LoadKey(tx)
    case Read => ReadSnapshot(tx)
    case Decide => DecideDebit(tx)
    case InsertTransfer => AddTransfer(db, tx)
    case InsertDebit => AddDebit(tx, nextId)
    case InsertCredit => AddCredit(tx, nextId, eventId)
    case AppendEvent => AddEvent(db, tx)
    case CompleteKey => Complete(tx)
    case _ => Quiet(tx)
  }

  function Perform(s: State, t: nat, e: Effect<Tx, Resource>): State {
    s.(txs := s.txs[t := e.tx],
       locks := if e.took.Some? then s.locks[e.took.value := t] else s.locks,
       nextId := s.nextId + if e.drew then 1 else 0)
  }

  function Ended(tx: Tx, reply: Option<Answer>): Tx {
    tx.(pc := Done, failure := None, held := {}, reply := reply)
  }

  function Finish(s: State, t: nat, reply: Option<Answer>): State
    requires t in s.txs
  {
    s.(txs := s.txs[t := Ended(s.txs[t], reply)],
       locks := map r | r in s.locks && s.locks[r] != t :: s.locks[r])
  }

  /** A new attempt starts from a fresh snapshot of what is committed now. */
  function StartTx(db: Database, cmd: Command): Tx {
    var idle := Tx(cmd, Claim, None, {}, Drawn(Uuid([]), 0, 0, Uuid([])), db, None, None, 0, None, None);
    if cmd.amount <= 0 then idle.(pc := Done, reply := Some(Refused(InvalidAmount)))
    else if cmd.from == cmd.to then idle.(pc := Done, reply := Some(Refused(SameAccount)))
    else idle
  }

  // ---- The commit rule ----

  /** What the attempt read is what `prefix` holds. */
  predicate ReadsAgree(tx: Tx, prefix: Database)
    requires tx.result.Some?
  {
    if tx.pc == ReplayCommit then
      tx.cmd.key in prefix.keys && Replay(prefix.keys[tx.cmd.key], tx.cmd) == Success(tx.result.value)
    else
      && tx.cmd.key !in prefix.keys
      && KindOf(prefix, tx.cmd.from) == tx.fromKind && KindOf(prefix, tx.cmd.to) == tx.toKind
      && Balance(prefix.entries, tx.cmd.from) == tx.balance
  }

  predicate Serializes(start: Database, order: seq<LogItem>, tx: Tx, p: nat)
    requires tx.result.Some?
  {
    && p <= |order|
    && ReadsAgree(tx, Run(start, order[..p]))
    && (tx.pc == Commit ==> forall i :: p <= i < |order| ==> Undisturbed(order[i], tx.cmd))
  }

  predicate Committing(tx: Tx) {
    tx.failure.None? && (tx.pc == Commit || tx.pc == ReplayCommit)
  }

  function CommitTx(s: State, t: nat, p: nat, acked: bool): State
    requires t in s.txs && s.txs[t].result.Some? && p <= |s.order|
  {
    var tx := s.txs[t];
    var db' := if tx.pc == Commit then Post(s.db, tx.cmd, tx.drawn) else s.db;
    Finish(s, t, if acked then Some(Success(tx.result.value)) else None)
    .(db := db', order := s.order[..p] + [Moved(tx.cmd, tx.drawn, tx.result.value)] + s.order[p..])
  }

  datatype Label =
    | Begin(t: nat, cmd: Command)
    | Advance(t: nat, id: Uuid, eventId: Uuid)
    | CommitAt(t: nat, position: nat, acked: bool)
    | Abort(t: nat)  // crash, rollback or a serialization failure raised by the database
    | Open(account: Uuid)

  predicate Live(s: State, t: nat) {
    t in s.txs && !s.txs[t].pc.Done?
  }

  predicate Enabled(s: State, l: Label) {
    match l
    case Begin(t, _) => t !in s.txs
    case Advance(t, _, _) =>
      && Live(s, t) && !Committing(s.txs[t])
      && (Need(s.txs[t]).Some? && Need(s.txs[t]).value in s.locks ==> s.locks[Need(s.txs[t]).value] == t)
    case CommitAt(t, p, _) =>
      Live(s, t) && Committing(s.txs[t]) && s.txs[t].result.Some? && Serializes(s.start, s.order, s.txs[t], p)
    case Abort(t) => Live(s, t)
    case Open(account) => account !in s.db.accounts
  }

  function Next(s: State, l: Label): State
    requires Enabled(s, l)
  {
    match l
    case Begin(t, cmd) => s.(txs := s.txs[t := StartTx(s.db, cmd)])
    case Advance(t, id, eventId) =>
      if s.txs[t].failure.Some? then Finish(s, t, Some(Refused(s.txs[t].failure.value)))
      else Perform(s, t, Statement(s.db, s.nextId, s.txs[t], id, eventId))
    case CommitAt(t, p, acked) => CommitTx(s, t, p, acked)
    case Abort(t) => Finish(s, t, Some(Refused(SerializationFailure)))
    case Open(account) =>
      s.(db := s.db.(accounts := s.db.accounts[account := Customer]), order := s.order + [Opened(account)])
  }

  ghost predicate Step(s: State, s': State) {
    exists l :: Enabled(s, l) && s' == Next(s, l)
  }

  ghost predicate IsRun(trace: seq<State>) {
    && |trace| > 0 && Init(trace[0])
    && forall i, j :: 0 <= i < |trace| && j == i + 1 < |trace| ==> Step(trace[i], trace[j])
  }
}
