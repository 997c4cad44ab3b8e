/**
 * The serial wallet: one request at a time, each answered from the tables as the previous one left
 * them. It is the reference against which both concurrency strategies are proved.
 */
module Wallet {
  import opened Core
  import opened Int64
  import opened Money
  import opened Ledger

  /** An idempotency key is scoped, never global. */
  datatype Key = Key(scope: string, endpoint: string, key: string)

  datatype Command = Command(key: Key, fingerprint: string, from: Uuid, to: Uuid, amount: Int64)

  datatype Body = EmptyBody | TransferBody(transferId: Uuid)

  datatype Response = Response(status: int, body: Body)

  const STATUS_TRANSFER_CREATED := 201
  const TRANSFER_COMPLETED := "transfer.completed"

  datatype KeyState = InFlight | Completed

  datatype KeyRow = KeyRow(fingerprint: string, state: KeyState, transferId: Uuid, response: Response)

  datatype TransferRow = TransferRow(from: Uuid, to: Uuid, amount: int)

  datatype Payload = Payload(transferId: Uuid, from: Uuid, to: Uuid, amount: int)

  datatype EventRow = EventRow(eventType: string, payload: Payload)

  datatype Database = Database(
    accounts: map<Uuid, AccountKind>,
    transfers: map<Uuid, TransferRow>,
    entries: seq<EntryRow>,
    keys: map<Key, KeyRow>,
    outbox: map<Uuid, EventRow>)

  datatype TransferResult = TransferResult(transferId: Uuid, response: Response, replayed: bool)

  datatype Answer = Success(result: TransferResult) | Refused(error: Error)

  /** Values the request draws while it runs: two random uuids and two sequence numbers. */
  datatype Drawn = Drawn(id: Uuid, debitId: int, creditId: int, eventId: Uuid)

  function Created(id: Uuid): Response {
    Response(STATUS_TRANSFER_CREATED, TransferBody(id))
  }

  predicate Valid(cmd: Command) {
    cmd.amount > 0 && cmd.from != cmd.to
  }

  /** The answer to a request whose key already has a row. */
  function Replay(row: KeyRow, cmd: Command): (answer: Answer) {
    if row.fingerprint != cmd.fingerprint then Refused(KeyReuse)
    else if row.state != Completed then Refused(RequestInFlight)
    else Success(TransferResult(row.transferId, row.response, true))
  }

  function KindOf(db: Database, account: Uuid): Option<AccountKind> {
    if account in db.accounts then Some(db.accounts[account]) else None
  }

  /** What Execute concludes from the two kinds and the balance it read. */
  function Decision(
    fromKind: Option<AccountKind>, toKind: Option<AccountKind>, balance: int, amount: Int64): Result<()>
  {
    if fromKind.None? || toKind.None? then Err(AccountNotFound)
    else if !Fits(balance) then Err(BalanceUnreadable)
    else CanDebit(balance, amount, fromKind.value)
  }

  function Debit(cmd: Command, drawn: Drawn): EntryRow {
    EntryRow(drawn.debitId, drawn.id, cmd.from, 0 - cmd.amount)
  }

  function Credit(cmd: Command, drawn: Drawn): EntryRow {
    EntryRow(drawn.creditId, drawn.id, cmd.to, cmd.amount)
  }

  /** All the rows one successful transfer leaves behind. */
  function Post(db: Database, cmd: Command, drawn: Drawn): Database {
    Database(
      db.accounts,
      db.transfers[drawn.id := TransferRow(cmd.from, cmd.to, cmd.amount)],
      db.entries + [Debit(cmd, drawn), Credit(cmd, drawn)],
      db.keys[cmd.key := KeyRow(cmd.fingerprint, Completed, drawn.id, Created(drawn.id))],
      db.outbox[drawn.eventId := EventRow(TRANSFER_COMPLETED, Payload(drawn.id, cmd.from, cmd.to, cmd.amount))])
  }

  datatype Served = Served(db: Database, answer: Answer)

  /** One request, served alone. */
  function Serve(db: Database, cmd: Command, drawn: Drawn): Served {
    if cmd.amount <= 0 then Served(db, Refused(InvalidAmount))
    else if cmd.from == cmd.to then Served(db, Refused(SameAccount))
    else if cmd.key in db.keys then Served(db, Replay(db.keys[cmd.key], cmd))
    else
      match Decision(KindOf(db, cmd.from), KindOf(db, cmd.to), Balance(db.entries, cmd.from), cmd.amount)
      case Err(e) => Served(db, Refused(e))
      case Ok(_) =>
        if drawn.id in db.transfers || drawn.eventId in db.outbox then Served(db, Refused(DuplicateRow))
        else Served(Post(db, cmd, drawn), Success(TransferResult(drawn.id, Created(drawn.id), false)))
  }

  // ---- Logs of committed work ----

  datatype LogItem =
    | Moved(cmd: Command, drawn: Drawn, result: TransferResult)
    | Opened(account: Uuid)

  predicate Admits(db: Database, item: LogItem) {
    match item
    case Moved(cmd, drawn, result) => Serve(db, cmd, drawn).answer == Success(result)
    case Opened(account) => account !in db.accounts
  }

  function Apply(db: Database, item: LogItem): Database {
    match item
    case Moved(cmd, drawn, _) => Serve(db, cmd, drawn).db
    case Opened(account) => db.(accounts := db.accounts[account := Customer])
  }

  /** The tables after serving the items of a log one at a time. */
  function Run(db: Database, log: seq<LogItem>): Database
    decreases log
  {
    if log == [] then db else Run(Apply(db, log[0]), log[1..])
  }

  /** Every item was admitted, with the answer recorded in it, by the tables it found. */
  predicate Legal(db: Database, log: seq<LogItem>)
    decreases log
  {
    log == [] || (Admits(db, log[0]) && Legal(Apply(db, log[0]), log[1..]))
  }

  lemma {:induction false} RunAppend(db: Database, a: seq<LogItem>, b: seq<LogItem>)
    ensures Run(db, a + b) == Run(Run(db, a), b)
    ensures Legal(db, a + b) <==> Legal(db, a) && Legal(Run(db, a), b)
    decreases a
  {
    if a == [] {
      assert a + b == b;
    } else {
      assert (a + b)[1..] == a[1..] + b;
      RunAppend(Apply(db, a[0]), a[1..], b);
    }
  }

  lemma RunSnoc(db: Database, log: seq<LogItem>, item: LogItem)
    requires Legal(db, log) && Admits(Run(db, log), item)
    ensures Legal(db, log + [item])
    ensures Run(db, log + [item]) == Apply(Run(db, log), item)
  {
    RunAppend(db, log, [item]);
  }

  // ---- Nothing that was committed is ever changed or removed ----

  ghost predicate Extends(db: Database, later: Database) {
    && db.entries <= later.entries
    && (forall a :: a in db.accounts ==> a in later.accounts && later.accounts[a] == db.accounts[a])
    && (forall t :: t in db.transfers ==> t in later.transfers && later.transfers[t] == db.transfers[t])
    && (forall k :: k in db.keys ==> k in later.keys && later.keys[k] == db.keys[k])
    && (forall e :: e in db.outbox ==> e in later.outbox && later.outbox[e] == db.outbox[e])
  }

  lemma ApplyExtends(db: Database, item: LogItem)
    requires Admits(db, item)
    ensures Extends(db, Apply(db, item))
  {
  }

  lemma {:induction false} RunExtends(db: Database, log: seq<LogItem>)
    requires Legal(db, log)
    ensures Extends(db, Run(db, log))
    decreases log
  {
    if log != [] {
      ApplyExtends(db, log[0]);
      RunExtends(Apply(db, log[0]), log[1..]);
    }
  }

  // ---- What holds of the tables after every legal log ----

  predicate Initial(db: Database) {
    db.transfers == map[] && db.entries == [] && db.keys == map[] && db.outbox == map[]
  }

  predicate TwoLegs(legs: seq<EntryRow>, id: Uuid, t: TransferRow) {
    && |legs| == 2
    && legs[0] == EntryRow(legs[0].id, id, t.from, 0 - t.amount)
    && legs[1] == EntryRow(legs[1].id, id, t.to, t.amount)
  }

  /** Each transfer has exactly its debit and its credit, and no entry belongs to anything else. */
  ghost predicate DoubleEntry(db: Database) {
    && (forall id :: id in db.transfers ==> TwoLegs(OfTransfer(db.entries, id), id, db.transfers[id]))
    && (forall e :: e in db.entries ==> e.transfer in db.transfers && e.account in db.accounts)
    && Total(db.entries) == 0
  }

  ghost predicate TransfersSound(db: Database) {
    forall id :: id in db.transfers ==>
                   var t := db.transfers[id];
                   t.from in db.accounts && t.to in db.accounts && t.from != t.to && t.amount > 0
  }

  ghost predicate NoOverdraft(db: Database) {
    forall a :: a in db.accounts && db.accounts[a].Customer? ==> Balance(db.entries, a) >= 0
  }

  /** Committed keys and transfers are in one-to-one correspondence, and no committed key is in flight. */
  ghost predicate KeysMatch(db: Database) {
    && (forall k :: k in db.keys ==>
                      && db.keys[k].state == Completed
                      && db.keys[k].transferId in db.transfers
                      && db.keys[k].response == Created(db.keys[k].transferId))
    && (forall k, l :: k in db.keys && l in db.keys && db.keys[k].transferId == db.keys[l].transferId ==> k == l)
    && (forall id :: id in db.transfers ==> exists k :: k in db.keys && db.keys[k].transferId == id)
  }

  /** Every event tells of a transfer, as it was made. */
  ghost predicate EventsTrue(transfers: map<Uuid, TransferRow>, outbox: map<Uuid, EventRow>) {
    forall e :: e in outbox ==>
                  var p := outbox[e].payload;
                  && outbox[e].eventType == TRANSFER_COMPLETED
                  && p.transferId in transfers && transfers[p.transferId] == TransferRow(p.from, p.to, p.amount)
  }

  ghost predicate EventsUnique(outbox: map<Uuid, EventRow>) {
    forall e, f :: e in outbox && f in outbox && outbox[e].payload.transferId == outbox[f].payload.transferId ==> e == f
  }

  ghost predicate EventsComplete(transfers: map<Uuid, TransferRow>, outbox: map<Uuid, EventRow>) {
    forall id :: id in transfers ==> exists e :: e in outbox && outbox[e].payload.transferId == id
  }

  /** Outbox events and transfers are in one-to-one correspondence, with matching payloads. */
  ghost predicate EventsMatch(db: Database) {
    && EventsTrue(db.transfers, db.outbox) && EventsUnique(db.outbox)
    && EventsComplete(db.transfers, db.outbox)
  }

  ghost predicate Sound(db: Database) {
    DoubleEntry(db) && TransfersSound(db) && NoOverdraft(db) && KeysMatch(db) && EventsMatch(db)
  }

  lemma PostLegs(db: Database, cmd: Command, drawn: Drawn, id: Uuid)
    requires DoubleEntry(db) && drawn.id !in db.transfers && id in Post(db, cmd, drawn).transfers
    ensures TwoLegs(OfTransfer(Post(db, cmd, drawn).entries, id), id, Post(db, cmd, drawn).transfers[id])
  {
    SnocTwo(db.entries, Debit(cmd, drawn), Credit(cmd, drawn));
    if id == drawn.id {
      OfTransferEmpty(db.entries, id);
      assert OfTransfer(Post(db, cmd, drawn).entries, id) == [Debit(cmd, drawn), Credit(cmd, drawn)];
    } else {
      assert OfTransfer(Post(db, cmd, drawn).entries, id) == OfTransfer(db.entries, id);
    }
  }

  lemma PostDoubleEntry(db: Database, cmd: Command, drawn: Drawn)
    requires DoubleEntry(db) && drawn.id !in db.transfers
    requires cmd.from in db.accounts && cmd.to in db.accounts
    ensures DoubleEntry(Post(db, cmd, drawn))
  {
    var db' := Post(db, cmd, drawn);
    assert Total(db'.entries) == Total(db.entries) by {
      SnocTwo(db.entries, Debit(cmd, drawn), Credit(cmd, drawn));
    }
    forall id | id in db'.transfers
      ensures TwoLegs(OfTransfer(db'.entries, id), id, db'.transfers[id])
    {
      PostLegs(db, cmd, drawn, id);
    }
  }

  lemma PostNoOverdraft(db: Database, cmd: Command, drawn: Drawn)
    requires NoOverdraft(db) && Valid(cmd)
    requires Decision(KindOf(db, cmd.from), KindOf(db, cmd.to), Balance(db.entries, cmd.from), cmd.amount).Ok?
    ensures NoOverdraft(Post(db, cmd, drawn))
  {
    SnocTwo(db.entries, Debit(cmd, drawn), Credit(cmd, drawn));
  }

  lemma PostKeysMatch(db: Database, cmd: Command, drawn: Drawn)
    requires KeysMatch(db) && cmd.key !in db.keys && drawn.id !in db.transfers
    ensures KeysMatch(Post(db, cmd, drawn))
  {
    var db' := Post(db, cmd, drawn);
    forall id | id in db'.transfers
      ensures exists k :: k in db'.keys && db'.keys[k].transferId == id
    {
      if id == drawn.id {
        assert cmd.key in db'.keys && db'.keys[cmd.key].transferId == id;
      } else {
        var k :| k in db.keys && db.keys[k].transferId == id;
        assert k in db'.keys && db'.keys[k].transferId == id;
      }
    }
  }

  lemma EventsStayTrue(
    transfers: map<Uuid, TransferRow>, outbox: map<Uuid, EventRow>,
    id: Uuid, t: TransferRow, eventId: Uuid, row: EventRow)
    requires EventsTrue(transfers, outbox) && EventsUnique(outbox)
    requires id !in transfers && eventId !in outbox && row.eventType == TRANSFER_COMPLETED
    requires row.payload == Payload(id, t.from, t.to, t.amount)
    ensures EventsTrue(transfers[id := t], outbox[eventId := row]) && EventsUnique(outbox[eventId := row])
  {
    assert forall e :: e in outbox ==> outbox[e].payload.transferId != id;
  }

  lemma EventsStayComplete(
    transfers: map<Uuid, TransferRow>, outbox: map<Uuid, EventRow>,
    id: Uuid, t: TransferRow, eventId: Uuid, row: EventRow)
    requires EventsComplete(transfers, outbox) && eventId !in outbox && row.payload.transferId == id
    ensures EventsComplete(transfers[id := t], outbox[eventId := row])
  {
    var transfers', outbox' := transfers[id := t], outbox[eventId := row];
    forall x | x in transfers'
      ensures exists e :: e in outbox' && outbox'[e].payload.transferId == x
    {
      if x == id {
        assert outbox'[eventId].payload.transferId == x;
      } else {
        var e :| e in outbox && outbox[e].payload.transferId == x;
        assert outbox'[e].payload.transferId == x;
      }
    }
  }

  lemma PostEventsMatch(db: Database, cmd: Command, drawn: Drawn)
    requires EventsMatch(db) && drawn.eventId !in db.outbox && drawn.id !in db.transfers
    ensures EventsMatch(Post(db, cmd, drawn))
  {
    var t, row := Post(db, cmd, drawn).transfers[drawn.id], Post(db, cmd, drawn).outbox[drawn.eventId];
    EventsStayTrue(db.transfers, db.outbox, drawn.id, t, drawn.eventId, row);
    EventsStayComplete(db.transfers, db.outbox, drawn.id, t, drawn.eventId, row);
  }

  /** An account that is not there yet has no entries, so opening it starts it at zero. */
  lemma {:induction false} UnmentionedBalance(entries: seq<EntryRow>, a: Uuid)
    requires forall e :: e in entries ==> e.account != a
    ensures Balance(entries, a) == 0
  {
    if entries != [] {
      UnmentionedBalance(entries[..|entries| - 1], a);
    }
  }

  lemma ApplySound(db: Database, item: LogItem)
    requires Sound(db) && Admits(db, item)
    ensures Sound(Apply(db, item))
  {
    match item {
      case Moved(cmd, drawn, result) =>
        if cmd.key !in db.keys {
          PostDoubleEntry(db, cmd, drawn);
          PostNoOverdraft(db, cmd, drawn);
          PostKeysMatch(db, cmd, drawn);
          PostEventsMatch(db, cmd, drawn);
        }
      case Opened(account) =>
        UnmentionedBalance(db.entries, account);
    }
  }

  lemma {:induction false} RunSound(db: Database, log: seq<LogItem>)
    requires Sound(db) && Legal(db, log)
    ensures Sound(Run(db, log))
    decreases log
  {
    if log != [] {
      ApplySound(db, log[0]);
      RunSound(Apply(db, log[0]), log[1..]);
    }
  }

  lemma InitialSound(db: Database)
    requires Initial(db)
    ensures Sound(db)
  {
  }

  /** All balances sum to zero; with a single system account, customers hold exactly what it owes. */
  lemma Conservation(db: Database)
    requires Sound(db)
    ensures SumBalances(db.accounts.Keys, db.entries) == 0
    ensures forall system :: system in db.accounts ==>
              SumBalances(db.accounts.Keys - {system}, db.entries) == -Balance(db.entries, system)
  {
    SumIsTotal(db.accounts.Keys, db.entries);
    forall system | system in db.accounts
      ensures SumBalances(db.accounts.Keys - {system}, db.entries) == -Balance(db.entries, system)
    {
      SumPick(db.accounts.Keys, system, db.entries);
    }
  }

  /** An error the wallet can really answer with. */
  predicate Genuine(e: Error) {
    e !in {MoneyOverflow, RequestInFlight, KeyMissing}
  }

  /** A sound wallet never answers with an overflow, an in-flight key or a missing row. */
  lemma RefusalsAreGenuine(db: Database, cmd: Command, drawn: Drawn)
    requires Sound(db) && Serve(db, cmd, drawn).answer.Refused?
    ensures Serve(db, cmd, drawn).db == db
    ensures Genuine(Serve(db, cmd, drawn).answer.error)
  {
  }

  // ---- Exactly once per key ----

  /** The row a key has once some request for it has been answered with `result`. */
  predicate RowAnswers(row: KeyRow, cmd: Command, result: TransferResult) {
    && row.fingerprint == cmd.fingerprint
    && row.state == Completed
    && row.transferId == result.transferId
    && row.response == result.response
  }

  lemma {:induction false} AnswerIsKept(db: Database, log: seq<LogItem>, i: nat)
    requires Legal(db, log) && i < |log| && log[i].Moved?
    ensures log[i].cmd.key in Run(db, log).keys
    ensures RowAnswers(Run(db, log).keys[log[i].cmd.key], log[i].cmd, log[i].result)
    decreases log
  {
    var next := Apply(db, log[0]);
    if i == 0 {
      RunExtends(next, log[1..]);
    } else {
      AnswerIsKept(next, log[1..], i - 1);
    }
  }

  /**
   * Any two answered requests for one key got the same transfer and the same response and carried the
   * same fingerprint, and at most one of them moved money.
   */
  lemma ExactlyOncePerKey(db: Database, log: seq<LogItem>, i: nat, j: nat)
    requires Legal(db, log) && i < j < |log| && log[i].Moved? && log[j].Moved?
    requires log[i].cmd.key == log[j].cmd.key
    ensures log[i].result.transferId == log[j].result.transferId
    ensures log[i].result.response == log[j].result.response
    ensures log[i].cmd.fingerprint == log[j].cmd.fingerprint
    ensures log[j].result.replayed
  {
    AnswerIsKept(db, log, i);
    AnswerIsKept(db, log, j);
    LaterIsReplay(db, log, i, j);
  }

  lemma {:induction false} LaterIsReplay(db: Database, log: seq<LogItem>, i: nat, j: nat)
    requires Legal(db, log) && i < j < |log| && log[i].Moved? && log[j].Moved?
    requires log[i].cmd.key == log[j].cmd.key
    ensures log[j].result.replayed
  {
    assert log == log[..j] + log[j..];
    RunAppend(db, log[..j], log[j..]);
    AnswerIsKept(db, log[..j], i);
  }

  // ---- Tables that differ only in the order of independent rows ----

  ghost predicate SameTables(a: Database, b: Database) {
    && a.accounts == b.accounts && a.transfers == b.transfers && a.keys == b.keys && a.outbox == b.outbox
    && SameRows(a.entries, b.entries)
  }

  lemma SameTablesSound(a: Database, b: Database)
    requires SameTables(a, b) && Sound(a)
    ensures Sound(b)
  {
    forall e | e in b.entries
      ensures e in a.entries
    {
      assert e in multiset(b.entries);
      assert e in multiset(a.entries);
    }
  }

  lemma PostAlike(a: Database, b: Database, cmd: Command, drawn: Drawn)
    requires SameTables(a, b)
    ensures SameTables(Post(a, cmd, drawn), Post(b, cmd, drawn))
  {
    SnocTwo(a.entries, Debit(cmd, drawn), Credit(cmd, drawn));
    SnocTwo(b.entries, Debit(cmd, drawn), Credit(cmd, drawn));
  }

  lemma SameTablesServeAlike(a: Database, b: Database, cmd: Command, drawn: Drawn)
    requires SameTables(a, b)
    ensures Serve(a, cmd, drawn).answer == Serve(b, cmd, drawn).answer
    ensures SameTables(Serve(a, cmd, drawn).db, Serve(b, cmd, drawn).db)
  {
    PostAlike(a, b, cmd, drawn);
    assert Balance(a.entries, cmd.from) == Balance(b.entries, cmd.from);
  }

  lemma SameTablesApplyAlike(a: Database, b: Database, item: LogItem)
    requires SameTables(a, b) && Admits(a, item)
    ensures Admits(b, item) && SameTables(Apply(a, item), Apply(b, item))
  {
    if item.Moved? {
      SameTablesServeAlike(a, b, item.cmd, item.drawn);
    }
  }

  /** What `item` looks at that a transfer of `cmd` would change. */
  predicate Undisturbed(item: LogItem, cmd: Command) {
    item.Moved? ==> item.cmd.key != cmd.key && item.cmd.from != cmd.from && item.cmd.from != cmd.to
  }

  /** The answer to `other` is the same before and after a transfer it does not look at. */
  lemma PostUnnoticed(db: Database, cmd: Command, drawn: Drawn, other: Command, drawn': Drawn)
    requires other.key != cmd.key && other.from != cmd.from && other.from != cmd.to
    requires other.key in db.keys || (drawn.id != drawn'.id && drawn.eventId != drawn'.eventId)
    ensures Serve(Post(db, cmd, drawn), other, drawn').answer == Serve(db, other, drawn').answer
  {
    SnocTwo(db.entries, Debit(cmd, drawn), Credit(cmd, drawn));
  }

  lemma CommuteMove(db: Database, cmd: Command, drawn: Drawn, other: Command, drawn': Drawn)
    requires other.key != cmd.key && other.from != cmd.from && other.from != cmd.to && other.key !in db.keys
    requires Serve(db, other, drawn').answer.Success?
    requires drawn.id !in Serve(db, other, drawn').db.transfers && drawn.eventId !in Serve(db, other, drawn').db.outbox
    ensures Serve(Post(db, cmd, drawn), other, drawn').answer == Serve(db, other, drawn').answer
    ensures SameTables(Serve(Post(db, cmd, drawn), other, drawn').db, Post(Serve(db, other, drawn').db, cmd, drawn))
  {
    assert Serve(db, other, drawn').db == Post(db, other, drawn');
    assert drawn.id != drawn'.id && drawn.eventId != drawn'.eventId;
    PostUnnoticed(db, cmd, drawn, other, drawn');
    assert Serve(Post(db, cmd, drawn), other, drawn').db == Post(Post(db, cmd, drawn), other, drawn');
    PostsCommute(db, cmd, drawn, other, drawn');
  }

  lemma CommuteOpen(db: Database, cmd: Command, drawn: Drawn, account: Uuid)
    requires account !in db.accounts
    ensures Apply(Post(db, cmd, drawn), Opened(account)) == Post(Apply(db, Opened(account)), cmd, drawn)
  {
  }

  /** A transfer and an item that looks at nothing the transfer changes can be served in either order. */
  lemma Commute(db: Database, cmd: Command, drawn: Drawn, item: LogItem)
    requires Admits(db, item) && Undisturbed(item, cmd)
    requires drawn.id !in Apply(db, item).transfers && drawn.eventId !in Apply(db, item).outbox
    ensures Admits(Post(db, cmd, drawn), item)
    ensures SameTables(Apply(Post(db, cmd, drawn), item), Post(Apply(db, item), cmd, drawn))
  {
    match item
    case Opened(account) =>
      CommuteOpen(db, cmd, drawn, account);
    case Moved(other, drawn', result) =>
      if other.key in db.keys {
        PostUnnoticed(db, cmd, drawn, other, drawn');
      } else {
        CommuteMove(db, cmd, drawn, other, drawn');
      }
  }

  lemma UpdatesCommute<K, V>(m: map<K, V>, k: K, v: V, k': K, v': V)
    requires k != k'
    ensures m[k := v][k' := v'] == m[k' := v'][k := v]
  {
  }

  lemma PostsCommute(db: Database, cmd: Command, drawn: Drawn, cmd': Command, drawn': Drawn)
    requires cmd.key != cmd'.key && drawn.id != drawn'.id && drawn.eventId != drawn'.eventId
    ensures SameTables(Post(Post(db, cmd, drawn), cmd', drawn'), Post(Post(db, cmd', drawn'), cmd, drawn))
  {
    var one, two := Post(db, cmd, drawn), Post(db, cmd', drawn');
    UpdatesCommute(db.transfers, drawn.id, one.transfers[drawn.id], drawn'.id, two.transfers[drawn'.id]);
    UpdatesCommute(db.keys, cmd.key, one.keys[cmd.key], cmd'.key, two.keys[cmd'.key]);
    UpdatesCommute(db.outbox, drawn.eventId, one.outbox[drawn.eventId], drawn'.eventId, two.outbox[drawn'.eventId]);
    RowsCommute(db.entries, Debit(cmd, drawn), Credit(cmd, drawn), Debit(cmd', drawn'), Credit(cmd', drawn'));
  }

  lemma {:induction false} RunAlike(a: Database, b: Database, log: seq<LogItem>)
    requires SameTables(a, b) && Legal(a, log)
    ensures Legal(b, log) && SameTables(Run(a, log), Run(b, log))
    decreases log
  {
    if log != [] {
      SameTablesApplyAlike(a, b, log[0]);
      RunAlike(Apply(a, log[0]), Apply(b, log[0]), log[1..]);
    }
  }

  lemma SameTablesTransitive(a: Database, b: Database, c: Database)
    requires SameTables(a, b) && SameTables(b, c)
    ensures SameTables(a, c)
  {
  }

  /**
   * A transfer may be served before a stretch of work that looks at nothing it changes: everyone gets
   * the same answers, and the tables end up as if it had come last.
   */
  lemma {:induction false} PostEarlier(db: Database, cmd: Command, drawn: Drawn, rest: seq<LogItem>)
    requires Legal(db, rest) && forall i :: 0 <= i < |rest| ==> Undisturbed(rest[i], cmd)
    requires cmd.key !in Run(db, rest).keys
    requires drawn.id !in Run(db, rest).transfers && drawn.eventId !in Run(db, rest).outbox
    ensures Legal(Post(db, cmd, drawn), rest)
    ensures SameTables(Run(Post(db, cmd, drawn), rest), Post(Run(db, rest), cmd, drawn))
    decreases rest
  {
    if rest != [] {
      var db' := Apply(db, rest[0]);
      RunExtends(db, rest);
      RunExtends(db', rest[1..]);
      Commute(db, cmd, drawn, rest[0]);
      PostEarlier(db', cmd, drawn, rest[1..]);
      RunAlike(Post(db', cmd, drawn), Apply(Post(db, cmd, drawn), rest[0]), rest[1..]);
    }
  }

  lemma SplitRun(start: Database, log: seq<LogItem>, p: nat)
    requires Legal(start, log) && p <= |log|
    ensures Legal(start, log[..p]) && Legal(Run(start, log[..p]), log[p..])
    ensures Run(start, log) == Run(Run(start, log[..p]), log[p..])
  {
    assert log == log[..p] + log[p..];
    RunAppend(start, log[..p], log[p..]);
  }

  /** The same, for a transfer placed at position p of a legal log. */
  lemma InsertTransferAt(start: Database, log: seq<LogItem>, p: nat, cmd: Command, drawn: Drawn, result: TransferResult)
    requires Legal(start, log) && p <= |log|
    requires forall i :: p <= i < |log| ==> Undisturbed(log[i], cmd)
    requires Serve(Run(start, log[..p]), cmd, drawn) == Served(Post(Run(start, log[..p]), cmd, drawn), Success(result))
    requires cmd.key !in Run(start, log).keys
    requires drawn.id !in Run(start, log).transfers && drawn.eventId !in Run(start, log).outbox
    ensures Legal(start, log[..p] + [Moved(cmd, drawn, result)] + log[p..])
    ensures SameTables(Run(start, log[..p] + [Moved(cmd, drawn, result)] + log[p..]), Post(Run(start, log), cmd, drawn))
  {
    var prefix, item := log[..p], Moved(cmd, drawn, result);
    SplitRun(start, log, p);
    PostEarlier(Run(start, prefix), cmd, drawn, log[p..]);
    RunSnoc(start, prefix, item);
    RunAppend(start, prefix + [item], log[p..]);
  }

  /** A replay changes nothing, so it can be placed wherever its answer is right. */
  lemma InsertReplayAt(start: Database, log: seq<LogItem>, p: nat, cmd: Command, drawn: Drawn, result: TransferResult)
    requires Legal(start, log) && p <= |log|
    requires Serve(Run(start, log[..p]), cmd, drawn) == Served(Run(start, log[..p]), Success(result))
    ensures Legal(start, log[..p] + [Moved(cmd, drawn, result)] + log[p..])
    ensures Run(start, log[..p] + [Moved(cmd, drawn, result)] + log[p..]) == Run(start, log)
  {
    var prefix, item := log[..p], Moved(cmd, drawn, result);
    SplitRun(start, log, p);
    RunSnoc(start, prefix, item);
    RunAppend(start, prefix + [item], log[p..]);
  }
}
