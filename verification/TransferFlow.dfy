/**
 * The idempotent transfer flow as written: claim the key, then replay, or execute, append the event
 * and complete the key, all inside one transaction. Run without rivals it answers and writes exactly
 * what the serial wallet does, and every fault on the way leaves the tables as they were.
 */
module TransferFlow {
  import opened Core
  import opened Int64
  import opened Money
  import opened Ledger
  import opened Wallet
  import opened Uuids

  datatype Request = Request(id: Uuid, from: Uuid, to: Uuid, amount: Int64)

  function InFlightRow(fingerprint: string): KeyRow {
    KeyRow(fingerprint, InFlight, Uuid([]), Response(0, EmptyBody))
  }

  /** The tables with a transfer row and its two entries added. */
  function WithTransfer(db: Database, req: Request, debitId: int, creditId: int): Database {
    db.(transfers := db.transfers[req.id := TransferRow(req.from, req.to, req.amount)],
        entries := db.entries + [EntryRow(debitId, req.id, req.from, 0 - req.amount),
                                 EntryRow(creditId, req.id, req.to, req.amount)])
  }

  function Verdict(db: Database, req: Request): Result<()> {
    match Decision(KindOf(db, req.from), KindOf(db, req.to), Balance(db.entries, req.from), req.amount)
    case Err(e) => Err(e)
    case Ok(_) => if req.id in db.transfers then Err(DuplicateRow) else Ok(())
  }

  datatype Strategy = RowLocks | Snapshot

  /** One open transaction: `db` is the tables as it sees them, its own writes included. */
  class OpenTx {
    var db: Database
    var nextId: int

    constructor (db: Database, nextId: int)
      ensures this.db == db && this.nextId == nextId
    {
      this.db := db;
      this.nextId := nextId;
    }

    method ClaimKey(key: Key, fingerprint: string) returns (claimed: bool)
      modifies this`db
      ensures claimed <==> key !in old(db).keys
      ensures db == if claimed then old(db).(keys := old(db).keys[key := InFlightRow(fingerprint)]) else old(db)
    {
      claimed := key !in db.keys;
      if claimed {
        db := db.(keys := db.keys[key := InFlightRow(fingerprint)]);
      }
    }

    method LoadKey(key: Key) returns (r: Result<KeyRow>)
      ensures r == if key in db.keys then Ok(db.keys[key]) else Err(KeyMissing)
    {
      if key !in db.keys {
        return Err(KeyMissing);
      }
      r := Ok(db.keys[key]);
    }

    method CompleteKey(key: Key, transferId: Uuid, resp: Response) returns (r: Result<()>)
      modifies this`db
      ensures r == if key in old(db).keys then Ok(()) else Err(KeyMissing)
      ensures var keys := old(db).keys;
              db == if key !in keys then old(db)
                    else old(db).(keys := keys[key := KeyRow(keys[key].fingerprint, Completed, transferId, resp)])
    {
      if key !in db.keys {
        return Err(KeyMissing);
      }
      db := db.(keys := db.keys[key := KeyRow(db.keys[key].fingerprint, Completed, transferId, resp)]);
      r := Ok(());
    }

    method AppendEvent(eventId: Uuid, eventType: string, payload: Payload) returns (r: Result<()>)
      modifies this`db
      ensures r == if eventId in old(db).outbox then Err(DuplicateRow) else Ok(())
      ensures db == if r.Err? then old(db)
                    else old(db).(outbox := old(db).outbox[eventId := EventRow(eventType, payload)])
    {
      if eventId in db.outbox {
        return Err(DuplicateRow);
      }
      db := db.(outbox := db.outbox[eventId := EventRow(eventType, payload)]);
      r := Ok(());
    }

    /** Reads the kind of each account in turn; the first missing one ends the transfer. */
    method ReadKinds(ids: seq<Uuid>) returns (kinds: map<Uuid, AccountKind>, r: Result<()>)
      ensures r == if forall id :: id in ids ==> id in db.accounts then Ok(()) else Err(AccountNotFound)
      ensures r.Ok? ==> forall id :: id in ids ==> id in kinds && kinds[id] == db.accounts[id]
    {
      kinds := map[];
      for i := 0 to |ids|
        invariant forall id :: id in ids[..i] ==> id in db.accounts && id in kinds && kinds[id] == db.accounts[id]
      {
        if ids[i] !in db.accounts {
          return kinds, Err(AccountNotFound);
        }
        kinds := kinds[ids[i] := db.accounts[ids[i]]];
        assert ids[..i + 1] == ids[..i] + [ids[i]];
      }
      assert ids[..|ids|] == ids;
      r := Ok(());
    }

    /**
     * Moves the money. The two strategies differ in the order they visit the accounts, and in whether
     * they lock them; neither changes what is computed.
     */
    method Execute(req: Request, strategy: Strategy) returns (r: Result<()>)
      modifies this
      ensures r == Verdict(old(db), req)
      ensures r.Err? ==> db == old(db) && nextId == old(nextId)
      ensures r.Ok? ==> nextId == old(nextId) + 2 && db == WithTransfer(old(db), req, old(nextId), old(nextId) + 1)
    {
      var ids := [req.from, req.to];
      if strategy == RowLocks {
        var (low, high) := LockOrder(req.from, req.to);
        ids := [low, high];
      }
      assert forall id :: id in ids <==> id == req.from || id == req.to;
      var kinds, found := ReadKinds(ids);
      if found.Err? {
        return found;
      }
      var balance := Balance(db.entries, req.from);
      if !Fits(balance) {
        return Err(BalanceUnreadable);
      }
      var allowed := CanDebit(balance, req.amount, kinds[req.from]);
      if allowed.Err? {
        return allowed;
      }
      if req.id in db.transfers {
        return Err(DuplicateRow);
      }
      db := db.(transfers := db.transfers[req.id := TransferRow(req.from, req.to, req.amount)]);
      db := db.(entries := db.entries + [EntryRow(nextId, req.id, req.from, 0 - req.amount)]);
      nextId := nextId + 1;
      db := db.(entries := db.entries + [EntryRow(nextId, req.id, req.to, req.amount)]);
      nextId := nextId + 1;
      r := Ok(());
    }
  }

  /** Where the outside world interferes with a request, if anywhere. */
  datatype Fault =
    | NoFault
    | FailAt(statement: Statement)  // the statement fails and nothing of the transaction is kept
    | AckLost                       // the commit takes effect but its acknowledgement is lost

  datatype Statement = BeginTx | Claim | Load | Exec | Append | Complete | Commit

  /** Whether a request comes to a given statement: all before it have gone well. */
  predicate GetsTo(db: Database, cmd: Command, drawn: Drawn, statement: Statement) {
    && Valid(cmd)
    && match statement
       case BeginTx => true
       case Claim => true
       case Load => cmd.key in db.keys
       case Exec => cmd.key !in db.keys
       case Append => cmd.key !in db.keys && Verdict(db, RequestOf(cmd, drawn.id)).Ok?
       case Complete => cmd.key !in db.keys && Serve(db, cmd, drawn).answer.Success?
       case Commit => Serve(db, cmd, drawn).answer.Success?
  }

  function RequestOf(cmd: Command, id: Uuid): Request {
    Request(id, cmd.from, cmd.to, cmd.amount)
  }

  /** Whether the fault strikes a statement the request comes to. */
  predicate Strikes(fault: Fault, db: Database, cmd: Command, drawn: Drawn) {
    fault.FailAt? && GetsTo(db, cmd, drawn, fault.statement)
  }

  /** The body of the transaction: `result` is meaningful when no error is returned. */
  method RunBody(tx: OpenTx, cmd: Command, amount: Int64, id: Uuid, eventId: Uuid, strategy: Strategy, fault: Fault)
    returns (result: TransferResult, err: Option<Error>)
    requires amount == cmd.amount && Valid(cmd)
    modifies tx
    ensures var drawn := Drawn(id, old(tx.nextId), old(tx.nextId) + 1, eventId);
            var served := Serve(old(tx.db), cmd, drawn);
            if fault != FailAt(BeginTx) && fault != FailAt(Commit) && Strikes(fault, old(tx.db), cmd, drawn) then
              err == Some(Infrastructure)
            else if err.None? then Served(tx.db, Success(result)) == served
            else Refused(err.value) == served.answer
    ensures tx.nextId == old(tx.nextId) || tx.nextId == old(tx.nextId) + 2
    ensures err.None? && !result.replayed ==> tx.nextId == old(tx.nextId) + 2
  {
    result := TransferResult(Uuid([]), Response(0, EmptyBody), false);
    if fault == FailAt(Claim) {
      return result, Some(Infrastructure);
    }
    var claimed := tx.ClaimKey(cmd.key, cmd.fingerprint);
    if !claimed {
      if fault == FailAt(Load) {
        return result, Some(Infrastructure);
      }
      result, err := ReplayStored(tx, cmd);
      return;
    }
    if fault == FailAt(Exec) {
      return result, Some(Infrastructure);
    }
    var req := Request(id, cmd.from, cmd.to, amount);
    var executed := tx.Execute(req, strategy);
    if executed.Err? {
      return result, Some(executed.error);
    }
    if fault == FailAt(Append) {
      return result, Some(Infrastructure);
    }
    var appended := tx.AppendEvent(eventId, TRANSFER_COMPLETED, Payload(req.id, req.from, req.to, req.amount));
    if appended.Err? {
      return result, Some(appended.error);
    }
    if fault == FailAt(Complete) {
      return result, Some(Infrastructure);
    }
    var resp := Response(STATUS_TRANSFER_CREATED, TransferBody(req.id));
    var completed := tx.CompleteKey(cmd.key, req.id, resp);
    if completed.Err? {
      return result, Some(completed.error);
    }
    result := TransferResult(req.id, resp, false);
    err := None;
  }

  method ReplayStored(tx: OpenTx, cmd: Command) returns (result: TransferResult, err: Option<Error>)
    ensures cmd.key !in tx.db.keys ==> err == Some(KeyMissing)
    ensures cmd.key in tx.db.keys ==>
              match Replay(tx.db.keys[cmd.key], cmd)
              case Success(r) => result == r && err == None
              case Refused(e) => err == Some(e)
  {
    result := TransferResult(Uuid([]), Response(0, EmptyBody), false);
    var stored := tx.LoadKey(cmd.key);
    if stored.Err? {
      return result, Some(stored.error);
    }
    if stored.value.fingerprint != cmd.fingerprint {
      return result, Some(KeyReuse);
    }
    if stored.value.state != Completed {
      return result, Some(RequestInFlight);
    }
    result := TransferResult(stored.value.transferId, stored.value.response, true);
    err := None;
  }

  /** The service in front of the committed tables. */
  class TransferService {
    var db: Database
    var nextId: int

    constructor (db: Database, nextId: int)
      ensures this.db == db && this.nextId == nextId
    {
      this.db := db;
      this.nextId := nextId;
    }

    /**
     * The whole request. Without a fault it is the serial wallet, and so it is with one that strikes a
     * statement the request never comes to. A statement that fails leaves the tables untouched. A lost
     * acknowledgement is the one case where an error is answered although the work was committed.
     */
    method Transfer(cmd: Command, id: Uuid, eventId: Uuid, fault: Fault) returns (answer: Answer)
      modifies this
      ensures var drawn := Drawn(id, old(nextId), old(nextId) + 1, eventId);
              var served := Serve(old(db), cmd, drawn);
              match fault
              case NoFault => Served(db, answer) == served
              case FailAt(statement) =>
                Served(db, answer) == if !GetsTo(old(db), cmd, drawn, statement) then served
                                      else Served(old(db), Refused(Infrastructure))
              case AckLost =>
                && db == served.db
                && answer == if served.answer.Success? then Refused(Infrastructure) else served.answer
      ensures nextId == old(nextId) || nextId == old(nextId) + 2
      ensures answer.Success? && !answer.result.replayed ==> nextId == old(nextId) + 2
    {
      var amount := NewTransferAmount(cmd.amount);
      if amount.Err? {
        return Refused(amount.error);
      }
      if cmd.from == cmd.to {
        return Refused(SameAccount);
      }
      if fault == FailAt(BeginTx) {
        return Refused(Infrastructure);
      }
      var tx := new OpenTx(db, nextId);
      var result, err := RunBody(tx, cmd, amount.value, id, eventId, RowLocks, fault);
      nextId := tx.nextId;
      if err.Some? {
        return Refused(err.value);
      }
      if fault == FailAt(Commit) {
        return Refused(Infrastructure);
      }
      db := tx.db;
      if fault == AckLost {
        return Refused(Infrastructure);
      }
      answer := Success(result);
    }

    /**
     * Sending a request again after its acknowledgement was lost yields the transfer the first attempt
     * committed, moves no money a second time and leaves the tables as the first attempt left them.
     */
    method TransferThenRetry(cmd: Command, id: Uuid, eventId: Uuid, id': Uuid, eventId': Uuid) returns (answer: Answer)
      modifies this
      ensures var first := Serve(old(db), cmd, Drawn(id, old(nextId), old(nextId) + 1, eventId));
              first.answer.Success? ==>
                && db == first.db
                && answer.Success? && answer.result.replayed
                && answer.result.transferId == first.answer.result.transferId
                && answer.result.response == first.answer.result.response
    {
      ghost var before, next := db, nextId;
      var lost := Transfer(cmd, id, eventId, AckLost);
      ghost var served := Serve(before, cmd, Drawn(id, next, next + 1, eventId));
      answer := Transfer(cmd, id', eventId', NoFault);
      assert served.answer.Success? ==> cmd.key in served.db.keys;
    }
  }
}
