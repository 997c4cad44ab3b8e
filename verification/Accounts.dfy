/** Reading a balance: the sum of the account's entries, if it fits the int64 it is scanned into. */
module Accounts {
  import opened Core
  import opened Int64
  import opened Money
  import opened Ledger
  import opened Wallet

  /** The derived balance of an account. In a sound wallet a customer never reads a negative one. */
  method ReadBalance(db: Database, account: Uuid) returns (r: Result<Int64>)
    ensures account !in db.accounts ==> r == Err(AccountNotFound)
    ensures account in db.accounts ==>
              var sum := Balance(db.entries, account);
              r == if Fits(sum) then Ok(sum) else Err(BalanceUnreadable)
    ensures r.Ok? && NoOverdraft(db) && db.accounts[account].Customer? ==> r.value >= 0
  {
    if account !in db.accounts {
      return Err(AccountNotFound);
    }
    var sum := Balance(db.entries, account);
    if !Fits(sum) {
      return Err(BalanceUnreadable);
    }
    r := Ok(sum);
  }

  /**
   * Nothing checks the credited side. A transfer leaves both accounts readable exactly when the two
   * new balances fit int64.
   */
  lemma ReadableAfterTransfer(db: Database, cmd: Command, drawn: Drawn)
    requires cmd.key !in db.keys && Serve(db, cmd, drawn).answer.Success?
    ensures var entries := Serve(db, cmd, drawn).db.entries;
            && (Fits(Balance(entries, cmd.to)) <==> Fits(Balance(db.entries, cmd.to) + cmd.amount))
            && (Fits(Balance(entries, cmd.from)) <==> Fits(Balance(db.entries, cmd.from) - cmd.amount))
            && (db.accounts[cmd.from].Customer? ==> Fits(Balance(entries, cmd.from)))
  {
    assert Serve(db, cmd, drawn).db == Post(db, cmd, drawn);
    SnocTwo(db.entries, Debit(cmd, drawn), Credit(cmd, drawn));
  }

  // ---- What a request is answered, in terms of the tables alone ----

  /** A request for a new key, between accounts that exist, with ids that are free. */
  predicate FirstTime(db: Database, cmd: Command, drawn: Drawn) {
    && cmd.amount > 0 && cmd.from != cmd.to && cmd.key !in db.keys && cmd.from in db.accounts && cmd.to in db.accounts
    && drawn.id !in db.transfers && drawn.eventId !in db.outbox
  }

  /** The transfer was made: its row is there, and the two accounts, and only they, moved by the amount. */
  ghost predicate Made(db: Database, cmd: Command, drawn: Drawn, served: Served) {
    && served.answer == Success(TransferResult(drawn.id, Response(201, TransferBody(drawn.id)), false))
    && served.db.transfers == db.transfers[drawn.id := TransferRow(cmd.from, cmd.to, cmd.amount)]
    && cmd.key in served.db.keys && served.db.keys[cmd.key].fingerprint == cmd.fingerprint
    && forall a :: Balance(served.db.entries, a)
                   == Balance(db.entries, a)
                      - (if a == cmd.from then cmd.amount else 0) + if a == cmd.to then cmd.amount else 0
  }

  lemma PostedIsMade(db: Database, cmd: Command, drawn: Drawn)
    requires FirstTime(db, cmd, drawn) && Serve(db, cmd, drawn).answer.Success?
    ensures Made(db, cmd, drawn, Serve(db, cmd, drawn))
  {
    SnocTwo(db.entries, Debit(cmd, drawn), Credit(cmd, drawn));
    assert Serve(db, cmd, drawn).db == Post(db, cmd, drawn);
  }

  /** A first-time debit of the system account goes through whenever its balance can still be read. */
  lemma SystemDebit(db: Database, cmd: Command, drawn: Drawn)
    requires FirstTime(db, cmd, drawn) && db.accounts[cmd.from].System?
    ensures var served := Serve(db, cmd, drawn);
            if Fits(Balance(db.entries, cmd.from)) then
              Made(db, cmd, drawn, served) && served.db == Post(db, cmd, drawn)
            else served == Served(db, Refused(BalanceUnreadable))
  {
    if Serve(db, cmd, drawn).answer.Success? {
      PostedIsMade(db, cmd, drawn);
    }
  }

  /** A customer pays any amount up to what it has, and nothing beyond. */
  lemma CustomerDebit(db: Database, cmd: Command, drawn: Drawn)
    requires FirstTime(db, cmd, drawn) && db.accounts[cmd.from].Customer?
    requires 0 <= Balance(db.entries, cmd.from) <= MAX_INT64
    ensures var served := Serve(db, cmd, drawn);
            if cmd.amount <= Balance(db.entries, cmd.from) then
              Made(db, cmd, drawn, served) && served.db == Post(db, cmd, drawn)
            else served == Served(db, Refused(InsufficientFunds))
  {
    if Serve(db, cmd, drawn).answer.Success? {
      PostedIsMade(db, cmd, drawn);
    }
  }

  /**
   * Every other request changes nothing, and this is what it is told, the first that applies: a bad
   * amount, one account twice, a key that is taken, a missing account, a balance out of range, and last
   * an id that is taken.
   */
  lemma OtherAnswers(db: Database, cmd: Command, drawn: Drawn)
    ensures var served := Serve(db, cmd, drawn);
            && (cmd.amount <= 0 ==> served == Served(db, Refused(InvalidAmount)))
            && (cmd.amount > 0 && cmd.from == cmd.to ==> served == Served(db, Refused(SameAccount)))
            && (Valid(cmd) && cmd.key in db.keys ==>
                  var row := db.keys[cmd.key];
                  && served.db == db
                  && served.answer == if row.fingerprint != cmd.fingerprint then Refused(KeyReuse)
                                      else if row.state == InFlight then Refused(RequestInFlight)
                                      else Success(TransferResult(row.transferId, row.response, true)))
            && (Valid(cmd) && cmd.key !in db.keys ==>
                  && (cmd.from !in db.accounts || cmd.to !in db.accounts ==>
                        served == Served(db, Refused(AccountNotFound)))
                  && (cmd.from in db.accounts && cmd.to in db.accounts ==>
                        var balance := Balance(db.entries, cmd.from);
                        && (!Fits(balance) ==> served == Served(db, Refused(BalanceUnreadable)))
                        && (Fits(balance) && (db.accounts[cmd.from].System? || cmd.amount <= balance)
                            && (drawn.id in db.transfers || drawn.eventId in db.outbox) ==>
                              served == Served(db, Refused(DuplicateRow)))
                        && (Fits(balance) && db.accounts[cmd.from].Customer? && balance < cmd.amount ==>
                              var e := if Fits(balance - cmd.amount) then InsufficientFunds else MoneyOverflow;
                              served == Served(db, Refused(e)))))
  {
  }

  const SYSTEM := Uuid([1])
  const CUSTOMER := Uuid([2])
  const OPENED := Database(map[SYSTEM := System, CUSTOMER := Customer], map[], [], map[], map[])

  function Deposit(key: string): Command {
    Command(Key("owner", "/deposits", key), "fingerprint", SYSTEM, CUSTOMER, MAX_INT64)
  }

  function Draw(n: Byte, firstId: int): Drawn {
    Drawn(Uuid([n]), firstId, firstId + 1, Uuid([n]))
  }

  /**
   * That the new balances fit is not automatic: two maximal deposits are both accepted, after which
   * neither account can be read and every further deposit is refused for that reason.
   */
  lemma DepositsCanOutgrowInt64(key: string)
    requires key != "a" && key != "b"
    ensures var first := Serve(OPENED, Deposit("a"), Draw(1, 1));
            var second := Serve(first.db, Deposit("b"), Draw(2, 3));
            && Initial(OPENED) && first.answer.Success? && second.answer.Success?
            && !Fits(Balance(second.db.entries, CUSTOMER)) && !Fits(Balance(second.db.entries, SYSTEM))
            && Serve(second.db, Deposit(key), Draw(3, 5)) == Served(second.db, Refused(BalanceUnreadable))
  {
    var draw1, draw2, draw3 := Draw(1, 1), Draw(2, 3), Draw(3, 5);
    assert draw1.id.bytes[0] != draw2.id.bytes[0] && draw2.id.bytes[0] != draw3.id.bytes[0];
    assert SYSTEM.bytes[0] != CUSTOMER.bytes[0];
    var first := Serve(OPENED, Deposit("a"), draw1).db;
    SystemDebit(OPENED, Deposit("a"), draw1);
    assert "a" != "b" by { assert "a"[0] != "b"[0]; }
    SystemDebit(first, Deposit("b"), draw2);
    SystemDebit(Serve(first, Deposit("b"), draw2).db, Deposit(key), draw3);
  }
}
