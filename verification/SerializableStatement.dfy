/**
 * The serializable strategy does not make an account's rows visible in id order: two transfers to one
 * account that read nothing of each other commit in either order, and a client can miss a row for good.
 */
module SerializableStatement {
  import opened Core
  import opened Money
  import opened Paths
  import opened Ledger
  import opened RowLocks
  import opened Wallet
  import opened Accounts
  import opened Serializable
  import opened SerializableIds
  import opened SerializableAnswers
  import opened GrowingStatement
  import Paging

  // ---- Building runs ----

  lemma Takes(s: State, mid: State, l: Label)
    requires Reaches(Step, s, mid) && Enabled(mid, l)
    ensures Reaches(Step, s, Next(mid, l))
  {
    assert Step(mid, Next(mid, l));
    ReachesOn(Step, s, mid, Next(mid, l));
  }

  /** A run from an initial state through `mid`, at moment m, to `end`. */
  lemma RunThrough(s: State, mid: State, end: State) returns (trace: seq<State>, m: nat)
    requires Init(s) && Reaches(Step, s, mid) && Reaches(Step, mid, end)
    ensures IsRun(trace) && m < |trace| && trace[m] == mid && trace[|trace| - 1] == end
  {
    var path :| Leads(Step, s, mid, path);
    var rest :| Leads(Step, mid, end, rest);
    trace := Paths.Join(Step, s, mid, end, path, rest);
    m := |path| - 1;
  }

  // ---- One attempt, up to its commit ----

  /** Nothing of what the attempt is going to insert is there or being inserted. */
  ghost predicate Free(s: State, cmd: Command, id: Uuid, eventId: Uuid) {
    && cmd.key !in s.db.keys && id !in s.db.transfers && eventId !in s.db.outbox
    && Clear(s.locks, cmd, id, eventId)
  }

  /** An attempt that runs to its commit while nobody else takes a step. */
  lemma Prepares(s: State, t: nat, cmd: Command, drawn: Drawn) returns (s': State)
    requires t !in s.txs && Free(s, cmd, drawn.id, drawn.eventId) && Accepts(s.db, cmd)
    requires drawn.debitId == s.nextId && drawn.creditId == s.nextId + 1
    ensures Reaches(Step, s, s') && s'.start == s.start && s'.db == s.db && s'.order == s.order
    ensures s'.nextId == s.nextId + 2
    ensures t in s'.txs && s'.txs == s.txs[t := s'.txs[t]] && Bare(s'.txs[t]) == Prepared(s.db, cmd, drawn)
    ensures OnlyTook(s.locks, s'.locks, t, Wants(cmd, drawn.id, drawn.eventId))
  {
    var s0 := Next(s, Begin(t, cmd));
    ReachesItself(Step, s);
    Takes(s, s, Begin(t, cmd));
    StandsAtStart(s, t, cmd, drawn.id, drawn.eventId);
    s' := PreparesAlone(s0, t, drawn.id, drawn.eventId, cmd);
    SoloIsRun(s0, s', t, drawn.id, drawn.eventId);
    ReachesThrough(Step, s, s0, s');
  }

  /** The committed tables are those of the serial order so far. */
  predicate Serial(s: State) {
    Legal(s.start, s.order) && s.db == Run(s.start, s.order)
  }

  /** What a prepared attempt read is still so, and what it inserts still free. */
  predicate StillGood(s: State, t: nat, snap: Database, cmd: Command, drawn: Drawn) {
    && t in s.txs && Bare(s.txs[t]) == Prepared(snap, cmd, drawn) && Accepts(snap, cmd)
    && cmd.key !in s.db.keys && drawn.id !in s.db.transfers && drawn.eventId !in s.db.outbox
    && KindOf(s.db, cmd.from) == KindOf(snap, cmd.from) && KindOf(s.db, cmd.to) == KindOf(snap, cmd.to)
    && Balance(s.db.entries, cmd.from) == Balance(snap.entries, cmd.from)
  }

  /** Such an attempt may commit at the end of the serial order. */
  lemma CommitsLast(s: State, t: nat, snap: Database, cmd: Command, drawn: Drawn) returns (s': State)
    requires Serial(s) && StillGood(s, t, snap, cmd, drawn)
    ensures Reaches(Step, s, s') && s' == CommitTx(s, t, |s.order|, true)
    ensures Serial(s') && s'.db == Post(s.db, cmd, drawn)
  {
    var p, item := |s.order|, Moved(cmd, drawn, TransferResult(drawn.id, Created(drawn.id), false));
    assert s.order[..p] == s.order && s.order[..p] + [item] + s.order[p..] == s.order + [item];
    assert Serve(s.db, cmd, drawn) == Served(Post(s.db, cmd, drawn), Success(item.result));
    RunSnoc(s.start, s.order, item);
    ReachesItself(Step, s);
    Takes(s, s, CommitAt(t, p, true));
    s' := Next(s, CommitAt(t, p, true));
  }

  // ---- Transfers that cross ----

  /** Two requests by different payers for one payee, ready to be served and independent of each other. */
  ghost predicate Crossing(s: State, slow: Command, sd: Drawn, quick: Command, qd: Drawn) {
    && Free(s, slow, sd.id, sd.eventId) && Accepts(s.db, slow)
    && Free(s, quick, qd.id, qd.eventId) && Accepts(s.db, quick)
    && slow.key != quick.key && sd.id != qd.id && sd.eventId != qd.eventId
    && slow.to == quick.to && slow.from != quick.from
    && sd.debitId == s.nextId && sd.creditId == s.nextId + 1
    && qd.debitId == s.nextId + 2 && qd.creditId == s.nextId + 3
  }

  lemma BothPrepared(s: State, t: nat, u: nat, slow: Command, sd: Drawn, quick: Command, qd: Drawn)
    returns (s': State)
    requires Serial(s) && t !in s.txs && u !in s.txs && t != u && Crossing(s, slow, sd, quick, qd)
    ensures Reaches(Step, s, s') && Serial(s') && s'.db == s.db
    ensures StillGood(s', t, s.db, slow, sd) && StillGood(s', u, s.db, quick, qd)
  {
    var at := Prepares(s, t, slow, sd);
    s' := Prepares(at, u, quick, qd);
    ReachesThrough(Step, s, at, s');
  }

  lemma StillGoodAfter(s: State, db: Database, slow: Command, sd: Drawn, quick: Command, qd: Drawn)
    requires Crossing(s, slow, sd, quick, qd) && db == Post(s.db, quick, qd)
    ensures slow.key !in db.keys && sd.id !in db.transfers && sd.eventId !in db.outbox && db.accounts == s.db.accounts
    ensures Balance(db.entries, slow.from) == Balance(s.db.entries, slow.from)
  {
    SnocTwo(s.db.entries, Debit(quick, qd), Credit(quick, qd));
  }

  /** The transfer that drew its ids first can commit second. */
  lemma CommitInReverse(s: State, t: nat, u: nat, slow: Command, sd: Drawn, quick: Command, qd: Drawn)
    returns (mid: State, end: State)
    requires Serial(s) && t !in s.txs && u !in s.txs && t != u && Crossing(s, slow, sd, quick, qd)
    ensures Reaches(Step, s, mid) && Reaches(Step, mid, end)
    ensures mid.db == Post(s.db, quick, qd) && end.db == Post(mid.db, slow, sd)
  {
    var at := BothPrepared(s, t, u, slow, sd, quick, qd);
    mid := CommitsLast(at, u, s.db, quick, qd);
    ReachesThrough(Step, s, at, mid);
    StillGoodAfter(s, mid.db, slow, sd, quick, qd);
    end := CommitsLast(mid, t, s.db, slow, sd);
  }

  // ---- What holds of every run ----

  function Views(trace: seq<State>, account: Uuid): (views: seq<seq<EntryRow>>)
    ensures |views| == |trace|
    ensures forall n :: 0 <= n < |trace| ==> views[n] == OfAccount(trace[n].db.entries, account)
  {
    seq(|trace|, n requires 0 <= n < |trace| => OfAccount(trace[n].db.entries, account))
  }

  lemma {:induction false} OwnRowsDistinct(entries: seq<EntryRow>, account: Uuid)
    requires Paging.DistinctIds(entries)
    ensures Paging.DistinctIds(OfAccount(entries, account))
  {
    if entries != [] {
      var front, last := entries[..|entries| - 1], entries[|entries| - 1];
      OwnRowsDistinct(front, account);
      var rows := OfAccount(front, account);
      forall i | 0 <= i < |rows|
        ensures rows[i].id != last.id
      {
        assert rows[i] in front;
      }
    }
  }

  /** In every run of the serializable strategy an account's rows are only ever added, under ids of their own. */
  lemma SerializableGrows(trace: seq<State>, account: Uuid)
    requires IsRun(trace)
    ensures Growing(Views(trace, account))
  {
    var views := Views(trace, account);
    forall m, n | 0 <= m <= n < |trace|
      ensures views[m] <= views[n]
    {
      SerializableCommittedStays(trace, m, n);
      OfAccountPrefix(trace[m].db.entries, trace[n].db.entries, account);
    }
    forall n | 0 <= n < |trace|
      ensures Paging.DistinctIds(views[n]) && Positive(views[n])
    {
      SerializableIdsDistinct(trace, n);
      OwnRowsDistinct(trace[n].db.entries, account);
      assert forall i :: 0 <= i < |views[n]| ==> views[n][i] in trace[n].db.entries;
    }
  }

  /** So every run of this strategy pages without gaps if and only if it makes rows visible in id order. */
  lemma SerializableGapFreeExactlyInIdOrder(trace: seq<State>, account: Uuid)
    requires IsRun(trace)
    ensures EveryReaderGapFree(Views(trace, account)) <==> VisibleInIdOrder(Views(trace, account))
  {
    SerializableGrows(trace, account);
    GapFreeExactlyInIdOrder(Views(trace, account));
  }

  /** And any committed state, held still, is paged through completely, with pages of any size. */
  lemma SerializablePagesShowEverything(trace: seq<State>, n: nat, account: Uuid, limit: nat)
    requires IsRun(trace) && n < |trace| && limit >= 1
    ensures var rows := OfAccount(trace[n].db.entries, account);
            && Paging.Ascending(Paging.SortById(rows)) && multiset(Paging.SortById(rows)) == multiset(rows)
            && Paging.Walk(Paging.SortById(rows), 0, limit) == Paging.Lines(Paging.SortById(rows))
  {
    SerializableIdsDistinct(trace, n);
    OwnRowsDistinct(trace[n].db.entries, account);
    Paging.PagesShowEverything(trace[n].db.entries, account, limit);
  }

  // ---- A run that does not ----

  const PAYER := Uuid([2])
  const SHOP := Uuid([3])
  const START := Database(map[SYSTEM := System, PAYER := Customer, SHOP := Customer], map[], [], map[], map[])

  function Request(key: char, from: Uuid, to: Uuid): Command {
    Command(Key("owner", "/transfers", [key]), "fingerprint", from, to, 10)
  }

  lemma DrawsDiffer(m: Byte, n: Byte)
    requires m != n
    ensures Uuid([m]) != Uuid([n])
  {
    assert Uuid([m]).bytes[0] != Uuid([n]).bytes[0];
  }

  /** The payer gets its money in a first transfer of its own. */
  lemma PayerFunded(s: State) returns (s': State)
    requires Init(s) && s.start == START
    ensures Reaches(Step, s, s') && Serial(s') && s'.txs.Keys == {0} && s'.locks == map[] && s'.nextId == 3
    ensures s'.db == Post(START, Request('f', SYSTEM, PAYER), Draw(1, 1))
  {
    var cmd, drawn := Request('f', SYSTEM, PAYER), Draw(1, 1);
    DrawsDiffer(1, 2);
    var at := Prepares(s, 0, cmd, drawn);
    s' := CommitsLast(at, 0, START, cmd, drawn);
    ReachesThrough(Step, s, at, s');
  }

  lemma FundedBalances(db: Database)
    requires db == Post(START, Request('f', SYSTEM, PAYER), Draw(1, 1))
    ensures Balance(db.entries, SYSTEM) == -10 && Balance(db.entries, PAYER) == 10
    ensures OfAccount(db.entries, SHOP) == []
  {
    DrawsDiffer(1, 2);
    DrawsDiffer(1, 3);
    DrawsDiffer(2, 3);
    var cmd, drawn := Request('f', SYSTEM, PAYER), Draw(1, 1);
    SnocTwo([], Debit(cmd, drawn), Credit(cmd, drawn));
    assert db.entries == [] + [Debit(cmd, drawn), Credit(cmd, drawn)];
  }

  lemma FundedCrossing(s: State)
    requires s.db == Post(START, Request('f', SYSTEM, PAYER), Draw(1, 1)) && s.locks == map[] && s.nextId == 3
    ensures Crossing(s, Request('s', SYSTEM, SHOP), Draw(2, 3), Request('q', PAYER, SHOP), Draw(3, 5))
  {
    FundedBalances(s.db);
    DrawsDiffer(1, 2);
    DrawsDiffer(1, 3);
    DrawsDiffer(2, 3);
    assert ['f'][0] != ['s'][0] && ['f'][0] != ['q'][0] && ['s'][0] != ['q'][0];
  }

  lemma RowsAppear(db: Database, cmd: Command, drawn: Drawn)
    requires cmd.from != cmd.to
    ensures OfAccount(Post(db, cmd, drawn).entries, cmd.to) == OfAccount(db.entries, cmd.to) + [Credit(cmd, drawn)]
  {
    SnocTwo(db.entries, Debit(cmd, drawn), Credit(cmd, drawn));
  }

  /** The payee's rows show up in the order of the commits, not of the ids. */
  lemma RowsInReverse(s: State, slow: Command, sd: Drawn, quick: Command, qd: Drawn) returns (mid: State, end: State)
    requires Serial(s) && 1 !in s.txs && 2 !in s.txs && Crossing(s, slow, sd, quick, qd)
    ensures Reaches(Step, s, mid) && Reaches(Step, mid, end)
    ensures var rows := OfAccount(s.db.entries, slow.to);
            && OfAccount(mid.db.entries, slow.to) == rows + [Credit(quick, qd)]
            && OfAccount(end.db.entries, slow.to) == rows + [Credit(quick, qd)] + [Credit(slow, sd)]
  {
    mid, end := CommitInReverse(s, 1, 2, slow, sd, quick, qd);
    RowsAppear(s.db, quick, qd);
    RowsAppear(mid.db, slow, sd);
  }

  lemma ReadyToCross() returns (s: State, funded: State)
    ensures Init(s) && Reaches(Step, s, funded) && Serial(funded) && 1 !in funded.txs && 2 !in funded.txs
    ensures Crossing(funded, Request('s', SYSTEM, SHOP), Draw(2, 3), Request('q', PAYER, SHOP), Draw(3, 5))
    ensures OfAccount(funded.db.entries, SHOP) == []
  {
    s := State(START, START, 1, map[], map[], []);
    funded := PayerFunded(s);
    FundedCrossing(funded);
    FundedBalances(funded.db);
  }

  /** The shop's entries 6 and 4 become visible in that order. */
  lemma OutOfOrderRun(a: EntryRow, row: EntryRow) returns (trace: seq<State>, m: nat)
    requires a == Credit(Request('q', PAYER, SHOP), Draw(3, 5)) && row == Credit(Request('s', SYSTEM, SHOP), Draw(2, 3))
    ensures IsRun(trace) && m < |trace|
    ensures OfAccount(trace[m].db.entries, SHOP) == [a] && OfAccount(trace[|trace| - 1].db.entries, SHOP) == [a, row]
  {
    var s, funded := ReadyToCross();
    var slow, quick := Request('s', SYSTEM, SHOP), Request('q', PAYER, SHOP);
    var mid, end := RowsInReverse(funded, slow, Draw(2, 3), quick, Draw(3, 5));
    ReachesThrough(Step, s, funded, mid);
    trace, m := RunThrough(s, mid, end);
  }

  /**
   * A run of the serializable strategy that makes rows visible out of id order. A client that had read
   * everything at moment m is never shown the row that came in below, however often it asks.
   */
  lemma SerializableStatementsCanMissRows() returns (trace: seq<State>, m: nat, row: EntryRow)
    ensures IsRun(trace) && m < |trace| && row in Views(trace, SHOP)[|trace| - 1]
    ensures Views(trace, SHOP)[m] != [] && !VisibleInIdOrder(Views(trace, SHOP))
    ensures forall requests :: Timely(|trace|, requests) ==>
              var views := Views(trace, SHOP);
              Paging.Line(row) !in ReadOn(ReadPage(NEW_READER, views[m], |views[m]|), views, requests).seen
  {
    var a := Credit(Request('q', PAYER, SHOP), Draw(3, 5));
    row := Credit(Request('s', SYSTEM, SHOP), Draw(2, 3));
    assert a.id == 6 && row.id == 4;
    trace, m := OutOfOrderRun(a, row);
    MissesRow(Views(trace, SHOP), m, a, row);
  }

  lemma MissesRow(views: seq<seq<EntryRow>>, m: nat, a: EntryRow, row: EntryRow)
    requires m < |views| && views[m] == [a] && views[|views| - 1] == [a, row] && 0 < row.id < a.id
    ensures !VisibleInIdOrder(views)
    ensures forall requests :: Timely(|views|, requests) ==>
              Paging.Line(row) !in ReadOn(ReadPage(NEW_READER, views[m], |views[m]|), views, requests).seen
  {
    assert a in views[m] && row in views[|views| - 1] && row !in views[m];
    forall requests | Timely(|views|, requests)
      ensures Paging.Line(row) !in ReadOn(ReadPage(NEW_READER, views[m], |views[m]|), views, requests).seen
    {
      OutOfOrderRowIsMissed(views, m, a, row, requests);
    }
  }
}
