/** Reading an account statement page by page with an id cursor. */
module Paging {
  import opened Core
  import opened Ledger
  import opened Wallet

  datatype LedgerEntry = LedgerEntry(id: int, transferId: Uuid, amount: int)

  datatype EntriesPage = EntriesPage(entries: seq<LedgerEntry>, nextAfter: Option<int>)

  function Line(row: EntryRow): LedgerEntry {
    LedgerEntry(row.id, row.transfer, row.amount)
  }

  function Lines(rows: seq<EntryRow>): (lines: seq<LedgerEntry>)
    ensures |lines| == |rows|
    ensures forall i :: 0 <= i < |rows| ==> lines[i] == Line(rows[i])
  {
    if rows == [] then [] else Lines(rows[..|rows| - 1]) + [Line(rows[|rows| - 1])]
  }

  // ---- ORDER BY id ----

  predicate Ascending(rows: seq<EntryRow>) {
    forall i, j :: 0 <= i < j < |rows| ==> rows[i].id < rows[j].id
  }

  function InsertById(rows: seq<EntryRow>, row: EntryRow): (out: seq<EntryRow>) {
    if rows == [] || rows[|rows| - 1].id <= row.id then rows + [row]
    else InsertById(rows[..|rows| - 1], row) + [rows[|rows| - 1]]
  }

  function SortById(rows: seq<EntryRow>): (out: seq<EntryRow>) {
    if rows == [] then [] else InsertById(SortById(rows[..|rows| - 1]), rows[|rows| - 1])
  }

  predicate DistinctIds(rows: seq<EntryRow>) {
    forall i, j :: 0 <= i < j < |rows| ==> rows[i].id != rows[j].id
  }

  lemma {:induction false} InsertByIdKeeps(rows: seq<EntryRow>, row: EntryRow)
    ensures multiset(InsertById(rows, row)) == multiset(rows) + multiset{row}
  {
    if rows != [] && rows[|rows| - 1].id > row.id {
      var front, last := rows[..|rows| - 1], rows[|rows| - 1];
      assert rows == front + [last];
      InsertByIdKeeps(front, row);
    }
  }

  lemma {:induction false} InsertByIdSorts(rows: seq<EntryRow>, row: EntryRow)
    requires Ascending(rows) && forall i :: 0 <= i < |rows| ==> rows[i].id != row.id
    ensures Ascending(InsertById(rows, row))
  {
    if rows != [] && rows[|rows| - 1].id > row.id {
      var front, last := rows[..|rows| - 1], rows[|rows| - 1];
      InsertByIdSorts(front, row);
      var out := InsertById(front, row);
      forall i | 0 <= i < |out|
        ensures out[i].id < last.id
      {
        InsertByIdKeeps(front, row);
        assert out[i] in multiset(out);
        assert out[i] == row || out[i] in front;
      }
    }
  }

  /** Sorting by id yields the same rows in strictly ascending order. */
  lemma {:induction false} SortByIdSorts(rows: seq<EntryRow>)
    requires DistinctIds(rows)
    ensures Ascending(SortById(rows))
    ensures multiset(SortById(rows)) == multiset(rows)
  {
    if rows != [] {
      var front, last := rows[..|rows| - 1], rows[|rows| - 1];
      assert rows == front + [last];
      SortByIdSorts(front);
      var sorted := SortById(front);
      forall i | 0 <= i < |sorted|
        ensures sorted[i].id != last.id
      {
        assert sorted[i] in multiset(front);
        var k :| 0 <= k < |front| && front[k] == sorted[i];
        assert rows[k] == front[k] && rows[|rows| - 1] == last;
      }
      InsertByIdSorts(sorted, last);
      InsertByIdKeeps(sorted, last);
    }
  }

  /** Rows that arrive in ascending order are already sorted. */
  lemma {:induction false} SortByIdKeepsAscending(rows: seq<EntryRow>)
    requires Ascending(rows)
    ensures SortById(rows) == rows
  {
    if rows != [] {
      var front, last := rows[..|rows| - 1], rows[|rows| - 1];
      SortByIdKeepsAscending(front);
      assert InsertById(front, last) == front + [last] == rows;
    }
  }

  lemma {:induction false} InsertByIdBehind(rows: seq<EntryRow>, more: seq<EntryRow>, row: EntryRow)
    requires forall i :: 0 <= i < |rows| ==> rows[i].id < row.id
    ensures InsertById(rows + more, row) == rows + InsertById(more, row)
  {
    if more == [] {
      assert rows + more == rows;
    } else if more[|more| - 1].id > row.id {
      var front, last := more[..|more| - 1], more[|more| - 1];
      assert (rows + more)[..|rows + more| - 1] == rows + front;
      InsertByIdBehind(rows, front, row);
      assert rows + InsertById(front, row) + [last] == rows + (InsertById(front, row) + [last]);
    }
  }

  /** Rows whose ids are all larger sort behind. */
  lemma {:induction false} SortByIdConcat(rows: seq<EntryRow>, more: seq<EntryRow>)
    requires DistinctIds(rows) && forall i, j :: 0 <= i < |rows| && 0 <= j < |more| ==> rows[i].id < more[j].id
    ensures SortById(rows + more) == SortById(rows) + SortById(more)
  {
    if more == [] {
      assert rows + more == rows;
    } else {
      var front, last := more[..|more| - 1], more[|more| - 1];
      assert (rows + more)[..|rows + more| - 1] == rows + front;
      SortByIdConcat(rows, front);
      var sorted := SortById(rows);
      SortByIdSorts(rows);
      forall i | 0 <= i < |sorted|
        ensures sorted[i].id < last.id
      {
        assert sorted[i] in multiset(rows);
      }
      InsertByIdBehind(sorted, SortById(front), last);
    }
  }

  // ---- The query and the page ----

  /** WHERE id > after, on rows in index order. */
  function After(rows: seq<EntryRow>, after: int): (out: seq<EntryRow>) {
    if rows == [] then []
    else After(rows[..|rows| - 1], after) + if rows[|rows| - 1].id > after then [rows[|rows| - 1]] else []
  }

  function Query(entries: seq<EntryRow>, account: Uuid, after: int): seq<EntryRow> {
    After(SortById(OfAccount(entries, account)), after)
  }

  function Take(rows: seq<EntryRow>, limit: nat): seq<EntryRow> {
    if |rows| <= limit then rows else rows[..limit]
  }

  /** The page a request gets: at most limit rows, and a cursor exactly when more rows exist. */
  function PageOf(rows: seq<EntryRow>, limit: nat): EntriesPage
    requires limit >= 1
  {
    if |rows| <= limit then EntriesPage(Lines(rows), None)
    else EntriesPage(Lines(rows[..limit]), Some(rows[limit - 1].id))
  }

  /** A page shows the next rows in order, and offers the last one's id as cursor exactly if rows are left. */
  predicate PageShows(page: EntriesPage, rows: seq<EntryRow>, k: nat, limit: nat) {
    && k + |page.entries| <= |rows|
    && (forall i :: 0 <= i < |page.entries| ==> page.entries[i] == Line(rows[k + i]))
    && (page.nextAfter.None? ==> k + |page.entries| == |rows| && |page.entries| <= limit)
    && (page.nextAfter.Some? ==>
          k + |page.entries| < |rows| && |page.entries| == limit >= 1
          && page.nextAfter.value == page.entries[limit - 1].id)
  }

  lemma {:induction false} PageOfShows(rows: seq<EntryRow>, k: nat, limit: nat)
    requires k <= |rows| && limit >= 1
    ensures PageShows(PageOf(rows[k..], limit), rows, k, limit)
  {
    var rest := rows[k..];
    var page := PageOf(rest, limit);
    assert forall i :: 0 <= i < |page.entries| ==> page.entries[i] == Line(rest[i]);
  }

  /** Scans up to limit rows of the query, one at a time, into the statement's shape. */
  method ListByAccount(entries: seq<EntryRow>, account: Uuid, after: int, limit: nat) returns (out: seq<LedgerEntry>)
    ensures out == Lines(Take(Query(entries, account, after), limit))
  {
    var rows := Take(Query(entries, account, after), limit);
    out := [];
    for i := 0 to |rows|
      invariant out == Lines(rows[..i])
    {
      out := out + [Line(rows[i])];
    }
    assert rows[..|rows|] == rows;
  }

  /** One page of the statement. It asks for one row more than it shows, to know whether to offer a cursor. */
  method Entries(db: Database, account: Uuid, after: int, limit: nat) returns (r: Result<EntriesPage>)
    requires limit >= 1
    ensures r == if account !in db.accounts then Err(AccountNotFound)
                 else Ok(PageOf(Query(db.entries, account, after), limit))
  {
    if account !in db.accounts {
      return Err(AccountNotFound);
    }
    var rows := ListByAccount(db.entries, account, after, limit + 1);
    var page := EntriesPage(rows, None);
    if |rows| > limit {
      page := EntriesPage(rows[..limit], Some(rows[limit - 1].id));
    }
    assert page.entries == PageOf(Query(db.entries, account, after), limit).entries;
    r := Ok(page);
  }

  lemma {:induction false} AfterAll(rows: seq<EntryRow>, after: int)
    requires forall i :: 0 <= i < |rows| ==> rows[i].id > after
    ensures After(rows, after) == rows
  {
    if rows != [] {
      AfterAll(rows[..|rows| - 1], after);
    }
  }

  lemma {:induction false} AfterNone(rows: seq<EntryRow>, after: int)
    requires forall i :: 0 <= i < |rows| ==> rows[i].id <= after
    ensures After(rows, after) == []
  {
    if rows != [] {
      AfterNone(rows[..|rows| - 1], after);
    }
  }

  lemma {:induction false} AfterAbove(rows: seq<EntryRow>, after: int)
    ensures forall e :: e in After(rows, after) ==> e.id > after
  {
    if rows != [] {
      AfterAbove(rows[..|rows| - 1], after);
    }
  }

  lemma {:induction false} AfterConcat(a: seq<EntryRow>, b: seq<EntryRow>, after: int)
    ensures After(a + b, after) == After(a, after) + After(b, after)
  {
    if b == [] {
      assert a + b == a;
    } else {
      assert (a + b)[..|a + b| - 1] == a + b[..|b| - 1];
      AfterConcat(a, b[..|b| - 1], after);
    }
  }

  /** On ascending rows the cursor left by the first k of them selects exactly the others. */
  lemma {:induction false} AfterCursor(rows: seq<EntryRow>, k: nat, cursor: int)
    requires Ascending(rows) && k <= |rows|
    requires k > 0 ==> cursor == rows[k - 1].id
    requires k == 0 ==> forall i :: 0 <= i < |rows| ==> rows[i].id > cursor
    ensures After(rows, cursor) == rows[k..]
  {
    assert rows == rows[..k] + rows[k..];
    AfterConcat(rows[..k], rows[k..], cursor);
    AfterNone(rows[..k], cursor);
    AfterAll(rows[k..], cursor);
  }

  // ---- A statement that stands still ----

  /** Following the cursor from page to page until no cursor is offered. */
  function Walk(rows: seq<EntryRow>, after: int, limit: nat): (seen: seq<LedgerEntry>)
    requires limit >= 1 && Ascending(rows)
    decreases |After(rows, after)|
  {
    var page := PageOf(After(rows, after), limit);
    if page.nextAfter.None? then page.entries
    else
      WalkAdvances(rows, after, limit);
      page.entries + Walk(rows, page.nextAfter.value, limit)
  }

  lemma {:induction false} AfterIsSuffix(rows: seq<EntryRow>, after: int) returns (k: nat)
    requires Ascending(rows)
    ensures k <= |rows| && After(rows, after) == rows[k..]
    ensures forall i :: k <= i < |rows| ==> rows[i].id > after
  {
    if rows == [] || rows[|rows| - 1].id <= after {
      k := |rows|;
      AfterNone(rows, after);
    } else {
      var front, last := rows[..|rows| - 1], rows[|rows| - 1];
      k := AfterIsSuffix(front, after);
      assert rows[k..] == front[k..] + [last];
    }
  }

  lemma {:induction false} WalkAdvances(rows: seq<EntryRow>, after: int, limit: nat)
    requires limit >= 1 && Ascending(rows) && |After(rows, after)| > limit
    ensures After(rows, After(rows, after)[limit - 1].id) == After(rows, after)[limit..]
  {
    var k := AfterIsSuffix(rows, after);
    AfterCursor(rows, k + limit, rows[k + limit - 1].id);
    assert rows[k..][limit - 1] == rows[k + limit - 1];
    assert rows[k..][limit..] == rows[k + limit..];
  }

  lemma LinesConcat(rows: seq<EntryRow>, k: nat)
    requires k <= |rows|
    ensures Lines(rows) == Lines(rows[..k]) + Lines(rows[k..])
  {
  }

  lemma {:induction false} WalkShowsTheRest(rows: seq<EntryRow>, after: int, limit: nat)
    requires limit >= 1 && Ascending(rows)
    ensures Walk(rows, after, limit) == Lines(After(rows, after))
    decreases |After(rows, after)|
  {
    var rest := After(rows, after);
    if |rest| > limit {
      WalkAdvances(rows, after, limit);
      WalkShowsTheRest(rows, rest[limit - 1].id, limit);
      LinesConcat(rest, limit);
    }
  }

  /**
   * On a ledger that does not change, for every page size, the pages put together are exactly the
   * account's entries in id order: the same rows, each once.
   */
  lemma {:induction false} PagesShowEverything(entries: seq<EntryRow>, account: Uuid, limit: nat)
    requires limit >= 1 && DistinctIds(OfAccount(entries, account))
    requires forall e :: e in entries ==> e.id > 0
    ensures var sorted := SortById(OfAccount(entries, account));
            && Ascending(sorted) && multiset(sorted) == multiset(OfAccount(entries, account))
            && Walk(sorted, 0, limit) == Lines(sorted)
  {
    var rows := OfAccount(entries, account);
    var sorted := SortById(rows);
    SortByIdSorts(rows);
    WalkShowsTheRest(sorted, 0, limit);
    forall i | 0 <= i < |sorted|
      ensures sorted[i].id > 0
    {
      assert sorted[i] in multiset(rows);
    }
    AfterAll(sorted, 0);
  }

  // ---- What a statement says ----

  function Sum(lines: seq<LedgerEntry>): int {
    if lines == [] then 0 else Sum(lines[..|lines| - 1]) + lines[|lines| - 1].amount
  }

  lemma {:induction false} SumOfLines(rows: seq<EntryRow>)
    ensures Sum(Lines(rows)) == Total(rows)
  {
    if rows != [] {
      SumOfLines(rows[..|rows| - 1]);
      assert Lines(rows)[..|rows| - 1] == Lines(rows[..|rows| - 1]);
    }
  }

  lemma {:induction false} InsertByIdAdds(rows: seq<EntryRow>, row: EntryRow)
    ensures Total(InsertById(rows, row)) == Total(rows) + row.amount
  {
    if rows == [] || rows[|rows| - 1].id <= row.id {
      Snoc(rows, row);
    } else {
      var front, last := rows[..|rows| - 1], rows[|rows| - 1];
      InsertByIdAdds(front, row);
      Snoc(InsertById(front, row), last);
    }
  }

  lemma {:induction false} SortByIdAdds(rows: seq<EntryRow>)
    ensures Total(SortById(rows)) == Total(rows)
  {
    if rows != [] {
      SortByIdAdds(rows[..|rows| - 1]);
      InsertByIdAdds(SortById(rows[..|rows| - 1]), rows[|rows| - 1]);
    }
  }

  lemma {:induction false} AccountTotal(entries: seq<EntryRow>, account: Uuid)
    ensures Total(OfAccount(entries, account)) == Balance(entries, account)
  {
    if entries != [] {
      var front, last := entries[..|entries| - 1], entries[|entries| - 1];
      AccountTotal(front, account);
      if last.account == account {
        Snoc(OfAccount(front, account), last);
      } else {
        assert OfAccount(entries, account) == OfAccount(front, account);
      }
    }
  }

  /** The lines of all pages, of any size, add up to the balance of the account. */
  lemma StatementAddsUpToBalance(entries: seq<EntryRow>, account: Uuid, limit: nat)
    requires limit >= 1 && DistinctIds(OfAccount(entries, account)) && forall e :: e in entries ==> e.id > 0
    ensures Ascending(SortById(OfAccount(entries, account)))
    ensures Sum(Walk(SortById(OfAccount(entries, account)), 0, limit)) == Balance(entries, account)
  {
    var rows := OfAccount(entries, account);
    PagesShowEverything(entries, account, limit);
    SumOfLines(SortById(rows));
    SortByIdAdds(rows);
    AccountTotal(entries, account);
  }

  lemma {:induction false} InOwnTransfer(entries: seq<EntryRow>, e: EntryRow)
    requires e in entries
    ensures e in OfTransfer(entries, e.transfer)
  {
    var front, last := entries[..|entries| - 1], entries[|entries| - 1];
    if e != last {
      assert e in front;
      InOwnTransfer(front, e);
    }
  }

  /** Each line names a transfer the account took part in, and shows its amount, negative for the payer. */
  lemma LineTellsTransfer(db: Database, account: Uuid, row: EntryRow)
    requires DoubleEntry(db) && row in OfAccount(db.entries, account)
    ensures var line := Line(row);
            && line.id == row.id && line.transferId in db.transfers
            && var t := db.transfers[line.transferId];
               (account == t.from && line.amount == 0 - t.amount) || (account == t.to && line.amount == t.amount)
  {
    InOwnTransfer(db.entries, row);
    assert TwoLegs(OfTransfer(db.entries, row.transfer), row.transfer, db.transfers[row.transfer]);
  }
}
