/** Paging through a statement while transfers keep committing. */
module GrowingStatement {
  import opened Ledger
  import opened Paging

  /** One page request: the moment it is served, and its page size. */
  datatype PageRequest = PageRequest(at: nat, limit: nat)

  /** What a client has collected: its cursor, the lines shown so far, and whether more were announced. */
  datatype Reader = Reader(cursor: int, seen: seq<LedgerEntry>, more: bool)

  const NEW_READER := Reader(0, [], true)

  /** The client follows the cursor it is given; given none, it resumes after the last line it saw. */
  function Turn(r: Reader, page: EntriesPage): Reader {
    var cursor := if page.nextAfter.Some? then page.nextAfter.value
                  else if page.entries == [] then r.cursor
                  else page.entries[|page.entries| - 1].id;
    Reader(cursor, r.seen + page.entries, page.nextAfter.Some?)
  }

  /** One request against the rows of the account visible at that moment. */
  function ReadPage(r: Reader, rows: seq<EntryRow>, limit: nat): Reader
    requires limit >= 1
  {
    Turn(r, PageOf(After(SortById(rows), r.cursor), limit))
  }

  predicate Timely(moments: nat, requests: seq<PageRequest>) {
    && (forall i :: 0 <= i < |requests| ==> requests[i].at < moments && requests[i].limit >= 1)
    && (forall i, j :: 0 <= i < j < |requests| ==> requests[i].at <= requests[j].at)
  }

  /** A client's requests, one after the other; views[n] are the rows visible at moment n. */
  function ReadOn(r: Reader, views: seq<seq<EntryRow>>, requests: seq<PageRequest>): Reader
    requires Timely(|views|, requests)
  {
    if requests == [] then r
    else
      var last := requests[|requests| - 1];
      ReadPage(ReadOn(r, views, requests[..|requests| - 1]), views[last.at], last.limit)
  }

  /** All requests of a client that starts from cursor 0. */
  function ReadAll(views: seq<seq<EntryRow>>, requests: seq<PageRequest>): Reader
    requires Timely(|views|, requests)
  {
    ReadOn(NEW_READER, views, requests)
  }

  predicate Positive(rows: seq<EntryRow>) {
    forall i :: 0 <= i < |rows| ==> rows[i].id > 0
  }

  /** Rows are only ever added, under ids of their own. */
  predicate Growing(views: seq<seq<EntryRow>>) {
    && (forall i, j :: 0 <= i <= j < |views| ==> views[i] <= views[j])
    && (forall i :: 0 <= i < |views| ==> DistinctIds(views[i]) && Positive(views[i]))
  }

  /** What becomes visible later has a larger id than everything visible before. */
  ghost predicate VisibleInIdOrder(views: seq<seq<EntryRow>>) {
    forall i, j, a, b ::
      0 <= i <= j < |views| && a in views[i] && b in views[j] && b !in views[i] ==> a.id < b.id
  }

  /** The client has seen exactly the first lines, and its cursor stands on the last of them. */
  predicate InStep(r: Reader, rows: seq<EntryRow>) {
    && |r.seen| <= |rows|
    && (forall i :: 0 <= i < |r.seen| ==> r.seen[i] == Line(rows[i]))
    && r.cursor == if |r.seen| == 0 then 0 else rows[|r.seen| - 1].id
  }

  /** Nothing up to the cursor was skipped or repeated, and without a cursor everything has been seen. */
  predicate GapFree(r: Reader, rows: seq<EntryRow>) {
    InStep(r, SortById(rows)) && (!r.more ==> |r.seen| == |SortById(rows)|)
  }

  ghost predicate EveryReaderGapFree(views: seq<seq<EntryRow>>) {
    forall requests: seq<PageRequest> :: requests != [] && Timely(|views|, requests) ==>
                         GapFree(ReadAll(views, requests), views[requests[|requests| - 1].at])
  }

  // ---- In id order: no gaps ----

  lemma ShowsMore(seen: seq<LedgerEntry>, more: seq<LedgerEntry>, rows: seq<EntryRow>)
    requires |seen| + |more| <= |rows|
    requires forall i :: 0 <= i < |seen| ==> seen[i] == Line(rows[i])
    requires forall i :: 0 <= i < |more| ==> more[i] == Line(rows[|seen| + i])
    ensures forall i :: 0 <= i < |seen + more| ==> (seen + more)[i] == Line(rows[i])
  {
    forall i | 0 <= i < |seen + more|
      ensures (seen + more)[i] == Line(rows[i])
    {
      if i >= |seen| { assert more[i - |seen|] == Line(rows[|seen| + (i - |seen|)]); }
    }
  }

  lemma TurnInStep(r: Reader, rows: seq<EntryRow>, page: EntriesPage, limit: nat)
    requires InStep(r, rows) && PageShows(page, rows, |r.seen|, limit)
    ensures InStep(Turn(r, page), rows) && (!Turn(r, page).more ==> |Turn(r, page).seen| == |rows|)
  {
    ShowsMore(r.seen, page.entries, rows);
    if page.entries != [] {
      var last := |page.entries| - 1;
      assert page.entries[last] == Line(rows[|r.seen| + last]);
    }
  }

  lemma {:induction false} ReadPageInStep(r: Reader, rows: seq<EntryRow>, limit: nat)
    requires limit >= 1 && InStep(r, SortById(rows)) && Ascending(SortById(rows)) && Positive(SortById(rows))
    ensures GapFree(ReadPage(r, rows, limit), rows)
  {
    var sorted := SortById(rows);
    var page := PageOf(sorted[|r.seen|..], limit);
    assert ReadPage(r, rows, limit) == Turn(r, page) by {
      AfterCursor(sorted, |r.seen|, r.cursor);
    }
    PageOfShows(sorted, |r.seen|, limit);
    TurnInStep(r, sorted, page, limit);
  }

  lemma {:induction false} InStepLater(r: Reader, rows: seq<EntryRow>, later: seq<EntryRow>)
    requires InStep(r, rows) && rows <= later
    ensures InStep(r, later)
  {
  }

  lemma SortedView(rows: seq<EntryRow>)
    requires DistinctIds(rows) && Positive(rows)
    ensures Ascending(SortById(rows)) && Positive(SortById(rows))
    ensures forall e :: e in SortById(rows) <==> e in rows
  {
    SortByIdSorts(rows);
    forall e
      ensures e in SortById(rows) <==> e in rows
    {
      assert e in multiset(SortById(rows)) <==> e in multiset(rows);
    }
    forall i | 0 <= i < |SortById(rows)|
      ensures SortById(rows)[i].id > 0
    {
      assert SortById(rows)[i] in rows;
    }
  }

  /** Rows that came later with larger ids sort behind what was there. */
  lemma SortedPrefix(views: seq<seq<EntryRow>>, i: nat, j: nat)
    requires Growing(views) && VisibleInIdOrder(views) && i <= j < |views|
    ensures SortById(views[i]) <= SortById(views[j])
  {
    var early, late := views[i], views[j][|views[i]|..];
    assert views[j] == early + late;
    forall k, m | 0 <= k < |early| && 0 <= m < |late|
      ensures early[k].id < late[m].id
    {
      NotYetVisible(early, views[j], m);
      assert early[k] in views[i] && late[m] in views[j] && late[m] !in views[i];
    }
    SortByIdConcat(early, late);
  }

  lemma NotYetVisible(early: seq<EntryRow>, later: seq<EntryRow>, m: nat)
    requires early <= later && DistinctIds(later) && m < |later| - |early|
    ensures later[|early|..][m] == later[|early| + m] && later[|early| + m] !in early
  {
    forall k | 0 <= k < |early|
      ensures early[k] != later[|early| + m]
    {
      assert later[k] == early[k];
    }
  }

  lemma {:induction false} InOrderReaderGapFree(views: seq<seq<EntryRow>>, requests: seq<PageRequest>)
    requires Growing(views) && VisibleInIdOrder(views) && requests != [] && Timely(|views|, requests)
    ensures GapFree(ReadAll(views, requests), views[requests[|requests| - 1].at])
  {
    var front, last := requests[..|requests| - 1], requests[|requests| - 1];
    var rows := views[last.at];
    if front != [] {
      InOrderReaderGapFree(views, front);
      var former := front[|front| - 1].at;
      SortedPrefix(views, former, last.at);
      InStepLater(ReadAll(views, front), SortById(views[former]), SortById(rows));
    }
    SortedView(rows);
    ReadPageInStep(ReadAll(views, front), rows, last.limit);
  }

  // ---- Out of id order: gaps ----

  /** A page moves the cursor forward or leaves it, and shows no row at or below it. */
  lemma {:induction false} PageAboveCursor(r: Reader, rows: seq<EntryRow>, limit: nat, line: LedgerEntry)
    requires limit >= 1 && line.id <= r.cursor && line !in r.seen
    ensures line !in ReadPage(r, rows, limit).seen
  {
    AfterAbove(SortById(rows), r.cursor);
  }

  lemma {:induction false} CursorAdvances(r: Reader, rows: seq<EntryRow>, limit: nat)
    requires limit >= 1
    ensures ReadPage(r, rows, limit).cursor >= r.cursor
  {
    var rest := After(SortById(rows), r.cursor);
    AfterAbove(SortById(rows), r.cursor);
    if rest != [] {
      var k := if |rest| <= limit then |rest| - 1 else limit - 1;
      assert rest[k] in rest && Line(rest[k]).id == rest[k].id;
      assert ReadPage(r, rows, limit).cursor == rest[k].id;
    }
  }

  /** A row at or below the cursor that has not been shown is never shown, on however many later pages. */
  lemma {:induction false} MissedForGood(
    r: Reader, views: seq<seq<EntryRow>>, requests: seq<PageRequest>, line: LedgerEntry)
    requires Timely(|views|, requests) && line.id <= r.cursor && line !in r.seen
    ensures var r' := ReadOn(r, views, requests); line !in r'.seen && r'.cursor >= r.cursor
  {
    if requests != [] {
      var front, last := requests[..|requests| - 1], requests[|requests| - 1];
      MissedForGood(r, views, front, line);
      var r' := ReadOn(r, views, front);
      PageAboveCursor(r', views[last.at], last.limit, line);
      CursorAdvances(r', views[last.at], last.limit);
    }
  }

  lemma {:induction false} WholeTurn(rows: seq<EntryRow>)
    requires rows != []
    ensures Turn(NEW_READER, PageOf(rows, |rows|)) == Reader(rows[|rows| - 1].id, Lines(rows), false)
  {
    var lines := Lines(rows);
    assert [] + lines == lines;
  }

  lemma SameLength(rows: seq<EntryRow>)
    requires DistinctIds(rows)
    ensures |SortById(rows)| == |rows|
  {
    SortByIdSorts(rows);
    assert |multiset(SortById(rows))| == |multiset(rows)|;
  }

  lemma LargestIsLast(sorted: seq<EntryRow>, a: EntryRow)
    requires Ascending(sorted) && a in sorted
    ensures sorted[|sorted| - 1].id >= a.id
  {
    var k :| 0 <= k < |sorted| && sorted[k] == a;
  }

  /** A client that asks for everything at once stands on the largest id. */
  lemma {:induction false} ReadToTheEnd(rows: seq<EntryRow>, a: EntryRow)
    requires a in rows && DistinctIds(rows) && Positive(rows)
    ensures var r := ReadPage(NEW_READER, rows, |rows|);
            r.cursor >= a.id && r.seen == Lines(SortById(rows))
  {
    var sorted := SortById(rows);
    SortedView(rows);
    SameLength(rows);
    assert ReadPage(NEW_READER, rows, |rows|) == Turn(NEW_READER, PageOf(sorted, |sorted|)) by { AfterAll(sorted, 0); }
    WholeTurn(sorted);
    LargestIsLast(sorted, a);
  }

  lemma NotAmongLines(rows: seq<EntryRow>, row: EntryRow)
    requires DistinctIds(rows) && Positive(rows) && forall e :: e in rows ==> e.id != row.id
    ensures Line(row) !in Lines(SortById(rows))
  {
    SortedView(rows);
    var sorted := SortById(rows);
    forall k | 0 <= k < |sorted|
      ensures Lines(sorted)[k] != Line(row)
    {
      assert sorted[k] in rows;
    }
  }

  /**
   * A client that has read to the end of what was visible is never shown a row that becomes visible
   * later under a smaller id than one it has passed, however many pages of whatever size it asks for.
   */
  lemma {:induction false} OutOfOrderRowIsMissed(
    views: seq<seq<EntryRow>>, m: nat, a: EntryRow, row: EntryRow, requests: seq<PageRequest>)
    requires m < |views| && a in views[m] && DistinctIds(views[m]) && Positive(views[m])
    requires row.id < a.id && (forall e :: e in views[m] ==> e.id != row.id) && Timely(|views|, requests)
    ensures Line(row) !in ReadOn(ReadPage(NEW_READER, views[m], |views[m]|), views, requests).seen
  {
    ReadToTheEnd(views[m], a);
    NotAmongLines(views[m], row);
    MissedForGood(ReadPage(NEW_READER, views[m], |views[m]|), views, requests, Line(row));
  }

  /** A client in step has seen every row up to its cursor. */
  lemma InStepHasSeen(r: Reader, sorted: seq<EntryRow>, row: EntryRow)
    requires InStep(r, sorted) && Ascending(sorted) && row in sorted && 0 < row.id < r.cursor
    ensures Line(row) in r.seen
  {
    var m :| 0 <= m < |sorted| && sorted[m] == row;
    assert m < |r.seen|;
    assert r.seen[m] == Line(row);
  }

  /** Reading to the end and then one page more misses a row that has come in below. */
  lemma OnePageMoreHasGap(early: seq<EntryRow>, later: seq<EntryRow>, a: EntryRow, b: EntryRow)
    requires DistinctIds(early) && Positive(early) && DistinctIds(later) && Positive(later) && early <= later
    requires a in early && b in later && b !in early && b.id < a.id
    ensures !GapFree(ReadPage(ReadPage(NEW_READER, early, |early|), later, 1), later)
  {
    var r := ReadPage(NEW_READER, early, |early|);
    FreshId(early, later, b);
    ReadToTheEnd(early, a);
    NotAmongLines(early, b);
    PageAboveCursor(r, later, 1, Line(b));
    CursorAdvances(r, later, 1);
    SortedView(later);
    if GapFree(ReadPage(r, later, 1), later) {
      InStepHasSeen(ReadPage(r, later, 1), SortById(later), b);
      assert false;
    }
  }

  lemma TwoRequests(views: seq<seq<EntryRow>>, first: PageRequest, second: PageRequest)
    requires Timely(|views|, [first, second])
    ensures first.limit >= 1 && second.limit >= 1 && first.at < |views| && second.at < |views|
    ensures ReadAll(views, [first, second])
         == ReadPage(ReadPage(NEW_READER, views[first.at], first.limit), views[second.at], second.limit)
  {
    var requests := [first, second];
    assert requests[0] == first && requests[1] == second;
    assert requests[..1] == [first] && [first][..0] == [];
    assert ReadOn(NEW_READER, views, []) == NEW_READER;
    assert ReadOn(NEW_READER, views, [first]) == ReadPage(NEW_READER, views[first.at], first.limit);
  }

  lemma {:induction false} OutOfOrderReaderHasGap(views: seq<seq<EntryRow>>, i: nat, j: nat, a: EntryRow, b: EntryRow)
    requires Growing(views) && i <= j < |views| && a in views[i] && b in views[j] && b !in views[i] && b.id < a.id
    ensures !EveryReaderGapFree(views)
  {
    var requests := [PageRequest(i, |views[i]|), PageRequest(j, 1)];
    assert requests != [] && Timely(|views|, requests) && requests[|requests| - 1].at == j;
    TwoRequests(views, requests[0], requests[1]);
    OnePageMoreHasGap(views[i], views[j], a, b);
  }

  lemma FreshId(early: seq<EntryRow>, later: seq<EntryRow>, b: EntryRow)
    requires early <= later && DistinctIds(later) && b in later && b !in early
    ensures forall e :: e in early ==> e.id != b.id
  {
    var m :| 0 <= m < |later| && later[m] == b;
    forall e | e in early
      ensures e.id != b.id
    {
      var k :| 0 <= k < |early| && early[k] == e;
      assert later[k] == e;
    }
  }

  /**
   * Every client that starts at 0 and follows the cursors, with whatever page sizes and at whatever
   * moments, reads without gaps and repeats, if and only if rows become visible in id order.
   */
  lemma GapFreeExactlyInIdOrder(views: seq<seq<EntryRow>>)
    requires Growing(views)
    ensures EveryReaderGapFree(views) <==> VisibleInIdOrder(views)
  {
    if VisibleInIdOrder(views) {
      forall requests: seq<PageRequest> | requests != [] && Timely(|views|, requests)
        ensures GapFree(ReadAll(views, requests), views[requests[|requests| - 1].at])
      {
        InOrderReaderGapFree(views, requests);
      }
    } else {
      var i, j, a, b :|
        0 <= i <= j < |views| && a in views[i] && b in views[j] && b !in views[i] && a.id >= b.id;
      FreshId(views[i], views[j], b);
      OutOfOrderReaderHasGap(views, i, j, a, b);
    }
  }
}

/** The locking strategy makes rows visible in id order, so its statements page without gaps. */
module LockingStatement {
  import opened Core
  import opened Ledger
  import opened LockingTheorems
  import opened GrowingStatement
  import opened Locking
  import Paging

  function Views(trace: seq<State>, account: Uuid): (views: seq<seq<EntryRow>>)
    ensures |views| == |trace|
    ensures forall n :: 0 <= n < |trace| ==> views[n] == OfAccount(trace[n].db.entries, account)
  {
    seq(|trace|, n requires 0 <= n < |trace| => OfAccount(trace[n].db.entries, account))
  }

  /** In ascending rows, what comes after a prefix has larger ids. */
  lemma LaterIsLarger(early: seq<EntryRow>, later: seq<EntryRow>, a: EntryRow, b: EntryRow)
    requires early <= later && Paging.Ascending(later) && a in early && b in later && b !in early
    ensures a.id < b.id
  {
    var k :| 0 <= k < |early| && early[k] == a;
    var m :| 0 <= m < |later| && later[m] == b;
    assert later[k] == a && later[..|early|] == early;
    assert forall i :: 0 <= i < |early| ==> later[i] != b;
  }

  lemma LockingGrowsInOrder(trace: seq<State>, account: Uuid)
    requires IsRun(trace)
    ensures Growing(Views(trace, account)) && GrowingStatement.VisibleInIdOrder(Views(trace, account))
  {
    var views := Views(trace, account);
    forall m, n | 0 <= m <= n < |trace|
      ensures views[m] <= views[n]
    {
      LockingTheorems.VisibleInIdOrder(trace, m, n, account);
    }
    forall n | 0 <= n < |trace|
      ensures Paging.Ascending(views[n]) && Paging.DistinctIds(views[n]) && Positive(views[n])
    {
      LockingTheorems.VisibleInIdOrder(trace, n, n, account);
    }
    forall i, j, a: EntryRow, b: EntryRow | 0 <= i <= j < |views| && a in views[i] && b in views[j] && b !in views[i]
      ensures a.id < b.id
    {
      LaterIsLarger(views[i], views[j], a, b);
    }
  }

  /**
   * During any run of the locking strategy, a client that follows the cursors from 0 holds after any
   * number of pages exactly the first entries of the account, and all of them when no cursor is offered.
   */
  lemma LockingStatementsHaveNoGaps(trace: seq<State>, account: Uuid, requests: seq<PageRequest>)
    requires IsRun(trace) && requests != [] && Timely(|trace|, requests)
    ensures var r := ReadAll(Views(trace, account), requests);
            var rows := OfAccount(trace[requests[|requests| - 1].at].db.entries, account);
            InStep(r, rows) && (!r.more ==> |r.seen| == |rows|)
  {
    var at := requests[|requests| - 1].at;
    LockingGrowsInOrder(trace, account);
    InOrderReaderGapFree(Views(trace, account), requests);
    LockingTheorems.VisibleInIdOrder(trace, at, at, account);
    Paging.SortByIdKeepsAscending(Views(trace, account)[at]);
  }
}
