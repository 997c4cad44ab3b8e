/** The append-only ledger: a balance is nothing but the sum of an account's entries. */
module Ledger {
  import opened Core

  datatype EntryRow = EntryRow(id: int, transfer: Uuid, account: Uuid, amount: int)

  /** COALESCE(SUM(amount_cents), 0) over the account's rows, as an unbounded integer. */
  function Balance(entries: seq<EntryRow>, account: Uuid): (sum: int) {
    if entries == [] then 0
    else
      var last := entries[|entries| - 1];
      Balance(entries[..|entries| - 1], account) + if last.account == account then last.amount else 0
  }

  function Total(entries: seq<EntryRow>): (sum: int) {
    if entries == [] then 0 else Total(entries[..|entries| - 1]) + entries[|entries| - 1].amount
  }

  /** The rows posted by one transfer, in the order they became visible. */
  function OfTransfer(entries: seq<EntryRow>, transfer: Uuid): (rows: seq<EntryRow>) {
    if entries == [] then []
    else
      var last := entries[|entries| - 1];
      OfTransfer(entries[..|entries| - 1], transfer) + if last.transfer == transfer then [last] else []
  }

  /** The rows of one account, in the order they became visible. */
  function OfAccount(entries: seq<EntryRow>, account: Uuid): (rows: seq<EntryRow>)
    ensures forall e :: e in rows ==> e in entries && e.account == account
  {
    if entries == [] then []
    else
      var last := entries[|entries| - 1];
      OfAccount(entries[..|entries| - 1], account) + if last.account == account then [last] else []
  }

  /** What one more row does to each of the four views. */
  lemma Snoc(entries: seq<EntryRow>, e: EntryRow)
    ensures Total(entries + [e]) == Total(entries) + e.amount
    ensures forall a :: Balance(entries + [e], a) == Balance(entries, a) + if e.account == a then e.amount else 0
    ensures forall t :: OfTransfer(entries + [e], t) == OfTransfer(entries, t) + if e.transfer == t then [e] else []
    ensures forall a :: OfAccount(entries + [e], a) == OfAccount(entries, a) + if e.account == a then [e] else []
  {
    assert (entries + [e])[..|entries|] == entries;
  }

  lemma SnocTwo(entries: seq<EntryRow>, d: EntryRow, c: EntryRow)
    ensures entries + [d, c] == entries + [d] + [c]
    ensures Total(entries + [d, c]) == Total(entries) + d.amount + c.amount
    ensures forall a :: Balance(entries + [d, c], a) == Balance(entries, a)
                        + (if d.account == a then d.amount else 0) + if c.account == a then c.amount else 0
    ensures forall t :: OfTransfer(entries + [d, c], t) == OfTransfer(entries, t)
                        + (if d.transfer == t then [d] else []) + if c.transfer == t then [c] else []
    ensures forall a :: OfAccount(entries + [d, c], a) == OfAccount(entries, a)
                        + (if d.account == a then [d] else []) + if c.account == a then [c] else []
  {
    assert entries + [d, c] == entries + [d] + [c];
    Snoc(entries, d);
    Snoc(entries + [d], c);
  }

  lemma {:induction false} OfTransferEmpty(entries: seq<EntryRow>, transfer: Uuid)
    requires forall e :: e in entries ==> e.transfer != transfer
    ensures OfTransfer(entries, transfer) == []
  {
    if entries != [] {
      OfTransferEmpty(entries[..|entries| - 1], transfer);
    }
  }

  lemma {:induction false} OfAccountPrefix(entries: seq<EntryRow>, later: seq<EntryRow>, account: Uuid)
    requires entries <= later
    ensures OfAccount(entries, account) <= OfAccount(later, account)
    decreases |later|
  {
    if |entries| < |later| {
      OfAccountPrefix(entries, later[..|later| - 1], account);
    } else {
      assert entries == later;
    }
  }

  /** The sum of the balances of a set of accounts. */
  ghost function SumBalances(accounts: set<Uuid>, entries: seq<EntryRow>): (sum: int) {
    if accounts == {} then 0
    else
      var a :| a in accounts;
      Balance(entries, a) + SumBalances(accounts - {a}, entries)
  }

  /** The order in which accounts are summed does not matter: any one of them can come first. */
  lemma {:induction false} SumPick(accounts: set<Uuid>, a: Uuid, entries: seq<EntryRow>)
    requires a in accounts
    ensures SumBalances(accounts, entries) == Balance(entries, a) + SumBalances(accounts - {a}, entries)
    decreases accounts
  {
    var b :| && b in accounts
             && SumBalances(accounts, entries) == Balance(entries, b) + SumBalances(accounts - {b}, entries);
    if a != b {
      SumPick(accounts - {b}, a, entries);
      SumPick(accounts - {a}, b, entries);
      assert accounts - {b} - {a} == accounts - {a} - {b};
    }
  }

  lemma {:induction false} SumSnoc(accounts: set<Uuid>, entries: seq<EntryRow>, e: EntryRow)
    ensures SumBalances(accounts, entries + [e])
         == SumBalances(accounts, entries) + if e.account in accounts then e.amount else 0
    decreases accounts
  {
    if accounts != {} {
      var a :| a in accounts;
      SumPick(accounts, a, entries + [e]);
      SumPick(accounts, a, entries);
      Snoc(entries, e);
      SumSnoc(accounts - {a}, entries, e);
    }
  }

  lemma {:induction false} SumOfNothing(accounts: set<Uuid>)
    ensures SumBalances(accounts, []) == 0
    decreases accounts
  {
    if accounts != {} {
      var a :| a in accounts;
      SumPick(accounts, a, []);
      SumOfNothing(accounts - {a});
    }
  }

  /** Summing balances over every account mentioned adds up each entry exactly once. */
  lemma {:induction false} SumIsTotal(accounts: set<Uuid>, entries: seq<EntryRow>)
    requires forall e :: e in entries ==> e.account in accounts
    ensures SumBalances(accounts, entries) == Total(entries)
  {
    if entries == [] {
      SumOfNothing(accounts);
    } else {
      var front, last := entries[..|entries| - 1], entries[|entries| - 1];
      assert entries == front + [last];
      SumIsTotal(accounts, front);
      SumSnoc(accounts, front, last);
    }
  }

  /** Two orderings of the same rows that every query of this system answers alike. */
  ghost predicate SameRows(a: seq<EntryRow>, b: seq<EntryRow>) {
    && multiset(a) == multiset(b)
    && Total(a) == Total(b)
    && (forall x :: Balance(a, x) == Balance(b, x))
    && (forall t :: OfTransfer(a, t) == OfTransfer(b, t))
  }

  lemma RowsCommuteAt(entries: seq<EntryRow>, d: EntryRow, c: EntryRow, d': EntryRow, c': EntryRow, x: Uuid)
    requires d.transfer == c.transfer && d'.transfer == c'.transfer && d.transfer != d'.transfer
    ensures Balance(entries + [d, c] + [d', c'], x) == Balance(entries + [d', c'] + [d, c], x)
    ensures OfTransfer(entries + [d, c] + [d', c'], x) == OfTransfer(entries + [d', c'] + [d, c], x)
  {
    SnocTwo(entries, d, c);
    SnocTwo(entries, d', c');
    SnocTwo(entries + [d, c], d', c');
    SnocTwo(entries + [d', c'], d, c);
  }

  /** The rows of two different transfers may be appended in either order. */
  lemma RowsCommute(entries: seq<EntryRow>, d: EntryRow, c: EntryRow, d': EntryRow, c': EntryRow)
    requires d.transfer == c.transfer && d'.transfer == c'.transfer && d.transfer != d'.transfer
    ensures SameRows(entries + [d, c] + [d', c'], entries + [d', c'] + [d, c])
  {
    var a, b := entries + [d, c] + [d', c'], entries + [d', c'] + [d, c];
    assert multiset(a) == multiset(b);
    assert Total(a) == Total(b) by {
      SnocTwo(entries, d, c);
      SnocTwo(entries, d', c');
      SnocTwo(entries + [d, c], d', c');
      SnocTwo(entries + [d', c'], d, c);
    }
    forall x
      ensures Balance(a, x) == Balance(b, x)
      ensures OfTransfer(a, x) == OfTransfer(b, x)
    {
      RowsCommuteAt(entries, d, c, d', c', x);
    }
  }
}
