/**
 * Entry ids under the serializable strategy. They are drawn from the sequence while others commit, so
 * they need not become visible in order; but they are never used twice, and what is committed stays.
 */
module SerializableIds {
  import opened Core
  import opened Ledger
  import opened Paging
  import opened RowLocks
  import opened Wallet
  import opened Serializable
  import opened SerializableInvariant

  // ---- The invariant ----

  /** The entry ids an attempt has drawn and not yet committed. */
  function DrawnIds(tx: Tx): set<int> {
    (if Rank(tx.pc) >= 5 then {tx.drawn.debitId} else {}) + if Rank(tx.pc) >= 6 then {tx.drawn.creditId} else {}
  }

  ghost predicate Unused(entries: seq<EntryRow>, x: int) {
    forall e :: e in entries ==> e.id != x
  }

  /** Committed ids are distinct and were drawn. */
  ghost predicate CommittedIdsOk(entries: seq<EntryRow>, nextId: int) {
    DistinctIds(entries) && forall e :: e in entries ==> 0 < e.id < nextId
  }

  /** An attempt's ids were drawn, are not in the ledger yet, and differ. */
  ghost predicate OwnIdsOk(entries: seq<EntryRow>, nextId: int, tx: Tx) {
    && (forall x :: x in DrawnIds(tx) ==> 0 < x < nextId && Unused(entries, x))
    && (Rank(tx.pc) >= 6 ==> tx.drawn.debitId != tx.drawn.creditId)
  }

  ghost predicate AttemptsApart(txs: map<nat, Tx>) {
    forall t, u :: t in txs && u in txs && t != u ==> DrawnIds(txs[t]) !! DrawnIds(txs[u])
  }

  ghost predicate IdsOk(entries: seq<EntryRow>, nextId: int, txs: map<nat, Tx>) {
    && nextId >= 1 && CommittedIdsOk(entries, nextId) && AttemptsApart(txs)
    && forall t :: t in txs ==> OwnIdsOk(entries, nextId, txs[t])
  }

  // ---- Every step keeps it ----

  lemma NoNewIds(entries: seq<EntryRow>, nextId: int, txs: map<nat, Tx>, t: nat, tx': Tx)
    requires IdsOk(entries, nextId, txs) && OwnIdsOk(entries, nextId, tx')
    requires DrawnIds(tx') <= if t in txs then DrawnIds(txs[t]) else {}
    ensures IdsOk(entries, nextId, txs[t := tx'])
  {
  }

  lemma OneNewId(entries: seq<EntryRow>, nextId: int, txs: map<nat, Tx>, t: nat, tx': Tx)
    requires IdsOk(entries, nextId, txs) && t in txs && OwnIdsOk(entries, nextId + 1, tx')
    requires DrawnIds(tx') <= DrawnIds(txs[t]) + {nextId}
    ensures IdsOk(entries, nextId + 1, txs[t := tx'])
  {
    forall u | u in txs && u != t
      ensures DrawnIds(tx') !! DrawnIds(txs[u])
    {
      assert OwnIdsOk(entries, nextId, txs[u]);
      assert nextId !in DrawnIds(txs[u]);
    }
  }

  lemma StatementDraws(db: Database, nextId: int, tx: Tx, id: Uuid, eventId: Uuid)
    requires OwnIdsOk(db.entries, nextId, tx) && CommittedIdsOk(db.entries, nextId) && nextId >= 1
    requires !Committing(tx) && !tx.pc.Done?
    ensures var e := Statement(db, nextId, tx, id, eventId);
            && OwnIdsOk(db.entries, nextId + if e.drew then 1 else 0, e.tx)
            && DrawnIds(e.tx) <= DrawnIds(tx) + if e.drew then {nextId} else {}
  {
    var e := Statement(db, nextId, tx, id, eventId);
    if tx.pc == InsertDebit {
      assert DrawnIds(e.tx) == {nextId} && Unused(db.entries, nextId);
    } else if tx.pc == InsertCredit {
      assert tx.drawn.debitId in DrawnIds(tx);
      assert DrawnIds(e.tx) == {tx.drawn.debitId, nextId} && Unused(db.entries, nextId);
    } else {
      assert DrawnIds(e.tx) <= DrawnIds(tx);
    }
  }

  lemma AdvanceKeepsIds(s: State, l: Label)
    requires IdsOk(s.db.entries, s.nextId, s.txs) && l.Advance? && Enabled(s, l)
    ensures var s' := Next(s, l); IdsOk(s'.db.entries, s'.nextId, s'.txs)
  {
    var tx := s.txs[l.t];
    assert OwnIdsOk(s.db.entries, s.nextId, tx);
    if tx.failure.Some? {
      NoNewIds(s.db.entries, s.nextId, s.txs, l.t, Ended(tx, Some(Refused(tx.failure.value))));
    } else {
      var e := Statement(s.db, s.nextId, tx, l.id, l.eventId);
      StatementDraws(s.db, s.nextId, tx, l.id, l.eventId);
      if e.drew {
        OneNewId(s.db.entries, s.nextId, s.txs, l.t, e.tx);
      } else {
        NoNewIds(s.db.entries, s.nextId, s.txs, l.t, e.tx);
      }
    }
  }

  /** Two unused, different ids join the committed ones. */
  lemma CommittedIdsGrow(entries: seq<EntryRow>, nextId: int, d: EntryRow, c: EntryRow)
    requires CommittedIdsOk(entries, nextId) && Unused(entries, d.id) && Unused(entries, c.id) && d.id != c.id
    requires 0 < d.id < nextId && 0 < c.id < nextId
    ensures CommittedIdsOk(entries + [d, c], nextId)
  {
    var longer := entries + [d, c];
    forall i, j | 0 <= i < j < |longer|
      ensures longer[i].id != longer[j].id
    {
      if i < |entries| { assert longer[i] in entries; }
    }
  }

  lemma OthersStayUnused(entries: seq<EntryRow>, nextId: int, d: EntryRow, c: EntryRow, tx: Tx)
    requires OwnIdsOk(entries, nextId, tx) && d.id !in DrawnIds(tx) && c.id !in DrawnIds(tx)
    ensures OwnIdsOk(entries + [d, c], nextId, tx)
  {
  }

  lemma CommitKeepsIds(s: State, t: nat, tx': Tx)
    requires IdsOk(s.db.entries, s.nextId, s.txs) && t in s.txs && s.txs[t].pc == Commit && tx'.pc == Done
    ensures IdsOk(Post(s.db, s.txs[t].cmd, s.txs[t].drawn).entries, s.nextId, s.txs[t := tx'])
  {
    var tx := s.txs[t];
    var d, c := Debit(tx.cmd, tx.drawn), Credit(tx.cmd, tx.drawn);
    assert OwnIdsOk(s.db.entries, s.nextId, tx) && d.id in DrawnIds(tx) && c.id in DrawnIds(tx);
    CommittedIdsGrow(s.db.entries, s.nextId, d, c);
    forall u | u in s.txs && u != t
      ensures OwnIdsOk(s.db.entries + [d, c], s.nextId, s.txs[u])
    {
      assert DrawnIds(s.txs[t]) !! DrawnIds(s.txs[u]);
      OthersStayUnused(s.db.entries, s.nextId, d, c, s.txs[u]);
    }
  }

  /** The steps that add rows. */
  predicate Posts(s: State, l: Label) {
    l.CommitAt? && l.t in s.txs && s.txs[l.t].pc == Commit
  }

  lemma CommitStepKeepsIds(s: State, l: Label)
    requires IdsOk(s.db.entries, s.nextId, s.txs) && Enabled(s, l) && Posts(s, l)
    ensures var s' := Next(s, l); IdsOk(s'.db.entries, s'.nextId, s'.txs)
  {
    CommitKeepsIds(s, l.t, Next(s, l).txs[l.t]);
  }

  lemma OtherStepsKeepIds(s: State, l: Label)
    requires IdsOk(s.db.entries, s.nextId, s.txs) && Enabled(s, l) && !l.Advance? && !Posts(s, l)
    ensures var s' := Next(s, l); IdsOk(s'.db.entries, s'.nextId, s'.txs)
  {
    if !l.Open? {
      NoNewIds(s.db.entries, s.nextId, s.txs, l.t, Next(s, l).txs[l.t]);
    }
  }

  lemma StepKeepsIds(s: State, s': State)
    requires IdsOk(s.db.entries, s.nextId, s.txs) && Step(s, s')
    ensures IdsOk(s'.db.entries, s'.nextId, s'.txs)
  {
    var l :| Enabled(s, l) && s' == Next(s, l);
    if l.Advance? {
      AdvanceKeepsIds(s, l);
    } else if Posts(s, l) {
      CommitStepKeepsIds(s, l);
    } else {
      OtherStepsKeepIds(s, l);
    }
  }

  lemma {:induction false} RunKeepsIds(trace: seq<State>, n: nat)
    requires IsRun(trace) && n < |trace|
    ensures IdsOk(trace[n].db.entries, trace[n].nextId, trace[n].txs)
  {
    if n > 0 {
      RunKeepsIds(trace, n - 1);
      StepKeepsIds(trace[n - 1], trace[n]);
    }
  }

  // ---- Over whole runs ----

  lemma PostExtends(db: Database, cmd: Command, drawn: Drawn)
    requires cmd.key !in db.keys && drawn.id !in db.transfers && drawn.eventId !in db.outbox
    ensures Extends(db, Post(db, cmd, drawn))
  {
  }

  lemma StepExtends(s: State, s': State)
    requires Inv(s) && Step(s, s')
    ensures Extends(s.db, s'.db)
  {
    var l :| Enabled(s, l) && s' == Next(s, l);
    if Posts(s, l) {
      PostStepExtends(s, l);
    } else {
      OtherStepsExtend(s, l);
    }
  }

  lemma CommitterFits(s: State, t: nat)
    requires Inv(s) && t in s.txs && s.txs[t].pc == Commit
    ensures var (db, tx) := (s.db, s.txs[t]);
            tx.cmd.key !in db.keys && tx.drawn.id !in db.transfers && tx.drawn.eventId !in db.outbox
  {
    assert Facts(s.db, s.txs[t]);
  }

  lemma PostStepExtends(s: State, l: Label)
    requires Inv(s) && Enabled(s, l) && Posts(s, l)
    ensures Extends(s.db, Next(s, l).db)
  {
    CommitterFits(s, l.t);
    PostExtends(s.db, s.txs[l.t].cmd, s.txs[l.t].drawn);
  }

  lemma OtherStepsExtend(s: State, l: Label)
    requires Enabled(s, l) && !Posts(s, l)
    ensures Extends(s.db, Next(s, l).db)
  {
  }

  lemma ExtendsTransitive(a: Database, b: Database, c: Database)
    requires Extends(a, b) && Extends(b, c)
    ensures Extends(a, c)
  {
  }

  /** Nothing committed is ever changed or taken back. */
  lemma {:induction false} SerializableCommittedStays(trace: seq<State>, m: nat, n: nat)
    requires IsRun(trace) && m <= n < |trace|
    ensures Extends(trace[m].db, trace[n].db)
    decreases n - m
  {
    if m < n {
      RunKeepsInv(trace, m);
      StepExtends(trace[m], trace[m + 1]);
      SerializableCommittedStays(trace, m + 1, n);
      ExtendsTransitive(trace[m].db, trace[m + 1].db, trace[n].db);
    }
  }

  /** In every reachable state all committed entries have ids of their own, all positive. */
  lemma SerializableIdsDistinct(trace: seq<State>, n: nat)
    requires IsRun(trace) && n < |trace|
    ensures DistinctIds(trace[n].db.entries) && forall e :: e in trace[n].db.entries ==> e.id > 0
  {
    RunKeepsIds(trace, n);
  }
}
