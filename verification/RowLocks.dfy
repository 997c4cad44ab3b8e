/** The database's lock table, as both strategies use it: who has which rows to themselves. */
module RowLocks {
  import opened Core

  /** What one statement does to its own transaction: the row it takes, if any, and a sequence draw. */
  datatype Effect<T, R> = Effect(tx: T, took: Option<R>, drew: bool)

  function Quiet<T, R>(tx: T): Effect<T, R> {
    Effect(tx, None, false)
  }

  /** The lock table and the transactions agree on who has what; in particular nothing has two holders. */
  ghost predicate LocksOk<T, R>(locks: map<R, nat>, txs: map<nat, T>, held: T -> set<R>) {
    && (forall r :: r in locks ==> locks[r] in txs && r in held(txs[locks[r]]))
    && (forall t, r :: t in txs && r in held(txs[t]) ==> r in locks && locks[r] == t)
  }

  lemma LocksKept<T, R>(locks: map<R, nat>, txs: map<nat, T>, held: T -> set<R>, t: nat, tx': T)
    requires LocksOk(locks, txs, held)
    requires held(tx') == if t in txs then held(txs[t]) else {}
    ensures LocksOk(locks, txs[t := tx'], held)
  {
  }

  lemma LocksTaken<T, R>(locks: map<R, nat>, txs: map<nat, T>, held: T -> set<R>, t: nat, tx': T, r: R)
    requires LocksOk(locks, txs, held) && t in txs
    requires r !in locks || locks[r] == t
    requires held(tx') == held(txs[t]) + {r}
    ensures LocksOk(locks[r := t], txs[t := tx'], held)
  {
  }

  lemma LocksReleased<T, R>(locks: map<R, nat>, txs: map<nat, T>, held: T -> set<R>, t: nat, tx': T)
    requires LocksOk(locks, txs, held) && t in txs && held(tx') == {}
    ensures LocksOk(map r | r in locks && locks[r] != t :: locks[r], txs[t := tx'], held)
  {
  }

  lemma HoldersApart<T, R>(locks: map<R, nat>, txs: map<nat, T>, held: T -> set<R>, t: nat, u: nat)
    requires LocksOk(locks, txs, held) && t in txs && u in txs && t != u
    ensures held(txs[t]) !! held(txs[u])
  {
    forall r | r in held(txs[t])
      ensures r !in held(txs[u])
    {
      assert locks[r] == t;
    }
  }
}
