/** What the serializable strategy guarantees over whole runs. */
module SerializableTheorems {
  import opened Core
  import opened Ledger
  import opened Wallet
  import opened Serializable
  import opened SerializableInvariant

  /**
   * In every state of every run of concurrent, aborted and retried attempts, the committed tables are
   * those the serial wallet reaches by serving the committed requests one at a time, each answered as
   * it was answered; and so they are sound.
   */
  lemma SerializableRefinesSerialWallet(trace: seq<State>, n: nat)
    requires IsRun(trace) && n < |trace|
    ensures Legal(trace[0].db, trace[n].order)
    ensures SameTables(Run(trace[0].db, trace[n].order), trace[n].db)
    ensures Sound(trace[n].db)
    ensures SumBalances(trace[n].db.accounts.Keys, trace[n].db.entries) == 0
  {
    RunKeepsInv(trace, n);
    RefinesSound(trace[n].start, trace[n].db, trace[n].order);
    Conservation(trace[n].db);
  }

  /** Successful replies for one key agree, whichever attempts produced them. */
  lemma SerializableRepliesAgree(trace: seq<State>, n: nat, t: nat, u: nat, r: TransferResult, q: TransferResult)
    requires IsRun(trace) && n < |trace| && t in trace[n].txs && u in trace[n].txs
    requires trace[n].txs[t].reply == Some(Success(r)) && trace[n].txs[u].reply == Some(Success(q))
    requires trace[n].txs[t].cmd.key == trace[n].txs[u].cmd.key
    ensures r.transferId == q.transferId && r.response == q.response
    ensures trace[n].txs[t].cmd.fingerprint == trace[n].txs[u].cmd.fingerprint
  {
    RunKeepsInv(trace, n);
    assert Facts(trace[n].db, trace[n].txs[t]);
    assert Facts(trace[n].db, trace[n].txs[u]);
  }

  /** At most one of the committed requests for a key moved money. */
  lemma SerializableOneTransferPerKey(trace: seq<State>, n: nat, i: nat, j: nat)
    requires IsRun(trace) && n < |trace| && i < j < |trace[n].order|
    requires trace[n].order[i].Moved? && trace[n].order[j].Moved?
    requires trace[n].order[i].cmd.key == trace[n].order[j].cmd.key
    ensures trace[n].order[j].result.replayed
    ensures trace[n].order[i].result.transferId == trace[n].order[j].result.transferId
    ensures trace[n].order[i].cmd.fingerprint == trace[n].order[j].cmd.fingerprint
  {
    RunKeepsInv(trace, n);
    ExactlyOncePerKey(trace[0].db, trace[n].order, i, j);
  }

  /**
   * A request whose fingerprint differs from the one its key was completed with never succeeds and never
   * moves money; and no attempt is ever told of an overflow, an in-flight key or a missing row.
   */
  lemma SerializableOnlyGenuineReplies(trace: seq<State>, n: nat, t: nat)
    requires IsRun(trace) && n < |trace| && t in trace[n].txs
    ensures trace[n].txs[t].reply.Some? && trace[n].txs[t].reply.value.Refused? ==>
              Genuine(trace[n].txs[t].reply.value.error)
    ensures var db, cmd := trace[n].db, trace[n].txs[t].cmd;
            cmd.key in db.keys && db.keys[cmd.key].fingerprint != cmd.fingerprint ==>
              && !(trace[n].txs[t].reply.Some? && trace[n].txs[t].reply.value.Success?)
              && forall i :: 0 <= i < |trace[n].order| && trace[n].order[i].Moved? ==> trace[n].order[i].cmd != cmd
  {
    RunKeepsInv(trace, n);
    var s := trace[n];
    assert Facts(s.db, s.txs[t]);
    forall i | 0 <= i < |s.order| && s.order[i].Moved?
      ensures s.order[i].cmd.key in s.db.keys && s.db.keys[s.order[i].cmd.key].fingerprint == s.order[i].cmd.fingerprint
    {
      AnswerIsKept(s.start, s.order, i);
    }
  }
}
