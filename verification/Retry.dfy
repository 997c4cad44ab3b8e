/**
 * The retry loop around a serializable attempt: an attempt that loses a serialization race is run
 * again from scratch on the tables as they are then, up to a limit.
 */
module Retry {
  import opened Core
  import opened Int64
  import opened Money
  import opened Wallet
  import opened TransferFlow
  import Backoff
  import Ledger

  const DEFAULT_MAX_ATTEMPTS := 10

  /** How the database and the network treat one attempt. */
  datatype Fate =
    | Clean                        // every statement and the commit go through
    | Conflict(atCommit: bool)     // 40001 or 40P01, at the commit if the body gets that far, or before
    | Broken(atCommit: bool)       // any other fault; at the commit, it may have happened unnoticed

  /**
   * What an attempt meets: the committed tables its snapshot shows, those that others have made of them
   * by the time it ends, the values it draws, its fate, whether a commit that breaks took effect all the
   * same, the jitter of the sleep that would follow, and whether the caller's deadline expires during it.
   */
  datatype Round = Round(
    snap: Database, now: Database, nextId: int, id: Uuid, eventId: Uuid,
    fate: Fate, tookEffect: bool, draw: int -> int, cancelled: bool)

  function DrawnIn(round: Round): Drawn {
    Drawn(round.id, round.nextId, round.nextId + 1, round.eventId)
  }

  /** The serial wallet on the attempt's snapshot. */
  function Alone(round: Round, cmd: Command): Served {
    Serve(round.snap, cmd, DrawnIn(round))
  }

  /** Whether the attempt comes to its commit: a refusal by the body is returned before. */
  predicate GetsToCommit(round: Round, cmd: Command) {
    match round.fate
    case Clean => Alone(round, cmd).answer.Success?
    case Conflict(atCommit) => atCommit && Alone(round, cmd).answer.Success?
    case Broken(atCommit) => atCommit && Alone(round, cmd).answer.Success?
  }

  /** The error an attempt ends with, None for a commit that was acknowledged. */
  function ErrorOf(round: Round, cmd: Command): Option<Error> {
    match round.fate
    case Conflict(false) => Some(SerializationFailure)
    case Broken(false) => Some(Infrastructure)
    case _ =>
      if Alone(round, cmd).answer.Refused? then Some(Alone(round, cmd).answer.error)
      else if round.fate.Conflict? then Some(SerializationFailure)
      else if round.fate.Broken? then Some(Infrastructure)
      else None
  }

  /** Whether the attempt's transfer or replay is committed; a commit that breaks may have taken effect. */
  predicate Commits(round: Round, cmd: Command) {
    GetsToCommit(round, cmd) && !round.fate.Conflict? && (round.fate.Broken? ==> round.tookEffect)
  }

  /** The attempt lost a serialization race: in its statements, or at its commit. */
  predicate LostRace(round: Round, cmd: Command) {
    round.fate == Conflict(false) || (round.fate == Conflict(true) && Alone(round, cmd).answer.Success?)
  }

  /** The committed tables after the attempt: its own rows on top of what others committed meanwhile. */
  function Landed(round: Round, cmd: Command): Database {
    if Commits(round, cmd) && cmd.key !in round.snap.keys then Post(round.now, cmd, DrawnIn(round)) else round.now
  }

  function Added<K, V>(before: map<K, V>, after: map<K, V>): map<K, V> {
    map k | k in after && k !in before :: after[k]
  }

  /** A commit adds the rows a transaction wrote to the tables as they are by then. */
  function Merge(now: Database, before: Database, after: Database): Database
    requires |before.entries| <= |after.entries|
  {
    Database(
      now.accounts,
      now.transfers + Added(before.transfers, after.transfers),
      now.entries + after.entries[|before.entries|..],
      now.keys + Added(before.keys, after.keys),
      now.outbox + Added(before.outbox, after.outbox))
  }

  lemma AddedOne<K, V>(now: map<K, V>, m: map<K, V>, k: K, v: V)
    requires k !in m
    ensures now + Added(m, m[k := v]) == now[k := v]
  {
    assert Added(m, m[k := v]) == map[k := v];
  }

  lemma MergePosted(now: Database, snap: Database, cmd: Command, drawn: Drawn)
    requires cmd.key !in snap.keys && drawn.id !in snap.transfers && drawn.eventId !in snap.outbox
    ensures Merge(now, snap, Post(snap, cmd, drawn)) == Post(now, cmd, drawn)
  {
    var after, posted := Post(snap, cmd, drawn), Post(now, cmd, drawn);
    AddedOne(now.transfers, snap.transfers, drawn.id, after.transfers[drawn.id]);
    AddedOne(now.keys, snap.keys, cmd.key, after.keys[cmd.key]);
    AddedOne(now.outbox, snap.outbox, drawn.eventId, after.outbox[drawn.eventId]);
    assert after.entries[|snap.entries|..] == [Debit(cmd, drawn), Credit(cmd, drawn)];
  }

  lemma MergeNothing(now: Database, snap: Database)
    ensures Merge(now, snap, snap) == now
  {
    assert now.transfers + Added(snap.transfers, snap.transfers) == now.transfers;
    assert now.keys + Added(snap.keys, snap.keys) == now.keys;
    assert now.outbox + Added(snap.outbox, snap.outbox) == now.outbox;
    assert now.entries + snap.entries[|snap.entries|..] == now.entries;
  }

  /** What a successful attempt wrote lands as one more transfer, or as nothing for a replay. */
  lemma MergeLands(round: Round, cmd: Command)
    requires Alone(round, cmd).answer.Success?
    ensures |round.snap.entries| <= |Alone(round, cmd).db.entries|
    ensures Merge(round.now, round.snap, Alone(round, cmd).db)
         == if cmd.key in round.snap.keys then round.now else Post(round.now, cmd, DrawnIn(round))
  {
    if cmd.key in round.snap.keys {
      MergeNothing(round.now, round.snap);
    } else {
      MergePosted(round.now, round.snap, cmd, DrawnIn(round));
    }
  }

  /** What the attempt read in its snapshot is still so, and the ids it draws are still free. */
  predicate ReadsCurrent(round: Round, cmd: Command) {
    if cmd.key in round.snap.keys then
      cmd.key in round.now.keys && round.now.keys[cmd.key] == round.snap.keys[cmd.key]
    else
      && cmd.key !in round.now.keys && round.id !in round.now.transfers && round.eventId !in round.now.outbox
      && KindOf(round.now, cmd.from) == KindOf(round.snap, cmd.from)
      && KindOf(round.now, cmd.to) == KindOf(round.snap, cmd.to)
      && Ledger.Balance(round.now.entries, cmd.from) == Ledger.Balance(round.snap.entries, cmd.from)
  }

  /** If its reads are current, a committed attempt is the serial wallet on the tables of that moment. */
  lemma CurrentReadsServe(round: Round, cmd: Command)
    requires Commits(round, cmd) && ReadsCurrent(round, cmd)
    ensures Served(Landed(round, cmd), Alone(round, cmd).answer) == Serve(round.now, cmd, DrawnIn(round))
  {
  }

  /**
   * Only a lost race is reported as one. No rule of the wallet ends in a serialization failure, and one
   * that refuses keeps the attempt from its commit, so a refusal is never taken for a lost race.
   */
  lemma OnlyLostRacesAreRetried(round: Round, cmd: Command)
    ensures IsSerializationFailure(ErrorOf(round, cmd)) <==> LostRace(round, cmd)
    ensures LostRace(round, cmd) ==> !Commits(round, cmd)
    ensures ErrorOf(round, cmd) != Some(ConcurrencyConflict)
    ensures var answer := Alone(round, cmd).answer;
            answer.Refused? && round.fate != Conflict(false) && round.fate != Broken(false) ==>
              ErrorOf(round, cmd) == Some(answer.error) && !LostRace(round, cmd)
  {
  }

  predicate IsSerializationFailure(err: Option<Error>) {
    err == Some(SerializationFailure)
  }

  function AtLeastOne(n: int): int {
    if n >= 1 then n else 1
  }

  /** A 64-bit counter after n increments. */
  function Incremented(counter: Uint64, n: nat): Uint64 {
    if n == 0 then counter else WrapUnsigned(Incremented(counter, n - 1) + 1)
  }

  lemma {:induction false} IncrementedIsSum(counter: Uint64, n: nat)
    ensures Incremented(counter, n) == WrapUnsigned(counter + n)
  {
    if n > 0 {
      IncrementedIsSum(counter, n - 1);
    }
  }

  ghost predicate JitterOk(env: nat -> Round) {
    forall k: nat :: Backoff.Draws(env(k).draw)
  }

  /** The sleeps after the first n attempts: full jitter below a ceiling that doubles up to a cap. */
  function Waits(env: nat -> Round, n: nat): seq<int> {
    if n == 0 then [] else Waits(env, n - 1) + [env(n).draw(Backoff.RetryCeiling(n))]
  }

  /** How many lost races led to a sleep: all but one that used up the last attempt. */
  function Retried(last: Round, cmd: Command, attempts: nat, maxAttempts: int): nat
    requires attempts >= 1
  {
    if LostRace(last, cmd) && attempts < maxAttempts then attempts else attempts - 1
  }

  /** The first n attempts all lost a race, and the caller was still waiting after each. */
  predicate AllLost(env: nat -> Round, cmd: Command, n: nat) {
    n == 0 || (AllLost(env, cmd, n - 1) && LostRace(env(n), cmd) && !env(n).cancelled)
  }

  /** None of them committed anything, and none had been refused by the wallet's rules. */
  lemma {:induction false} LostAttemptsLeaveNothing(env: nat -> Round, cmd: Command, n: nat, k: nat)
    requires AllLost(env, cmd, n) && 1 <= k <= n
    ensures LostRace(env(k), cmd) && !Commits(env(k), cmd) && Landed(env(k), cmd) == env(k).now
    ensures env(k).fate == Conflict(false) || Alone(env(k), cmd).answer.Success?
  {
    if k < n {
      LostAttemptsLeaveNothing(env, cmd, n - 1, k);
    } else {
      OnlyLostRacesAreRetried(env(k), cmd);
    }
  }

  lemma OneMoreWait(sleeps: seq<int>, env: nat -> Round, n: nat)
    ensures sleeps + Waits(env, n) + [env(n + 1).draw(Backoff.RetryCeiling(n + 1))] == sleeps + Waits(env, n + 1)
  {
  }

  class SerializableExecutor {
    const maxAttempts: int
    var retries: Uint64
    var db: Database
    var result: Option<TransferResult>  // the variable captured by the transaction body
    var sleeps: seq<int>                // how long each sleep was set to last

    constructor (db: Database)
      ensures maxAttempts == DEFAULT_MAX_ATTEMPTS && retries == 0 && this.db == db && result == None && sleeps == []
    {
      maxAttempts := DEFAULT_MAX_ATTEMPTS;
      retries := 0;
      this.db := db;
      result := None;
      sleeps := [];
    }

    /** Since the counter and the sleeps stood as given, there have been n retries. */
    ghost predicate Paused(counter: Uint64, slept: seq<int>, env: nat -> Round, n: nat)
      reads this
    {
      retries == Incremented(counter, n) && sleeps == slept + Waits(env, n)
    }

    /** One attempt on a fresh transaction. The captured result may survive an attempt that then aborts. */
    method Attempt(cmd: Command, round: Round) returns (err: Option<Error>)
      requires Valid(cmd)
      modifies this`db, this`result
      ensures err == ErrorOf(round, cmd) && (IsSerializationFailure(err) <==> LostRace(round, cmd))
      ensures db == Landed(round, cmd)
      ensures err.None? ==> result.Some? && Alone(round, cmd).answer == Success(result.value)
    {
      OnlyLostRacesAreRetried(round, cmd);
      db := round.now;
      result := None;
      if round.fate == Conflict(false) {
        return Some(SerializationFailure);
      }
      if round.fate == Broken(false) {
        return Some(Infrastructure);
      }
      var tx := new OpenTx(round.snap, round.nextId);
      var r, failed := RunBody(tx, cmd, cmd.amount, round.id, round.eventId, Snapshot, NoFault);
      if failed.Some? {
        return failed;
      }
      result := Some(r);
      if round.fate.Conflict? {
        return Some(SerializationFailure);
      }
      MergeLands(round, cmd);
      if round.fate.Clean? || round.tookEffect {
        db := Merge(round.now, round.snap, tx.db);
      }
      err := if round.fate.Clean? then None else Some(Infrastructure);
    }

    /** Counts the retry and sleeps before it, unless the caller's deadline expires first. */
    method CountAndSleep(attempt: nat, env: nat -> Round, ghost counter: Uint64, ghost slept: seq<int>)
      returns (awake: bool)
      requires attempt >= 1 && JitterOk(env) && Paused(counter, slept, env, attempt - 1)
      modifies this`retries, this`sleeps
      ensures Paused(counter, slept, env, attempt) && (awake <==> !env(attempt).cancelled)
    {
      retries := WrapUnsigned(retries + 1);
      OneMoreWait(slept, env, attempt - 1);
      var wait := Backoff.RetryWait(attempt, env(attempt).draw);
      sleeps := sleeps + [wait];
      awake := !env(attempt).cancelled;
    }

    /**
     * Runs attempts until one ends in anything but a serialization failure. All attempts before the last
     * lost a race and committed nothing, and none of them had been refused by the wallet's rules; whatever
     * the last one did is what happened, and giving up means that it, too, committed nothing.
     */
    method InTx(cmd: Command, env: nat -> Round) returns (err: Option<Error>, attempts: nat)
      requires Valid(cmd) && JitterOk(env)
      modifies this
      ensures 1 <= attempts <= AtLeastOne(maxAttempts)
      ensures AllLost(env, cmd, attempts - 1)
      ensures db == Landed(env(attempts), cmd)
      ensures !LostRace(env(attempts), cmd) ==> err == ErrorOf(env(attempts), cmd)
      ensures LostRace(env(attempts), cmd) ==>
                && err == (if attempts >= maxAttempts then Some(ConcurrencyConflict) else Some(Infrastructure))
                && (attempts >= maxAttempts || env(attempts).cancelled)
      ensures err.None? ==> result.Some? && Alone(env(attempts), cmd).answer == Success(result.value)
      ensures Paused(old(retries), old(sleeps), env, Retried(env(attempts), cmd, attempts, maxAttempts))
    {
      attempts := 1;
      while true
        invariant attempts >= 1 && (attempts > 1 ==> attempts <= maxAttempts)
        invariant AllLost(env, cmd, attempts - 1)
        invariant Paused(old(retries), old(sleeps), env, attempts - 1)
        decreases maxAttempts - attempts
      {
        err := Attempt(cmd, env(attempts));
        if !IsSerializationFailure(err) {
          return;
        }
        if attempts >= maxAttempts {
          return Some(ConcurrencyConflict), attempts;
        }
        var awake := CountAndSleep(attempts, env, old(retries), old(sleeps));
        if !awake {
          return Some(Infrastructure), attempts;
        }
        attempts := attempts + 1;
      }
    }

    /**
     * The request as the caller sees it: a success always describes the attempt that committed, on the
     * snapshot that attempt read, never one that was aborted on the way; a refusal by the wallet's rules
     * ends the loop at once; giving up and refusals leave the tables as others left them.
     */
    method Transfer(cmd: Command, env: nat -> Round) returns (answer: Answer, attempts: nat)
      requires JitterOk(env)
      modifies this
      ensures !Valid(cmd) ==>
                && attempts == 0 && db == old(db)
                && answer == Refused(if cmd.amount <= 0 then InvalidAmount else SameAccount)
      ensures Valid(cmd) ==> 1 <= attempts <= AtLeastOne(maxAttempts)
      ensures forall k :: 1 <= k < attempts ==>
                            && !Commits(env(k), cmd)
                            && (env(k).fate == Conflict(false) || Alone(env(k), cmd).answer.Success?)
      ensures Valid(cmd) && !LostRace(env(attempts), cmd) ==>
                answer == match ErrorOf(env(attempts), cmd)
                          case Some(e) => Refused(e)
                          case None => Alone(env(attempts), cmd).answer
      ensures Valid(cmd) && env(attempts).fate.Clean? ==> answer == Alone(env(attempts), cmd).answer
      ensures Valid(cmd) && LostRace(env(attempts), cmd) ==>
                answer == Refused(if attempts >= maxAttempts then ConcurrencyConflict else Infrastructure)
      ensures Valid(cmd) ==> db == Landed(env(attempts), cmd)
      ensures answer.Success? ==>
                && answer == Alone(env(attempts), cmd).answer && Commits(env(attempts), cmd)
                && db == Landed(env(attempts), cmd)
      ensures answer == Refused(ConcurrencyConflict) ==> db == env(attempts).now && !Commits(env(attempts), cmd)
      ensures answer.Refused? && answer.error !in {Infrastructure, ConcurrencyConflict} && Valid(cmd) ==>
                answer == Alone(env(attempts), cmd).answer && db == env(attempts).now
    {
      attempts := 0;
      var amount := NewTransferAmount(cmd.amount);
      if amount.Err? {
        return Refused(amount.error), attempts;
      }
      if cmd.from == cmd.to {
        return Refused(SameAccount), attempts;
      }
      var err;
      err, attempts := InTx(cmd, env);
      forall k | 1 <= k < attempts
        ensures !Commits(env(k), cmd) && (env(k).fate == Conflict(false) || Alone(env(k), cmd).answer.Success?)
      {
        LostAttemptsLeaveNothing(env, cmd, attempts - 1, k);
      }
      OnlyLostRacesAreRetried(env(attempts), cmd);
      if err.Some? {
        return Refused(err.value), attempts;
      }
      answer := Success(result.value);
    }
  }
}
