/**
 * One poll of the relay, as written: up to batchSize rows, one transaction each, oldest ready row first,
 * skipping rows that other relays hold, while those relays and new events keep changing the outbox.
 */
module RelayPoll {
  import opened Core
  import opened Paths
  import opened Relay
  import Backoff

  datatype Fault =
    | NoFault
    | FailsEarly     // begin or select fails: no row is claimed
    | FailsLate      // the update or the commit fails: nothing is kept, though Publish was called
    | AckLost        // the commit takes effect, but an error is reported

  /**
   * What one transaction of the poll meets: the database clock, what others have done to the outbox
   * since the previous transaction and do while this one is open, the rows others hold locked, the
   * publisher's answer, the jitter it draws, and any fault.
   */
  datatype Round = Round(
    now: int, since: Outbox -> Outbox, during: Outbox -> Outbox, locked: set<Uuid>,
    delivers: bool, draw: int -> int, fault: Fault)

  /** What others may do: rows stay, published ones for good, and new rows may arrive. */
  ghost predicate OthersMay(before: Outbox, after: Outbox) {
    forall id :: id in before ==> id in after && RowKept(before[id], after[id])
  }

  ghost predicate Lawful(round: Round) {
    Backoff.Draws(round.draw) && forall m :: OthersMay(m, round.since(m)) && OthersMay(m, round.during(m))
  }

  ghost predicate AllLawful(env: nat -> Round) {
    forall k: nat :: Lawful(env(k))
  }

  predicate Candidate(outbox: Outbox, now: int, locked: set<Uuid>, id: Uuid) {
    id in outbox && Ready(outbox[id], now) && id !in locked
  }

  /** ORDER BY created_at LIMIT 1 over the ready rows nobody else holds; ties go either way. */
  ghost predicate Oldest(outbox: Outbox, now: int, locked: set<Uuid>, id: Uuid) {
    && Candidate(outbox, now, locked, id)
    && forall other :: Candidate(outbox, now, locked, other) ==> outbox[id].createdAt <= outbox[other].createdAt
  }

  /** Scans the ready rows for the oldest one that is not locked. */
  method SelectOldest(outbox: Outbox, now: int, locked: set<Uuid>) returns (pick: Option<Uuid>)
    ensures pick.None? <==> forall id :: !Candidate(outbox, now, locked, id)
    ensures pick.Some? ==> Oldest(outbox, now, locked, pick.value)
  {
    pick := None;
    var left := outbox.Keys;
    while left != {}
      invariant left <= outbox.Keys
      invariant pick.None? ==> forall id :: id in outbox.Keys - left ==> !Candidate(outbox, now, locked, id)
      invariant pick.Some? ==>
                  && Candidate(outbox, now, locked, pick.value)
                  && forall id :: id in outbox.Keys - left && Candidate(outbox, now, locked, id) ==>
                                    outbox[pick.value].createdAt <= outbox[id].createdAt
      decreases left
    {
      var id :| id in left;
      left := left - {id};
      if Candidate(outbox, now, locked, id) && (pick.None? || outbox[id].createdAt < outbox[pick.value].createdAt) {
        pick := Some(id);
      }
    }
  }

  // ---- The poll's own transactions ----

  /** One transaction of this poll: the row it claimed, and the outbox just before and after its outcome. */
  datatype OwnTx = OwnTx(id: Uuid, before: Outbox, after: Outbox)

  /** It changes at most the row it claimed, which was unpublished, and that only by recording an outcome. */
  ghost predicate OwnStep(tx: OwnTx) {
    && tx.id in tx.before && !tx.before[tx.id].published
    && (|| tx.after == tx.before
        || tx.after == tx.before[tx.id := Outcome(tx.before[tx.id], MarkedPublished)]
        || exists at :: tx.after == tx.before[tx.id := Outcome(tx.before[tx.id], MarkedFailed(at))])
  }

  /** It turned its row from unpublished to published. */
  predicate Publishes(tx: OwnTx) {
    tx.id in tx.before && tx.id in tx.after && !tx.before[tx.id].published && tx.after[tx.id].published
  }

  /** The outbox went from `start` to `end` by these transactions and, before, between and after them, by others. */
  ghost predicate History(start: Outbox, own: seq<OwnTx>, end: Outbox)
    decreases own
  {
    if own == [] then OthersMay(start, end)
    else
      var last := own[|own| - 1];
      History(start, own[..|own| - 1], last.before) && OwnStep(last) && OthersMay(last.after, end)
  }

  function CountPublished(own: seq<OwnTx>): nat {
    if own == [] then 0 else CountPublished(own[..|own| - 1]) + if Publishes(own[|own| - 1]) then 1 else 0
  }

  ghost function PublishedIds(own: seq<OwnTx>): set<Uuid> {
    set i | 0 <= i < |own| && Publishes(own[i]) :: own[i].id
  }

  function Ids(own: seq<OwnTx>): seq<Uuid> {
    if own == [] then [] else Ids(own[..|own| - 1]) + [own[|own| - 1].id]
  }

  lemma {:induction false} IdsLength(own: seq<OwnTx>)
    ensures |Ids(own)| == |own|
  {
    if own != [] {
      IdsLength(own[..|own| - 1]);
    }
  }

  lemma OthersCompose(a: Outbox, b: Outbox, c: Outbox)
    requires OthersMay(a, b) && OthersMay(b, c)
    ensures OthersMay(a, c)
  {
  }

  lemma HistoryGoesOn(start: Outbox, own: seq<OwnTx>, end: Outbox, later: Outbox)
    requires History(start, own, end) && OthersMay(end, later)
    ensures History(start, own, later)
  {
    OthersCompose(if own == [] then start else own[|own| - 1].after, end, later);
  }

  lemma HistoryGrows(start: Outbox, own: seq<OwnTx>, tx: OwnTx)
    requires History(start, own, tx.before) && OwnStep(tx)
    ensures History(start, own + [tx], tx.after)
    ensures CountPublished(own + [tx]) == CountPublished(own) + if Publishes(tx) then 1 else 0
  {
    assert (own + [tx])[..|own|] == own;
  }

  lemma OwnStepKeepsRows(tx: OwnTx)
    requires OwnStep(tx)
    ensures OthersMay(tx.before, tx.after)
  {
  }

  /** Whatever the poll and its rivals do, no row is lost and published is never undone. */
  lemma {:induction false} HistoryKeepsRows(start: Outbox, own: seq<OwnTx>, end: Outbox)
    requires History(start, own, end)
    ensures OthersMay(start, end)
    decreases own
  {
    if own != [] {
      var last := own[|own| - 1];
      HistoryKeepsRows(start, own[..|own| - 1], last.before);
      OwnStepKeepsRows(last);
      OthersCompose(start, last.before, last.after);
      OthersCompose(start, last.after, end);
    }
  }

  /** A row this poll published is still published at the end. */
  lemma {:induction false} PublishedStays(start: Outbox, own: seq<OwnTx>, end: Outbox, id: Uuid)
    requires History(start, own, end) && id in PublishedIds(own)
    ensures id in end && end[id].published
    decreases own
  {
    var front, last := own[..|own| - 1], own[|own| - 1];
    var i :| 0 <= i < |own| && Publishes(own[i]) && own[i].id == id;
    if i < |own| - 1 {
      assert front[i] == own[i];
      PublishedStays(start, front, last.before, id);
      OwnStepKeepsRows(last);
    }
  }

  lemma PublishedIdsSnoc(own: seq<OwnTx>, tx: OwnTx)
    ensures PublishedIds(own + [tx]) == PublishedIds(own) + if Publishes(tx) then {tx.id} else {}
  {
    assert forall i :: 0 <= i < |own| ==> (own + [tx])[i] == own[i];
    assert (own + [tx])[|own|] == tx;
  }

  /** So no row is counted twice: the count is the number of rows this poll itself moved to published. */
  lemma {:induction false} CountsDistinctRows(start: Outbox, own: seq<OwnTx>, end: Outbox)
    requires History(start, own, end)
    ensures CountPublished(own) == |PublishedIds(own)|
    decreases own
  {
    if own != [] {
      var front, last := own[..|own| - 1], own[|own| - 1];
      CountsDistinctRows(start, front, last.before);
      PublishedIdsSnoc(front, last);
      assert own == front + [last];
      if Publishes(last) && last.id in PublishedIds(front) {
        PublishedStays(start, front, last.before, last.id);
        assert false;
      }
    }
  }

  // ---- A poll nobody disturbs ----

  ghost function ReadySet(outbox: Outbox, now: int): set<Uuid> {
    set id | id in outbox && Ready(outbox[id], now)
  }

  /** Nobody else touches the outbox or holds a row. */
  ghost predicate Alone(round: Round) {
    round.locked == {} && forall m :: round.since(m) == m && round.during(m) == m
  }

  /** No rival, every Publish succeeds, nothing fails, and no row becomes ready while the poll runs. */
  ghost predicate Calm(outbox: Outbox, batchSize: int, env: nat -> Round) {
    forall k: nat :: k < batchSize ==>
                       && Alone(env(k)) && env(k).delivers && env(k).fault == NoFault
                       && ReadySet(outbox, env(k).now) == ReadySet(outbox, env(0).now)
  }

  predicate Distinct(ids: seq<Uuid>) {
    forall i, j :: 0 <= i < j < |ids| ==> ids[i] != ids[j]
  }

  /** Rows of `ready`, each once, in created_at order, with none left out that is older than one taken. */
  ghost predicate OldestFirst(outbox: Outbox, ready: set<Uuid>, done: seq<Uuid>)
    requires ready <= outbox.Keys
  {
    && Distinct(done)
    && (forall id :: id in done ==> id in ready)
    && (forall i, j :: 0 <= i < j < |done| ==> outbox[done[i]].createdAt <= outbox[done[j]].createdAt)
    && (forall i, id :: 0 <= i < |done| && id in ready && id !in done ==>
                          outbox[done[i]].createdAt <= outbox[id].createdAt)
  }

  /** Exactly the rows in `done` have been published, and no other row differs. */
  ghost predicate CalmProgress(start: Outbox, ready: set<Uuid>, outbox: Outbox, done: seq<Uuid>)
    requires ready <= start.Keys
  {
    && OldestFirst(start, ready, done) && outbox.Keys == start.Keys
    && forall id :: id in start ==> outbox[id] == if id in done then Outcome(start[id], MarkedPublished) else start[id]
  }

  lemma CalmOne(start: Outbox, ready: set<Uuid>, outbox: Outbox, done: seq<Uuid>, now: int, id: Uuid)
    requires ready == ReadySet(start, now) && CalmProgress(start, ready, outbox, done) && Oldest(outbox, now, {}, id)
    ensures CalmProgress(start, ready, outbox[id := Outcome(outbox[id], MarkedPublished)], done + [id])
  {
    assert id !in done && id in ready;
    forall other | other in ready && other !in done
      ensures start[id].createdAt <= start[other].createdAt
    {
      assert Candidate(outbox, now, {}, other);
    }
  }

  lemma {:induction false} DistinctCount(ids: seq<Uuid>)
    requires Distinct(ids)
    ensures |set id | id in ids| == |ids|
  {
    if ids != [] {
      var front, last := ids[..|ids| - 1], ids[|ids| - 1];
      DistinctCount(front);
      assert (set id | id in ids) == (set id | id in front) + {last};
    }
  }

  lemma SubsetCount(a: set<Uuid>, b: set<Uuid>)
    requires a <= b
    ensures |a| <= |b|
    ensures |a| == |b| ==> a == b
  {
    assert b == a + (b - a);
  }

  /** The poll stopped because its batch was full or because nothing was ready any more. */
  lemma CalmCount(start: Outbox, ready: set<Uuid>, outbox: Outbox, done: seq<Uuid>, batchSize: int)
    requires ready <= start.Keys && CalmProgress(start, ready, outbox, done)
    requires |done| <= batchSize || |done| == 0
    requires |done| >= batchSize || forall id :: id in ready ==> id in done
    ensures |done| == if batchSize <= 0 then 0 else Min(batchSize, |ready|)
  {
    DistinctCount(done);
    var taken := set id | id in done;
    SubsetCount(taken, ready);
    if |done| < batchSize {
      assert taken == ready;
    }
  }

  /** Transaction by transaction, an undisturbed poll publishes the oldest ready row and nothing else happens. */
  ghost predicate CalmHistory(start: Outbox, own: seq<OwnTx>, end: Outbox, env: nat -> Round)
    decreases own
  {
    if own == [] then end == start
    else
      var n := |own| - 1;
      && CalmHistory(start, own[..n], own[n].before, env)
      && Oldest(own[n].before, env(n).now, {}, own[n].id)
      && end == own[n].after == own[n].before[own[n].id := Outcome(own[n].before[own[n].id], MarkedPublished)]
  }

  lemma {:induction false} CalmHistoryProgress(
    start: Outbox, own: seq<OwnTx>, end: Outbox, env: nat -> Round, batchSize: int)
    requires Calm(start, batchSize, env) && |own| <= batchSize && CalmHistory(start, own, end, env)
    ensures CalmProgress(start, ReadySet(start, env(0).now), end, Ids(own))
    decreases own
  {
    if own != [] {
      var n := |own| - 1;
      CalmHistoryProgress(start, own[..n], own[n].before, env, batchSize);
      CalmOne(start, ReadySet(start, env(0).now), own[n].before, Ids(own[..n]), env(n).now, own[n].id);
      assert Ids(own) == Ids(own[..n]) + [own[n].id];
    }
  }

  /** An undisturbed poll that filled its batch or found nothing more to claim has published what it should. */
  lemma CalmPoll(start: Outbox, own: seq<OwnTx>, end: Outbox, env: nat -> Round, batchSize: int)
    requires Calm(start, batchSize, env) && CalmHistory(start, own, end, env)
    requires |own| <= batchSize || own == []
    requires |own| < batchSize ==> forall id :: !Candidate(end, env(|own|).now, {}, id)
    ensures var ready := ReadySet(start, env(0).now);
            && CalmProgress(start, ready, end, Ids(own))
            && |own| == if batchSize <= 0 then 0 else Min(batchSize, |ready|)
  {
    var ready := ReadySet(start, env(0).now);
    if batchSize > 0 {
      CalmHistoryProgress(start, own, end, env, batchSize);
    }
    if |own| < batchSize {
      forall id | id in ready
        ensures id in Ids(own)
      {
        assert id in ReadySet(start, env(|own|).now);
        assert !Candidate(end, env(|own|).now, {}, id);
      }
    }
    IdsLength(own);
    CalmCount(start, ready, end, Ids(own), batchSize);
  }

  // ---- What a poll is expected to do ----

  /** The row as the transaction of this round leaves it. */
  function Recorded(round: Round, row: Row): Row {
    if round.fault == FailsLate then row
    else if round.delivers then row.(attempts := row.attempts + 1, published := true)
    else row.(attempts := row.attempts + 1,
              nextAttemptAt := round.now + round.draw(Backoff.RelayCeiling(row.attempts + 1)))
  }

  /** A transaction that met this round on the outbox `found` claimed the oldest row and recorded what came of it. */
  ghost predicate Processed(round: Round, found: Outbox, tx: OwnTx) {
    && round.fault != FailsEarly && Oldest(found, round.now, round.locked, tx.id)
    && tx.before == round.during(found)[tx.id := found[tx.id]]
    && tx.after == tx.before[tx.id := Recorded(round, found[tx.id])]
  }

  /** The outbox as the transactions of the poll left it. */
  function Left(start: Outbox, own: seq<OwnTx>): Outbox {
    if own == [] then start else own[|own| - 1].after
  }

  /** Each transaction met the round of its number, on the outbox that the one before and then others had left. */
  ghost predicate Polled(start: Outbox, own: seq<OwnTx>, env: nat -> Round)
    decreases own
  {
    own == [] ||
    var n := |own| - 1;
    Polled(start, own[..n], env) && Processed(env(n), env(n).since(Left(start, own[..n])), own[n])
  }

  /** What the publisher is told of a row. */
  function Told(id: Uuid, row: Row): Event {
    Event(id, row.eventType, row.payload, row.attempts)
  }

  /** What the publisher was handed: each claimed row as it was found. */
  function Handed(own: seq<OwnTx>): seq<Event> {
    if own == [] then []
    else
      var tx := own[|own| - 1];
      Handed(own[..|own| - 1]) + if tx.id in tx.before then [Told(tx.id, tx.before[tx.id])] else []
  }

  /** How many of the first n rounds delivered a row and said so. */
  function Reported(env: nat -> Round, n: nat): nat {
    if n == 0 then 0 else Reported(env, n - 1) + if env(n - 1).delivers && env(n - 1).fault == NoFault then 1 else 0
  }

  predicate NoFaults(env: nat -> Round, n: nat) {
    n == 0 || (NoFaults(env, n - 1) && env(n - 1).fault == NoFault)
  }

  /**
   * How a poll ends. Without an error, no round had a fault and the batch is full or nothing was left to
   * claim; with one, the last round failed, before or after it had claimed a row.
   */
  ghost predicate Ended(
    start: Outbox, own: seq<OwnTx>, end: Outbox, batchSize: int, env: nat -> Round, err: Option<Error>)
  {
    var n, left := |own|, Left(start, own);
    match err
    case None =>
      && NoFaults(env, n)
      && if n >= batchSize then end == left
         else end == env(n).since(left) && env(n).fault != FailsEarly && NoCandidate(end, env(n))
    case Some(e) =>
      && e == Infrastructure
      && ((n < batchSize && NoFaults(env, n) && env(n).fault == FailsEarly && end == env(n).since(left))
          || (n > 0 && NoFaults(env, n - 1) && env(n - 1).fault in {FailsLate, AckLost} && end == left))
  }

  /**
   * Among the changes of others the poll made only its own; each row it published it counted once, and
   * only with an error can it have published one more than it says.
   */
  ghost predicate RightCount(start: Outbox, own: seq<OwnTx>, end: Outbox, published: nat, err: Option<Error>) {
    && History(start, own, end) && CountPublished(own) == |PublishedIds(own)|
    && published <= CountPublished(own) <= published + if err.Some? then 1 else 0
  }

  /** The poll published exactly the oldest ready rows, as many as fit the batch, in order of age. */
  ghost predicate OldestPublished(
    start: Outbox, own: seq<OwnTx>, end: Outbox, batchSize: int, env: nat -> Round, published: nat, err: Option<Error>)
  {
    var ready := ReadySet(start, env(0).now);
    && err.None? && published == |own| && CalmProgress(start, ready, end, Ids(own))
    && published == if batchSize <= 0 then 0 else Min(batchSize, |ready|)
  }

  ghost predicate NoCandidate(outbox: Outbox, round: Round) {
    forall id :: !Candidate(outbox, round.now, round.locked, id)
  }

  lemma PolledGrows(start: Outbox, own: seq<OwnTx>, tx: OwnTx, env: nat -> Round)
    requires Polled(start, own, env) && Processed(env(|own|), env(|own|).since(Left(start, own)), tx)
    ensures Polled(start, own + [tx], env) && Left(start, own + [tx]) == tx.after
    ensures forall calls :: calls + Handed(own) + [Told(tx.id, tx.before[tx.id])] == calls + Handed(own + [tx])
  {
    assert (own + [tx])[..|own|] == own;
  }

  /** What one round changes: nothing of the poll's own, or one claimed row, one Publish call and one transaction. */
  ghost predicate OneRound(
    round: Round, former: Outbox, outbox: Outbox, made: seq<Event>, calls: seq<Event>,
    done: seq<OwnTx>, own: seq<OwnTx>, claimed: bool)
  {
    var found := round.since(former);
    if claimed then
      && |own| == |done| + 1 && own == done + [own[|done|]]
      && Processed(round, found, own[|done|]) && outbox == own[|done|].after
      && calls == made + [Told(own[|done|].id, found[own[|done|].id])]
    else
      && own == done && outbox == found && calls == made
      && (round.fault != FailsEarly ==> NoCandidate(found, round))
  }

  /** The poll so far: its transactions, the outbox they left and the calls they made. */
  ghost predicate Underway(
    start: Outbox, before: seq<Event>, env: nat -> Round, outbox: Outbox, calls: seq<Event>, own: seq<OwnTx>)
  {
    Polled(start, own, env) && outbox == Left(start, own) && calls == before + Handed(own)
  }

  /** A round that failed or found nothing to claim ends the poll. */
  lemma RoundEnds(
    start: Outbox, before: seq<Event>, env: nat -> Round, former: Outbox, outbox: Outbox,
    made: seq<Event>, calls: seq<Event>, done: seq<OwnTx>, own: seq<OwnTx>, claimed: bool,
    batchSize: int, err: Option<Error>)
    requires Underway(start, before, env, former, made, done) && NoFaults(env, |done|) && |done| < batchSize
    requires OneRound(env(|done|), former, outbox, made, calls, done, own, claimed)
    requires !(claimed && env(|done|).fault == NoFault)
    requires err == if env(|done|).fault == FailsEarly || claimed then Some(Infrastructure) else None
    ensures Polled(start, own, env) && Ended(start, own, outbox, batchSize, env, err)
    ensures |own| <= batchSize && calls == before + Handed(own) && Reported(env, |own|) == Reported(env, |done|)
  {
    RoundGoesOn(start, before, env, former, outbox, made, calls, done, own, claimed);
  }

  lemma RoundGoesOn(
    start: Outbox, before: seq<Event>, env: nat -> Round, former: Outbox, outbox: Outbox,
    made: seq<Event>, calls: seq<Event>, done: seq<OwnTx>, own: seq<OwnTx>, claimed: bool)
    requires Underway(start, before, env, former, made, done)
    requires OneRound(env(|done|), former, outbox, made, calls, done, own, claimed)
    ensures claimed ==> Underway(start, before, env, outbox, calls, own)
    ensures !claimed ==> Underway(start, before, env, former, made, own) && outbox == env(|own|).since(Left(start, own))
  {
    if claimed {
      PolledGrows(start, done, own[|done|], env);
    }
  }

  lemma RecordedIsOwnStep(round: Round, found: Outbox, tx: OwnTx)
    requires Lawful(round) && Processed(round, found, tx)
    ensures OwnStep(tx) && OthersMay(found, tx.before)
    ensures Publishes(tx) <==> round.delivers && round.fault != FailsLate
  {
    assert OthersMay(found, round.during(found));
    var row := found[tx.id];
    if round.fault == FailsLate {
      assert tx.after == tx.before;
    } else if !round.delivers {
      var at := round.now + round.draw(Backoff.RelayCeiling(row.attempts + 1));
      assert tx.after == tx.before[tx.id := Outcome(tx.before[tx.id], MarkedFailed(at))];
    }
  }

  lemma RoundContinues(start: Outbox, own: seq<OwnTx>, round: Round, tx: OwnTx)
    requires Lawful(round) && History(start, own, Left(start, own))
    requires Processed(round, round.since(Left(start, own)), tx)
    ensures History(start, own + [tx], tx.after)
  {
    var left := Left(start, own);
    var found := round.since(left);
    assert OthersMay(left, found);
    RecordedIsOwnStep(round, found, tx);
    HistoryGoesOn(start, own, left, found);
    HistoryGoesOn(start, own, found, tx.before);
    HistoryGrows(start, own, tx);
  }

  /** The rounds a poll met, taken together with what others did, are one history of the outbox. */
  lemma {:induction false} PolledHistory(start: Outbox, own: seq<OwnTx>, env: nat -> Round)
    requires Polled(start, own, env) && AllLawful(env)
    ensures History(start, own, Left(start, own))
    decreases own
  {
    if own != [] {
      var n := |own| - 1;
      var front := own[..n];
      PolledHistory(start, front, env);
      RoundContinues(start, front, env(n), own[n]);
      assert own == front + [own[n]];
    }
  }

  /** What a poll reports is what it moved to published, short of at most one row, and that only with an error. */
  lemma {:induction false} ReportedCounts(start: Outbox, own: seq<OwnTx>, env: nat -> Round)
    requires Polled(start, own, env) && AllLawful(env) && NoFaults(env, |own|)
    ensures CountPublished(own) == Reported(env, |own|)
    decreases own
  {
    if own != [] {
      var n := |own| - 1;
      var front := own[..n];
      ReportedCounts(start, front, env);
      RecordedIsOwnStep(env(n), env(n).since(Left(start, front)), own[n]);
    }
  }

  lemma {:induction false} CalmPolled(start: Outbox, own: seq<OwnTx>, env: nat -> Round, batchSize: int)
    requires Calm(start, batchSize, env) && Polled(start, own, env) && |own| <= batchSize
    ensures CalmHistory(start, own, Left(start, own), env) && Reported(env, |own|) == |own|
    decreases own
  {
    if own != [] {
      var n := |own| - 1;
      var front := own[..n];
      CalmPolled(start, front, env, batchSize);
      var left := Left(start, front);
      assert Alone(env(n)) && env(n).since(left) == left && env(n).during(left) == left;
      assert own[n].before == left;
    }
  }

  class OutboxRelay {
    var outbox: Outbox
    var calls: seq<Event>        // the Publish calls made, in order
    ghost var own: seq<OwnTx>    // the transaction of each of them

    constructor (outbox: Outbox)
      ensures this.outbox == outbox && calls == [] && own == []
    {
      this.outbox, calls, own := outbox, [], [];
    }

    /**
     * Claims and processes one row on the outbox as others left it. When nothing went wrong and an
     * unlocked row was ready, it was the oldest, it was published exactly if the publisher accepted it,
     * and its attempt was counted either way; no other row is touched by this transaction.
     */
    method ProcessOne(round: Round) returns (ok: bool, published: bool, err: Option<Error>, ghost claimed: bool)
      requires Lawful(round)
      modifies this
      ensures OneRound(round, old(outbox), outbox, old(calls), calls, old(own), own, claimed)
      ensures err == if round.fault == FailsEarly || (claimed && round.fault != NoFault) then Some(Infrastructure)
                     else None
      ensures ok <==> claimed && round.fault == NoFault
      ensures published <==> ok && round.delivers
    {
      ok, published, err, claimed := false, false, None, false;
      outbox := round.since(outbox);
      if round.fault == FailsEarly {
        err := Some(Infrastructure);
        return;
      }
      var pick := SelectOldest(outbox, round.now, round.locked);
      if pick.None? {
        return;
      }
      ghost var tx;
      err, tx := PublishAndRecord(round, pick.value);
      claimed := true;
      ok := err.None?;
      published := ok && round.delivers;
    }

    /** The rest of the transaction, once a row is claimed: publish it, record the outcome, commit. */
    method PublishAndRecord(round: Round, id: Uuid) returns (err: Option<Error>, ghost tx: OwnTx)
      requires Lawful(round) && round.fault != FailsEarly && Oldest(outbox, round.now, round.locked, id)
      modifies this
      ensures own == old(own) + [tx] && tx.id == id && Processed(round, old(outbox), tx) && outbox == tx.after
      ensures calls == old(calls) + [Told(id, old(outbox)[id])]
      ensures err == if round.fault == NoFault then None else Some(Infrastructure)
    {
      var row := outbox[id];
      calls := calls + [EventOf(id, row)];
      outbox := round.during(outbox)[id := row];  // the row lock keeps everyone else off this row
      ghost var held := outbox;
      err := None;
      if round.fault == FailsLate {
        err := Some(Infrastructure);
      } else {
        if round.delivers {
          outbox := outbox[id := Outcome(row, MarkedPublished)];
        } else {
          var at := Backoff.NextAttempt(row.attempts + 1, round.now, round.draw);
          outbox := outbox[id := Outcome(row, MarkedFailed(at))];
        }
        if round.fault == AckLost {
          err := Some(Infrastructure);
        }
      }
      assert round.fault == FailsLate ==> held == held[id := row];
      tx := OwnTx(id, held, outbox);
      own := own + [tx];
    }

    /**
     * A whole poll among rivals, one transaction per round until the batch is full, nothing is left to
     * claim or a round fails. It reports how many rows it published; only when it also reports an error
     * can one more have been published. Undisturbed, it publishes exactly the oldest ready rows, as many
     * as fit the batch, in order of age.
     */
    method PollOnce(batchSize: int, env: nat -> Round) returns (published: nat, err: Option<Error>)
      requires AllLawful(env)
      modifies this
      ensures |own| <= if batchSize > 0 then batchSize else 0
      ensures Polled(old(outbox), own, env) && Ended(old(outbox), own, outbox, batchSize, env, err)
      ensures published == Reported(env, |own|)
      ensures calls == old(calls) + Handed(own)
      ensures RightCount(old(outbox), own, outbox, published, err)
      ensures Calm(old(outbox), batchSize, env) ==>
                OldestPublished(old(outbox), own, outbox, batchSize, env, published, err)
    {
      ghost var start, before := outbox, calls;
      own := [];
      published, err := 0, None;
      var i := 0;
      while i < batchSize
        invariant 0 <= i && (batchSize > 0 ==> i <= batchSize) && (batchSize <= 0 ==> i == 0)
        invariant |own| == i && Underway(start, before, env, outbox, calls, own)
        invariant NoFaults(env, i) && published == Reported(env, i)
      {
        ghost var former, made, done := outbox, calls, own;
        var ok, didPublish, failed;
        ghost var claimed;
        ok, didPublish, failed, claimed := ProcessOne(env(i));
        RoundGoesOn(start, before, env, former, outbox, made, calls, done, own, claimed);
        if !ok {
          RoundEnds(start, before, env, former, outbox, made, calls, done, own, claimed, batchSize, failed);
          PollAccount(start, own, outbox, batchSize, env, failed);
        }
        if failed.Some? {
          err := failed;
          return;
        }
        if !ok {
          return;
        }
        if didPublish {
          published := published + 1;
        }
        i := i + 1;
      }
      PollAccount(start, own, outbox, batchSize, env, err);
    }
  }

  /** A poll's account: a history in which it touches only its own rows, and a count that is right. */
  lemma PollAccount(start: Outbox, own: seq<OwnTx>, end: Outbox, batchSize: int, env: nat -> Round, err: Option<Error>)
    requires AllLawful(env) && Polled(start, own, env) && Ended(start, own, end, batchSize, env, err)
    requires |own| <= if batchSize > 0 then batchSize else 0
    ensures RightCount(start, own, end, Reported(env, |own|), err)
    ensures Calm(start, batchSize, env) ==>
              OldestPublished(start, own, end, batchSize, env, Reported(env, |own|), err)
  {
    var n, left := |own|, Left(start, own);
    PolledHistory(start, own, env);
    if end != left {
      assert OthersMay(left, env(n).since(left));
      HistoryGoesOn(start, own, left, end);
    }
    CountsDistinctRows(start, own, end);
    if NoFaults(env, n) {
      ReportedCounts(start, own, env);
    } else {
      LastRoundUncounted(start, own, env);
    }
    if Calm(start, batchSize, env) {
      CalmPollExact(start, own, end, batchSize, env, err);
    }
  }

  lemma LastRoundUncounted(start: Outbox, own: seq<OwnTx>, env: nat -> Round)
    requires AllLawful(env) && Polled(start, own, env)
    requires |own| > 0 && NoFaults(env, |own| - 1) && env(|own| - 1).fault != NoFault
    ensures Reported(env, |own|) <= CountPublished(own) <= Reported(env, |own|) + 1
  {
    var n := |own| - 1;
    var front := own[..n];
    ReportedCounts(start, front, env);
  }

  /** With no rival, a publisher that accepts everything and no fault, the poll publishes exactly what it should. */
  lemma CalmPollExact(
    start: Outbox, own: seq<OwnTx>, end: Outbox, batchSize: int, env: nat -> Round, err: Option<Error>)
    requires Calm(start, batchSize, env) && Polled(start, own, env) && Ended(start, own, end, batchSize, env, err)
    requires |own| <= if batchSize > 0 then batchSize else 0
    ensures OldestPublished(start, own, end, batchSize, env, Reported(env, |own|), err)
  {
    var n := |own|;
    if batchSize > 0 {
      CalmPolled(start, own, env, batchSize);
    }
    if n < batchSize {
      var left := Left(start, own);
      assert Alone(env(n)) && env(n).since(left) == left;
    }
    CalmPoll(start, own, end, env, batchSize);
  }

  // ---- A poll's transaction is a run of the relay protocol ----

  /**
   * What a transaction of a poll does while nobody else acts, an idle relay does step by step in the
   * protocol: claim, publish, return, record, commit; or, if its transaction fails late, claim, publish,
   * return and lose everything but the call.
   */
  lemma TransactionIsRelayRun(s: State, w: nat, round: Round, tx: OwnTx) returns (s': State)
    requires Lawful(round) && Processed(round, s.outbox, tx) && round.during(s.outbox) == s.outbox
    requires s.now == round.now && s.locks.Keys <= round.locked && w in s.workers && s.workers[w].pc == Idle
    ensures Reaches(Step, s, s') && s'.outbox == tx.after
    ensures s'.started == s.started + [Told(tx.id, s.outbox[tx.id])]
    ensures s'.delivered == s.delivered + if round.delivers then [Told(tx.id, s.outbox[tx.id])] else []
  {
    var id, row := tx.id, s.outbox[tx.id];
    assert tx.before == s.outbox;
    var s3 := CallsAndReturns(s, w, id, round.delivers);
    if round.fault == FailsLate {
      s' := Next(s3, Crash(w));
      Takes(s, s3, Crash(w));
      assert tx.after == tx.before;
    } else {
      var at := round.now + round.draw(Backoff.RelayCeiling(row.attempts + 1));
      var s4 := Next(s3, Mark(w, at));
      Takes(s, s3, Mark(w, at));
      s' := Next(s4, Commit(w));
      Takes(s, s4, Commit(w));
    }
  }

  lemma CallsAndReturns(s: State, w: nat, id: Uuid, ok: bool) returns (s': State)
    requires w in s.workers && s.workers[w].pc == Idle && id in s.outbox && Ready(s.outbox[id], s.now) && id !in s.locks
    ensures Reaches(Step, s, s') && s'.outbox == s.outbox && s'.now == s.now && w in s'.workers
    ensures s'.workers[w] == Worker(if ok then Relay.Delivered else NotDelivered, Told(id, s.outbox[id]), true)
    ensures s'.started == s.started + [Told(id, s.outbox[id])]
    ensures s'.delivered == s.delivered + if ok then [Told(id, s.outbox[id])] else []
  {
    ReachesItself(Step, s);
    var s1 := Next(s, Claim(w, id));
    Takes(s, s, Claim(w, id));
    var s2 := Next(s1, Publish(w));
    Takes(s, s1, Publish(w));
    s' := Next(s2, Return(w, ok));
    Takes(s, s2, Return(w, ok));
  }
}
