/**
 * The outbox relay as a state machine: any number of relay processes claim pending rows with FOR
 * UPDATE SKIP LOCKED, publish them, and record the outcome in the same transaction, one row per
 * transaction, while new rows keep arriving, processes crash at any point, and database sessions are
 * lost under processes that keep running.
 */
module Relay {
  import opened Core
  import opened Paths
  import opened RowLocks
  import opened Wallet
  import Backoff

  /** An outbox row; `published` stands for a non-null published_at. */
  datatype Row = Row(
    eventType: string, payload: Payload, createdAt: int, published: bool, attempts: nat, nextAttemptAt: int)

  type Outbox = map<Uuid, Row>

  /** What is handed to the publisher. */
  datatype Event = Event(id: Uuid, eventType: string, payload: Payload, attempts: nat)

  datatype Pc = Idle | Claimed | Publishing | Delivered | NotDelivered | MarkedPublished | MarkedFailed(at: int)

  /** A relay process; `session` tells whether it still has its transaction, and with it the row lock. */
  datatype Worker = Worker(pc: Pc, event: Event, session: bool)

  function HeldBy(w: Worker): set<Uuid> {
    if w.pc != Idle && w.session then {w.event.id} else {}
  }

  /**
   * `started` and `delivered` are the Publish calls begun and those that returned success; `outcomes`
   * lists the row of every committed relay transaction.
   */
  datatype State = State(
    outbox: Outbox, locks: map<Uuid, nat>, workers: map<nat, Worker>, now: int,
    started: seq<Event>, delivered: seq<Event>, outcomes: seq<Uuid>)

  predicate Init(s: State) {
    && s.outbox == map[] && s.locks == map[] && s.workers == map[]
    && s.started == [] && s.delivered == [] && s.outcomes == []
  }

  const NO_EVENT := Event(Uuid([]), "", Payload(Uuid([]), Uuid([]), Uuid([]), 0), 0)

  function EventOf(id: Uuid, row: Row): Event {
    Event(id, row.eventType, row.payload, row.attempts)
  }

  predicate Ready(row: Row, now: int) {
    !row.published && row.nextAttemptAt <= now
  }

  datatype Label =
    | Append(id: Uuid, eventType: string, payload: Payload)
    | Tick(later: int)
    | Join(w: nat)
    | Claim(w: nat, id: Uuid)
    | Publish(w: nat)
    | Return(w: nat, ok: bool)
    | Mark(w: nat, at: int)
    | Commit(w: nat)
    | LoseSession(w: nat)
    | Crash(w: nat)

  predicate At(s: State, w: nat, pcs: set<Pc>) {
    w in s.workers && s.workers[w].pc in pcs
  }

  predicate Enabled(s: State, l: Label) {
    match l
    case Append(id, _, _) => id !in s.outbox
    case Tick(later) => later >= s.now
    case Join(w) => w !in s.workers
    case Claim(w, id) =>
      At(s, w, {Idle}) && id in s.outbox && Ready(s.outbox[id], s.now) && id !in s.locks
    case Publish(w) => At(s, w, {Claimed})
    case Return(w, _) => At(s, w, {Publishing})
    case Mark(w, at) =>
      && At(s, w, {Delivered, NotDelivered}) && s.workers[w].session
      && s.now <= at < s.now + Backoff.RelayCeiling(s.workers[w].event.attempts + 1)
    case Commit(w) =>
      && w in s.workers && (s.workers[w].pc.MarkedPublished? || s.workers[w].pc.MarkedFailed?)
      && s.workers[w].session && s.workers[w].event.id in s.outbox
    case LoseSession(w) => w in s.workers && s.workers[w].pc != Idle && s.workers[w].session
    case Crash(w) => w in s.workers
  }

  function SetPc(s: State, w: nat, pc: Pc): State
    requires w in s.workers
  {
    s.(workers := s.workers[w := s.workers[w].(pc := pc)])
  }

  function Without(locks: map<Uuid, nat>, w: nat): map<Uuid, nat> {
    map id | id in locks && locks[id] != w :: locks[id]
  }

  function Release(s: State, w: nat): State
    requires w in s.workers
  {
    SetPc(s, w, Idle).(locks := Without(s.locks, w))
  }

  /** The row as the relay transaction leaves it. */
  function Outcome(row: Row, pc: Pc): Row {
    if pc.MarkedFailed? then row.(attempts := row.attempts + 1, nextAttemptAt := pc.at)
    else row.(attempts := row.attempts + 1, published := true)
  }

  function Next(s: State, l: Label): State
    requires Enabled(s, l)
  {
    match l
    case Append(id, eventType, payload) =>
      s.(outbox := s.outbox[id := Row(eventType, payload, s.now, false, 0, s.now)])
    case Tick(later) => s.(now := later)
    case Join(w) => s.(workers := s.workers[w := Worker(Idle, NO_EVENT, true)])
    case Claim(w, id) =>
      s.(workers := s.workers[w := Worker(Claimed, EventOf(id, s.outbox[id]), true)], locks := s.locks[id := w])
    case Publish(w) => SetPc(s, w, Publishing).(started := s.started + [s.workers[w].event])
    case Return(w, ok) =>
      if ok then SetPc(s, w, Delivered).(delivered := s.delivered + [s.workers[w].event]) else SetPc(s, w, NotDelivered)
    case Mark(w, at) => SetPc(s, w, if s.workers[w].pc == Delivered then MarkedPublished else MarkedFailed(at))
    case Commit(w) =>
      var id := s.workers[w].event.id;
      Release(s, w).(outbox := s.outbox[id := Outcome(s.outbox[id], s.workers[w].pc)], outcomes := s.outcomes + [id])
    case LoseSession(w) =>
      s.(workers := s.workers[w := s.workers[w].(session := false)], locks := Without(s.locks, w))
    case Crash(w) => Release(s, w)
  }

  ghost predicate Step(s: State, s': State) {
    exists l :: Enabled(s, l) && s' == Next(s, l)
  }

  ghost predicate IsRun(trace: seq<State>) {
    && |trace| > 0 && Init(trace[0])
    && forall i, j :: 0 <= i < |trace| && j == i + 1 < |trace| ==> Step(trace[i], trace[j])
  }

  // ---- Counting ----

  function CallsFor(calls: seq<Event>, id: Uuid): nat {
    if calls == [] then 0 else CallsFor(calls[..|calls| - 1], id) + if calls[|calls| - 1].id == id then 1 else 0
  }

  function OutcomesFor(outcomes: seq<Uuid>, id: Uuid): nat {
    if outcomes == [] then 0
    else OutcomesFor(outcomes[..|outcomes| - 1], id) + if outcomes[|outcomes| - 1] == id then 1 else 0
  }

  lemma CallsSnoc(calls: seq<Event>, e: Event)
    ensures forall id :: CallsFor(calls + [e], id) == CallsFor(calls, id) + if e.id == id then 1 else 0
  {
    assert (calls + [e])[..|calls|] == calls;
  }

  lemma OutcomesSnoc(outcomes: seq<Uuid>, x: Uuid)
    ensures forall id :: OutcomesFor(outcomes + [x], id) == OutcomesFor(outcomes, id) + if x == id then 1 else 0
  {
    assert (outcomes + [x])[..|outcomes|] == outcomes;
  }

  // ---- The invariant ----

  /** Whether a worker holding a row has begun a Publish call that is not yet among the row's outcomes. */
  predicate CallPending(w: Worker) {
    w.pc != Idle && w.pc != Claimed
  }

  predicate Same(row: Row, e: Event) {
    e.eventType == row.eventType && e.payload == row.payload
  }

  /** As long as the worker has its session, the row still is what it claimed. */
  ghost predicate WorkerOk(outbox: Outbox, delivered: seq<Event>, now: int, w: Worker) {
    w.pc != Idle ==>
      && w.event.id in outbox && Same(outbox[w.event.id], w.event)
      && (w.session ==> Ready(outbox[w.event.id], now) && w.event.attempts == outbox[w.event.id].attempts)
      && (w.pc == Delivered || w.pc == MarkedPublished ==> w.event in delivered)
      && (w.pc.MarkedFailed? ==> w.pc.at < now + Backoff.RelayCeiling(w.event.attempts + 1))
  }

  ghost predicate WorkersOk(outbox: Outbox, delivered: seq<Event>, now: int, workers: map<nat, Worker>) {
    forall w :: w in workers ==> WorkerOk(outbox, delivered, now, workers[w])
  }

  predicate PendingOn(locks: map<Uuid, nat>, workers: map<nat, Worker>, id: Uuid) {
    id in locks && locks[id] in workers && CallPending(workers[locks[id]])
  }

  /** Each attempt recorded on a row, and the one under way, had its own Publish call. */
  ghost predicate Covered(outbox: Outbox, locks: map<Uuid, nat>, workers: map<nat, Worker>, started: seq<Event>) {
    forall id :: id in outbox ==>
                   outbox[id].attempts + (if PendingOn(locks, workers, id) then 1 else 0) <= CallsFor(started, id)
  }

  ghost predicate Counted(outbox: Outbox, outcomes: seq<Uuid>) {
    forall id :: OutcomesFor(outcomes, id) == if id in outbox then outbox[id].attempts else 0
  }

  /** A published row was delivered under its own id, type and payload. */
  ghost predicate PublishedWereDelivered(outbox: Outbox, delivered: seq<Event>) {
    forall id :: id in outbox && outbox[id].published ==>
                   exists e :: e in delivered && e.id == id && Same(outbox[id], e)
  }

  ghost predicate CallsOk(outbox: Outbox, calls: seq<Event>) {
    forall e :: e in calls ==> e.id in outbox && Same(outbox[e.id], e)
  }

  /** An unpublished row waits no longer than its failures call for. */
  ghost predicate Scheduled(outbox: Outbox, now: int) {
    forall id :: id in outbox && !outbox[id].published ==>
                   outbox[id].nextAttemptAt < now + Backoff.RelayCeiling(outbox[id].attempts)
  }

  ghost predicate Inv(s: State) {
    && LocksOk(s.locks, s.workers, HeldBy)
    && WorkersOk(s.outbox, s.delivered, s.now, s.workers)
    && Covered(s.outbox, s.locks, s.workers, s.started)
    && Counted(s.outbox, s.outcomes)
    && PublishedWereDelivered(s.outbox, s.delivered)
    && CallsOk(s.outbox, s.started) && CallsOk(s.outbox, s.delivered)
    && Scheduled(s.outbox, s.now)
  }

  lemma AppendKeepsInv(s: State, l: Label)
    requires Inv(s) && l.Append? && Enabled(s, l)
    ensures Inv(Next(s, l))
  {
    AppendKeepsWorkers(s.outbox, s.delivered, s.now, s.workers, l.id, Next(s, l).outbox[l.id]);
    AppendKeepsCalls(s.outbox, s.locks, s.workers, s.started, l.id, Next(s, l).outbox[l.id]);
  }

  lemma AppendKeepsWorkers(
    outbox: Outbox, delivered: seq<Event>, now: int, workers: map<nat, Worker>, id: Uuid, row: Row)
    requires WorkersOk(outbox, delivered, now, workers) && id !in outbox
    ensures WorkersOk(outbox[id := row], delivered, now, workers)
  {
    forall w | w in workers
      ensures WorkerOk(outbox[id := row], delivered, now, workers[w])
    {
      assert WorkerOk(outbox, delivered, now, workers[w]);
    }
  }

  lemma AppendKeepsCalls(
    outbox: Outbox, locks: map<Uuid, nat>, workers: map<nat, Worker>, started: seq<Event>, id: Uuid, row: Row)
    requires Covered(outbox, locks, workers, started) && LocksOk(locks, workers, HeldBy)
    requires id !in outbox && row.attempts == 0
    requires forall w :: w in workers && workers[w].pc != Idle ==> workers[w].event.id in outbox
    ensures Covered(outbox[id := row], locks, workers, started)
  {
    assert forall w :: w in workers ==> id !in HeldBy(workers[w]);
  }

  lemma TickKeepsInv(s: State, l: Label)
    requires Inv(s) && (l.Tick? || l.Join?) && Enabled(s, l)
    ensures Inv(Next(s, l))
  {
    if l.Join? {
      LocksKept(s.locks, s.workers, HeldBy, l.w, Worker(Idle, NO_EVENT, true));
    }
  }

  lemma ClaimKeepsInv(s: State, l: Label)
    requires Inv(s) && l.Claim? && Enabled(s, l)
    ensures Inv(Next(s, l))
  {
    LocksTaken(s.locks, s.workers, HeldBy, l.w, Next(s, l).workers[l.w], l.id);
  }

  lemma CoveredByNewCall(
    outbox: Outbox, locks: map<Uuid, nat>, workers: map<nat, Worker>, started: seq<Event>, w: nat)
    requires LocksOk(locks, workers, HeldBy) && Covered(outbox, locks, workers, started)
    requires w in workers && workers[w].pc == Claimed
    ensures Covered(outbox, locks, workers[w := workers[w].(pc := Publishing)], started + [workers[w].event])
  {
    CallsSnoc(started, workers[w].event);
    assert forall id :: id in locks && locks[id] == w ==> id in HeldBy(workers[w]);
  }

  lemma DeliveredGrows(outbox: Outbox, delivered: seq<Event>, more: seq<Event>)
    requires PublishedWereDelivered(outbox, delivered) && delivered <= more
    ensures PublishedWereDelivered(outbox, more)
  {
    forall id | id in outbox && outbox[id].published
      ensures exists e :: e in more && e.id == id && Same(outbox[id], e)
    {
      var e :| e in delivered && e.id == id && Same(outbox[id], e);
      assert e in more;
    }
  }

  lemma WorkersMove(
    outbox: Outbox, delivered: seq<Event>, more: seq<Event>, now: int, workers: map<nat, Worker>, w: nat, w': Worker)
    requires WorkersOk(outbox, delivered, now, workers) && delivered <= more && WorkerOk(outbox, more, now, w')
    ensures WorkersOk(outbox, more, now, workers[w := w'])
  {
    forall v | v in workers && v != w
      ensures WorkerOk(outbox, more, now, workers[v])
    {
      assert WorkerOk(outbox, delivered, now, workers[v]);
    }
  }

  lemma CoveredStays(
    outbox: Outbox, locks: map<Uuid, nat>, workers: map<nat, Worker>, started: seq<Event>, w: nat, pc: Pc)
    requires Covered(outbox, locks, workers, started) && w in workers
    requires CallPending(workers[w].(pc := pc)) ==> CallPending(workers[w])
    ensures Covered(outbox, locks, workers[w := workers[w].(pc := pc)], started)
  {
  }

  lemma PublishKeepsInv(s: State, l: Label)
    requires Inv(s) && l.Publish? && Enabled(s, l)
    ensures Inv(Next(s, l))
  {
    var w := s.workers[l.w];
    assert WorkerOk(s.outbox, s.delivered, s.now, w);
    LocksKept(s.locks, s.workers, HeldBy, l.w, w.(pc := Publishing));
    WorkersMove(s.outbox, s.delivered, s.delivered, s.now, s.workers, l.w, w.(pc := Publishing));
    CoveredByNewCall(s.outbox, s.locks, s.workers, s.started, l.w);
  }

  lemma ReturnKeepsInv(s: State, l: Label)
    requires Inv(s) && l.Return? && Enabled(s, l)
    ensures Inv(Next(s, l))
  {
    var s' := Next(s, l);
    assert WorkerOk(s.outbox, s.delivered, s.now, s.workers[l.w]);
    LocksKept(s.locks, s.workers, HeldBy, l.w, s'.workers[l.w]);
    DeliveredGrows(s.outbox, s.delivered, s'.delivered);
    WorkersMove(s.outbox, s.delivered, s'.delivered, s.now, s.workers, l.w, s'.workers[l.w]);
    CoveredStays(s.outbox, s.locks, s.workers, s.started, l.w, s'.workers[l.w].pc);
  }

  lemma MarkKeepsInv(s: State, l: Label)
    requires Inv(s) && l.Mark? && Enabled(s, l)
    ensures Inv(Next(s, l))
  {
    var w' := Next(s, l).workers[l.w];
    assert WorkerOk(s.outbox, s.delivered, s.now, s.workers[l.w]);
    LocksKept(s.locks, s.workers, HeldBy, l.w, w');
    WorkersMove(s.outbox, s.delivered, s.delivered, s.now, s.workers, l.w, w');
    CoveredStays(s.outbox, s.locks, s.workers, s.started, l.w, w'.pc);
  }

  lemma CoveredReleased(
    outbox: Outbox, locks: map<Uuid, nat>, workers: map<nat, Worker>, started: seq<Event>, w: nat, w': Worker)
    requires Covered(outbox, locks, workers, started) && w in workers
    ensures Covered(outbox, Without(locks, w), workers[w := w'], started)
  {
  }

  /** A crash and a lost session both free the row and keep nothing of the transaction. */
  lemma CrashKeepsInv(s: State, l: Label)
    requires Inv(s) && (l.Crash? || l.LoseSession?) && Enabled(s, l)
    ensures Inv(Next(s, l))
  {
    var w' := Next(s, l).workers[l.w];
    assert WorkerOk(s.outbox, s.delivered, s.now, s.workers[l.w]);
    LocksReleased(s.locks, s.workers, HeldBy, l.w, w');
    WorkersMove(s.outbox, s.delivered, s.delivered, s.now, s.workers, l.w, w');
    CoveredReleased(s.outbox, s.locks, s.workers, s.started, l.w, w');
  }

  /** The outbox after a commit by worker w. */
  function Committed(s: State, w: nat): Outbox
    requires Enabled(s, Commit(w))
  {
    var id := s.workers[w].event.id;
    s.outbox[id := Outcome(s.outbox[id], s.workers[w].pc)]
  }

  lemma CommitWorkers(s: State, w: nat)
    requires Inv(s) && Enabled(s, Commit(w))
    ensures WorkersOk(Committed(s, w), s.delivered, s.now, s.workers[w := s.workers[w].(pc := Idle)])
  {
    forall v | v in s.workers && v != w
      ensures WorkerOk(Committed(s, w), s.delivered, s.now, s.workers[v])
    {
      assert WorkerOk(s.outbox, s.delivered, s.now, s.workers[v]);
      HoldersApart(s.locks, s.workers, HeldBy, v, w);
      assert s.workers[w].event.id in HeldBy(s.workers[w]);
    }
  }

  lemma CommitCovered(s: State, w: nat)
    requires Inv(s) && Enabled(s, Commit(w))
    ensures Covered(Committed(s, w), Without(s.locks, w), s.workers[w := s.workers[w].(pc := Idle)], s.started)
  {
    assert s.workers[w].event.id in HeldBy(s.workers[w]);
    assert PendingOn(s.locks, s.workers, s.workers[w].event.id);
  }

  lemma CommitRows(s: State, w: nat)
    requires Inv(s) && Enabled(s, Commit(w))
    ensures PublishedWereDelivered(Committed(s, w), s.delivered)
    ensures Counted(Committed(s, w), s.outcomes + [s.workers[w].event.id])
    ensures CallsOk(Committed(s, w), s.started) && CallsOk(Committed(s, w), s.delivered)
    ensures Scheduled(Committed(s, w), s.now)
  {
    var id := s.workers[w].event.id;
    assert WorkerOk(s.outbox, s.delivered, s.now, s.workers[w]);
    OutcomesSnoc(s.outcomes, id);
    forall x | x in Committed(s, w) && Committed(s, w)[x].published
      ensures exists e :: e in s.delivered && e.id == x && Same(Committed(s, w)[x], e)
    {
      if x == id {
        assert s.workers[w].event in s.delivered;
      } else {
        var e :| e in s.delivered && e.id == x && Same(s.outbox[x], e);
      }
    }
  }

  lemma CommitKeepsInv(s: State, l: Label)
    requires Inv(s) && l.Commit? && Enabled(s, l)
    ensures Inv(Next(s, l))
  {
    LocksReleased(s.locks, s.workers, HeldBy, l.w, s.workers[l.w].(pc := Idle));
    CommitWorkers(s, l.w);
    CommitCovered(s, l.w);
    CommitRows(s, l.w);
  }

  lemma StepKeepsInv(s: State, s': State)
    requires Inv(s) && Step(s, s')
    ensures Inv(s')
  {
    var l :| Enabled(s, l) && s' == Next(s, l);
    match l
    case Append(_, _, _) => AppendKeepsInv(s, l);
    case Tick(_) => TickKeepsInv(s, l);
    case Join(_) => TickKeepsInv(s, l);
    case Claim(_, _) => ClaimKeepsInv(s, l);
    case Publish(_) => PublishKeepsInv(s, l);
    case Return(_, _) => ReturnKeepsInv(s, l);
    case Mark(_, _) => MarkKeepsInv(s, l);
    case Commit(_) => CommitKeepsInv(s, l);
    case LoseSession(_) => CrashKeepsInv(s, l);
    case Crash(_) => CrashKeepsInv(s, l);
  }

  lemma {:induction false} RunKeepsInv(trace: seq<State>, n: nat)
    requires IsRun(trace) && n < |trace|
    ensures Inv(trace[n])
  {
    if n > 0 {
      RunKeepsInv(trace, n - 1);
      StepKeepsInv(trace[n - 1], trace[n]);
    }
  }

  // ---- Over whole runs ----

  /**
   * At any moment, a published row was delivered under its own id, type and payload; a row's attempts
   * equal its committed outcomes and never exceed its Publish calls; and an unpublished row becomes
   * ready again within the ceiling that its failures call for.
   */
  lemma RowsAccountedFor(trace: seq<State>, n: nat, id: Uuid)
    requires IsRun(trace) && n < |trace| && id in trace[n].outbox
    ensures var s := trace[n];
            var row := s.outbox[id];
            && (row.published ==> exists e :: e in s.delivered && e.id == id && Same(row, e))
            && row.attempts == OutcomesFor(s.outcomes, id) <= CallsFor(s.started, id)
            && (!row.published ==> Ready(row, s.now + Backoff.RelayCeiling(row.attempts)))
  {
    RunKeepsInv(trace, n);
  }

  /**
   * Two relays that both have their session are never publishing, or about to publish, the same row; and
   * the row a relay with a session works on is unpublished and just as it read it.
   */
  lemma PublishingIsExclusive(trace: seq<State>, n: nat, v: nat, w: nat)
    requires IsRun(trace) && n < |trace| && v in trace[n].workers && w in trace[n].workers
    requires trace[n].workers[v].pc != Idle && trace[n].workers[w].pc != Idle
    requires trace[n].workers[v].event.id == trace[n].workers[w].event.id
    ensures v == w || !trace[n].workers[v].session || !trace[n].workers[w].session
    ensures trace[n].workers[v].session ==>
              var e := trace[n].workers[v].event;
              && e.id in trace[n].outbox && !trace[n].outbox[e.id].published
              && Same(trace[n].outbox[e.id], e) && e.attempts == trace[n].outbox[e.id].attempts
  {
    RunKeepsInv(trace, n);
    assert WorkerOk(trace[n].outbox, trace[n].delivered, trace[n].now, trace[n].workers[v]);
    if v != w {
      HoldersApart(trace[n].locks, trace[n].workers, HeldBy, v, w);
    }
  }

  /** The session is what exclusivity rests on: once it is lost under a relay, another may publish the same row. */
  lemma LostSessionAdmitsAnother(s: State, v: nat, w: nat) returns (s': State)
    requires Inv(s) && v in s.workers && w in s.workers && s.workers[v].pc == Idle
    requires s.workers[w].pc == Publishing && s.workers[w].session
    ensures Reaches(Step, s, s') && v in s'.workers && w in s'.workers
    ensures s'.workers[v].pc == Publishing == s'.workers[w].pc && s'.workers[v].event == s'.workers[w].event
  {
    var id := s.workers[w].event.id;
    assert WorkerOk(s.outbox, s.delivered, s.now, s.workers[w]);
    assert id in HeldBy(s.workers[w]);
    ReachesItself(Step, s);
    Takes(s, s, LoseSession(w));
    var s1 := Next(s, LoseSession(w));
    Takes(s, s1, Claim(v, id));
    var s2 := Next(s1, Claim(v, id));
    Takes(s, s2, Publish(v));
    s' := Next(s2, Publish(v));
  }

  /** What a step does to a row: its identity stays, its published mark is never taken back. */
  predicate RowKept(row: Row, row': Row) {
    && row'.eventType == row.eventType && row'.payload == row.payload && row'.createdAt == row.createdAt
    && (row.published ==> row' == row)
    && row.attempts <= row'.attempts
  }

  lemma OnlyCommitsChangeRows(s: State, l: Label, id: Uuid)
    requires Enabled(s, l) && !l.Commit? && id in s.outbox
    ensures id in Next(s, l).outbox && Next(s, l).outbox[id] == s.outbox[id]
  {
  }

  lemma OnlyPublishStartsCalls(s: State, l: Label)
    requires Enabled(s, l) && !l.Publish?
    ensures Next(s, l).started == s.started
  {
  }

  lemma CommitKeepsRow(s: State, w: nat, id: Uuid)
    requires Inv(s) && Enabled(s, Commit(w)) && id in s.outbox
    ensures id in Next(s, Commit(w)).outbox && RowKept(s.outbox[id], Next(s, Commit(w)).outbox[id])
  {
    assert WorkerOk(s.outbox, s.delivered, s.now, s.workers[w]);
  }

  /** The relays that have claimed a row and not yet called Publish for it. */
  function AboutToCall(workers: map<nat, Worker>, id: Uuid): set<nat> {
    set w | w in workers && workers[w].pc == Claimed && workers[w].event.id == id
  }

  /** How many Publish calls a row has had, and how many more may start without a new claim. */
  function CallsAtMost(s: State, id: Uuid): nat {
    CallsFor(s.started, id) + |AboutToCall(s.workers, id)|
  }

  lemma FewerAboutToCall(workers: map<nat, Worker>, w: nat, w': Worker, id: Uuid)
    requires w'.pc == Claimed && w'.event.id == id ==> w in AboutToCall(workers, id)
    ensures |AboutToCall(workers[w := w'], id)| <= |AboutToCall(workers, id)|
  {
    var fewer, all := AboutToCall(workers[w := w'], id), AboutToCall(workers, id);
    assert fewer <= all;
    assert all == fewer + (all - fewer);
  }

  lemma OneFewerAboutToCall(workers: map<nat, Worker>, w: nat, id: Uuid)
    requires w in AboutToCall(workers, id)
    ensures |AboutToCall(workers[w := workers[w].(pc := Publishing)], id)| == |AboutToCall(workers, id)| - 1
  {
    assert AboutToCall(workers[w := workers[w].(pc := Publishing)], id) == AboutToCall(workers, id) - {w};
  }

  lemma PublishUsesOneUp(s: State, w: nat, id: Uuid)
    requires Enabled(s, Publish(w))
    ensures CallsAtMost(Next(s, Publish(w)), id) <= CallsAtMost(s, id)
  {
    CallsSnoc(s.started, s.workers[w].event);
    if s.workers[w].event.id == id {
      OneFewerAboutToCall(s.workers, w, id);
    } else {
      FewerAboutToCall(s.workers, w, s.workers[w].(pc := Publishing), id);
    }
  }

  /** A published row is not claimed again, so the calls that may start on it only get fewer. */
  lemma CallsRunOut(s: State, l: Label, id: Uuid)
    requires Enabled(s, l) && id in s.outbox && s.outbox[id].published
    ensures CallsAtMost(Next(s, l), id) <= CallsAtMost(s, id)
  {
    if l.Publish? {
      PublishUsesOneUp(s, l.w, id);
    } else {
      OnlyPublishStartsCalls(s, l);
      if !l.Append? && !l.Tick? {
        FewerAboutToCall(s.workers, l.w, Next(s, l).workers[l.w], id);
      }
    }
  }

  lemma StepKeepsRow(s: State, s': State, id: Uuid)
    requires Inv(s) && Step(s, s') && id in s.outbox
    ensures id in s'.outbox && RowKept(s.outbox[id], s'.outbox[id])
    ensures s.outbox[id].published ==> CallsAtMost(s', id) <= CallsAtMost(s, id)
  {
    var l :| Enabled(s, l) && s' == Next(s, l);
    if l.Commit? {
      CommitKeepsRow(s, l.w, id);
    } else {
      OnlyCommitsChangeRows(s, l, id);
    }
    if s.outbox[id].published {
      CallsRunOut(s, l, id);
    }
  }

  lemma {:induction false} RowsNeverLost(trace: seq<State>, m: nat, n: nat, id: Uuid)
    requires IsRun(trace) && m <= n < |trace| && id in trace[m].outbox
    ensures id in trace[n].outbox && RowKept(trace[m].outbox[id], trace[n].outbox[id])
    ensures trace[m].outbox[id].published ==> CallsAtMost(trace[n], id) <= CallsAtMost(trace[m], id)
    decreases n - m
  {
    if m < n {
      RunKeepsInv(trace, m);
      StepKeepsRow(trace[m], trace[m + 1], id);
      RowsNeverLost(trace, m + 1, n, id);
    }
  }

  /**
   * Once a row is published, a Publish call for it can still start if and only if some relay had claimed it
   * and lost its session before calling; each of these calls at most once, and no others ever do.
   */
  lemma CallsOnPublishedRows(trace: seq<State>, m: nat, n: nat, id: Uuid)
    requires IsRun(trace) && m <= n < |trace| && id in trace[m].outbox && trace[m].outbox[id].published
    ensures CallsFor(trace[n].started, id) <= CallsFor(trace[m].started, id) + |AboutToCall(trace[m].workers, id)|
    ensures forall w :: w in AboutToCall(trace[m].workers, id) ==>
                          !trace[m].workers[w].session && Enabled(trace[m], Publish(w))
  {
    RowsNeverLost(trace, m, n, id);
    RunKeepsInv(trace, m);
    forall w | w in AboutToCall(trace[m].workers, id)
      ensures !trace[m].workers[w].session
    {
      assert WorkerOk(trace[m].outbox, trace[m].delivered, trace[m].now, trace[m].workers[w]);
    }
  }

  /** What arrives is ready at once, and whatever is ever published of it has the type and payload it came with. */
  lemma PublishedAsAppended(trace: seq<State>, m: nat, n: nat, id: Uuid, eventType: string, payload: Payload, e: Event)
    requires IsRun(trace) && m < n < |trace| && id !in trace[m].outbox
    requires trace[m + 1] == Next(trace[m], Append(id, eventType, payload))
    requires e in trace[n].started && e.id == id
    ensures e.eventType == eventType && e.payload == payload
    ensures id in trace[m + 1].outbox && Ready(trace[m + 1].outbox[id], trace[m + 1].now)
  {
    RowsNeverLost(trace, m + 1, n, id);
    RunKeepsInv(trace, n);
  }

  /**
   * A failed row stays out of reach for a while only if its jitter is not zero: committing the failure
   * leaves the row claimable at that very instant, even by the same poll, exactly when it is.
   */
  lemma FailedRowClaimableAtOnce(s: State, w: nat, at: int)
    requires Inv(s) && w in s.workers && s.workers[w].pc == NotDelivered && Enabled(s, Mark(w, at))
    ensures var s1 := Next(s, Mark(w, at));
            && Enabled(s1, Commit(w))
            && (Enabled(Next(s1, Commit(w)), Claim(w, s.workers[w].event.id)) <==> at == s.now)
  {
    assert WorkerOk(s.outbox, s.delivered, s.now, s.workers[w]);
  }

  // ---- A pending row can always still be delivered ----

  lemma Takes(s: State, s': State, l: Label)
    requires Reaches(Step, s, s') && Enabled(s', l)
    ensures Reaches(Step, s, Next(s', l))
  {
    assert Step(s', Next(s', l));
    ReachesOn(Step, s, s', Next(s', l));
  }

  lemma {:induction false} FreshWorker(ws: set<nat>) returns (w: nat)
    ensures forall v :: v in ws ==> v < w
    decreases ws
  {
    if ws == {} {
      w := 0;
    } else {
      var v :| v in ws;
      var u := FreshWorker(ws - {v});
      w := if u > v then u else v + 1;
      assert ws == (ws - {v}) + {v};
    }
  }

  /** A row that nobody holds and that is ready is claimed, published and committed by a new relay. */
  lemma DeliverReadyRow(s: State, id: Uuid) returns (s': State)
    requires id in s.outbox && Ready(s.outbox[id], s.now) && id !in s.locks
    ensures Reaches(Step, s, s') && id in s'.outbox && s'.outbox[id].published
  {
    var w := FreshWorker(s.workers.Keys);
    ReachesItself(Step, s);
    var s1 := Next(s, Join(w));
    Takes(s, s, Join(w));
    var s2 := Next(s1, Claim(w, id));
    Takes(s, s1, Claim(w, id));
    var s3 := Next(s2, Publish(w));
    Takes(s, s2, Publish(w));
    var s4 := Next(s3, Return(w, true));
    Takes(s, s3, Return(w, true));
    var s5 := Next(s4, Mark(w, s.now));
    Takes(s, s4, Mark(w, s.now));
    s' := Next(s5, Commit(w));
    Takes(s, s5, Commit(w));
  }

  /**
   * From every reachable state, whatever crashed and however often delivery failed, every unpublished
   * row can still reach the published mark.
   */
  lemma AlwaysDeliverable(trace: seq<State>, n: nat, id: Uuid) returns (s': State)
    requires IsRun(trace) && n < |trace| && id in trace[n].outbox
    ensures Reaches(Step, trace[n], s') && id in s'.outbox && s'.outbox[id].published
  {
    var s := trace[n];
    RunKeepsInv(trace, n);
    ReachesItself(Step, s);
    s' := s;
    if s.outbox[id].published {
      return;
    }
    var free := s;
    if id in s.locks {
      Takes(s, s, Crash(s.locks[id]));
      free := Next(s, Crash(s.locks[id]));
    }
    Takes(s, free, Tick(s.now + Backoff.RELAY_CAP));
    var later := Next(free, Tick(s.now + Backoff.RELAY_CAP));
    s' := DeliverReadyRow(later, id);
    ReachesThrough(Step, s, later, s');
  }
}
