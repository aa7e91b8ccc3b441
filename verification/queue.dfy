/** The coordinator's task queue of src/js/queue.js (`WorkerAsyncQueue`): idle
    workers, the task each busy worker is running, and the tasks waiting for a
    worker. Workers and tasks are identified by numbers: task `id` is the
    id-th task created, its data is `submitted[id]` and its promise is the entry
    `settled[id]` (absent while unsettled). The pure functions below give each
    operation's effect on the whole state and prove the invariants; the class
    runs the operations on its fields and is proved to have exactly those
    effects. */
module Queue {
  import opened Js

  type WorkerId = nat
  type TaskId = nat

  /** A message from a worker: the readiness signal or a response. */
  datatype Message<R> = Ready | Data(payload: R)

  /** How a task's promise settled. */
  datatype Outcome<R> = Resolved(value: R) | Rejected(reason: string)

  const JOB_CANCELED := "job canceled"

  /** One `worker.postMessage(task.data)`: which task went to which worker. */
  datatype Dispatch = Dispatch(worker: WorkerId, task: TaskId)

  /** The queue's state. `available`, `busy` and `pending` are the source's
      fields; `submitted` holds every task's data, indexed by task id;
      `settled` is the state of the tasks' promises and `readyResolved` that of
      the ready promise; `posted` logs the messages sent to workers. `owing` and
      `announced` describe the workers' side of the protocol: a worker in
      `owing` will send exactly one more message, and a worker in `announced`
      has already sent "ready". */
  datatype QState<D, R> = QState(
    numWorkers: nat,
    available: seq<WorkerId>,
    busy: map<WorkerId, TaskId>,
    pending: seq<TaskId>,
    submitted: seq<D>,
    settled: map<TaskId, Outcome<R>>,
    readyResolved: bool,
    posted: seq<Dispatch>,
    owing: set<WorkerId>,
    announced: set<WorkerId>)

  /** The ids of the posted tasks, in the order they were posted. */
  function PostedIds(ds: seq<Dispatch>): (r: seq<TaskId>)
    ensures |r| == |ds| && forall i :: 0 <= i < |ds| ==> r[i] == ds[i].task
  {
    if ds == [] then [] else PostedIds(ds[..|ds| - 1]) + [ds[|ds| - 1].task]
  }

  predicate Increasing(s: seq<int>) {
    forall i, j :: 0 <= i < j < |s| ==> s[i] < s[j]
  }

  /** Every task that has left or will leave the queue, in that order: the
      posted ones, then the ones still waiting. */
  function DispatchOrder<D, R>(s: QState<D, R>): seq<TaskId> {
    PostedIds(s.posted) + s.pending
  }

  /** `b` agrees with every settlement recorded in `a`: nothing settled in `a`
      is unsettled or settled differently in `b`. */
  ghost predicate Extends<R>(a: map<TaskId, Outcome<R>>, b: map<TaskId, Outcome<R>>) {
    forall id :: id in a ==> id in b && b[id] == a[id]
  }

  /** The rejections `cancelPending` and `cancel` give the tasks `ids`. */
  function Canceled<R>(ids: set<TaskId>): map<TaskId, Outcome<R>> {
    map id | id in ids :: Rejected(JOB_CANCELED)
  }

  /** The tasks of a queue, as a set. */
  function Elems(ts: seq<TaskId>): set<TaskId> {
    set id | id in ts
  }

  /** Idle workers and waiting tasks never coexist. */
  ghost predicate IdleOrPending<D, R>(s: QState<D, R>) {
    s.pending == [] || s.available == []
  }

  /** The workers' side: an idle worker is known, announced, not busy and owes
      no message, and none is idle twice; a busy worker owes exactly the
      response to its one task; a worker that has not announced itself still
      owes its "ready". */
  ghost predicate WorkersOk<D, R>(s: QState<D, R>) {
    (forall i :: 0 <= i < |s.available| ==>
       s.available[i] < s.numWorkers && s.available[i] !in s.owing &&
       s.available[i] !in s.busy && s.available[i] in s.announced) &&
    (forall i, j :: 0 <= i < j < |s.available| ==> s.available[i] != s.available[j]) &&
    (forall w :: w in s.busy ==> w < s.numWorkers && w in s.owing && w in s.announced) &&
    (forall w :: w in s.owing ==> w < s.numWorkers) &&
    (forall w :: 0 <= w < s.numWorkers && w !in s.announced ==> w in s.owing)
  }

  /** Running and waiting tasks have not settled. */
  ghost predicate Unsettled<D, R>(s: QState<D, R>) {
    (forall w :: w in s.busy ==> s.busy[w] !in s.settled) &&
    (forall id :: id in s.pending ==> id !in s.settled)
  }

  /** No task runs on two workers, and no running task is also waiting. */
  ghost predicate RunsOnce<D, R>(s: QState<D, R>) {
    (forall w1, w2 :: w1 in s.busy && w2 in s.busy && w1 != w2 ==> s.busy[w1] != s.busy[w2]) &&
    (forall w :: w in s.busy ==> s.busy[w] !in s.pending)
  }

  /** Only submitted tasks run or settle. */
  ghost predicate Submitted<D, R>(s: QState<D, R>) {
    (forall w :: w in s.busy ==> s.busy[w] < |s.submitted|) &&
    (forall id :: id in s.settled ==> id < |s.submitted|)
  }

  /** No task is lost: every submitted task is settled, running or waiting. */
  ghost predicate NoneLost<D, R>(s: QState<D, R>) {
    forall id :: 0 <= id < |s.submitted| ==>
      id in s.settled || id in s.busy.Values || id in s.pending
  }

  /** First in, first out: tasks are posted in submission order, and every
      waiting task comes after every posted one. */
  ghost predicate Fifo<D, R>(s: QState<D, R>) {
    Increasing(DispatchOrder(s)) &&
    (forall i :: 0 <= i < |DispatchOrder(s)| ==> DispatchOrder(s)[i] < |s.submitted|)
  }

  /** The queue invariant. */
  ghost predicate Inv<D, R>(s: QState<D, R>) {
    IdleOrPending(s) && WorkersOk(s) && Unsettled(s) && RunsOnce(s) &&
    Submitted(s) && NoneLost(s) && Fifo(s)
  }

  /** `Math.max(2, navigator.hardwareConcurrency|0)`: the number of workers. */
  function PoolSize(hardwareConcurrency: int): (n: nat)
    ensures n >= 2
    ensures 2 <= hardwareConcurrency < TWO_31 ==> n == hardwareConcurrency
    ensures -TWO_31 <= hardwareConcurrency <= 2 ==> n == 2
  {
    var c := ToInt32(hardwareConcurrency);
    if c > 2 then c else 2
  }

  /** The workers 0 .. n - 1. */
  function WorkersBelow(n: nat): (r: set<WorkerId>)
    ensures forall w: int :: w in r <==> 0 <= w < n
  {
    if n == 0 then {} else WorkersBelow(n - 1) + {n - 1}
  }

  /** The constructor: numWorkers workers, none idle yet (each still owes its
      "ready"), no tasks, and an unresolved ready promise. */
  function InitState<D, R>(numWorkers: nat): (s: QState<D, R>)
    ensures Inv(s)
    ensures s.available == [] && s.busy == map[] && s.pending == [] && !s.readyResolved
    ensures forall w: int :: w in s.owing <==> 0 <= w < numWorkers
  {
    QState(numWorkers, [], map[], [], [], map[], false, [], WorkersBelow(numWorkers), {})
  }

  /** A promise's `resolve(v)`: no effect once it has settled. */
  function Resolve<R>(settled: map<TaskId, Outcome<R>>, id: TaskId, v: R): map<TaskId, Outcome<R>> {
    if id in settled then settled else settled[id := Resolved(v)]
  }

  /** A promise's `reject(new Error("job canceled"))`: no effect once it has settled. */
  function Reject<R>(settled: map<TaskId, Outcome<R>>, id: TaskId): map<TaskId, Outcome<R>> {
    if id in settled then settled else settled[id := Rejected(JOB_CANCELED)]
  }

  /** The loop of `cancelPending`: reject each task of `ts` in turn. */
  function RejectEach<R>(settled: map<TaskId, Outcome<R>>, ts: seq<TaskId>): map<TaskId, Outcome<R>> {
    if ts == [] then settled else Reject(RejectEach(settled, ts[..|ts| - 1]), ts[|ts| - 1])
  }

  /** Rejecting a task that had not settled adds it to the cancelled ones. */
  lemma RejectCanceled<R>(a: map<TaskId, Outcome<R>>, x: set<TaskId>, id: TaskId)
    requires id !in a
    ensures Reject(a + Canceled(x), id) == a + Canceled(x + {id})
  {
  }

  /** Rejecting, one by one, tasks that have not settled yet rejects every one of
      them and leaves every other promise alone. */
  lemma {:induction false} RejectEachUnsettled<R>(settled: map<TaskId, Outcome<R>>, ts: seq<TaskId>)
    requires forall id :: id in ts ==> id !in settled
    ensures RejectEach(settled, ts) == settled + Canceled(Elems(ts))
  {
    if ts != [] {
      var init, last := ts[..|ts| - 1], ts[|ts| - 1];
      assert ts == init + [last];
      RejectEachUnsettled(settled, init);
      assert Elems(ts) == Elems(init) + {last};
      RejectCanceled(settled, Elems(init), last);
    }
  }

  /** `_dispatch(worker, task)` with a task: the worker becomes busy with it
      and the task's data is posted to it. */
  function DispatchTo<D, R>(s: QState<D, R>, w: WorkerId, id: TaskId): QState<D, R> {
    s.(busy := s.busy[w := id], posted := s.posted + [Dispatch(w, id)], owing := s.owing + {w})
  }

  /** `task(data)` while a worker is idle: the first idle worker takes the new task. */
  function Dispatched<D, R>(s: QState<D, R>, data: D): QState<D, R>
    requires s.available != []
  {
    DispatchTo(s.(submitted := s.submitted + [data], available := s.available[1..]),
               s.available[0], |s.submitted|)
  }

  /** `task(data)` while no worker is idle: the new task joins the end of the queue. */
  function Queued<D, R>(s: QState<D, R>, data: D): QState<D, R> {
    s.(submitted := s.submitted + [data], pending := s.pending + [|s.submitted|])
  }

  lemma DispatchedWorkersOk<D, R>(s: QState<D, R>, data: D)
    requires WorkersOk(s) && s.available != []
    ensures WorkersOk(Dispatched(s, data))
  {
    var r := Dispatched(s, data);
    forall i | 0 <= i < |r.available| ensures r.available[i] != s.available[0] {
      assert r.available[i] == s.available[i + 1];
    }
  }

  lemma DispatchedTasksOk<D, R>(s: QState<D, R>, data: D)
    requires WorkersOk(s) && Unsettled(s) && RunsOnce(s) && Submitted(s)
    requires IdleOrPending(s) && s.available != []
    ensures Unsettled(Dispatched(s, data)) && RunsOnce(Dispatched(s, data))
    ensures Submitted(Dispatched(s, data))
  {
    assert s.available[0] !in s.busy;
    assert |s.submitted| !in s.settled;
  }

  lemma DispatchedNoneLost<D, R>(s: QState<D, R>, data: D)
    requires WorkersOk(s) && NoneLost(s) && IdleOrPending(s) && s.available != []
    ensures NoneLost(Dispatched(s, data))
  {
    var r := Dispatched(s, data);
    var w := s.available[0];
    assert w !in s.busy;
    forall id | 0 <= id < |r.submitted| && id !in r.settled
      ensures id in r.busy.Values
    {
      if id == |s.submitted| {
        assert r.busy[w] == id;
      } else {
        var v :| v in s.busy && s.busy[v] == id;
        assert r.busy[v] == id;
      }
    }
  }

  lemma DispatchedFifo<D, R>(s: QState<D, R>, data: D)
    requires Fifo(s) && IdleOrPending(s) && s.available != []
    ensures Fifo(Dispatched(s, data))
  {
    var r := Dispatched(s, data);
    assert PostedIds(r.posted) == PostedIds(s.posted) + [|s.submitted|];
    assert DispatchOrder(r) == DispatchOrder(s) + [|s.submitted|];
  }

  lemma QueuedTasksOk<D, R>(s: QState<D, R>, data: D)
    requires Unsettled(s) && RunsOnce(s) && Submitted(s)
    ensures Unsettled(Queued(s, data)) && RunsOnce(Queued(s, data)) && Submitted(Queued(s, data))
  {
    assert |s.submitted| !in s.settled;
  }

  lemma QueuedFifo<D, R>(s: QState<D, R>, data: D)
    requires Fifo(s)
    ensures Fifo(Queued(s, data))
  {
    var r := Queued(s, data);
    assert DispatchOrder(r) == DispatchOrder(s) + [|s.submitted|];
  }

  /** `task(data)`: a new task, posted to the first idle worker when there is
      one and queued at the end otherwise. Returns the new state and the task. */
  function TaskStep<D, R>(s: QState<D, R>, data: D): (r: (QState<D, R>, TaskId))
    requires Inv(s)
    ensures Inv(r.0)
    ensures r.1 == |s.submitted| && r.0.submitted == s.submitted + [data]
    ensures r.1 !in r.0.settled && r.0.settled == s.settled && r.0.readyResolved == s.readyResolved
    ensures forall w :: w in s.busy ==> w in r.0.busy && r.0.busy[w] == s.busy[w]
    // an idle worker: the first one takes the task, and nothing is queued
    ensures s.available != [] ==>
              r.0.available == s.available[1..] && r.0.busy == s.busy[s.available[0] := r.1] &&
              r.0.pending == s.pending && r.0.posted == s.posted + [Dispatch(s.available[0], r.1)]
    // no idle worker: the task joins the end of the queue, and nothing is posted
    ensures s.available == [] ==>
              r.0.available == [] && r.0.busy == s.busy &&
              r.0.pending == s.pending + [r.1] && r.0.posted == s.posted
  {
    if s.available != [] then
      assert s.available[0] !in s.busy;
      DispatchedWorkersOk(s, data);
      DispatchedTasksOk(s, data);
      DispatchedNoneLost(s, data);
      DispatchedFifo(s, data);
      (Dispatched(s, data), |s.submitted|)
    else
      QueuedTasksOk(s, data);
      QueuedFifo(s, data);
      (Queued(s, data), |s.submitted|)
  }

  /** A worker following the protocol: it owes a message, and that message is
      "ready" exactly when it has not announced itself yet. */
  ghost predicate Expected<D, R>(s: QState<D, R>, w: WorkerId, msg: Message<R>) {
    w in s.owing && (msg.Ready? <==> w !in s.announced)
  }

  /** The first half of `_onmessage(worker, e)`: "ready" resolves the ready
      promise; a response resolves the worker's task, if it still has one; and
      the message is no longer owed. */
  function Received<D, R>(s: QState<D, R>, w: WorkerId, msg: Message<R>): QState<D, R> {
    (if msg.Ready? then s.(readyResolved := true, announced := s.announced + {w})
     else if w in s.busy then s.(busy := s.busy - {w}, settled := Resolve(s.settled, s.busy[w], msg.payload))
     else s).(owing := s.owing - {w})
  }

  /** The second half, `_dispatch(worker, pending.shift())`: the worker takes the
      oldest waiting task, or joins the idle workers when none is waiting. */
  function TakeNext<D, R>(s: QState<D, R>, w: WorkerId): QState<D, R> {
    if s.pending != [] then DispatchTo(s, w, s.pending[0]).(pending := s.pending[1..])
    else s.(available := s.available + [w])
  }

  lemma ExpectedFacts<D, R>(s: QState<D, R>, w: WorkerId, msg: Message<R>)
    requires WorkersOk(s) && Expected(s, w, msg)
    ensures w !in s.available && w < s.numWorkers
    ensures w in s.busy ==> msg.Data?
    ensures w !in Received(s, w, msg).busy
  {
    forall i | 0 <= i < |s.available| ensures s.available[i] != w { }
  }

  lemma ReceivedWorkersOk<D, R>(s: QState<D, R>, w: WorkerId, msg: Message<R>)
    requires WorkersOk(s) && IdleOrPending(s) && Expected(s, w, msg)
    ensures WorkersOk(TakeNext(Received(s, w, msg), w)) && IdleOrPending(TakeNext(Received(s, w, msg), w))
  {
    ExpectedFacts(s, w, msg);
  }

  /** What the first half leaves: the remaining running tasks are unchanged and
      unsettled, and at most the worker's own task has newly settled. */
  lemma ReceivedBusy<D, R>(s: QState<D, R>, w: WorkerId, msg: Message<R>)
    requires WorkersOk(s) && Unsettled(s) && RunsOnce(s) && Expected(s, w, msg)
    ensures var s2 := Received(s, w, msg);
            forall v :: v in s2.busy ==> v in s.busy && v != w && s2.busy[v] == s.busy[v] && s2.busy[v] !in s2.settled
    ensures forall id :: id in Received(s, w, msg).settled ==> id in s.settled || (w in s.busy && id == s.busy[w])
  {
    ExpectedFacts(s, w, msg);
  }

  /** The oldest waiting task is unsettled, and differs from every task still
      running and from every task behind it. */
  lemma HeadTaskFresh<D, R>(s: QState<D, R>, w: WorkerId, msg: Message<R>)
    requires WorkersOk(s) && Unsettled(s) && RunsOnce(s) && Fifo(s) && Expected(s, w, msg) && s.pending != []
    ensures var s2 := Received(s, w, msg);
            var t := s.pending[0];
            t !in s2.settled &&
            (forall v :: v in s2.busy ==> s2.busy[v] != t) &&
            (forall id :: id in s.pending[1..] ==> id != t && id !in s2.settled)
  {
    ReceivedBusy(s, w, msg);
    var t := s.pending[0];
    forall i | 1 <= i < |s.pending| ensures s.pending[i] != t {
      assert DispatchOrder(s)[|s.posted|] == t;
      assert DispatchOrder(s)[|s.posted| + i] == s.pending[i];
    }
    assert forall id :: id in s.pending[1..] ==> id in s.pending;
  }

  lemma TakeNextTasksOk<D, R>(s: QState<D, R>, w: WorkerId, msg: Message<R>)
    requires WorkersOk(s) && Unsettled(s) && RunsOnce(s) && Fifo(s) && Expected(s, w, msg) && s.pending != []
    ensures Unsettled(TakeNext(Received(s, w, msg), w)) && RunsOnce(TakeNext(Received(s, w, msg), w))
  {
    ReceivedBusy(s, w, msg);
    HeadTaskFresh(s, w, msg);
    var s2 := Received(s, w, msg);
    var r := TakeNext(s2, w);
    assert r.busy == s2.busy[w := s.pending[0]] && r.pending == s.pending[1..];
    assert forall id :: id in s.pending[1..] ==> id in s.pending;
  }

  lemma IdleTasksOk<D, R>(s: QState<D, R>, w: WorkerId, msg: Message<R>)
    requires WorkersOk(s) && Unsettled(s) && RunsOnce(s) && Expected(s, w, msg) && s.pending == []
    ensures Unsettled(TakeNext(Received(s, w, msg), w)) && RunsOnce(TakeNext(Received(s, w, msg), w))
  {
    ReceivedBusy(s, w, msg);
  }

  lemma ReceivedTasksOk<D, R>(s: QState<D, R>, w: WorkerId, msg: Message<R>)
    requires WorkersOk(s) && Unsettled(s) && RunsOnce(s) && Fifo(s) && Expected(s, w, msg)
    ensures Unsettled(TakeNext(Received(s, w, msg), w)) && RunsOnce(TakeNext(Received(s, w, msg), w))
  {
    if s.pending != [] {
      TakeNextTasksOk(s, w, msg);
    } else {
      IdleTasksOk(s, w, msg);
    }
  }

  lemma ReceivedSubmitted<D, R>(s: QState<D, R>, w: WorkerId, msg: Message<R>)
    requires Submitted(s) && Fifo(s)
    ensures Submitted(TakeNext(Received(s, w, msg), w))
  {
    if s.pending != [] {
      assert DispatchOrder(s)[|s.posted|] == s.pending[0];
    }
  }

  lemma ReceivedNoneLost<D, R>(s: QState<D, R>, w: WorkerId, msg: Message<R>)
    requires WorkersOk(s) && NoneLost(s) && Expected(s, w, msg)
    ensures NoneLost(TakeNext(Received(s, w, msg), w))
  {
    ExpectedFacts(s, w, msg);
    var s2 := Received(s, w, msg);
    var r := TakeNext(s2, w);
    forall id | 0 <= id < |r.submitted| && id !in r.settled && id !in r.pending
      ensures id in r.busy.Values
    {
      if id in s.busy.Values {
        var v :| v in s.busy && s.busy[v] == id;
        assert v in s2.busy && r.busy[v] == id;
      } else {
        assert id == s.pending[0];
        assert r.busy[w] == id;
      }
    }
  }

  lemma ReceivedFifo<D, R>(s: QState<D, R>, w: WorkerId, msg: Message<R>)
    requires Fifo(s)
    ensures Fifo(TakeNext(Received(s, w, msg), w))
  {
    var s2 := Received(s, w, msg);
    var r := TakeNext(s2, w);
    if s2.pending != [] {
      assert PostedIds(r.posted) == PostedIds(s2.posted) + [s2.pending[0]];
      assert DispatchOrder(r) == DispatchOrder(s);
    }
  }

  lemma ReceivedKeepsInv<D, R>(s: QState<D, R>, w: WorkerId, msg: Message<R>)
    requires Inv(s) && Expected(s, w, msg)
    ensures Inv(TakeNext(Received(s, w, msg), w))
  {
    ReceivedWorkersOk(s, w, msg);
    ReceivedTasksOk(s, w, msg);
    ReceivedSubmitted(s, w, msg);
    ReceivedNoneLost(s, w, msg);
    ReceivedFifo(s, w, msg);
  }

  /** A response settles the worker's task, which had not settled; nothing else
      settles. */
  lemma ReceivedSettled<D, R>(s: QState<D, R>, w: WorkerId, msg: Message<R>)
    requires Unsettled(s)
    ensures var r := TakeNext(Received(s, w, msg), w);
            (msg.Data? && w in s.busy ==> r.settled == s.settled[s.busy[w] := Resolved(msg.payload)]) &&
            (!(msg.Data? && w in s.busy) ==> r.settled == s.settled) &&
            Extends(s.settled, r.settled)
  {
  }

  /** `_onmessage(worker, e)`: "ready" resolves the ready promise; a response
      resolves the task the worker is busy with, if any, and is dropped
      otherwise (after `cancel`). Either way the worker then takes the oldest
      waiting task, or becomes idle when none is waiting. The protocol the
      workers follow (one message owed; "ready" first) is the precondition. */
  function OnMessageStep<D, R>(s: QState<D, R>, w: WorkerId, msg: Message<R>): (r: QState<D, R>)
    requires Inv(s) && Expected(s, w, msg)
    ensures Inv(r)
    ensures r.readyResolved == (s.readyResolved || msg.Ready?)
    ensures msg.Data? && w in s.busy ==> r.settled == s.settled[s.busy[w] := Resolved(msg.payload)]
    ensures !(msg.Data? && w in s.busy) ==> r.settled == s.settled
    ensures Extends(s.settled, r.settled) && r.submitted == s.submitted
    // the worker then takes the oldest waiting task, or becomes idle
    ensures s.pending != [] ==>
              w in r.busy && r.busy[w] == s.pending[0] && r.pending == s.pending[1..] && r.available == s.available
    ensures s.pending == [] ==> w !in r.busy && r.pending == [] && r.available == s.available + [w]
  {
    ReceivedKeepsInv(s, w, msg);
    ReceivedSettled(s, w, msg);
    TakeNext(Received(s, w, msg), w)
  }

  /** `cancelPending()` once its loop has run: every waiting task rejected, and the queue emptied. */
  function PendingCanceled<D, R>(s: QState<D, R>): QState<D, R> {
    s.(pending := [], settled := s.settled + Canceled(Elems(s.pending)))
  }

  /** The waiting tasks were all submitted. */
  lemma PendingSubmitted<D, R>(s: QState<D, R>)
    requires Fifo(s)
    ensures forall id :: id in s.pending ==> id < |s.submitted|
  {
    forall id | id in s.pending ensures id < |s.submitted| {
      var i :| 0 <= i < |s.pending| && s.pending[i] == id;
      assert DispatchOrder(s)[|s.posted| + i] == id;
    }
  }

  lemma PendingCanceledFifo<D, R>(s: QState<D, R>)
    requires Fifo(s)
    ensures Fifo(PendingCanceled(s))
  {
    assert DispatchOrder(PendingCanceled(s)) == DispatchOrder(s)[..|s.posted|];
  }

  lemma PendingCanceledTasksOk<D, R>(s: QState<D, R>)
    requires Unsettled(s) && RunsOnce(s) && Submitted(s) && Fifo(s)
    ensures Unsettled(PendingCanceled(s)) && RunsOnce(PendingCanceled(s)) && Submitted(PendingCanceled(s))
  {
    PendingSubmitted(s);
  }

  lemma PendingCanceledKeepsInv<D, R>(s: QState<D, R>)
    requires Inv(s)
    ensures Inv(PendingCanceled(s))
  {
    PendingCanceledFifo(s);
    PendingCanceledTasksOk(s);
  }

  /** `cancelPending()`: every waiting task is rejected with "job canceled" and
      the queue emptied; running tasks and idle workers are untouched. */
  function CancelPendingStep<D, R>(s: QState<D, R>): (r: QState<D, R>)
    requires Inv(s)
    ensures Inv(r)
    ensures r.settled == s.settled + Canceled(Elems(s.pending))
    ensures Extends(s.settled, r.settled)
    ensures r.pending == [] && r.busy == s.busy && r.available == s.available
    ensures r.submitted == s.submitted && r.readyResolved == s.readyResolved
  {
    PendingCanceledKeepsInv(s);
    PendingCanceled(s)
  }

  /** The rest of `cancel()` once `cancelPending()` has run: every running task
      rejected, and `busy` cleared. */
  function BusyCanceled<D, R>(s: QState<D, R>): QState<D, R> {
    s.(busy := map[], settled := s.settled + Canceled(s.busy.Values))
  }

  lemma BusyCanceledKeepsInv<D, R>(s: QState<D, R>)
    requires Inv(s) && s.pending == []
    ensures Inv(BusyCanceled(s))
    ensures Extends(s.settled, BusyCanceled(s).settled)
  {
    forall id | id in s.busy.Values ensures id < |s.submitted| && id !in s.settled {
      var v :| v in s.busy && s.busy[v] == id;
    }
  }

  /** Cancelling two sets of tasks in turn cancels their union. */
  lemma CanceledTwice<R>(a: map<TaskId, Outcome<R>>, x: set<TaskId>, y: set<TaskId>)
    ensures (a + Canceled(x)) + Canceled(y) == a + Canceled(x + y)
  {
  }

  /** `cancel()`: `cancelPending()`, then every running task is rejected with
      "job canceled" and `busy` cleared. The workers are not stopped; idle
      workers are untouched. Afterwards every task ever submitted has settled. */
  function CancelStep<D, R>(s: QState<D, R>): (r: QState<D, R>)
    requires Inv(s)
    ensures Inv(r)
    ensures r.settled == s.settled + Canceled(Elems(s.pending) + s.busy.Values)
    ensures Extends(s.settled, r.settled)
    ensures r.pending == [] && r.busy == map[] && r.available == s.available
    ensures r.submitted == s.submitted && r.readyResolved == s.readyResolved
    ensures forall id :: 0 <= id < |r.submitted| ==> id in r.settled
  {
    var s1 := CancelPendingStep(s);
    BusyCanceledKeepsInv(s1);
    CanceledTwice(s.settled, Elems(s.pending), s.busy.Values);
    BusyCanceled(s1)
  }

  /** Every rejection recorded in `settled` is a cancellation. */
  ghost predicate OnlyCanceled<R>(settled: map<TaskId, Outcome<R>>) {
    forall id :: id in settled && settled[id].Rejected? ==> settled[id].reason == JOB_CANCELED
  }

  /** Cancelling adds no rejection other than "job canceled". */
  lemma CanceledOnly<R>(settled: map<TaskId, Outcome<R>>, ids: set<TaskId>)
    requires OnlyCanceled(settled)
    ensures OnlyCanceled(settled + Canceled(ids))
  {
  }

  /** A call into the queue or a message from one of its workers. */
  datatype Event<D, R> =
    | Submit(data: D)
    | Receive(worker: WorkerId, msg: Message<R>)
    | CancelPendingCall
    | CancelCall

  /** Events the protocol allows: a worker sends only the message it owes. */
  ghost predicate Allowed<D, R>(s: QState<D, R>, e: Event<D, R>) {
    e.Receive? ==> Expected(s, e.worker, e.msg)
  }

  /** The effect of one event. Each keeps the invariant, never unsettles or
      re-settles a promise, never forgets a task, never unresolves the ready
      promise, and rejects only with "job canceled". */
  ghost function Step<D, R>(s: QState<D, R>, e: Event<D, R>): (r: QState<D, R>)
    requires Inv(s) && Allowed(s, e)
    ensures Inv(r) && Extends(s.settled, r.settled)
    ensures s.submitted <= r.submitted
    ensures s.readyResolved ==> r.readyResolved
    ensures OnlyCanceled(s.settled) ==> OnlyCanceled(r.settled)
  {
    match e
    case Submit(data) => TaskStep(s, data).0
    case Receive(w, msg) => OnMessageStep(s, w, msg)
    case CancelPendingCall =>
      if OnlyCanceled(s.settled) then CanceledOnly(s.settled, Elems(s.pending)); CancelPendingStep(s)
      else CancelPendingStep(s)
    case CancelCall =>
      if OnlyCanceled(s.settled) then CanceledOnly(s.settled, Elems(s.pending) + s.busy.Values); CancelStep(s)
      else CancelStep(s)
  }

  /** A run of events from `s`, up to the first one the protocol does not allow. */
  ghost function Run<D, R>(s: QState<D, R>, es: seq<Event<D, R>>): (r: QState<D, R>)
    requires Inv(s)
    ensures Inv(r) && Extends(s.settled, r.settled)
    ensures s.submitted <= r.submitted
    ensures s.readyResolved ==> r.readyResolved
    ensures OnlyCanceled(s.settled) ==> OnlyCanceled(r.settled)
    decreases |es|
  {
    if es == [] || !Allowed(s, es[0]) then s else Run(Step(s, es[0]), es[1..])
  }

  /** From a fresh queue, whatever happens: the invariant holds, and the only
      way a task's promise is ever rejected is by cancellation. */
  lemma {:induction false} RunFromStart<D, R>(numWorkers: nat, es: seq<Event<D, R>>)
    ensures Inv(Run(InitState<D, R>(numWorkers), es))
    ensures OnlyCanceled(Run(InitState<D, R>(numWorkers), es).settled)
  {
    var s := InitState<D, R>(numWorkers);
    assert OnlyCanceled(s.settled);
  }

  /** The queue of src/js/queue.js. */
  class WorkerAsyncQueue<D, R> {
    const numWorkers: nat
    var available: seq<WorkerId>
    var busy: map<WorkerId, TaskId>
    var pending: seq<TaskId>
    /** The data of every task created so far; the next task's id is its length. */
    var submitted: seq<D>
    /** Whether the ready promise has resolved. */
    var readyResolved: bool
    ghost var settled: map<TaskId, Outcome<R>>
    ghost var posted: seq<Dispatch>
    ghost var owing: set<WorkerId>
    ghost var announced: set<WorkerId>

    ghost function State(): QState<D, R>
      reads this
    {
      QState(numWorkers, available, busy, pending, submitted, settled, readyResolved, posted, owing, announced)
    }

    ghost predicate Valid()
      reads this
    {
      Inv(State())
    }

    /** `new WorkerAsyncQueue(url)`: spawns PoolSize(hardwareConcurrency)
        workers, none of them idle until it reports ready. */
    constructor (hardwareConcurrency: int)
      ensures Valid() && State() == InitState(PoolSize(hardwareConcurrency))
    {
      numWorkers := PoolSize(hardwareConcurrency);
      available := [];
      busy := map[];
      pending := [];
      submitted := [];
      readyResolved := false;
      settled := map[];
      posted := [];
      owing := WorkersBelow(PoolSize(hardwareConcurrency));
      announced := {};
    }

    /** `_dispatch(worker, task)`: with a task, the worker becomes busy with it
        and the task is posted; without one, the worker joins the idle workers. */
    method DispatchTask(w: WorkerId, task: Option<TaskId>)
      modifies this
      ensures task.Some? ==> State() == DispatchTo(old(State()), w, task.value)
      ensures task.None? ==> State() == old(State()).(available := old(available) + [w])
    {
      match task
      case Some(id) =>
        busy := busy[w := id];
        posted := posted + [Dispatch(w, id)];
        owing := owing + {w};
      case None =>
        available := available + [w];
    }

    /** `task(data)`: returns the id of the new task, whose promise is `settled[id]`. */
    method SubmitTask(data: D) returns (id: TaskId)
      requires Valid()
      modifies this
      ensures Valid() && (State(), id) == TaskStep(old(State()), data)
      ensures id == |old(submitted)| && submitted == old(submitted) + [data] && settled == old(settled)
      ensures forall w :: w in old(busy) ==> w in busy && busy[w] == old(busy)[w]
    {
      ghost var before := State();
      id := |submitted|;
      submitted := submitted + [data];
      if available != [] {
        var w := available[0];
        available := available[1..];
        DispatchTask(w, Some(id));
      } else {
        pending := pending + [id];
      }
      ghost var after := TaskStep(before, data);
      assert State() == after.0;
      assert busy == after.0.busy;
    }

    /** `cancelPending()`: rejects the waiting tasks' promises one by one, then
        empties the queue. */
    method CancelPending()
      requires Valid()
      modifies this
      ensures Valid() && State() == CancelPendingStep(old(State()))
    {
      ghost var rejected := settled;
      var i := 0;
      while i < |pending|
        invariant 0 <= i <= |pending|
        invariant rejected == RejectEach(settled, pending[..i])
      {
        assert pending[..i + 1][..i] == pending[..i];
        rejected := Reject(rejected, pending[i]);
        i := i + 1;
      }
      assert pending[..i] == pending;
      RejectEachUnsettled(settled, pending);
      ghost var after := CancelPendingStep(State());
      settled := rejected;
      pending := [];
      assert State() == after;
    }

    /** `cancel()`: `cancelPending()`, then the running tasks are rejected. */
    method Cancel()
      requires Valid()
      modifies this
      ensures Valid() && State() == CancelStep(old(State()))
    {
      CancelPending();
      CancelRunning();
    }

    /** The rest of `cancel()`: rejects the promise of every running task, in any
        order, and clears `busy`. */
    method CancelRunning()
      requires Valid() && pending == []
      modifies this
      ensures Valid() && State() == BusyCanceled(old(State()))
    {
      ghost var before := State();
      ghost var after := BusyCanceled(before);
      BusyCanceledKeepsInv(before);
      ghost var rejected := RejectRunning(settled, busy);
      settled := rejected;
      busy := map[];
      assert State() == after;
    }

    /** `_dispatch(worker, this.pending.shift())`. */
    method DispatchNext(w: WorkerId)
      modifies this
      ensures State() == TakeNext(old(State()), w)
    {
      var next: Option<TaskId> := None;
      if pending != [] {
        next := Some(pending[0]);
        pending := pending[1..];
      }
      DispatchTask(w, next);
    }

    /** `_onmessage(worker, e)`. */
    method OnMessage(w: WorkerId, msg: Message<R>)
      requires Valid() && Expected(State(), w, msg)
      modifies this
      ensures Valid() && State() == OnMessageStep(old(State()), w, msg)
    {
      ghost var before := State();
      owing := owing - {w};
      match msg {
        case Ready =>
          readyResolved := true;
          announced := announced + {w};
        case Data(v) =>
          if w in busy {
            var id := busy[w];
            busy := busy - {w};
            settled := Resolve(settled, id, v);
          }
      }
      assert State() == Received(before, w, msg);
      DispatchNext(w);
      ghost var after := OnMessageStep(before, w, msg);
      assert State() == after;
    }
  }

  /** The loop of `cancel()` over the running tasks: rejecting each of them in
      turn, in whatever order, cancels them all. */
  ghost method RejectRunning<R>(settled: map<TaskId, Outcome<R>>, busy: map<WorkerId, TaskId>)
      returns (rejected: map<TaskId, Outcome<R>>)
    requires forall w :: w in busy ==> busy[w] !in settled
    ensures rejected == settled + Canceled(busy.Values)
  {
    rejected := settled;
    var running := busy.Values;
    while running != {}
      invariant running <= busy.Values
      invariant rejected == settled + Canceled(busy.Values - running)
      decreases running
    {
      var id :| id in running;
      CancelOneMore(settled, busy, running, id);
      rejected := Reject(rejected, id);
      running := running - {id};
    }
  }

  /** One more step of the loop of `cancel()`: rejecting a running task that is
      still unrejected extends the cancelled set by it. */
  lemma CancelOneMore<R>(settled: map<TaskId, Outcome<R>>, busy: map<WorkerId, TaskId>,
                         running: set<TaskId>, id: TaskId)
    requires id in running && running <= busy.Values
    requires forall w :: w in busy ==> busy[w] !in settled
    ensures Reject(settled + Canceled(busy.Values - running), id) ==
            settled + Canceled(busy.Values - (running - {id}))
  {
    var v :| v in busy && busy[v] == id;
    RejectCanceled(settled, busy.Values - running, id);
    assert (busy.Values - running) + {id} == busy.Values - (running - {id});
  }
}
