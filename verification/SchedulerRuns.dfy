/**
 The scheduler thread and the worker threads as one interleaved system: each step
 is one atomic action of one thread, and a run is any legal sequence of steps over
 any number of queues.  The scheduler may act on what it has read some time ago, so
 its choices are only restricted to what such a reading guarantees.

 A worker fetches a job in one step and gives it the running bit in the next.  The
 results are about careful runs, in which no move takes a job in between;
 `WindowRunsTwice` shows what such a move does, and `WindowIsReached` that it can come to it.
 */
module SchedulerRuns {
  import opened Wrappers
  import opened JobQueue
  import opened QueueList
  import opened TaskPool
  import opened ThreadQueue

  type Bits = set<StatusBit>

  /** What happens to a job, as its owner sees it. */
  datatype Call = Start(result: Bits) | End | Fail

  /** Where the scheduler thread stands. */
  datatype Scheduling =
    | Ready
    | Chosen(queue: nat)
    | Holding(queue: nat, task: Task)
    | Levels(free: nat, busiest: nat)
    | Moves(free: nat, busiest: nat, task: Task)

  /** Where a worker thread stands; a fetched job does not carry the running bit yet. */
  datatype Working =
    | Rests
    | Fetched(task: Task)
    | Runs(task: Task)
    | Calls(task: Task)
    | Completes(task: Task)

  datatype State = State(
    pool: seq<Task>,
    queues: seq<Queue<Task>>,
    scheduling: Scheduling,
    working: seq<Working>,
    status: map<Task, Bits>,
    errors: set<Task>,
    submitted: set<Task>,
    completed: multiset<Task>,
    trace: map<Task, seq<Call>>)

  datatype Step =
    | Submit(task: Task)
    | Choose(queue: nat)
    | TakeTask
    | PutTask
    | FlushQueue(queue: nat)
    | Level(free: nat, busiest: nat)
    | PopMoved
    | PutMoved
    | Levelled
    | Fetch(worker: nat)
    | Decide(worker: nat)
    | RunStart(worker: nat, result: Bits)
    | Callback(worker: nat)
    | MarkComplete(worker: nat)

  function Initial(threads: nat): State {
    State([], seq(threads, i => NewQueue()), Ready, seq(threads, i => Rests), map[], {}, {}, multiset{}, map[])
  }

  /** The jobs that a rebalancing leaves alone. */
  function StartedIn(status: map<Task, Bits>): set<Task> {
    set t | t in status && (RUNNING in status[t] || FINALIZED in status[t])
  }

  ghost predicate Shaped(s: State) {
    && AllWellFormed(s.queues)
    && |s.working| == |s.queues|
    && s.status.Keys == s.trace.Keys == s.submitted
    && s.errors <= s.submitted
  }

  ghost predicate Room(queues: seq<Queue<Task>>, q: nat)
    requires AllWellFormed(queues)
  {
    q < |queues| && LoadAt(queues, q) < QUEUE_SIZE
  }

  /** The step is the next action of its thread. */
  ghost predicate Enabled(s: State, step: Step)
    requires Shaped(s)
  {
    match step
    case Submit(t) => t !in s.submitted
    case Choose(q) => s.scheduling == Ready && Room(s.queues, q)
    case TakeTask => s.scheduling.Chosen?
    case PutTask => s.scheduling.Holding?
    case FlushQueue(q) => s.scheduling == Ready && q < |s.queues|
    case Level(f, b) => s.scheduling == Ready && f != b && f < |s.queues| && b < |s.queues|
    case PopMoved => s.scheduling.Levels? && Room(s.queues, s.scheduling.free) && s.scheduling.busiest < |s.queues|
    case PutMoved => s.scheduling.Moves?
    case Levelled => s.scheduling.Levels?
    case Fetch(w) => w < |s.working| && s.working[w] == Rests
    case Decide(w) => w < |s.working| && s.working[w].Fetched?
    case RunStart(w, _) => w < |s.working| && s.working[w].Runs?
    case Callback(w) => w < |s.working| && s.working[w].Calls?
    case MarkComplete(w) => w < |s.working| && s.working[w].Completes?
  }

  /** A job is not taken away between being fetched and getting the running bit. */
  ghost predicate Clear(s: State, step: Step)
    requires Shaped(s) && Enabled(s, step)
  {
    step == PopMoved ==>
      match Pop(s.queues[s.scheduling.busiest], StartedIn(s.status))
      case None => true
      case Some((_, t)) => forall w :: 0 <= w < |s.working| ==> s.working[w] != Fetched(t)
  }

  /** Adding a job drops it when the queue is full: the result is not looked at. */
  ghost function AddTo(queues: seq<Queue<Task>>, q: nat, t: Task): seq<Queue<Task>>
    requires AllWellFormed(queues)
  {
    if q < |queues| && Add(queues[q], t).Some? then queues[q := Add(queues[q], t).value] else queues
  }

  ghost function Apply(s: State, step: Step): State
    requires Shaped(s) && Enabled(s, step)
  {
    match step
    case Submit(t) => Submitted(s, t)
    case Choose(q) => s.(scheduling := Chosen(q))
    case TakeTask => Taken(s)
    case PutTask => Put(s, s.scheduling.queue, Ready)
    case FlushQueue(q) => s.(queues := s.queues[q := Flush(s.queues[q])])
    case Level(f, b) => s.(scheduling := Levels(f, b))
    case PopMoved => Popped(s)
    case PutMoved => Put(s, s.scheduling.free, Levels(s.scheduling.free, s.scheduling.busiest))
    case Levelled => s.(scheduling := Ready)
    case Fetch(w) => Fetching(s, w)
    case Decide(w) => Decided(s, w)
    case RunStart(w, result) => Started(s, w, result)
    case Callback(w) => CalledBack(s, w)
    case MarkComplete(w) => MarkedComplete(s, w)
  }

  function Submitted(s: State, t: Task): State {
    s.(pool := InsertTask(s.pool, t), submitted := s.submitted + {t}, status := s.status[t := {}],
        trace := s.trace[t := []])
  }

  /** An empty pool ends the dispatch. */
  function Taken(s: State): State
    requires s.scheduling.Chosen?
  {
    if s.pool == [] then s.(scheduling := Ready)
    else s.(pool := s.pool[1..], scheduling := Holding(s.scheduling.queue, s.pool[0]))
  }

  ghost function Put(s: State, q: nat, next: Scheduling): State
    requires AllWellFormed(s.queues) && (s.scheduling.Holding? || s.scheduling.Moves?)
  {
    s.(queues := AddTo(s.queues, q, s.scheduling.task), scheduling := next)
  }

  /** Without a job that has not started the rebalancing ends. */
  ghost function Popped(s: State): State
    requires AllWellFormed(s.queues) && s.scheduling.Levels? && s.scheduling.busiest < |s.queues|
  {
    match Pop(s.queues[s.scheduling.busiest], StartedIn(s.status))
    case None => s.(scheduling := Ready)
    case Some((q, t)) =>
      s.(queues := s.queues[s.scheduling.busiest := q], scheduling := Moves(s.scheduling.free, s.scheduling.busiest, t))
  }

  function StatusOf(s: State, t: Task): Bits {
    if t in s.status then s.status[t] else {}
  }

  function TraceOf(s: State, t: Task): seq<Call> {
    if t in s.trace then s.trace[t] else []
  }

  /** `getNextTask` */
  function Fetching(s: State, w: nat): State
    requires w < |s.queues| == |s.working| && WellFormed(s.queues[w])
  {
    var (q, job) := Advance(s.queues[w], QUEUE_SIZE);
    s.(queues := s.queues[w := q], working := s.working[w := if job.Some? then Fetched(job.value) else Rests])
  }

  /** A job that is done goes on to its callback, another gets the running bit. */
  function Decided(s: State, w: nat): State
    requires w < |s.working| && s.working[w].Fetched?
  {
    var t := s.working[w].task;
    if DONE in StatusOf(s, t) then s.(working := s.working[w := Calls(t)])
    else s.(working := s.working[w := Runs(t)], status := s.status[t := StatusOf(s, t) + {RUNNING}])
  }

  /** One call of the start process.  A pending job is started again at once; a failed one is marked. */
  function Started(s: State, w: nat, result: Bits): State
    requires w < |s.working| && s.working[w].Runs?
  {
    var t := s.working[w].task;
    var status := StatusOf(s, t) + result;
    var s' := s.(status := s.status[t := status], trace := s.trace[t := TraceOf(s, t) + [Start(result)]]);
    if PENDING in status && DONE !in status then s'
    else s'.(working := s.working[w := Rests], errors := if FAILED in status then s.errors + {t} else s.errors)
  }

  function CalledBack(s: State, w: nat): State
    requires w < |s.working| && s.working[w].Calls?
  {
    var t := s.working[w].task;
    s.(trace := s.trace[t := TraceOf(s, t) + [if t in s.errors then Fail else End]],
        working := s.working[w := Completes(t)])
  }

  function MarkedComplete(s: State, w: nat): State
    requires w < |s.working| == |s.queues| && s.working[w].Completes? && WellFormed(s.queues[w])
  {
    var t := s.working[w].task;
    s.(queues := s.queues[w := Complete(s.queues[w])], working := s.working[w := Rests],
       status := s.status[t := StatusOf(s, t) + {DONE}], completed := s.completed + multiset{t})
  }

  // ------------------------------------------------------------ what every step keeps

  /** The tasks in the scheduler's hand. */
  function Hand(scheduling: Scheduling): multiset<Task> {
    match scheduling
    case Holding(_, t) => multiset{t}
    case Moves(_, _, t) => multiset{t}
    case _ => multiset{}
  }

  /** Pool, hand, pending slots and completed: the places of a task. */
  ghost function Places(pool: seq<Task>, scheduling: Scheduling, queues: seq<Queue<Task>>,
                        completed: multiset<Task>): multiset<Task>
    requires AllWellFormed(queues)
  {
    multiset(pool) + Hand(scheduling) + AllJobs(queues) + completed
  }

  /** The queue that the scheduler is about to add to has a free slot. */
  ghost predicate RoomKept(scheduling: Scheduling, queues: seq<Queue<Task>>)
    requires AllWellFormed(queues)
  {
    match scheduling
    case Chosen(q) => Room(queues, q)
    case Holding(q, _) => Room(queues, q)
    case Levels(f, b) => f != b && f < |queues| && b < |queues|
    case Moves(f, b, _) => f != b && Room(queues, f) && b < |queues|
    case Ready => true
  }

  /**
   A worker has its job in the slot that the head of its queue points at; unless just fetched, the
   job has started.
   */
  ghost predicate AtHead(queues: seq<Queue<Task>>, working: seq<Working>, status: map<Task, Bits>)
    requires AllWellFormed(queues) && |working| == |queues|
  {
    forall w :: 0 <= w < |working| && working[w] != Rests ==>
      HeadHolds(queues[w], working[w].task) && (working[w].Fetched? || working[w].task in StartedIn(status))
  }

  predicate HeadHolds(q: Queue<Task>, t: Task)
    requires WellFormed(q)
  {
    !q.done[q.head] && q.slots[q.head] == Some(t)
  }

  /** Some call of the start process returned the bit. */
  ghost predicate Returned(trace: seq<Call>, bit: StatusBit) {
    exists i :: 0 <= i < |trace| && trace[i].Start? && bit in trace[i].result
  }

  predicate Called(trace: seq<Call>) {
    trace != [] && !trace[|trace| - 1].Start?
  }

  /**
     The life of a job: calls of the start process up to the first that returns DONE,
     then at most one callback, which is the failing one exactly if a start failed.
   */
  ghost predicate Lawful(trace: seq<Call>, status: Bits, failed: bool) {
    && (trace != [] ==> RUNNING in status)
    && (forall i :: 0 <= i < |trace| - 1 ==> trace[i].Start?)
    && (forall i :: 0 <= i < |trace| - 1 && DONE in trace[i].result ==> i == |trace| - 2 && Called(trace))
    && (Called(trace) ==> |trace| >= 2 && DONE in trace[|trace| - 2].result)
    && (Called(trace) ==> (trace[|trace| - 1].Fail? <==> Returned(trace, FAILED)))
    && (DONE in status <==> Returned(trace, DONE))
    && (FAILED in status <==> Returned(trace, FAILED))
    && (failed ==> FAILED in status)
    && (DONE in status && FAILED in status ==> failed)
  }

  ghost predicate AllLawful(trace: map<Task, seq<Call>>, status: map<Task, Bits>, errors: set<Task>) {
    trace.Keys == status.Keys && forall t :: t in trace ==> Lawful(trace[t], status[t], t in errors)
  }

  ghost predicate Finishing(working: seq<Working>, t: Task) {
    exists w :: 0 <= w < |working| && working[w] == Completes(t)
  }

  /** A job has had its callback exactly if it is completed or about to be. */
  ghost predicate CallsAccounted(trace: map<Task, seq<Call>>, working: seq<Working>, completed: multiset<Task>) {
    forall t :: t in trace ==> (Called(trace[t]) <==> t in completed || Finishing(working, t))
  }

  /** What a worker is at agrees with the status of its job. */
  ghost predicate AtWork(working: seq<Working>, status: map<Task, Bits>) {
    forall w :: 0 <= w < |working| && working[w] != Rests ==>
      && working[w].task in status
      && (working[w].Fetched? ||
          (RUNNING in status[working[w].task] && (DONE in status[working[w].task] <==> !working[w].Runs?)))
  }

  ghost predicate Inv(s: State) {
    && Shaped(s) && NonIncreasing(s.pool)
    && Places(s.pool, s.scheduling, s.queues, s.completed) == multiset(s.submitted)
    && RoomKept(s.scheduling, s.queues)
    && Works(s)
  }

  /** The part that concerns the workers. */
  ghost predicate Works(s: State)
    requires Shaped(s)
  {
    && AtHead(s.queues, s.working, s.status)
    && AtWork(s.working, s.status)
    && AllLawful(s.trace, s.status, s.errors)
    && CallsAccounted(s.trace, s.working, s.completed)
  }

  // ------------------------------------------------------------------ small facts

  lemma {:induction false} WithinAll<J>(qs: seq<Queue<J>>, i: nat, k: nat)
    requires AllWellFormed(qs) && i < |qs| && k < |qs|
    ensures Jobs(qs[i]) <= AllJobs(qs)
    ensures i != k ==> Jobs(qs[i]) + Jobs(qs[k]) <= AllJobs(qs)
  {
    hide Load, Jobs;
    var last := |qs| - 1;
    if i < last && k < last {
      WithinAll(qs[..last], i, k);
    } else if i < last {
      WithinAll(qs[..last], i, i);
    } else if k < last {
      WithinAll(qs[..last], k, k);
    }
  }

  lemma {:induction false} SlotWithin<J>(slots: seq<Option<J>>, done: seq<bool>, i: nat, k: nat)
    requires FilledSlots(slots, done) && k <= i < QUEUE_SIZE && !done[i]
    ensures slots[i].value in JobsFrom(slots, done, k)
    decreases i - k
  {
    if k < i {
      SlotWithin(slots, done, i, k + 1);
    }
  }

  lemma HeadWithin(q: Queue<Task>, t: Task)
    requires WellFormed(q) && HeadHolds(q, t)
    ensures t in Jobs(q)
  {
    SlotWithin(q.slots, q.done, q.head, 0);
  }

  /** A task in a queue is submitted, and is in no other place. */
  lemma OnlyThere(s: State, w: nat, t: Task)
    requires Inv(s) && w < |s.queues| && t in Jobs(s.queues[w])
    ensures t in s.submitted && t !in s.completed
    ensures forall k :: 0 <= k < |s.queues| && k != w ==> t !in JobsAt(s.queues, k)
  {
    hide Load, Jobs, AllJobs, Works, RoomKept;
    WithinAll(s.queues, w, w);
    assert AllJobs(s.queues)[t] >= 1;
    assert multiset(s.submitted)[t] <= 1;
    forall k | 0 <= k < |s.queues| && k != w
      ensures t !in JobsAt(s.queues, k)
    {
      WithinAll(s.queues, w, k);
      assert (Jobs(s.queues[w]) + JobsAt(s.queues, k))[t] <= AllJobs(s.queues)[t];
    }
  }

  ghost function JobsAt(queues: seq<Queue<Task>>, k: nat): multiset<Task>
    requires AllWellFormed(queues) && k < |queues|
  {
    Jobs(queues[k])
  }

  /** The job of a worker is at work nowhere else. */
  lemma OnlyWorker(s: State, w: nat, t: Task)
    requires Inv(s) && w < |s.queues| && t in Jobs(s.queues[w])
    ensures t in s.submitted && t !in s.completed
    ensures forall k :: 0 <= k < |s.working| && k != w && s.working[k] != Rests ==> s.working[k].task != t
  {
    hide Load, Jobs, AllJobs;
    OnlyThere(s, w, t);
    forall k | 0 <= k < |s.working| && k != w && s.working[k] != Rests
      ensures s.working[k].task != t
    {
      HeadWithin(s.queues[k], s.working[k].task);
      assert s.working[k].task in JobsAt(s.queues, k);
    }
  }

  /** Adding to a queue with room. */
  lemma AddToMeans(queues: seq<Queue<Task>>, q: nat, t: Task)
    requires AllWellFormed(queues) && q < |queues| && LoadAt(queues, q) < QUEUE_SIZE
    ensures Add(queues[q], t).Some?
    ensures var queues' := AddTo(queues, q, t);
      && |queues'| == |queues| && AllWellFormed(queues')
      && AllJobs(queues') == AllJobs(queues) + multiset{t}
      && forall k, u :: 0 <= k < |queues| && HeadHolds(queues[k], u) ==> HeadHolds(queues'[k], u)
  {
    hide Load, Jobs, Add;
    AddMeans(queues[q], t);
    var q' := Add(queues[q], t).value;
    ChangeOne(queues, q, q');
    Cancel(AllJobs(queues[q := q']), AllJobs(queues) + multiset{t}, Jobs(queues[q]));
    AddHead(queues[q], t);
  }

  lemma AddHead(q: Queue<Task>, t: Task)
    requires WellFormed(q)
    ensures Add(q, t).Some? ==> Add(q, t).value.head == q.head
  {
    hide Load;
  }

  /** Heads that hold a job go on holding it, so the workers see no change. */
  lemma HeadsKept(s: State, s': State)
    requires Shaped(s) && Works(s) && Shaped(s')
    requires |s'.queues| == |s.queues|
    requires s' == s.(pool := s'.pool, scheduling := s'.scheduling, queues := s'.queues)
    requires forall k :: 0 <= k < |s.queues| && s.working[k] != Rests && HeadHolds(s.queues[k], s.working[k].task) ==>
      HeadHolds(s'.queues[k], s.working[k].task)
    ensures Works(s')
  {
    hide Load, WellFormed, AllLawful, CallsAccounted, AtWork;
  }

  // ------------------------------------------------------------------ the scheduler's steps

  lemma SubmitKeeps(s: State, t: Task)
    requires Inv(s) && t !in s.submitted
    ensures Inv(Submitted(s, t))
  {
    hide WellFormed, AllJobs, InsertTask, NonIncreasing, HeadHolds, Works, RoomKept;
    var s' := Submitted(s, t);
    InsertStaysSorted(s.pool, t);
    assert multiset(s'.submitted) == multiset(s.submitted) + multiset{t};
    assert t !in s.completed by {
      assert Places(s.pool, s.scheduling, s.queues, s.completed)[t] == multiset(s.submitted)[t] == 0;
    }
    SubmitWorks(s, t);
  }

  lemma SubmitWorks(s: State, t: Task)
    requires Shaped(s) && Works(s) && t !in s.submitted && t !in s.completed
    ensures Shaped(Submitted(s, t)) && Works(Submitted(s, t))
  {
    hide WellFormed, InsertTask, HeadHolds, StartedIn, Lawful;
    var s' := Submitted(s, t);
    StartedGrow(s.status, s'.status);
    NewLawful();
    assert !Finishing(s.working, t);
  }

  lemma NewLawful()
    ensures Lawful([], {}, false)
  {
  }

  lemma StartedGrow(status: map<Task, Bits>, status': map<Task, Bits>)
    requires forall t :: t in status ==> t in status' && status[t] <= status'[t]
    ensures StartedIn(status) <= StartedIn(status')
  {
  }

  lemma ScheduleKeeps(s: State, scheduling: Scheduling)
    requires Inv(s) && Hand(scheduling) == Hand(s.scheduling) && RoomKept(scheduling, s.queues)
    ensures Inv(s.(scheduling := scheduling))
  {
    hide AllWellFormed, RoomKept, AllJobs, AtHead, AllLawful, AtWork, CallsAccounted, NonIncreasing;
  }

  lemma TakeKeeps(s: State)
    requires Inv(s) && s.scheduling.Chosen?
    ensures Inv(Taken(s))
  {
    hide AllWellFormed, Room, AllJobs, AtHead, AllLawful, AtWork, CallsAccounted, NonIncreasing;
    if s.pool != [] {
      PoolTail(s.pool);
    }
  }

  lemma PoolTail(pool: seq<Task>)
    requires pool != [] && NonIncreasing(pool)
    ensures multiset(pool) == multiset{pool[0]} + multiset(pool[1..]) && NonIncreasing(pool[1..])
  {
    assert pool == [pool[0]] + pool[1..];
  }

  lemma PutKeeps(s: State, q: nat, next: Scheduling)
    requires Inv(s) && (s.scheduling.Holding? || s.scheduling.Moves?) && Room(s.queues, q)
    requires next == Ready || (next.Levels? && next.free < |s.queues| && next.busiest < |s.queues|
        && next.free != next.busiest)
    ensures Inv(Put(s, q, next))
  {
    hide Load, WellFormed, AllJobs, HeadHolds, AddTo, NonIncreasing, Works, Places;
    var t := s.scheduling.task;
    AddToMeans(s.queues, q, t);
    OutOfHand(s.scheduling, next, s.queues, AddTo(s.queues, q, t), t, s.pool, s.completed);
    HeadsKept(s, Put(s, q, next));
  }

  lemma OutOfHand(scheduling: Scheduling, next: Scheduling, queues: seq<Queue<Task>>, queues': seq<Queue<Task>>,
                  t: Task,
                  pool: seq<Task>, completed: multiset<Task>)
    requires AllWellFormed(queues) && AllWellFormed(queues') && AllJobs(queues') == AllJobs(queues) + multiset{t}
    requires Hand(scheduling) == multiset{t} && Hand(next) == multiset{}
    ensures Places(pool, next, queues', completed) == Places(pool, scheduling, queues, completed)
  {
    hide AllJobs, AllWellFormed, Hand;
  }

  lemma FlushKeeps(s: State, q: nat)
    requires Inv(s) && s.scheduling == Ready && q < |s.queues|
    ensures Inv(s.(queues := s.queues[q := Flush(s.queues[q])]))
  {
    hide Load, Jobs, AllJobs, Flush, NonIncreasing, Works;
    var s' := s.(queues := s.queues[q := Flush(s.queues[q])]);
    FlushMeans(s.queues[q]);
    FlushIs(s.queues[q]);
    ChangeOne(s.queues, q, Flush(s.queues[q]));
    Cancel(AllJobs(s'.queues), AllJobs(s.queues), Jobs(s.queues[q]));
    HeadsKept(s, s');
  }

  lemma PopKeeps(s: State)
    requires Shaped(s) && Enabled(s, PopMoved) && Clear(s, PopMoved) && Inv(s)
    ensures Inv(Apply(s, PopMoved))
  {
    hide WellFormed, AllJobs, Pop, NonIncreasing, Works, StartedIn, Places, RoomKept, Room, Clear;
    PopPlaces(s);
    PopWorks(s);
  }

  lemma PopPlaces(s: State)
    requires Inv(s) && s.scheduling.Levels? && Room(s.queues, s.scheduling.free)
    ensures var s' := Popped(s);
      && AllWellFormed(s'.queues) && |s'.queues| == |s.queues|
      && Places(s'.pool, s'.scheduling, s'.queues, s'.completed) == Places(s.pool, s.scheduling, s.queues, s.completed)
      && RoomKept(s'.scheduling, s'.queues)
  {
    hide WellFormed, Pop, NonIncreasing, Works, StartedIn, Places, Room;
    EmptyHand(s.scheduling, s.queues, s.pool, s.completed);
    JobMoves(s.queues, s.scheduling.free, s.scheduling.busiest, StartedIn(s.status), s.pool, s.completed);
  }

  lemma EmptyHand(scheduling: Scheduling, queues: seq<Queue<Task>>, pool: seq<Task>, completed: multiset<Task>)
    requires AllWellFormed(queues) && scheduling.Levels?
    ensures Places(pool, Ready, queues, completed) == Places(pool, scheduling, queues, completed)
  {
  }

  lemma JobMoves(queues: seq<Queue<Task>>, f: nat, b: nat, started: set<Task>, pool: seq<Task>,
                 completed: multiset<Task>)
    requires AllWellFormed(queues) && f != b && b < |queues| && Room(queues, f)
    ensures Pop(queues[b], started).Some? ==>
      var (q, t) := Pop(queues[b], started).value;
      && AllWellFormed(queues[b := q]) && Room(queues[b := q], f)
      && Places(pool, Moves(f, b, t), queues[b := q], completed) == Places(pool, Levels(f, b), queues, completed)
  {
    hide WellFormed, AllJobs, Pop, StartedStay, Idle, FreeSlots, LoadAt;
    PopOne(queues, b, started);
    if Pop(queues[b], started).Some? {
      var (q, t) := Pop(queues[b], started).value;
      IntoHand(multiset(pool), AllJobs(queues), AllJobs(queues[b := q]), t, completed);
    }
  }

  lemma IntoHand(pool: multiset<Task>, jobs: multiset<Task>, jobs': multiset<Task>, t: Task, completed: multiset<Task>)
    requires jobs == jobs' + multiset{t}
    ensures pool + multiset{t} + jobs' + completed == pool + multiset{} + jobs + completed
  {
  }

  lemma PopWorks(s: State)
    requires Inv(s) && Enabled(s, PopMoved) && Clear(s, PopMoved) && AllWellFormed(Popped(s).queues)
    ensures Shaped(Popped(s)) && Works(Popped(s))
  {
    hide WellFormed, AllJobs, Pop, NonIncreasing, AllLawful, CallsAccounted, AtWork, HeadHolds, StartedIn, LoadAt;
    var s', b, started := Popped(s), s.scheduling.busiest, StartedIn(s.status);
    if Pop(s.queues[b], started).Some? {
      assert WellFormed(s'.queues[b]);
      PopNotStarted(s.queues[b], started);
      if s.working[b] != Rests {
        PopHead(s.queues[b], started, s.working[b].task);
      }
    }
    HeadsKept(s, s');
  }

  lemma PopNotStarted(q: Queue<Task>, started: set<Task>)
    requires WellFormed(q)
    ensures Pop(q, started).Some? ==> Pop(q, started).value.1 !in started
  {
    PopMeans(q, started);
  }

  /** The head keeps its job unless that is the one that goes. */
  lemma PopHead(q: Queue<Task>, started: set<Task>, t: Task)
    requires WellFormed(q) && Pop(q, started).Some? && WellFormed(Pop(q, started).value.0)
    ensures HeadHolds(q, t) && t != Pop(q, started).value.1 ==> HeadHolds(Pop(q, started).value.0, t)
  {
    hide Load;
  }

  // -------------------------------------------------------------- the workers' steps

  lemma RoomStays(scheduling: Scheduling, queues: seq<Queue<Task>>, queues': seq<Queue<Task>>)
    requires AllWellFormed(queues) && AllWellFormed(queues') && |queues'| == |queues| && RoomKept(scheduling, queues)
    requires forall k :: 0 <= k < |queues| ==> LoadAt(queues', k) <= LoadAt(queues, k)
    ensures RoomKept(scheduling, queues')
  {
    hide WellFormed, Load;
  }

  lemma PickQueueKeeps(s: State, w: nat)
    requires Inv(s) && w < |s.working| && s.working[w] == Rests
    ensures var (q, job) := Advance(s.queues[w], QUEUE_SIZE);
      Inv(s.(queues := s.queues[w := q])) && (job.Some? ==> HeadHolds(q, job.value))
  {
    hide LoadFrom, JobsFrom, AllJobs, Advance, NonIncreasing, Works, RoomKept, StartedIn;
    var (q, job) := Advance(s.queues[w], QUEUE_SIZE);
    var s' := s.(queues := s.queues[w := q]);
    ChangeOne(s.queues, w, q);
    Cancel(AllJobs(s'.queues), AllJobs(s.queues), Jobs(q));
    RoomStays(s.scheduling, s.queues, s'.queues);
    HeadsKept(s, s');
  }

  /** No callback yet for a job that a queue holds, unless its worker has just called. */
  lemma NotCalled(s: State, w: nat, t: Task)
    requires Inv(s) && w < |s.working| && HeadHolds(s.queues[w], t) && s.working[w] != Completes(t)
    ensures t in s.submitted && t !in s.completed && !Called(s.trace[t])
    ensures forall k :: 0 <= k < |s.working| && k != w && s.working[k] != Rests ==> s.working[k].task != t
  {
    hide WellFormed, Load, Jobs, AllJobs, Lawful, StartedIn;
    HeadWithin(s.queues[w], t);
    OnlyWorker(s, w, t);
  }

  lemma FetchKeeps(s: State, w: nat)
    requires Inv(s) && w < |s.working| && s.working[w] == Rests
    ensures Inv(Fetching(s, w))
  {
    hide Advance, WellFormed, AllJobs, Works, RoomKept, NonIncreasing, StartedIn, HeadHolds;
    PickQueueKeeps(s, w);
    var (q, job) := Advance(s.queues[w], QUEUE_SIZE);
    if job.Some? {
      FetchedKeeps(s.(queues := s.queues[w := q]), w, job.value);
    } else {
      assert s.working[w := Rests] == s.working;
    }
  }

  lemma FetchedKeeps(s: State, w: nat, t: Task)
    requires Inv(s) && w < |s.working| && s.working[w] == Rests && HeadHolds(s.queues[w], t)
    ensures Inv(s.(working := s.working[w := Fetched(t)]))
  {
    hide WellFormed, AllJobs, NonIncreasing, RoomKept, HeadHolds, StartedIn, Lawful, Called;
    NotCalled(s, w, t);
    FinishingChanges(s.working, w, Fetched(t));
  }

  lemma DecideKeeps(s: State, w: nat)
    requires Inv(s) && w < |s.working| && s.working[w].Fetched?
    ensures Inv(Decided(s, w))
  {
    hide WellFormed, AllJobs, NonIncreasing, RoomKept, HeadHolds, StartedIn, Lawful, Called;
    var t, s' := s.working[w].task, Decided(s, w);
    NotCalled(s, w, t);
    BeginLawful(s.trace[t], s.status[t], t in s.errors);
    StartedGrow(s.status, s'.status);
    NowStarted(s'.status, t);
    FinishingChanges(s.working, w, s'.working[w]);
  }

  lemma FinishingChanges(working: seq<Working>, w: nat, work: Working)
    requires w < |working|
    ensures forall u :: Finishing(working[w := work], u) <==>
      work == Completes(u) || (exists k :: 0 <= k < |working| && k != w && working[k] == Completes(u))
    ensures forall u :: working[w] != Completes(u) && work != Completes(u) ==>
      (Finishing(working[w := work], u) <==> Finishing(working, u))
  {
    var working' := working[w := work];
    forall u
      ensures Finishing(working', u) <==>
        work == Completes(u) || (exists k :: 0 <= k < |working| && k != w && working[k] == Completes(u))
    {
      assert working'[w] == work;
      if k :| 0 <= k < |working| && k != w && working[k] == Completes(u) {
        assert working'[k] == Completes(u);
      }
    }
    forall u | working[w] != Completes(u) && work != Completes(u)
      ensures Finishing(working', u) <==> Finishing(working, u)
    {
      if k :| 0 <= k < |working| && working[k] == Completes(u) {
        assert working'[k] == Completes(u);
      }
    }
  }

  lemma BeginLawful(trace: seq<Call>, status: Bits, failed: bool)
    requires Lawful(trace, status, failed)
    ensures Lawful(trace, status + {RUNNING}, failed)
    ensures DONE in status ==> RUNNING in status
  {
  }

  lemma NowStarted(status: map<Task, Bits>, t: Task)
    requires t in status && RUNNING in status[t]
    ensures t in StartedIn(status)
  {
  }

  lemma ReturnedSnoc(trace: seq<Call>, call: Call)
    ensures forall bit :: Returned(trace + [call], bit) <==> Returned(trace, bit) || (call.Start? && bit in call.result)
  {
    var trace' := trace + [call];
    forall bit
      ensures Returned(trace', bit) <==> Returned(trace, bit) || (call.Start? && bit in call.result)
    {
      assert trace'[|trace|] == call;
      if i :| 0 <= i < |trace| && trace[i].Start? && bit in trace[i].result {
        assert trace'[i] == trace[i];
      }
    }
  }

  lemma StartLawful(trace: seq<Call>, status: Bits, failed: bool, result: Bits, failed': bool)
    requires Lawful(trace, status, failed) && !Called(trace) && DONE !in status && RUNNING in status
    requires failed' == (failed || (!(PENDING in status + result && DONE !in status + result)
        && FAILED in status + result))
    ensures Lawful(trace + [Start(result)], status + result, failed') && !Called(trace + [Start(result)])
  {
    var trace' := trace + [Start(result)];
    ReturnedSnoc(trace, Start(result));
  }

  lemma CallLawful(trace: seq<Call>, status: Bits, failed: bool)
    requires Lawful(trace, status, failed) && !Called(trace) && DONE in status
    ensures var trace' := trace + [if failed then Fail else End]; Lawful(trace', status, failed) && Called(trace')
  {
    var trace' := trace + [if failed then Fail else End];
    ReturnedSnoc(trace, if failed then Fail else End);
  }

  lemma StartKeeps(s: State, w: nat, result: Bits)
    requires Inv(s) && w < |s.working| && s.working[w].Runs?
    ensures Inv(Started(s, w, result))
  {
    hide WellFormed, AllJobs, NonIncreasing, RoomKept, HeadHolds, AtHead, AtWork, AllLawful, CallsAccounted;
    HeadOf(s, w);
    NotCalled(s, w, s.working[w].task);
    StartPlaced(s, w, result);
    StartTraced(s, w, result);
  }

  lemma StartPlaced(s: State, w: nat, result: Bits)
    requires Inv(s) && w < |s.working| && s.working[w].Runs?
    requires forall k :: 0 <= k < |s.working| && k != w && s.working[k] != Rests ==>
        s.working[k].task != s.working[w].task
    ensures var s' := Started(s, w, result); AtHead(s'.queues, s'.working, s'.status) && AtWork(s'.working, s'.status)
  {
    hide WellFormed, AllJobs, NonIncreasing, RoomKept, HeadHolds, StartedIn, AllLawful, CallsAccounted;
    StartedGrow(s.status, Started(s, w, result).status);
  }

  lemma StartTraced(s: State, w: nat, result: Bits)
    requires Inv(s) && w < |s.working| && s.working[w].Runs?
    requires var t := s.working[w].task; t in s.submitted && !Called(s.trace[t])
    ensures var s' := Started(s, w, result);
      AllLawful(s'.trace, s'.status, s'.errors) && CallsAccounted(s'.trace, s'.working, s'.completed)
  {
    hide WellFormed, AllJobs, NonIncreasing, RoomKept, AtHead, Lawful, Called, Finishing;
    var t, s' := s.working[w].task, Started(s, w, result);
    StartLawful(s.trace[t], s.status[t], t in s.errors, result, t in s'.errors);
    FinishingChanges(s.working, w, s'.working[w]);
  }

  lemma CallbackKeeps(s: State, w: nat)
    requires Inv(s) && w < |s.working| && s.working[w].Calls?
    ensures Inv(CalledBack(s, w))
  {
    hide WellFormed, AllJobs, NonIncreasing, RoomKept, HeadHolds, StartedIn, Lawful, Called;
    var t := s.working[w].task;
    NotCalled(s, w, t);
    var s' := CalledBack(s, w);
    CallLawful(s.trace[t], s.status[t], t in s.errors);
    FinishingChanges(s.working, w, Completes(t));
  }

  lemma CompleteKeeps(s: State, w: nat)
    requires Inv(s) && w < |s.working| && s.working[w].Completes?
    ensures Inv(MarkedComplete(s, w))
  {
    hide LoadFrom, JobsFrom, AllJobs, Complete, NonIncreasing, Works, RoomKept, StartedIn;
    var t := s.working[w].task;
    HeadOf(s, w);
    CompleteMeans(s.queues[w]);
    var q, s' := Complete(s.queues[w]), MarkedComplete(s, w);
    ChangeOne(s.queues, w, q);
    Cancel(AllJobs(s.queues), AllJobs(s'.queues) + multiset{t}, Jobs(q));
    RoomStays(s.scheduling, s.queues, s'.queues);
    CompleteWorks(s, w);
  }

  lemma HeadOf(s: State, w: nat)
    requires Inv(s) && w < |s.working| && s.working[w] != Rests
    ensures HeadHolds(s.queues[w], s.working[w].task) && s.working[w].task in s.submitted
  {
  }

  lemma CompleteWorks(s: State, w: nat)
    requires Inv(s) && w < |s.working| && s.working[w].Completes? && AllWellFormed(MarkedComplete(s, w).queues)
    ensures Shaped(MarkedComplete(s, w)) && Works(MarkedComplete(s, w))
  {
    hide WellFormed, AllJobs, NonIncreasing, RoomKept, HeadHolds, StartedIn, AllLawful, Complete, CallsAccounted,
        AtHead;
    HeadOf(s, w);
    HeadWithin(s.queues[w], s.working[w].task);
    OnlyWorker(s, w, s.working[w].task);
    SameStatus(s, w);
    CompleteAccounted(s, w);
    CompletePlaced(s, w);
  }

  lemma SameStatus(s: State, w: nat)
    requires Inv(s) && w < |s.working| && s.working[w].Completes?
    ensures MarkedComplete(s, w).status == s.status
  {
    hide WellFormed, AllJobs, NonIncreasing, RoomKept, HeadHolds, StartedIn, AllLawful, Complete, CallsAccounted,
        AtHead;
    var t := s.working[w].task;
    assert StatusOf(s, t) + {DONE} == s.status[t];
    assert s.status[t := s.status[t]] == s.status;
  }

  lemma CompletePlaced(s: State, w: nat)
    requires Inv(s) && w < |s.working| && s.working[w].Completes? && AllWellFormed(MarkedComplete(s, w).queues)
    requires MarkedComplete(s, w).status == s.status
    ensures var s' := MarkedComplete(s, w); AtHead(s'.queues, s'.working, s'.status) && AtWork(s'.working, s'.status)
  {
    hide WellFormed, AllJobs, NonIncreasing, RoomKept, HeadHolds, StartedIn, AllLawful, Complete, CallsAccounted;
  }

  lemma CompleteAccounted(s: State, w: nat)
    requires Inv(s) && w < |s.working| && s.working[w].Completes?
    requires forall k :: 0 <= k < |s.working| && k != w && s.working[k] != Rests ==>
        s.working[k].task != s.working[w].task
    ensures var s' := MarkedComplete(s, w); CallsAccounted(s'.trace, s'.working, s'.completed)
  {
    hide WellFormed, AllJobs, NonIncreasing, RoomKept, AtHead, AllLawful, Called, Complete;
    FinishingChanges(s.working, w, Rests);
    assert Finishing(s.working, s.working[w].task) by {
      HeadOf(s, w);
    }
  }

  // ------------------------------------------------------------------- every run

  /** A move of a job that a worker has just fetched leaves the worker without its job. */
  lemma PopBreaks(s: State)
    requires Shaped(s) && Enabled(s, PopMoved) && !Clear(s, PopMoved) && Inv(s)
    ensures !Inv(Apply(s, PopMoved))
  {
    hide WellFormed, Load, Jobs, AllJobs, Pop, NonIncreasing, AllLawful, CallsAccounted, AtWork, RoomKept, StartedIn;
    var b := s.scheduling.busiest;
    var (q, t) := Pop(s.queues[b], StartedIn(s.status)).value;
    var w :| 0 <= w < |s.working| && s.working[w] == Fetched(t);
    PopMeans(s.queues[b], StartedIn(s.status));
    HeadWithin(s.queues[w], t);
    OnlyThere(s, w, t);
    assert t in JobsAt(s.queues, b);
    PendingOnce(s, b, t);
    if Inv(Popped(s)) {
      assert Popped(s).working[b] == Fetched(t);
      HeadWithin(q, t);
    }
  }

  /** A job is pending at most once. */
  lemma PendingOnce(s: State, w: nat, t: Task)
    requires Inv(s) && w < |s.queues|
    ensures Jobs(s.queues[w])[t] <= 1
  {
    hide Load, Jobs, AllJobs, Works, RoomKept;
    WithinAll(s.queues, w, w);
    assert AllJobs(s.queues)[t] <= Places(s.pool, s.scheduling, s.queues, s.completed)[t];
    assert multiset(s.submitted)[t] <= 1;
  }

  /** A step keeps the invariant exactly if it is clear. */
  lemma StepKeeps(s: State, step: Step)
    requires Inv(s) && Enabled(s, step)
    ensures Inv(Apply(s, step)) <==> Clear(s, step)
  {
    hide Clear, Apply, Works, AllJobs, Places, NonIncreasing, RoomKept;
    if Clear(s, step) {
      ClearStepKeeps(s, step);
    } else {
      OnlyMovesUnclear(s, step);
      PopBreaks(s);
    }
  }

  lemma OnlyMovesUnclear(s: State, step: Step)
    requires Shaped(s) && Enabled(s, step) && !Clear(s, step)
    ensures step == PopMoved
  {
  }

  lemma ClearStepKeeps(s: State, step: Step)
    requires Inv(s) && Enabled(s, step) && Clear(s, step)
    ensures Inv(Apply(s, step))
  {
    hide Inv, Shaped, Enabled, Clear, Apply;
    InvShaped(s);
    match step
    case Submit(t) => TasksKeep(s, step);
    case TakeTask => TasksKeep(s, step);
    case Choose(q) => DecisionKeeps(s, step);
    case Level(f, b) => DecisionKeeps(s, step);
    case Levelled => DecisionKeeps(s, step);
    case PutTask => PutsKeep(s, step);
    case PutMoved => PutsKeep(s, step);
    case FlushQueue(q) => TasksKeep(s, step);
    case PopMoved => PopKeeps(s);
    case _ => WorkerStepKeeps(s, step);
  }

  lemma TasksKeep(s: State, step: Step)
    requires Inv(s) && Enabled(s, step) && (step.Submit? || step.TakeTask? || step.FlushQueue?)
    ensures Inv(Apply(s, step))
  {
    hide Inv, Shaped, LoadAt, Flush, Submitted, Taken;
    InvShaped(s);
    match step
    case Submit(t) => SubmitKeeps(s, t);
    case TakeTask => TakeKeeps(s);
    case FlushQueue(q) => FlushKeeps(s, q);
  }

  lemma DecisionKeeps(s: State, step: Step)
    requires Inv(s) && Enabled(s, step) && (step.Choose? || step.Level? || step.Levelled?)
    ensures Inv(Apply(s, step))
  {
    hide Inv, Shaped, LoadAt;
    InvShaped(s);
    match step
    case Choose(q) => ScheduleKeeps(s, Chosen(q));
    case Level(f, b) => ScheduleKeeps(s, Levels(f, b));
    case Levelled => ScheduleKeeps(s, Ready);
  }

  lemma PutsKeep(s: State, step: Step)
    requires Inv(s) && Enabled(s, step) && (step.PutTask? || step.PutMoved?)
    ensures Inv(Apply(s, step))
  {
    hide Inv, Shaped, LoadAt, Put;
    InvShaped(s);
    RoomWhenPut(s);
    match step
    case PutTask => PutKeeps(s, s.scheduling.queue, Ready);
    case PutMoved => PutKeeps(s, s.scheduling.free, Levels(s.scheduling.free, s.scheduling.busiest));
  }

  lemma RoomWhenPut(s: State)
    requires Inv(s)
    ensures RoomKept(s.scheduling, s.queues)
  {
  }

  lemma WorkerStepKeeps(s: State, step: Step)
    requires Inv(s) && Enabled(s, step)
    requires step.Fetch? || step.Decide? || step.RunStart? || step.Callback? || step.MarkComplete?
    ensures Inv(Apply(s, step))
  {
    hide Inv, Shaped, LoadAt, Fetching, Decided, Started, CalledBack, MarkedComplete;
    InvShaped(s);
    match step
    case Fetch(w) => FetchKeeps(s, w);
    case Decide(w) => DecideKeeps(s, w);
    case RunStart(w, result) => StartKeeps(s, w, result);
    case Callback(w) => CallbackKeeps(s, w);
    case MarkComplete(w) => CompleteKeeps(s, w);
  }

  /** Each step is the next action of its thread when it is taken.  `RunKeeps` shows that the shape is never lost. */
  ghost predicate Legal(s: State, steps: seq<Step>)
    decreases |steps|
  {
    steps == [] || (Shaped(s) && Enabled(s, steps[0]) && Legal(Apply(s, steps[0]), steps[1..]))
  }

  /** No move takes a job out of the window between `getNextTask` and its running bit. */
  ghost predicate Careful(s: State, steps: seq<Step>)
    requires Legal(s, steps)
    decreases |steps|
  {
    steps == [] || (Clear(s, steps[0]) && Careful(Apply(s, steps[0]), steps[1..]))
  }

  ghost function After(s: State, steps: seq<Step>): State
    requires Legal(s, steps)
    decreases |steps|
  {
    if steps == [] then s else After(Apply(s, steps[0]), steps[1..])
  }

  /** Every state of the run satisfies the invariant. */
  ghost predicate AlwaysInv(s: State, steps: seq<Step>)
    requires Legal(s, steps)
    decreases |steps|
  {
    Inv(s) && (steps == [] || AlwaysInv(Apply(s, steps[0]), steps[1..]))
  }

  /** The states of a run satisfy the invariant exactly if the run is careful. */
  lemma {:induction false} RunKeeps(s: State, steps: seq<Step>)
    requires Inv(s) && Legal(s, steps)
    ensures AlwaysInv(s, steps) <==> Careful(s, steps)
    ensures Careful(s, steps) ==> Inv(After(s, steps))
    decreases |steps|
  {
    hide Inv, Apply, Enabled, Clear;
    if steps != [] {
      StepKeeps(s, steps[0]);
      if Clear(s, steps[0]) {
        RunKeeps(Apply(s, steps[0]), steps[1..]);
      } else {
        NotAlways(Apply(s, steps[0]), steps[1..]);
      }
    }
  }

  lemma NotAlways(s: State, steps: seq<Step>)
    requires Legal(s, steps) && !Inv(s)
    ensures !AlwaysInv(s, steps)
  {
    hide Inv;
  }

  lemma {:induction false} NewQueues(qs: seq<Queue<Task>>)
    requires forall i :: 0 <= i < |qs| ==> qs[i] == NewQueue()
    ensures AllWellFormed(qs) && AllJobs(qs) == multiset{}
  {
    if qs != [] {
      NewQueues(qs[..|qs| - 1]);
      NoJobs(NewQueue());
    }
  }

  lemma NoJobs(q: Queue<Task>)
    requires q == NewQueue()
    ensures Jobs(q) == multiset{}
  {
    assert JobsFrom(q.slots, q.done, 3) == multiset{};
    assert JobsFrom(q.slots, q.done, 2) == multiset{};
    assert JobsFrom(q.slots, q.done, 1) == multiset{};
  }

  lemma InitialKept(threads: nat)
    ensures Inv(Initial(threads))
  {
    hide WellFormed, AllJobs;
    NewQueues(Initial(threads).queues);
  }

  /**
     In every careful run each submitted task is in exactly one place, every counter is the number
     of pending slots, and the queue that is to be added to accepts the job.
   */
  lemma EveryTaskInOnePlace(threads: nat, steps: seq<Step>, t: Task)
    requires Legal(Initial(threads), steps) && Careful(Initial(threads), steps)
    ensures var s := After(Initial(threads), steps);
      && |s.queues| == threads && AllWellFormed(s.queues)
      && Places(s.pool, s.scheduling, s.queues, s.completed)[t] == (if t in s.submitted then 1 else 0)
      && (forall i :: 0 <= i < threads ==> s.queues[i].total == LoadAt(s.queues, i))
      && (s.scheduling.Holding? ==>
          s.scheduling.queue < threads && Add(s.queues[s.scheduling.queue], s.scheduling.task).Some?)
      && (s.scheduling.Moves? ==>
          s.scheduling.free < threads && Add(s.queues[s.scheduling.free], s.scheduling.task).Some?)
  {
    hide LoadFrom, AllJobs, Works, Add, NonIncreasing, Legal, Careful, AlwaysInv, After, Initial;
    InitialKept(threads);
    assert |Initial(threads).queues| == threads by { ThreadsOf(threads); }
    RunKeeps(Initial(threads), steps);
    SameThreads(Initial(threads), steps);
    var s := After(Initial(threads), steps);
    if s.scheduling.Holding? {
      AddToMeans(s.queues, s.scheduling.queue, s.scheduling.task);
    } else if s.scheduling.Moves? {
      AddToMeans(s.queues, s.scheduling.free, s.scheduling.task);
    }
  }

  lemma ThreadsOf(threads: nat)
    ensures |Initial(threads).queues| == threads
  {
  }

  lemma StepSameThreads(s: State, step: Step)
    requires Shaped(s) && Enabled(s, step)
    ensures |Apply(s, step).queues| == |s.queues|
  {
    hide AllWellFormed, LoadAt, Add, Pop, Advance, Complete, Flush, InsertTask, StartedIn;
    match step
    case PutTask =>
    case PutMoved =>
    case _ =>
  }

  lemma {:induction false} SameThreads(s: State, steps: seq<Step>)
    requires Legal(s, steps)
    ensures |After(s, steps).queues| == |s.queues|
    decreases |steps|
  {
    hide Apply, Enabled, Shaped;
    if steps != [] {
      StepSameThreads(s, steps[0]);
      SameThreads(Apply(s, steps[0]), steps[1..]);
    }
  }

  /**
     In every careful run a job has at most one callback, and only after a start that returned DONE;
     no start follows; the callback is the failing one exactly if a start returned FAILED; and
     a job has had it exactly if it is completed or its worker is about to free the slot.
   */
  lemma EveryJobLawful(threads: nat, steps: seq<Step>, t: Task)
    requires Legal(Initial(threads), steps) && Careful(Initial(threads), steps)
        && t in After(Initial(threads), steps).submitted
    ensures var s := After(Initial(threads), steps);
      && t in s.trace && t in s.status
      && Lawful(s.trace[t], s.status[t], t in s.errors)
      && (Called(s.trace[t]) <==> t in s.completed || Finishing(s.working, t))
  {
    hide Lawful, AllJobs, AtHead, AtWork;
    InitialKept(threads);
    RunKeeps(Initial(threads), steps);
  }

  /** After its callback nothing more happens to a job. */
  lemma {:induction false} CallbackIsLast(s: State, steps: seq<Step>, t: Task)
    requires Inv(s) && Legal(s, steps) && Careful(s, steps) && t in s.submitted && Called(s.trace[t])
    ensures t in After(s, steps).trace && After(s, steps).trace[t] == s.trace[t]
    decreases |steps|
  {
    hide Works, AllJobs, Apply, Enabled, Clear, NonIncreasing, RoomKept, AllWellFormed, Called;
    if steps != [] {
      StepKeeps(s, steps[0]);
      StepAfterCall(s, steps[0], t);
      CallbackIsLast(Apply(s, steps[0]), steps[1..], t);
    }
  }

  lemma StepAfterCall(s: State, step: Step, t: Task)
    requires Inv(s) && Enabled(s, step) && t in s.submitted && Called(s.trace[t])
    ensures var s' := Apply(s, step); t in s'.submitted && t in s'.trace && s'.trace[t] == s.trace[t]
  {
    hide AllJobs, NonIncreasing, LoadAt, AtHead, AtWork, AllLawful, CallsAccounted, RoomKept, Add, Pop, Advance,
        InsertTask, Called, AllWellFormed;
    match step
    case RunStart(w, _) => HeadOf(s, w); NotCalled(s, w, s.working[w].task);
    case Callback(w) => HeadOf(s, w); NotCalled(s, w, s.working[w].task);
    case _ =>
  }

  // ------------------------------------------------------------ the order of service

  /** The submitted tasks that have not been taken, in the order of submission, after a step. */
  ghost function Waiting(pending: seq<Task>, step: Step): seq<Task> {
    match step
    case Submit(t) => pending + [t]
    case TakeTask =>
      if pending == [] then []
      else
        assert exists i: nat :: FirstOfLargest(pending, i) by { var i := HeadIsFirstOfLargest(pending); }
        var i: nat :| FirstOfLargest(pending, i);
        Without(pending, i)
    case _ => pending
  }

  ghost function WaitingAfter(pending: seq<Task>, steps: seq<Step>): seq<Task>
    decreases |steps|
  {
    if steps == [] then pending else WaitingAfter(Waiting(pending, steps[0]), steps[1..])
  }

  /** The task that is taken is, of the largest priority, the one that was submitted first. */
  lemma TakesFirstOfLargest(s: State, pending: seq<Task>) returns (i: nat)
    requires s.scheduling.Chosen? && s.pool == ServiceOrder(pending) && pending != []
    ensures FirstOfLargest(pending, i) && Waiting(pending, TakeTask) == Without(pending, i)
    ensures Taken(s).scheduling == Holding(s.scheduling.queue, pending[i])
    ensures Taken(s).pool == ServiceOrder(Without(pending, i))
  {
    hide ServiceOrder;
    i := HeadIsFirstOfLargest(pending);
    assert Taken(s).pool == s.pool[1..] == ServiceOrder(Without(pending, i));
  }

  lemma StepKeepsOrder(s: State, step: Step, pending: seq<Task>)
    requires Shaped(s) && Enabled(s, step) && s.pool == ServiceOrder(pending)
    ensures Apply(s, step).pool == ServiceOrder(Waiting(pending, step))
  {
    hide AllWellFormed, LoadAt, InsertTask, AddTo, Pop, Advance, Complete, Flush, StartedIn, ServiceOrder;
    match step
    case Submit(t) => SubmittedLast(pending, t);
    case TakeTask =>
      if pending == [] {
        NobodyWaits();
      } else {
        var i := TakesFirstOfLargest(s, pending);
      }
    case PopMoved =>
    case _ =>
  }

  lemma SubmittedLast(pending: seq<Task>, t: Task)
    ensures InsertTask(ServiceOrder(pending), t) == ServiceOrder(pending + [t])
  {
    assert (pending + [t])[..|pending|] == pending;
  }

  lemma NobodyWaits()
    ensures ServiceOrder([]) == []
  {
  }

  /** In every run, careful or not, the pool is the service order of the tasks that wait. */
  lemma {:induction false} PoolInOrder(s: State, steps: seq<Step>, pending: seq<Task>)
    requires Legal(s, steps) && s.pool == ServiceOrder(pending)
    ensures After(s, steps).pool == ServiceOrder(WaitingAfter(pending, steps))
    decreases |steps|
  {
    hide Shaped, Enabled, Apply, ServiceOrder, Waiting;
    if steps != [] {
      StepKeepsOrder(s, steps[0], pending);
      PoolInOrder(Apply(s, steps[0]), steps[1..], Waiting(pending, steps[0]));
    }
  }

  // ------------------------------------------------------------------- the window

  /** The one job of a queue is the next to be fetched from it. */
  lemma OnlyJobIsNext(q: Queue<Task>, t: Task)
    requires WellFormed(q) && Load(q) > 0 && forall u :: u in Jobs(q) ==> u == t
    ensures Advance(q, QUEUE_SIZE).1 == Some(t)
  {
    hide Load, Jobs, Advance;
    AdvanceFinds(q);
    var q' := Advance(q, QUEUE_SIZE).0;
    HeadWithin(q', q'.slots[q'.head].value);
    HeadMovesOnly(q, q');
  }

  lemma HeadMovesOnly(q: Queue<Task>, q': Queue<Task>)
    requires Filled(q) && Filled(q') && q' == q.(head := q'.head)
    ensures Jobs(q') == Jobs(q)
  {
  }

  /** An empty queue that is given a job has just that one. */
  lemma OnlyJobAdded(q: Queue<Task>, t: Task)
    requires WellFormed(q) && Load(q) == 0
    ensures Add(q, t).Some? && WellFormed(Add(q, t).value) && Load(Add(q, t).value) == 1
    ensures forall u :: u in Jobs(Add(q, t).value) ==> u == t
  {
    hide LoadFrom, Add;
    AddMeans(q, t);
    NothingPending(q.slots, q.done, 0);
    LoadLimits(q);
  }

  lemma {:induction false} NothingPending(slots: seq<Option<Task>>, done: seq<bool>, i: nat)
    requires FilledSlots(slots, done) && i <= QUEUE_SIZE
    ensures LoadFrom(done, i) == 0 ==> JobsFrom(slots, done, i) == multiset{}
    decreases QUEUE_SIZE - i
  {
    if i < QUEUE_SIZE {
      NothingPending(slots, done, i + 1);
    }
  }

  lemma FirstStep(s: State, step: Step, rest: seq<Step>)
    requires Shaped(s) && Enabled(s, step) && Legal(Apply(s, step), rest)
    ensures Legal(s, [step] + rest) && After(s, [step] + rest) == After(Apply(s, step), rest)
    ensures Careful(s, [step] + rest) ==> Clear(s, step)
  {
    hide Shaped, Enabled, Apply, Clear;
    assert ([step] + rest)[1..] == rest;
  }

  /** The rebalancing has room for the job and finds it. */
  ghost predicate InWindow(s: State, f: nat, w: nat, t: Task) {
    && Inv(s) && s.scheduling == Levels(f, w) && LoadAt(s.queues, f) == 0
    && s.working[w] == Fetched(t)
    && Pop(s.queues[w], StartedIn(s.status)).Some? && Pop(s.queues[w], StartedIn(s.status)).value.1 == t
  }

  /** The job is in two places: at the head of one queue, where a worker has fetched it, and alone in another. */
  ghost predicate InTwoPlaces(s: State, f: nat, w: nat, t: Task) {
    && Shaped(s) && f < |s.queues| && w < |s.queues| && f != w && t in s.status && DONE !in s.status[t]
    && s.working[w] == Fetched(t) && s.working[f] == Rests
    && Advance(s.queues[f], QUEUE_SIZE).1 == Some(t)
  }

  lemma MovedAway(s: State, f: nat, w: nat, t: Task)
    requires InWindow(s, f, w, t)
    ensures Shaped(s) && Enabled(s, PopMoved) && !Clear(s, PopMoved)
    ensures var s' := Apply(s, PopMoved);
      Shaped(s') && Enabled(s', PutMoved) && InTwoPlaces(Apply(s', PutMoved), f, w, t)
  {
    hide AllJobs, NonIncreasing, AllLawful, CallsAccounted, AtHead, Pop, Add, Advance, LoadFrom, Places, Idle,
        FreeSlots, StartedStay;
    PopOne(s.queues, w, StartedIn(s.status));
    OnlyJobAdded(s.queues[f], t);
    OnlyJobIsNext(Add(s.queues[f], t).value, t);
    NotDone(s, t);
    IdleRests(s, f);
  }

  /** The worker of an idle queue rests. */
  lemma IdleRests(s: State, f: nat)
    requires Inv(s) && f < |s.queues| && LoadAt(s.queues, f) == 0
    ensures s.working[f] == Rests
  {
    hide AllJobs, NonIncreasing, AllLawful, CallsAccounted, AtWork, Places, RoomKept, LoadFrom, StartedIn;
    LoadLimits(s.queues[f]);
  }

  /** A job that has not started is not done. */
  lemma NotDone(s: State, t: Task)
    requires Inv(s) && t in s.submitted && t !in StartedIn(s.status)
    ensures DONE !in s.status[t]
  {
    hide AllJobs, NonIncreasing, CallsAccounted, AtHead, AtWork, Places, RoomKept;
  }

  lemma BothStart(s: State, f: nat, w: nat, t: Task)
    requires InTwoPlaces(s, f, w, t)
    ensures var steps := [Fetch(f)] + ([Decide(w)] + ([Decide(f)] + []));
      && Legal(s, steps)
      && After(s, steps).working == s.working[f := Runs(t)][w := Runs(t)]
  {
    hide Advance, WellFormed, Legal, After;
    var s1 := Fetching(s, f);
    ShapedFetch(s, f);
    assert s1.working == s.working[f := Fetched(t)];
    var s2 := Decided(s1, w);
    assert s2.working == s1.working[w := Runs(t)];
    var s3 := Decided(s2, f);
    assert s3.working == s2.working[f := Runs(t)];
    NoSteps(s3);
    FirstStep(s2, Decide(f), []);
    FirstStep(s1, Decide(w), [Decide(f)] + []);
    FirstStep(s, Fetch(f), [Decide(w)] + ([Decide(f)] + []));
    assert s3.working == s.working[f := Runs(t)][w := Runs(t)];
  }

  lemma ShapedFetch(s: State, w: nat)
    requires Shaped(s) && w < |s.working|
    ensures Shaped(Fetching(s, w))
  {
  }

  lemma NoSteps(s: State)
    ensures Legal(s, []) && After(s, []) == s
  {
  }

  /**
     What a move inside the window does: a worker has fetched a job, the rebalancing takes that
     job to an idle queue, whose worker fetches it as well, and both start it.
   */
  lemma WindowRunsTwice(s: State, f: nat, w: nat, t: Task)
    requires InWindow(s, f, w, t)
    ensures var steps := [PopMoved, PutMoved, Fetch(f), Decide(w), Decide(f)];
      && Legal(s, steps) && !Careful(s, steps)
      && After(s, steps).working == s.working[f := Runs(t)][w := Runs(t)]
  {
    hide InTwoPlaces, InWindow, Shaped, Enabled, Apply, Clear, Legal, Careful, After;
    MovedAway(s, f, w, t);
    var s1 := Apply(s, PopMoved);
    var s2 := Apply(s1, PutMoved);
    var last := [Fetch(f)] + ([Decide(w)] + ([Decide(f)] + []));
    BothStart(s2, f, w, t);
    SameWorking(s, f, w, t);
    FirstStep(s1, PutMoved, last);
    FirstStep(s, PopMoved, [PutMoved] + last);
    assert [PopMoved, PutMoved, Fetch(f), Decide(w), Decide(f)] == [PopMoved] + ([PutMoved] + last);
  }

  lemma SameWorking(s: State, f: nat, w: nat, t: Task)
    requires InWindow(s, f, w, t) && Enabled(s, PopMoved)
    requires var s' := Apply(s, PopMoved); Shaped(s') && Enabled(s', PutMoved)
    ensures f < |s.working| && w < |s.working|
    ensures Apply(Apply(s, PopMoved), PutMoved).working == s.working
  {
    hide AllJobs, NonIncreasing, Works, Pop, Add, LoadFrom, Places, StartedIn;
  }

  lemma {:induction false} LegalJoin(s: State, first: seq<Step>, step: Step)
    requires Legal(s, first) && Shaped(After(s, first)) && Enabled(After(s, first), step)
    ensures Legal(s, first + [step]) && After(s, first + [step]) == Apply(After(s, first), step)
    ensures Careful(s, first + [step]) <==> Careful(s, first) && Clear(After(s, first), step)
    decreases |first|
  {
    hide Shaped, Enabled, Apply, Clear;
    if first == [] {
      assert first + [step] == [step] && [step][1..] == [];
      NoSteps(Apply(s, step));
    } else {
      LegalJoin(Apply(s, first[0]), first[1..], step);
      assert (first + [step])[1..] == first[1..] + [step];
    }
  }

  /** A run leads to `s`. */
  ghost predicate Leads(threads: nat, steps: seq<Step>, s: State) {
    Legal(Initial(threads), steps) && After(Initial(threads), steps) == s
  }

  ghost predicate CanReach(threads: nat, s: State) {
    exists steps :: Leads(threads, steps, s)
  }

  /** A careful run leads to `s`. */
  ghost predicate Reached(threads: nat, s: State) {
    Inv(s) && exists steps :: Leads(threads, steps, s) && Careful(Initial(threads), steps)
  }

  lemma ReachStep(threads: nat, s: State, step: Step)
    requires Reached(threads, s) && Enabled(s, step) && Clear(s, step)
    ensures Reached(threads, Apply(s, step))
  {
    hide Inv, Enabled, Apply, Clear, Shaped, Legal, Careful, After;
    InvShaped(s);
    var steps :| Leads(threads, steps, s) && Careful(Initial(threads), steps);
    StepKeeps(s, step);
    LegalJoin(Initial(threads), steps, step);
    assert Leads(threads, steps + [step], Apply(s, step));
  }

  lemma GoOn(threads: nat, s: State, step: Step)
    requires CanReach(threads, s) && Shaped(s) && Enabled(s, step)
    ensures CanReach(threads, Apply(s, step))
  {
    hide Enabled, Apply, Shaped, Legal, After;
    var steps :| Leads(threads, steps, s);
    LegalJoin(Initial(threads), steps, step);
    assert Leads(threads, steps + [step], Apply(s, step));
  }

  lemma InvShaped(s: State)
    ensures Inv(s) ==> Shaped(s)
  {
  }

  /** A task on its way to the first of two queues. */
  function Dispatching(t: Task): State {
    State([], [NewQueue(), NewQueue()], Holding(0, t), [Rests, Rests], map[t := {}], {}, {t}, multiset{}, map[t := []])
  }

  lemma DispatchingReached(t: Task)
    ensures Reached(2, Dispatching(t))
  {
    hide Inv, Reached;
    var s0 := Initial(2);
    InitialReached(2);
    assert s0 == State([], [NewQueue(), NewQueue()], Ready, [Rests, Rests], map[], {}, {}, multiset{}, map[]);
    ReachStep(2, s0, Submit(t));
    var s1 := Apply(s0, Submit(t));
    assert s1 == s0.(pool := [t], submitted := {t}, status := map[t := {}], trace := map[t := []]);
    ReachStep(2, s1, Choose(0));
    var s2 := Apply(s1, Choose(0));
    ReachStep(2, s2, TakeTask);
    assert Apply(s2, TakeTask) == Dispatching(t);
  }

  /** A queue whose first slot holds its only job. */
  function OneJob(t: Task): Queue<Task> {
    Queue(0, [Some(t), None, None, None], [false, true, true, true], 1)
  }

  /** The same queue after its job is marked as complete. */
  function JobGone(t: Task): Queue<Task> {
    Queue(0, [Some(t), None, None, None], [true, true, true, true], 0)
  }

  lemma OneJobCounts(t: Task)
    ensures WellFormed(OneJob(t)) && Load(OneJob(t)) == 1 && Jobs(OneJob(t)) == multiset{t}
    ensures WellFormed(JobGone(t)) && Load(JobGone(t)) == 0 && Jobs(JobGone(t)) == multiset{}
    ensures WellFormed(NewQueue<Task>()) && Load(NewQueue<Task>()) == 0
  {
    var done, gone := OneJob(t).done, JobGone(t).done;
    assert LoadFrom(done, 3) == 0 && LoadFrom(done, 2) == 0 && LoadFrom(done, 1) == 0;
    assert LoadFrom(gone, 3) == 0 && LoadFrom(gone, 2) == 0 && LoadFrom(gone, 1) == 0;
    var slots := OneJob(t).slots;
    assert JobsFrom(slots, done, 3) == multiset{};
    assert JobsFrom(slots, done, 2) == multiset{};
    assert JobsFrom(slots, done, 1) == multiset{};
    NothingPending(slots, gone, 0);
  }

  lemma OneJobAdded(t: Task)
    ensures WellFormed(NewQueue<Task>()) && Add(NewQueue(), t) == Some(OneJob(t))
  {
    OneJobCounts(t);
    assert FreeSlot(NewQueue<Task>(), 0) == Some(0);
    assert Placed(NewQueue(), t, 0) == OneJob(t);
  }

  lemma OneJobFetched(t: Task)
    ensures WellFormed(OneJob(t)) && Advance(OneJob(t), QUEUE_SIZE) == (OneJob(t), Some(t))
  {
    hide LoadFrom;
    OneJobCounts(t);
    var q := OneJob(t);
    assert Advance(q.(head := 3), 1) == (q, Some(t));
    assert Advance(q.(head := 2), 2) == (q, Some(t));
    assert Advance(q.(head := 1), 3) == (q, Some(t));
  }

  lemma OneJobPopped(t: Task, started: set<Task>)
    requires t !in started
    ensures WellFormed(OneJob(t)) && Pop(OneJob(t), started) == Some((NewQueue(), t))
  {
    OneJobCounts(t);
    assert MovableSlot(OneJob(t), started, 0) == Some(0);
    assert Cleared(OneJob(t), 0) == NewQueue();
  }

  lemma OneJobCompleted(t: Task)
    ensures WellFormed(OneJob(t)) && Complete(OneJob(t)) == JobGone(t)
  {
    OneJobCounts(t);
  }

  /** A task that the worker of the first of two queues has fetched, while a move to the second is due. */
  function InTheWindow(t: Task): State {
    Dispatching(t).(queues := [OneJob(t), NewQueue()], scheduling := Levels(1, 0), working := [Fetched(t), Rests])
  }

  /** The window is reached: a task is dispatched to the first of two queues and fetched. */
  lemma WindowIsReached(t: Task)
    ensures Reached(2, InTheWindow(t)) && InWindow(InTheWindow(t), 1, 0, t)
  {
    hide Works, Places, Reached, Add, Advance, LoadFrom, JobsFrom, Pop;
    var s0 := Dispatching(t);
    DispatchingReached(t);
    OneJobCounts(t);
    OneJobAdded(t);
    OneJobFetched(t);
    ReachStep(2, s0, PutTask);
    var s1 := s0.(queues := [OneJob(t), NewQueue()], scheduling := Ready);
    assert Apply(s0, PutTask) == s1;
    ReachStep(2, s1, Fetch(0));
    var s2 := s1.(working := [Fetched(t), Rests]);
    assert Apply(s1, Fetch(0)) == s2;
    ReachStep(2, s2, Level(1, 0));
    var s := InTheWindow(t);
    assert Apply(s2, Level(1, 0)) == s;
    assert StartedIn(s.status) == {};
    OneJobPopped(t, {});
    assert Inv(s) by { ReachedInv(2, s); }
  }

  lemma ReachedInv(threads: nat, s: State)
    requires Reached(threads, s)
    ensures Inv(s)
  {
  }

  lemma InitialReached(threads: nat)
    ensures Reached(threads, Initial(threads))
  {
    hide Inv;
    InitialKept(threads);
    NoSteps(Initial(threads));
    assert Leads(threads, [], Initial(threads)) && Careful(Initial(threads), []);
  }

  // -------------------------------------------- what goes wrong after such a move

  /** One step, from one state to the other. */
  ghost predicate Goes(s: State, step: Step, s': State) {
    Shaped(s) && Enabled(s, step) && Apply(s, step) == s'
  }

  lemma GoesOn(threads: nat, s: State, step: Step, s': State)
    requires CanReach(threads, s) && Goes(s, step, s')
    ensures CanReach(threads, s')
  {
    hide CanReach, Enabled, Apply, Shaped;
    GoOn(threads, s, step);
  }

  lemma StillReaches(threads: nat, s: State)
    requires Reached(threads, s)
    ensures CanReach(threads, s)
  {
    hide Inv, Legal, After, Careful;
    var steps :| Leads(threads, steps, s) && Careful(Initial(threads), steps);
  }

  /** Two queues, each with no more than one job. */
  lemma TwoShaped(s: State, a: Queue<Task>, b: Queue<Task>)
    requires s.queues == [a, b] && WellFormed(a) && WellFormed(b)
    ensures AllWellFormed(s.queues)
    ensures LoadAt(s.queues, 0) == Load(a) && LoadAt(s.queues, 1) == Load(b)
  {
    hide WellFormed, Load;
  }

  /** The fetched task `t` has been moved to the second queue. */
  function MovedOut(t: Task): State {
    InTheWindow(t).(queues := [NewQueue(), OneJob(t)], scheduling := Ready)
  }

  lemma MovedOutReached(t: Task)
    ensures CanReach(2, MovedOut(t))
  {
    hide CanReach, Goes, Reached;
    var s0 := InTheWindow(t);
    WindowIsReached(t);
    StillReaches(2, s0);
    var s1 := s0.(queues := [NewQueue(), NewQueue()], scheduling := Moves(1, 0, t));
    var s2 := s0.(queues := [NewQueue(), OneJob(t)]);
    assert Goes(s0, PopMoved, s1) by { WindowPops(t); }
    assert Goes(s1, PutMoved, s2) by { WindowPuts(t); }
    assert Goes(s2, Levelled, MovedOut(t)) by { WindowEnds(t); }
    GoesOn(2, s0, PopMoved, s1);
    GoesOn(2, s1, PutMoved, s2);
    GoesOn(2, s2, Levelled, MovedOut(t));
  }

  lemma WindowPops(t: Task)
    ensures Goes(InTheWindow(t), PopMoved, InTheWindow(t).(queues := [NewQueue(), NewQueue()],
        scheduling := Moves(1, 0, t)))
  {
    hide Pop, Load, WellFormed;
    var s := InTheWindow(t);
    OneJobCounts(t);
    TwoShaped(s, OneJob(t), NewQueue());
    assert StartedIn(s.status) == {};
    OneJobPopped(t, {});
  }

  lemma WindowPuts(t: Task)
    ensures Goes(InTheWindow(t).(queues := [NewQueue(), NewQueue()], scheduling := Moves(1, 0, t)), PutMoved,
      InTheWindow(t).(queues := [NewQueue(), OneJob(t)]))
  {
    hide Add, Load, WellFormed;
    var s := InTheWindow(t).(queues := [NewQueue(), NewQueue()], scheduling := Moves(1, 0, t));
    OneJobCounts(t);
    TwoShaped(s, NewQueue(), NewQueue());
    OneJobAdded(t);
  }

  lemma WindowEnds(t: Task)
    ensures Goes(InTheWindow(t).(queues := [NewQueue(), OneJob(t)]), Levelled, MovedOut(t))
  {
    hide Load, WellFormed;
    OneJobCounts(t);
    TwoShaped(InTheWindow(t).(queues := [NewQueue(), OneJob(t)]), NewQueue(), OneJob(t));
  }

  /**
   Another task `u` has, or had, the first slot of the first queue, while `t`, with the given status
   and calls, is the only job of the second.
   */
  function Pair(t: Task, u: Task, first: Queue<Task>, w0: Working, w1: Working, bits: Bits, calls: seq<Call>,
                completed: multiset<Task>): State {
    State([], [first, OneJob(t)], Ready, [w0, w1], map[t := bits, u := {}], {}, {t, u}, completed,
      map[t := calls, u := []])
  }

  const NoBits: Bits := {}
  const Ran: Bits := {RUNNING}
  const RanAndDone: Bits := {RUNNING, DONE}
  const NoCalls: seq<Call> := []
  const Begun: seq<Call> := [Start({DONE})]
  const Ended: seq<Call> := [Start({DONE}), End]
  const EndedTwice: seq<Call> := [Start({DONE}), End, End]

  lemma BitsAndCalls()
    ensures Ran == NoBits + {RUNNING} && RanAndDone == Ran + {DONE} && RanAndDone == RanAndDone + {DONE}
    ensures DONE !in NoBits && DONE in RanAndDone && FAILED !in Ran
    ensures Begun == NoCalls + [Start({DONE})] && Ended == Begun + [End] && EndedTwice == Ended + [End]
  {
  }

  function SlotFree(t: Task, u: Task): State {
    Pair(t, u, NewQueue(), Fetched(t), Rests, NoBits, NoCalls, multiset{})
  }

  function SlotTaken(t: Task, u: Task): State {
    Pair(t, u, OneJob(u), Fetched(t), Rests, NoBits, NoCalls, multiset{})
  }

  lemma SlotTakenReached(t: Task, u: Task)
    requires t != u
    ensures CanReach(2, SlotTaken(t, u))
  {
    hide CanReach, Goes, SlotFree, SlotTaken, MovedOut;
    MovedOutReached(t);
    var free := SlotFree(t, u);
    var s1 := free.(pool := [u]);
    var s2 := free.(pool := [u], scheduling := Chosen(0));
    var s3 := free.(scheduling := Holding(0, u));
    Submits(t, u);
    Takes(t, u);
    Puts(t, u);
    GoesOn(2, MovedOut(t), Submit(u), s1);
    GoesOn(2, s1, Choose(0), s2);
    GoesOn(2, s2, TakeTask, s3);
    GoesOn(2, s3, PutTask, SlotTaken(t, u));
  }

  lemma Submits(t: Task, u: Task)
    requires t != u
    ensures Goes(MovedOut(t), Submit(u), SlotFree(t, u).(pool := [u]))
  {
    hide Load, WellFormed;
    OneJobCounts(t);
    TwoShaped(MovedOut(t), NewQueue(), OneJob(t));
  }

  lemma Takes(t: Task, u: Task)
    requires t != u
    ensures var free := SlotFree(t, u);
      && Goes(free.(pool := [u]), Choose(0), free.(pool := [u], scheduling := Chosen(0)))
      && Goes(free.(pool := [u], scheduling := Chosen(0)), TakeTask, free.(scheduling := Holding(0, u)))
  {
    hide Load, WellFormed;
    OneJobCounts(t);
    KeysOfTwo(t, u, NoBits, {});
    KeysOfTwo(t, u, NoCalls, []);
    TwoShaped(SlotFree(t, u), NewQueue(), OneJob(t));
  }

  lemma Puts(t: Task, u: Task)
    requires t != u
    ensures Goes(SlotFree(t, u).(scheduling := Holding(0, u)), PutTask, SlotTaken(t, u))
  {
    hide Add, Load, WellFormed;
    OneJobCounts(t);
    OneJobAdded(u);
    KeysOfTwo(t, u, NoBits, {});
    KeysOfTwo(t, u, NoCalls, []);
    TwoShaped(SlotFree(t, u).(scheduling := Holding(0, u)), NewQueue(), OneJob(t));
  }

  lemma KeysOfTwo<T>(t: Task, u: Task, a: T, b: T)
    ensures map[t := a, u := b].Keys == {t, u}
    ensures forall c :: t != u ==> map[t := a, u := b][t := c] == map[t := c, u := b]
  {
  }

  lemma PairShaped(t: Task, u: Task, first: Queue<Task>, w0: Working, w1: Working, bits: Bits, calls: seq<Call>,
                   completed: multiset<Task>)
    requires WellFormed(first)
    ensures Shaped(Pair(t, u, first, w0, w1, bits, calls, completed))
  {
    hide WellFormed, OneJob, AllWellFormed;
    OneJobCounts(t);
    KeysOfTwo(t, u, bits, {});
    KeysOfTwo(t, u, calls, []);
    TwoShaped(Pair(t, u, first, w0, w1, bits, calls, completed), first, OneJob(t));
  }

  /** The worker of the second queue finds its only job. */
  lemma PairFetches(t: Task, u: Task, first: Queue<Task>, w0: Working, bits: Bits, calls: seq<Call>,
                    completed: multiset<Task>)
    requires WellFormed(first)
    ensures Goes(Pair(t, u, first, w0, Rests, bits, calls, completed), Fetch(1),
                 Pair(t, u, first, w0, Fetched(t), bits, calls, completed))
  {
    hide WellFormed, Shaped, Advance, OneJob;
    PairShaped(t, u, first, w0, Rests, bits, calls, completed);
    OneJobFetched(t);
    assert [w0, Rests][1 := Fetched(t)] == [w0, Fetched(t)];
    assert [first, OneJob(t)][1 := OneJob(t)] == [first, OneJob(t)];
  }

  /** The worker of the second queue marks the job as running, and starts it. */
  lemma SecondDecides(t: Task, u: Task, first: Queue<Task>, w0: Working, bits: Bits, calls: seq<Call>,
                      completed: multiset<Task>)
    requires t != u && WellFormed(first)
    ensures Goes(Pair(t, u, first, w0, Fetched(t), bits, calls, completed), Decide(1),
      if DONE in bits then Pair(t, u, first, w0, Calls(t), bits, calls, completed)
      else Pair(t, u, first, w0, Runs(t), bits + {RUNNING}, calls, completed))
  {
    hide WellFormed, Shaped, OneJob;
    PairShaped(t, u, first, w0, Fetched(t), bits, calls, completed);
    KeysOfTwo(t, u, bits, {});
    assert [w0, Fetched(t)][1 := Calls(t)] == [w0, Calls(t)] && [w0, Fetched(t)][1 := Runs(t)] == [w0, Runs(t)];
  }

  lemma SecondStarts(t: Task, u: Task, first: Queue<Task>, w0: Working, bits: Bits, calls: seq<Call>,
                     completed: multiset<Task>)
    requires t != u && WellFormed(first) && FAILED !in bits
    ensures Goes(Pair(t, u, first, w0, Runs(t), bits, calls, completed), RunStart(1, {DONE}),
      Pair(t, u, first, w0, Rests, bits + {DONE}, calls + [Start({DONE})], completed))
  {
    hide WellFormed, Shaped, OneJob;
    PairShaped(t, u, first, w0, Runs(t), bits, calls, completed);
    KeysOfTwo(t, u, bits, {});
    KeysOfTwo(t, u, calls, []);
    assert [w0, Runs(t)][1 := Rests] == [w0, Rests];
  }

  lemma SecondCallsBack(t: Task, u: Task, first: Queue<Task>, w0: Working, bits: Bits, calls: seq<Call>,
                        completed: multiset<Task>)
    requires t != u && WellFormed(first)
    ensures Goes(Pair(t, u, first, w0, Calls(t), bits, calls, completed), Callback(1),
      Pair(t, u, first, w0, Completes(t), bits, calls + [End], completed))
  {
    hide WellFormed, Shaped, OneJob;
    PairShaped(t, u, first, w0, Calls(t), bits, calls, completed);
    KeysOfTwo(t, u, calls, []);
    assert [w0, Calls(t)][1 := Completes(t)] == [w0, Completes(t)];
  }

  /** The worker of the first queue finds the job done, and calls back. */
  lemma FirstDecides(t: Task, u: Task, first: Queue<Task>, w1: Working, bits: Bits, calls: seq<Call>,
                     completed: multiset<Task>)
    requires t != u && WellFormed(first) && DONE in bits
    ensures Goes(Pair(t, u, first, Fetched(t), w1, bits, calls, completed), Decide(0),
      Pair(t, u, first, Calls(t), w1, bits, calls, completed))
  {
    hide WellFormed, Shaped, OneJob;
    PairShaped(t, u, first, Fetched(t), w1, bits, calls, completed);
    KeysOfTwo(t, u, bits, {});
    assert [Fetched(t), w1][0 := Calls(t)] == [Calls(t), w1];
  }

  lemma FirstCallsBack(t: Task, u: Task, first: Queue<Task>, w1: Working, bits: Bits, calls: seq<Call>,
                       completed: multiset<Task>)
    requires t != u && WellFormed(first)
    ensures Goes(Pair(t, u, first, Calls(t), w1, bits, calls, completed), Callback(0),
      Pair(t, u, first, Completes(t), w1, bits, calls + [End], completed))
  {
    hide WellFormed, Shaped, OneJob;
    PairShaped(t, u, first, Calls(t), w1, bits, calls, completed);
    KeysOfTwo(t, u, calls, []);
    assert [Calls(t), w1][0 := Completes(t)] == [Completes(t), w1];
  }

  /** The worker of the first queue frees the slot of `u`. */
  lemma FirstFrees(t: Task, u: Task, w1: Working, bits: Bits, calls: seq<Call>)
    requires t != u && bits + {DONE} == bits
    ensures Goes(Pair(t, u, OneJob(u), Completes(t), w1, bits, calls, multiset{}), MarkComplete(0),
      Pair(t, u, JobGone(u), Rests, w1, bits, calls, multiset{t}))
  {
    hide WellFormed, Shaped, Enabled, Apply, OneJob, JobGone, MarkedComplete;
    OneJobCounts(u);
    PairShaped(t, u, OneJob(u), Completes(t), w1, bits, calls, multiset{});
    FirstFreed(t, u, w1, bits, calls);
    MarkingGoes(Pair(t, u, OneJob(u), Completes(t), w1, bits, calls, multiset{}), 0);
  }

  lemma MarkingGoes(s: State, w: nat)
    requires Shaped(s) && w < |s.working| && s.working[w].Completes?
    ensures Goes(s, MarkComplete(w), MarkedComplete(s, w))
  {
    hide WellFormed, MarkedComplete;
  }

  lemma FirstFreed(t: Task, u: Task, w1: Working, bits: Bits, calls: seq<Call>)
    requires t != u && bits + {DONE} == bits && WellFormed(OneJob(u))
    ensures MarkedComplete(Pair(t, u, OneJob(u), Completes(t), w1, bits, calls, multiset{}), 0) ==
      Pair(t, u, JobGone(u), Rests, w1, bits, calls, multiset{t})
  {
    hide WellFormed, OneJob, JobGone, Complete;
    OneJobCompleted(u);
    KeysOfTwo(t, u, bits, {});
    assert [OneJob(u), OneJob(t)][0 := JobGone(u)] == [JobGone(u), OneJob(t)];
    assert [Completes(t), w1][0 := Rests] == [Rests, w1];
    assert multiset{} + multiset{t} == multiset{t};
  }

  /** The other worker has started `t`, and the first, finding it done, has called back and freed the slot of `u`. */
  function FreedWrongly(t: Task, u: Task): State {
    Pair(t, u, JobGone(u), Rests, Rests, RanAndDone, Ended, multiset{t})
  }

  lemma SecondDoneReached(t: Task, u: Task)
    requires t != u
    ensures CanReach(2, Pair(t, u, OneJob(u), Fetched(t), Rests, RanAndDone, Begun, multiset{}))
  {
    hide CanReach, Goes, WellFormed, OneJob, Pair, NoBits, Ran, RanAndDone, NoCalls, Begun;
    SlotTakenReached(t, u);
    OneJobCounts(u);
    BitsAndCalls();
    var q, w0, none := OneJob(u), Fetched(t), multiset{};
    PairFetches(t, u, q, w0, NoBits, NoCalls, none);
    SecondDecides(t, u, q, w0, NoBits, NoCalls, none);
    SecondStarts(t, u, q, w0, Ran, NoCalls, none);
    GoesOn(2, SlotTaken(t, u), Fetch(1), Pair(t, u, q, w0, Fetched(t), NoBits, NoCalls, none));
    GoesOn(2, Pair(t, u, q, w0, Fetched(t), NoBits, NoCalls, none), Decide(1),
      Pair(t, u, q, w0, Runs(t), Ran, NoCalls, none));
    GoesOn(2, Pair(t, u, q, w0, Runs(t), Ran, NoCalls, none), RunStart(1, {DONE}),
      Pair(t, u, q, w0, Rests, RanAndDone, Begun, none));
  }

  lemma FreedWronglyReached(t: Task, u: Task)
    requires t != u
    ensures CanReach(2, FreedWrongly(t, u))
  {
    hide CanReach, Goes, WellFormed, OneJob, JobGone, Pair, RanAndDone, Begun, Ended;
    SecondDoneReached(t, u);
    OneJobCounts(u);
    BitsAndCalls();
    var q, none := OneJob(u), multiset{};
    FirstDecides(t, u, q, Rests, RanAndDone, Begun, none);
    FirstCallsBack(t, u, q, Rests, RanAndDone, Begun, none);
    FirstFrees(t, u, Rests, RanAndDone, Ended);
    GoesOn(2, Pair(t, u, q, Fetched(t), Rests, RanAndDone, Begun, none), Decide(0),
      Pair(t, u, q, Calls(t), Rests, RanAndDone, Begun, none));
    GoesOn(2, Pair(t, u, q, Calls(t), Rests, RanAndDone, Begun, none), Callback(0),
      Pair(t, u, q, Completes(t), Rests, RanAndDone, Ended, none));
    GoesOn(2, Pair(t, u, q, Completes(t), Rests, RanAndDone, Ended, none), MarkComplete(0), FreedWrongly(t, u));
  }

  /** A run after which one task is in two places and another in none. */
  lemma TaskIsLost(t: Task, u: Task) returns (steps: seq<Step>)
    requires t != u
    ensures Legal(Initial(2), steps)
    ensures var s := After(Initial(2), steps);
      && Shaped(s) && t in s.submitted && u in s.submitted
      && Places(s.pool, s.scheduling, s.queues, s.completed)[t] == 2
      && Places(s.pool, s.scheduling, s.queues, s.completed)[u] == 0
  {
    hide Load, WellFormed, Shaped, Jobs, Legal, After, OneJob, JobGone, RanAndDone, Ended;
    FreedWronglyReached(t, u);
    OneJobCounts(t);
    OneJobCounts(u);
    steps :| Leads(2, steps, FreedWrongly(t, u));
    PairShaped(t, u, JobGone(u), Rests, Rests, RanAndDone, Ended, multiset{t});
    TwoQueuesJobs(JobGone(u), OneJob(t));
  }

  lemma TwoQueuesJobs(a: Queue<Task>, b: Queue<Task>)
    requires WellFormed(a) && WellFormed(b)
    ensures AllWellFormed([a, b]) && AllJobs([a, b]) == Jobs(a) + Jobs(b)
  {
    hide Load, Jobs;
    assert [a, b][..1] == [a] && [a][..0] == [];
    assert AllJobs([a]) == AllJobs<Task>([]) + Jobs(a);
  }

  /** The second worker, too, has found `t` done and called back. */
  function CalledTwice(t: Task, u: Task): State {
    Pair(t, u, JobGone(u), Rests, Completes(t), RanAndDone, EndedTwice, multiset{t})
  }

  lemma CalledTwiceReached(t: Task, u: Task)
    requires t != u
    ensures CanReach(2, CalledTwice(t, u))
  {
    hide CanReach, Goes, WellFormed, OneJob, JobGone, Pair, RanAndDone, Ended, EndedTwice;
    FreedWronglyReached(t, u);
    OneJobCounts(u);
    BitsAndCalls();
    var q, once := JobGone(u), multiset{t};
    PairFetches(t, u, q, Rests, RanAndDone, Ended, once);
    SecondDecides(t, u, q, Rests, RanAndDone, Ended, once);
    SecondCallsBack(t, u, q, Rests, RanAndDone, Ended, once);
    GoesOn(2, FreedWrongly(t, u), Fetch(1), Pair(t, u, q, Rests, Fetched(t), RanAndDone, Ended, once));
    GoesOn(2, Pair(t, u, q, Rests, Fetched(t), RanAndDone, Ended, once), Decide(1),
      Pair(t, u, q, Rests, Calls(t), RanAndDone, Ended, once));
    GoesOn(2, Pair(t, u, q, Rests, Calls(t), RanAndDone, Ended, once), Callback(1), CalledTwice(t, u));
  }

  /** A run in which a job is called back twice. */
  lemma JobCalledTwice(t: Task, u: Task) returns (steps: seq<Step>)
    requires t != u
    ensures Legal(Initial(2), steps)
    ensures var s := After(Initial(2), steps);
      && t in s.submitted && t in s.trace && t in s.status && s.trace[t] == [Start({DONE}), End, End]
      && !Lawful(s.trace[t], s.status[t], t in s.errors)
  {
    hide Legal, After, OneJob, JobGone, Lawful;
    CalledTwiceReached(t, u);
    steps :| Leads(2, steps, CalledTwice(t, u));
    assert CalledTwice(t, u).trace[t] == EndedTwice;
    NotLawful(CalledTwice(t, u).status[t], false);
  }

  lemma NotLawful(bits: Bits, failed: bool)
    ensures !Lawful(EndedTwice, bits, failed)
  {
    assert !EndedTwice[1].Start?;
  }

  // ------------------------------------------------------------ one job, served to its end

  /** `s` when worker `w` is at `work`, and its job `t` has the given bits and calls. */
  function JobAt(s: State, w: nat, t: Task, work: Working, bits: Bits, calls: seq<Call>, failed: bool): State
    requires w < |s.working|
  {
    s.(working := s.working[w := work], status := s.status[t := bits], trace := s.trace[t := calls],
       errors := if failed then s.errors + {t} else s.errors)
  }

  lemma JobAtShaped(s: State, w: nat, t: Task, work: Working, bits: Bits, calls: seq<Call>, failed: bool)
    requires Shaped(s) && w < |s.working| && t in s.submitted
    ensures Shaped(JobAt(s, w, t, work, bits, calls, failed))
  {
    hide WellFormed;
  }

  /** What a start process may return, call by call: it stays pending until it is done. */
  predicate Returns(results: seq<Bits>) {
    && results != [] && DONE in results[|results| - 1]
    && (forall i :: 0 <= i < |results| - 1 ==> DONE !in results[i])
    && (|results| > 1 ==> PENDING in results[0])
  }

  function AllBits(results: seq<Bits>): Bits {
    if results == [] then {} else AllBits(results[..|results| - 1]) + results[|results| - 1]
  }

  function Starts(results: seq<Bits>): (calls: seq<Call>)
    ensures |calls| == |results| && forall i :: 0 <= i < |calls| ==> calls[i] == Start(results[i])
  {
    seq(|results|, i requires 0 <= i < |results| => Start(results[i]))
  }

  function StartSteps(w: nat, results: seq<Bits>): (steps: seq<Step>)
    ensures |steps| == |results| && forall i :: 0 <= i < |steps| ==> steps[i] == RunStart(w, results[i])
  {
    seq(|results|, i requires 0 <= i < |results| => RunStart(w, results[i]))
  }

  lemma {:induction false} BitsBefore(results: seq<Bits>, n: nat)
    requires Returns(results) && n < |results|
    ensures DONE !in AllBits(results[..n]) && (n > 0 ==> PENDING in AllBits(results[..n]))
  {
    if n > 0 {
      BitsBefore(results, n - 1);
      assert results[..n][..n - 1] == results[..n - 1];
      if n == 1 {
        assert results[..0] == [];
      }
    }
  }

  lemma BitsOneMore(results: seq<Bits>, n: nat)
    requires n < |results|
    ensures AllBits(results[..n + 1]) == AllBits(results[..n]) + results[n]
    ensures Starts(results[..n + 1]) == Starts(results[..n]) + [Start(results[n])]
  {
    assert results[..n + 1][..n] == results[..n];
  }

  /** The bits of the job after so many calls, and the bit that it got before the first. */
  function BitsAfter(results: seq<Bits>, n: nat): Bits
    requires n <= |results|
  {
    {RUNNING} + AllBits(results[..n])
  }

  lemma StartGoes(s: State, w: nat, t: Task, results: seq<Bits>, n: nat)
    requires Shaped(s) && w < |s.working| && t in s.submitted && Returns(results) && n < |results|
    ensures Goes(JobAt(s, w, t, Runs(t), BitsAfter(results, n), Starts(results[..n]), false), RunStart(w, results[n]),
      if n < |results| - 1 then JobAt(s, w, t, Runs(t), BitsAfter(results, n + 1), Starts(results[..n + 1]), false)
      else JobAt(s, w, t, Rests, BitsAfter(results, n + 1), Starts(results[..n + 1]),
          FAILED in BitsAfter(results, n + 1)))
  {
    hide WellFormed, Shaped, Starts, AllBits;
    var from := JobAt(s, w, t, Runs(t), BitsAfter(results, n), Starts(results[..n]), false);
    JobAtShaped(s, w, t, Runs(t), BitsAfter(results, n), Starts(results[..n]), false);
    BitsOneMore(results, n);
    if n < |results| - 1 {
      BitsBefore(results, n + 1);
    }
    StartedAt(s, w, t, BitsAfter(results, n), results[n], Starts(results[..n]));
    assert BitsAfter(results, n + 1) == BitsAfter(results, n) + results[n];
  }

  lemma StartedAt(s: State, w: nat, t: Task, bits: Bits, result: Bits, calls: seq<Call>)
    requires w < |s.working|
    ensures var all := bits + result;
      var called := calls + [Start(result)];
      Started(JobAt(s, w, t, Runs(t), bits, calls, false), w, result) ==
        if PENDING in all && DONE !in all then JobAt(s, w, t, Runs(t), all, called, false)
        else JobAt(s, w, t, Rests, all, called, FAILED in all)
  {
    var from := JobAt(s, w, t, Runs(t), bits, calls, false);
    assert s.status[t := bits][t := bits + result] == s.status[t := bits + result];
    assert s.trace[t := calls][t := calls + [Start(result)]] == s.trace[t := calls + [Start(result)]];
    assert s.working[w := Runs(t)][w := Rests] == s.working[w := Rests];
  }

  lemma GoesFirst(s: State, step: Step, s': State, rest: seq<Step>)
    requires Goes(s, step, s') && Legal(s', rest)
    ensures Legal(s, [step] + rest) && After(s, [step] + rest) == After(s', rest)
  {
    hide Shaped, Enabled, Apply;
    FirstStep(s, step, rest);
  }

  /** The worker calls the start process until it is done. */
  lemma {:induction false} StartsGo(s: State, w: nat, t: Task, results: seq<Bits>, n: nat, rest: seq<Step>)
    requires Shaped(s) && w < |s.working| && t in s.submitted && Returns(results) && n < |results|
    requires var all := BitsAfter(results, |results|);
      Legal(JobAt(s, w, t, Rests, all, Starts(results), FAILED in all), rest)
    ensures var all := BitsAfter(results, |results|);
      var from := JobAt(s, w, t, Runs(t), BitsAfter(results, n), Starts(results[..n]), false);
      var steps := StartSteps(w, results[n..]) + rest;
      && Legal(from, steps)
      && After(from, steps) == After(JobAt(s, w, t, Rests, all, Starts(results), FAILED in all), rest)
    decreases |results| - n
  {
    hide Shaped, Goes, Legal, After, BitsAfter, Starts, JobAt;
    StartGoes(s, w, t, results, n);
    var from := JobAt(s, w, t, Runs(t), BitsAfter(results, n), Starts(results[..n]), false);
    var last := n == |results| - 1;
    var steps := (if last then [] else StartSteps(w, results[n + 1..])) + rest;
    assert StartSteps(w, results[n..]) + rest == [RunStart(w, results[n])] + steps by {
      StepsOneMore(w, results, n, rest);
    }
    if last {
      assert results[..n + 1] == results && [] + rest == rest;
      GoesFirst(from, RunStart(w, results[n]),
        JobAt(s, w, t, Rests, BitsAfter(results, |results|), Starts(results), FAILED in BitsAfter(results, |results|)),
        steps);
    } else {
      StartsGo(s, w, t, results, n + 1, rest);
      GoesFirst(from, RunStart(w, results[n]),
        JobAt(s, w, t, Runs(t), BitsAfter(results, n + 1), Starts(results[..n + 1]), false), steps);
    }
  }

  lemma StepsOneMore(w: nat, results: seq<Bits>, n: nat, rest: seq<Step>)
    requires n < |results|
    ensures StartSteps(w, results[n..]) + rest == [RunStart(w, results[n])]
      + ((if n == |results| - 1 then [] else StartSteps(w, results[n + 1..])) + rest)
  {
    var steps := StartSteps(w, results[n..]);
    assert steps == [RunStart(w, results[n])] + (if n == |results| - 1 then [] else StartSteps(w, results[n + 1..]));
  }

  /** A queue whose only job is at its head gives that job again. */
  lemma OnlyJobAgain(q: Queue<Task>, t: Task)
    requires WellFormed(q) && Load(q) == 1 && HeadHolds(q, t)
    ensures Advance(q, QUEUE_SIZE) == (q, Some(t))
  {
    hide Load, Advance;
    AdvanceFinds(q);
    var q' := Advance(q, QUEUE_SIZE).0;
    OneSlot(q, q.head, q'.head);
  }

  lemma OneSlot(q: Queue<Task>, i: nat, k: nat)
    requires WellFormed(q) && Load(q) == 1 && i < QUEUE_SIZE && k < QUEUE_SIZE && !q.done[i] && !q.done[k]
    ensures i == k
  {
    assert Load(q) == One(!q.done[0]) + LoadFrom(q.done, 1);
    assert LoadFrom(q.done, 1) == One(!q.done[1]) + LoadFrom(q.done, 2);
    assert LoadFrom(q.done, 2) == One(!q.done[2]) + LoadFrom(q.done, 3);
    assert LoadFrom(q.done, 3) == One(!q.done[3]) + LoadFrom(q.done, 4);
  }

  /** The only job of queue `w` is at its head, and no call of its start process has been made. */
  ghost predicate AlonePending(s: State, w: nat, t: Task)
    requires Shaped(s) && w < |s.queues|
  {
    && HeadHolds(s.queues[w], t) && LoadAt(s.queues, w) == 1
    && t in s.submitted && t in s.status && t in s.trace && s.status[t] == {} && s.trace[t] == [] && t !in s.errors
  }

  lemma FetchesAgain(s: State, w: nat, t: Task, bits: Bits, calls: seq<Call>, failed: bool)
    requires Shaped(s) && w < |s.working| && AlonePending(s, w, t)
    ensures Goes(JobAt(s, w, t, Rests, bits, calls, failed), Fetch(w), JobAt(s, w, t, Fetched(t), bits, calls, failed))
  {
    hide WellFormed, Shaped, Advance, HeadHolds;
    QueueWellFormed(s, w);
    JobAtShaped(s, w, t, Rests, bits, calls, failed);
    OnlyJobAgain(s.queues[w], t);
    assert s.queues[w := s.queues[w]] == s.queues;
    assert s.working[w := Rests][w := Fetched(t)] == s.working[w := Fetched(t)];
  }

  lemma QueueWellFormed(s: State, w: nat)
    requires Shaped(s) && w < |s.working|
    ensures |s.working| == |s.queues| && AllWellFormed(s.queues)
    ensures WellFormed(s.queues[w]) && Load(s.queues[w]) == LoadAt(s.queues, w)
  {
  }

  lemma Decides(s: State, w: nat, t: Task, bits: Bits, calls: seq<Call>, failed: bool)
    requires Shaped(s) && w < |s.working| && t in s.submitted
    ensures Goes(JobAt(s, w, t, Fetched(t), bits, calls, failed), Decide(w),
      if DONE in bits then JobAt(s, w, t, Calls(t), bits, calls, failed)
      else JobAt(s, w, t, Runs(t), bits + {RUNNING}, calls, failed))
  {
    hide WellFormed, Shaped;
    JobAtShaped(s, w, t, Fetched(t), bits, calls, failed);
    DecidedAt(s, w, t, bits, calls, failed);
  }

  lemma DecidedAt(s: State, w: nat, t: Task, bits: Bits, calls: seq<Call>, failed: bool)
    requires w < |s.working|
    ensures Decided(JobAt(s, w, t, Fetched(t), bits, calls, failed), w) ==
      if DONE in bits then JobAt(s, w, t, Calls(t), bits, calls, failed)
      else JobAt(s, w, t, Runs(t), bits + {RUNNING}, calls, failed)
  {
    assert s.status[t := bits][t := bits + {RUNNING}] == s.status[t := bits + {RUNNING}];
    assert s.working[w := Fetched(t)][w := Calls(t)] == s.working[w := Calls(t)];
    assert s.working[w := Fetched(t)][w := Runs(t)] == s.working[w := Runs(t)];
  }

  lemma CallsBack(s: State, w: nat, t: Task, bits: Bits, calls: seq<Call>, failed: bool)
    requires Shaped(s) && w < |s.working| && t in s.submitted && t !in s.errors
    ensures Goes(JobAt(s, w, t, Calls(t), bits, calls, failed), Callback(w),
      JobAt(s, w, t, Completes(t), bits, calls + [if failed then Fail else End], failed))
  {
    hide WellFormed, Shaped;
    var call := if failed then Fail else End;
    JobAtShaped(s, w, t, Calls(t), bits, calls, failed);
    assert s.trace[t := calls][t := calls + [call]] == s.trace[t := calls + [call]];
    assert s.working[w := Calls(t)][w := Completes(t)] == s.working[w := Completes(t)];
  }

  lemma MarksComplete(s: State, w: nat, t: Task, bits: Bits, calls: seq<Call>, failed: bool)
    requires Shaped(s) && w < |s.working| && t in s.submitted && DONE in bits
    ensures AllWellFormed(s.queues) && |s.working| == |s.queues|
    ensures Goes(JobAt(s, w, t, Completes(t), bits, calls, failed), MarkComplete(w),
      Served(s, w, t, bits, calls, failed))
  {
    hide WellFormed, Shaped, Complete;
    QueueWellFormed(s, w);
    JobAtShaped(s, w, t, Completes(t), bits, calls, failed);
    assert bits + {DONE} == bits;
    assert s.status[t := bits][t := bits] == s.status[t := bits];
    assert s.working[w := Completes(t)][w := Rests] == s.working[w := Rests];
    MarkingGoes(JobAt(s, w, t, Completes(t), bits, calls, failed), w);
  }

  /** The slot is free, and the job completed. */
  function Served(s: State, w: nat, t: Task, bits: Bits, calls: seq<Call>, failed: bool): State
    requires w < |s.working| == |s.queues| && WellFormed(s.queues[w])
  {
    JobAt(s, w, t, Rests, bits, calls, failed).(queues := s.queues[w := Complete(s.queues[w])],
      completed := s.completed + multiset{t})
  }

  function ServingSteps(w: nat, results: seq<Bits>): seq<Step> {
    [Decide(w)] + (StartSteps(w, results)
      + ([Fetch(w)] + ([Decide(w)] + ([Callback(w)] + ([MarkComplete(w)] + [])))))
  }

  /**
   A job that its worker has fetched, and that is alone in its queue, is served by the steps of the worker
   alone: its start process is called as often as it stays pending, then the failing callback is made if one
   of the calls returned FAILED and else the other, and the slot is free.
   */
  lemma JobIsServed(s: State, w: nat, t: Task, results: seq<Bits>)
    requires Shaped(s) && w < |s.working| && s.working[w] == Fetched(t) && AlonePending(s, w, t) && Returns(results)
    ensures Legal(s, ServingSteps(w, results))
    ensures var bits := {RUNNING} + AllBits(results);
      var failed := FAILED in bits;
      After(s, ServingSteps(w, results)) ==
        Served(s, w, t, bits, Starts(results) + [if failed then Fail else End], failed)
  {
    hide Shaped, AlonePending, Goes, Legal, After, Starts, JobAt, Served, BitsAfter, StartSteps;
    var bits := BitsAfter(results, |results|);
    var failed := FAILED in bits;
    AllReturned(results);
    AloneMeans(s, w, t);
    MarksComplete(s, w, t, bits, Starts(results) + [if failed then Fail else End], failed);
    ServesLast(s, w, t, bits, Starts(results), failed);
    var last := [Fetch(w)] + ([Decide(w)] + ([Callback(w)] + ([MarkComplete(w)] + [])));
    StartsGo(s, w, t, results, 0, last);
    assert results[0..] == results;
    NoneStarted(results);
    Decides(s, w, t, {}, [], false);
    GoesFirst(s, Decide(w), JobAt(s, w, t, Runs(t), BitsAfter(results, 0), Starts(results[..0]), false),
      StartSteps(w, results) + last);
  }

  lemma AllReturned(results: seq<Bits>)
    requires Returns(results)
    ensures BitsAfter(results, |results|) == {RUNNING} + AllBits(results) && DONE in AllBits(results)
  {
    assert results[..|results|] == results;
  }

  lemma NoneStarted(results: seq<Bits>)
    ensures BitsAfter(results, 0) == {} + {RUNNING} && Starts(results[..0]) == []
  {
  }

  lemma AloneMeans(s: State, w: nat, t: Task)
    requires Shaped(s) && w < |s.working| && s.working[w] == Fetched(t) && AlonePending(s, w, t)
    ensures t in s.submitted && t !in s.errors && s == JobAt(s, w, t, Fetched(t), {}, [], false)
  {
    assert s.working[w := Fetched(t)] == s.working;
    assert s.status[t := {}] == s.status && s.trace[t := []] == s.trace;
  }

  lemma ServesLast(s: State, w: nat, t: Task, bits: Bits, calls: seq<Call>, failed: bool)
    requires Shaped(s) && w < |s.working| == |s.queues| && AlonePending(s, w, t) && DONE in bits
    requires AllWellFormed(s.queues)
    ensures var steps := [Fetch(w)] + ([Decide(w)] + ([Callback(w)] + ([MarkComplete(w)] + [])));
      var from := JobAt(s, w, t, Rests, bits, calls, failed);
      && Legal(from, steps)
      && After(from, steps) == Served(s, w, t, bits, calls + [if failed then Fail else End], failed)
  {
    hide Shaped, Goes, Legal, After, JobAt, Served;
    var called := calls + [if failed then Fail else End];
    FetchesAgain(s, w, t, bits, calls, failed);
    Decides(s, w, t, bits, calls, failed);
    CallsBack(s, w, t, bits, calls, failed);
    MarksComplete(s, w, t, bits, called, failed);
    NoSteps(Served(s, w, t, bits, called, failed));
    var s0, s1 := JobAt(s, w, t, Rests, bits, calls, failed), JobAt(s, w, t, Fetched(t), bits, calls, failed);
    var s2, s3 := JobAt(s, w, t, Calls(t), bits, calls, failed), JobAt(s, w, t, Completes(t), bits, called, failed);
    GoesFirst(s3, MarkComplete(w), Served(s, w, t, bits, called, failed), []);
    GoesFirst(s2, Callback(w), s3, [MarkComplete(w)] + []);
    GoesFirst(s1, Decide(w), s2, [Callback(w)] + ([MarkComplete(w)] + []));
    GoesFirst(s0, Fetch(w), s1, [Decide(w)] + ([Callback(w)] + ([MarkComplete(w)] + [])));
  }
}
