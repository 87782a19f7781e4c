/**
 The scheduler thread: a dispatch round and the rebalancing that follows it, over
 the shared queue objects of any number of threads.
 */
module Scheduler {
  import opened Wrappers
  import opened JobQueue
  import opened ThreadQueue
  import opened QueueList
  import opened TaskPool

  const NANOSECS := 1000000

  function PriorityTimeSlice(priority: nat): nat {
    match priority
    case 0 => 0
    case 1 => 6 * NANOSECS
    case 2 => 4 * NANOSECS
    case _ => 2 * NANOSECS
  }

  const INT_MAX := 0x7fff_ffff

  class Scheduler {
    const pool: TaskPool
    const threadQueueList: seq<ThreadQueue>
    /** The jobs that were created for the queues. */
    ghost var jobs: set<QueueJob>

    constructor (pool: TaskPool, queues: seq<ThreadQueue>)
      ensures this.pool == pool && threadQueueList == queues && jobs == {}
    {
      this.pool, threadQueueList, jobs := pool, queues, {};
    }

    /** `init_sched`: a new, empty queue for each thread. */
    static method InitSched(pool: TaskPool, totalThreads: nat) returns (s: Scheduler)
      ensures fresh(s) && s.pool == pool && s.jobs == {} && |s.threadQueueList| == totalThreads
      ensures s.Valid() && forall i :: 0 <= i < totalThreads ==> s.Contents()[i] == NewQueue()
      ensures forall q :: q in s.threadQueueList ==> fresh(q) && fresh(q.jobQueue) && fresh(q.jobSlotDone)
    {
      hide WellFormed;
      var queues: seq<ThreadQueue> := [];
      for i := 0 to totalThreads
        invariant |queues| == i
        invariant forall q :: q in queues ==> fresh(q) && fresh(q.jobQueue) && fresh(q.jobSlotDone)
        invariant forall k :: 0 <= k < i ==> queues[k].Valid() && queues[k].contents == NewQueue()
        invariant forall k, l :: 0 <= k < l < i ==> Apart(queues[k], queues[l])
      {
        var queue := new ThreadQueue();
        queues := queues + [queue];
      }
      s := new Scheduler(pool, queues);
    }

    ghost function QueueFrame(): set<object> {
      (set q: ThreadQueue | q in threadQueueList :: q as object)
      + (set q: ThreadQueue | q in threadQueueList :: q.jobQueue as object)
      + (set q: ThreadQueue | q in threadQueueList :: q.jobSlotDone as object)
    }

    ghost predicate Valid()
      reads this, QueueFrame(), jobs
    {
      && (forall i, k :: 0 <= i < k < |threadQueueList| ==> Apart(threadQueueList[i], threadQueueList[k]))
      && (forall i :: 0 <= i < |threadQueueList| ==>
          (InFrame(i); threadQueueList[i].Valid() && threadQueueList[i].SlotJobs() <= jobs))
      && (forall j :: j in jobs ==> j.cpuSlice == 0)
    }

    static ghost predicate Apart(p: ThreadQueue, q: ThreadQueue) {
      p != q && p.jobQueue != q.jobQueue && p.jobSlotDone != q.jobSlotDone
    }

    /** The queues as values. */
    ghost function Contents(): (qs: seq<Queue<QueueJob>>)
      requires Valid()
      reads this, threadQueueList, QueueFrame(), jobs
      ensures |qs| == |threadQueueList| && forall i :: 0 <= i < |qs| ==> qs[i] == threadQueueList[i].contents
      ensures AllWellFormed(qs)
    {
      seq(|threadQueueList|, i requires 0 <= i < |threadQueueList| reads threadQueueList => threadQueueList[i].contents)
    }

    ghost function Started(): set<QueueJob>
      reads this, jobs
    {
      set j | j in jobs && j.Started()
    }

    lemma InFrame(i: nat)
      requires i < |threadQueueList|
      ensures {threadQueueList[i], threadQueueList[i].jobQueue, threadQueueList[i].jobSlotDone} <= QueueFrame()
    {
      assert threadQueueList[i] in threadQueueList;
    }

    lemma NotInFrame()
      ensures (this as object) !in QueueFrame() && (pool as object) !in QueueFrame()
    {
    }

    /** A job for queue `i`; -1 without a job or a free slot. */
    method Give(i: nat, job: QueueJob?) returns (rc: int)
      requires Valid() && i < |threadQueueList| && (job != null ==> job in jobs)
      modifies QueueFrame()
      ensures Valid() && Started() == old(Started())
      ensures job == null ==> rc == -1 && Contents() == old(Contents())
      ensures job != null ==>
        match Add(old(Contents())[i], job)
        case None => rc == -1 && Contents() == old(Contents())
        case Some(q) => rc == 0 && Contents() == old(Contents())[i := q]
    {
      hide WellFormed, Add;
      InFrame(i);
      rc := threadQueueList[i].AddNewTask(job);
    }

    /** A job of queue `i` that has not started; -1 stands for none. */
    method Take(i: nat) returns (job: QueueJob?)
      requires Valid() && i < |threadQueueList|
      modifies QueueFrame()
      ensures Valid() && Started() == old(Started()) && (job != null ==> job in jobs)
      ensures match Pop(old(Contents())[i], old(Started()))
        case None => job == null && Contents() == old(Contents())
        case Some((q, j)) => job == j && Contents() == old(Contents())[i := q]
    {
      hide WellFormed, Pop;
      InFrame(i);
      SameStarted(Contents()[i], Started(), threadQueueList[i].StartedJobs());
      job := threadQueueList[i].PopJob();
    }

    method FlushAt(i: nat)
      requires Valid() && i < |threadQueueList|
      modifies QueueFrame()
      ensures Valid() && Started() == old(Started())
      ensures Contents() == old(Contents())[i := Flush(old(Contents())[i])]
    {
      hide WellFormed, Flush;
      InFrame(i);
      threadQueueList[i].FlushFinishedJobs();
    }

    method FlushAll()
      requires Valid()
      modifies QueueFrame()
      ensures Valid() && Started() == old(Started()) && |Contents()| == |old(Contents())|
      ensures forall i :: 0 <= i < |threadQueueList| ==> Contents()[i] == Flush(old(Contents())[i])
    {
      hide Valid, Contents, Started, QueueFrame;
      hide WellFormed, Flush;
      ghost var before := Contents();
      for t := 0 to |threadQueueList|
        invariant Valid() && Started() == old(Started())
        invariant forall i :: 0 <= i < |threadQueueList| ==>
            Contents()[i] == if i < t then Flush(before[i]) else before[i]
      {
        FlushAt(t);
      }
    }

    // ----------------------------------------------------------------- the choices

    method TotalEmptySlots() returns (slots: int)
      requires Valid()
      ensures Valid() && Contents() == old(Contents()) && Started() == old(Started())
      ensures slots == FreeSlots(Contents())
    {
      hide LoadFrom, Filled;
      slots := 0;
      ghost var qs := Contents();
      for i := 0 to |threadQueueList|
        invariant slots == FreeSlots(qs[..i])
      {
        slots := slots + QUEUE_SIZE - threadQueueList[i].totalJobsInQueue;
        assert qs[..i + 1][..i] == qs[..i];
      }
      assert qs[..|qs|] == qs;
    }

    method WaitTimeAt(i: nat) returns (wait: nat)
      requires Valid() && i < |threadQueueList|
      ensures Valid() && Contents() == old(Contents()) && Started() == old(Started())
      ensures wait == UNSLICED_WAIT * LoadAt(Contents(), i)
    {
      wait := threadQueueList[i].GetTotalWaitTime();
    }

    /** The first queue of least load; -1 if all queues are full. */
    method QuickestQueue() returns (threadId: int)
      requires Valid()
      ensures Valid() && Contents() == old(Contents()) && Started() == old(Started())
      ensures -1 <= threadId < |threadQueueList|
      ensures threadId == -1 <==> forall k :: 0 <= k < |threadQueueList| ==> LoadAt(Contents(), k) == QUEUE_SIZE
      ensures threadId != -1 ==> FirstLeastLoaded(Contents(), threadId, |threadQueueList|)
    {
      hide Load, WellFormed;
      ghost var qs := Contents();
      threadId := -1;
      var lowestWaitTime := INT_MAX;
      for i := 0 to |threadQueueList|
        invariant Valid() && Contents() == qs
        invariant threadId == -1 ==> lowestWaitTime == INT_MAX
        invariant threadId == -1 ==> forall k :: 0 <= k < i ==> LoadAt(qs, k) == QUEUE_SIZE
        invariant threadId != -1 ==> FirstLeastLoaded(qs, threadId, i)
        invariant threadId != -1 ==> lowestWaitTime == UNSLICED_WAIT * LoadAt(qs, threadId)
      {
        LoadFits(qs[i]);
        TotalIsLoad(qs[i]);
        if threadQueueList[i].totalJobsInQueue < QUEUE_SIZE {
          var totalWaitTime := WaitTimeAt(i);
          if lowestWaitTime > totalWaitTime {
            threadId, lowestWaitTime := i, totalWaitTime;
          }
        }
      }
    }

    /** The first queue without a job; -1 if there is none. */
    method EmptyThreadQueue() returns (threadId: int)
      requires Valid()
      ensures Valid() && Contents() == old(Contents()) && Started() == old(Started())
      ensures threadId == -1 <==> !SomeIdle(Contents())
      ensures threadId != -1 ==> 0 <= threadId < |threadQueueList| && LoadAt(Contents(), threadId) == 0
      ensures forall k :: 0 <= k < threadId ==> LoadAt(Contents(), k) > 0
    {
      hide Load, WellFormed;
      ghost var qs := Contents();
      for i := 0 to |threadQueueList|
        invariant Valid() && Contents() == qs
        invariant forall k :: 0 <= k < i ==> LoadAt(qs, k) > 0
      {
        var wait := WaitTimeAt(i);
        if wait == 0 {
          return i;
        }
      }
      threadId := -1;
    }

    /** The last queue with several jobs, as the largest wait time is never recorded; -1 if there is none. */
    method BusiestThreadQueue() returns (threadId: int)
      requires Valid()
      ensures Valid() && Contents() == old(Contents()) && Started() == old(Started())
      ensures threadId == -1 <==> !SomeBusy(Contents())
      ensures threadId != -1 ==> 0 <= threadId < |threadQueueList| && LastBusy(Contents(), threadId)
    {
      hide Load, WellFormed;
      ghost var qs := Contents();
      threadId := -1;
      var largestWaitTime := 0;
      for i := 0 to |threadQueueList|
        invariant Valid() && Contents() == qs
        invariant -1 <= threadId < i && largestWaitTime == 0
        invariant threadId != -1 ==> LoadAt(qs, threadId) >= 2
        invariant forall k :: threadId < k < i ==> LoadAt(qs, k) < 2
      {
        TotalIsLoad(qs[i]);
        if threadQueueList[i].totalJobsInQueue >= 2 {
          var tempWaitTime := WaitTimeAt(i);
          if tempWaitTime > largestWaitTime {
            threadId := i;
          }
        }
      }
    }

    // -------------------------------------------------------------- rebalancing

    /**
     Gives jobs that have not started to idle queues.  No job is lost, and started
     jobs stay where they are.  Afterwards no queue is idle beside one with several
     jobs, unless the last such queue has started all its jobs.
     */
    method Rebalance()
      requires Valid()
      modifies QueueFrame()
      ensures Valid() && Started() == old(Started())
      ensures SameJobs(old(Contents()), Contents(), Started())
      ensures SomeIdle(Contents()) && SomeBusy(Contents()) ==> Stuck(Contents(), Started())
    {
      hide Valid, Contents, Started, QueueFrame;
      hide Load, WellFormed, AllWellFormed, SameJobs, LastBusy, SomeIdle, SomeBusy, Stuck, Idle, Levelled;
      ghost var before, started := Contents(), Started();
      var slots := TotalEmptySlots();
      if slots <= 0 {
        FullIsEven(before, started);
        return;
      }
      RoundsStart(before, started);
      for i := 0 to |threadQueueList| - 1
        invariant Valid() && Started() == started && SameJobs(before, Contents(), started)
        invariant RoundsLeft(Contents(), |threadQueueList| - 1 - i, started)
      {
        var freeThreadId := EmptyThreadQueue();
        if freeThreadId < 0 {
          break;
        }
        var busiestThreadId := BusiestThreadQueue();
        if busiestThreadId == freeThreadId || busiestThreadId < 0 {
          assert busiestThreadId < 0 by {
            if busiestThreadId >= 0 {
              IdleIsNotBusy(Contents(), freeThreadId, busiestThreadId);
            }
          }
          return;
        }
        ghost var qs := Contents();
        Equalise(freeThreadId, busiestThreadId);
        RoundHelps(before, qs, Contents(), freeThreadId, busiestThreadId, |threadQueueList| - 1 - i, started);
      }
      RoundsDone(Contents(), started);
    }

    /** Moves jobs from the busiest queue to an idle one until they are level or none is left to move. */
    method Equalise(free: nat, busiest: nat)
      requires Valid() && free < |threadQueueList| && LoadAt(Contents(), free) == 0
      requires busiest < |threadQueueList| && LastBusy(Contents(), busiest)
      modifies QueueFrame()
      ensures Valid() && Started() == old(Started())
      ensures Levelled(old(Contents()), Contents(), free, busiest, Started())
    {
      hide Valid, Contents, Started, QueueFrame;
      hide Load, WellFormed, AllWellFormed, LoadAt, Levelling, Levelled, LastBusy;
      ghost var before, started := Contents(), Started();
      LevelStart(before, free, busiest, started);
      var waitFree := WaitTimeAt(free);
      var waitBusiest := WaitTimeAt(busiest);
      while waitFree < waitBusiest
        invariant Valid() && Started() == started && Levelling(before, Contents(), free, busiest, started)
        invariant waitFree == UNSLICED_WAIT * LoadAt(Contents(), free)
        invariant waitBusiest == UNSLICED_WAIT * LoadAt(Contents(), busiest)
        decreases waitBusiest
      {
        LevelStep(before, Contents(), free, busiest, started);
        var job := Take(busiest);
        var rc := Give(free, job);
        if rc != 0 {
          LevelStop(before, Contents(), free, busiest, started);
          return;
        }
        waitFree := WaitTimeAt(free);
        waitBusiest := WaitTimeAt(busiest);
      }
      LevelEnd(before, Contents(), free, busiest, started);
    }

    // ----------------------------------------------------------------- dispatch

    /** A new job for a task; its time slice is computed and not stored. */
    method InitJob(task: Task) returns (job: QueueJob)
      requires Valid()
      modifies `jobs
      ensures Valid() && Contents() == old(Contents()) && fresh(job)
      ensures Started() == old(Started())
      ensures job.task == task && job !in old(jobs) && jobs == old(jobs) + {job}
    {
      job := new QueueJob(task);
      job.SetCpuTimeSlice(PriorityTimeSlice(task.priority));
      jobs := jobs + {job};
    }

    method WaitingTasks() returns (n: nat)
      requires Valid() && pool.Valid()
      ensures Valid() && Contents() == old(Contents()) && Started() == old(Started()) && pool.Valid()
      ensures n == |pool.pending|
    {
      n := pool.Size();
    }

    method ScheduledTask() returns (task: Task)
      requires Valid() && pool.Valid() && pool.pending != []
      modifies pool
      ensures Valid() && Contents() == old(Contents()) && Started() == old(Started()) && pool.Valid()
      ensures ServiceOrder(old(pool.pending)) == [task] + ServiceOrder(pool.pending)
    {
      hide ServiceOrder;
      var popped := pool.PopTask();
      task := popped.value;
    }

    /** The next task of the pool goes to the least loaded queue, which never refuses it. */
    method DispatchTask(ghost before: seq<Queue<QueueJob>>, ghost moved: seq<QueueJob>, ghost known: set<QueueJob>)
      returns (job: QueueJob)
      requires Valid() && pool.Valid() && pool.pending != [] && known <= jobs
      requires AllWellFormed(before) && Dispatched(before, Contents(), moved, known) && |moved| < FreeSlots(before)
      modifies `jobs, pool, QueueFrame()
      ensures Valid() && pool.Valid() && Started() == old(Started()) && known <= jobs
      ensures Dispatched(before, Contents(), moved + [job], known)
      ensures ServiceOrder(old(pool.pending)) == [job.task] + ServiceOrder(pool.pending)
    {
      hide Valid, Contents, Started, QueueFrame;
      hide Load, WellFormed, AllWellFormed, LoadAt, FirstLeastLoaded, Dispatched, Flush, Add, ServiceOrder, FreeSlots;
      NotInFrame();
      var threadId := QuickestQueue();
      SomeRoom(before, Contents(), moved, known);
      assert threadId >= 0;
      var task := ScheduledTask();
      job := InitJob(task);
      DispatchOne(before, Contents(), moved, known, threadId, job);
      var rc := Give(threadId, job);
      assert rc == 0;
    }

    /**
     Moves as many tasks as there are waiting tasks and free slots, in the order of
     the pool, each to the least loaded queue.
     */
    method Dispatch() returns (ghost moved: seq<QueueJob>)
      requires Valid() && pool.Valid()
      modifies `jobs, pool, QueueFrame()
      ensures Valid() && pool.Valid() && Started() == old(Started())
      ensures Dispatched(old(Contents()), Contents(), moved, old(jobs))
      ensures |moved| == if |old(pool.pending)| <= FreeSlots(old(Contents())) then |old(pool.pending)|
          else FreeSlots(old(Contents()))
      ensures ServiceOrder(old(pool.pending)) == TasksOf(moved) + ServiceOrder(pool.pending)
    {
      hide Valid, Contents, Started, QueueFrame;
      hide Load, WellFormed, AllWellFormed, LoadAt, FirstLeastLoaded, Dispatched, Flush, Add, ServiceOrder,
          FreeSlots, TasksOf, TaskPool.Valid;
      ghost var before, known := Contents(), jobs;
      DispatchNone(before, known);
      moved := [];
      NotInFrame();
      SomeRoom(before, before, [], known);
      var qSlots := TotalEmptySlots();
      FlushAll();
      FlushedSame(before, Contents(), known);
      for j := 0 to qSlots
        invariant Valid() && pool.Valid() && Started() == old(Started()) && known <= jobs
        invariant Dispatched(before, Contents(), moved, known) && |moved| == j
        invariant ServiceOrder(old(pool.pending)) == TasksOf(moved) + ServiceOrder(pool.pending)
      {
        var tasks := WaitingTasks();
        if tasks == 0 {
          break;
        }
        ghost var job := DispatchTask(before, moved, known);
        TasksGrow(moved, job, ServiceOrder(pool.pending));
        moved := moved + [job];
      }
      SomeRoom(before, Contents(), moved, known);
      ServiceOrderLength(old(pool.pending));
      ServiceOrderLength(pool.pending);
    }

    /**
     One round of the scheduler.  If at most one job of each queue has started, no
     queue is idle afterwards while another has several jobs.
     */
    method Round() returns (ghost moved: seq<QueueJob>)
      requires Valid() && pool.Valid()
      modifies `jobs, pool, QueueFrame()
      ensures Valid() && pool.Valid()
      ensures |moved| == if |old(pool.pending)| <= FreeSlots(old(Contents())) then |old(pool.pending)|
          else FreeSlots(old(Contents()))
      ensures ServiceOrder(old(pool.pending)) == TasksOf(moved) + ServiceOrder(pool.pending)
      ensures AllJobs(Contents()) == AllJobs(old(Contents())) + multiset(moved)
      ensures StartedStay(old(Contents()), Contents(), old(Started()))
      ensures (forall i :: 0 <= i < |threadQueueList| ==> OneStarted(old(Contents())[i], old(Started()))) ==>
        !SomeIdle(Contents()) || !SomeBusy(Contents())
    {
      hide Valid, Contents, QueueFrame;
      hide Load, WellFormed, AllWellFormed, LoadAt, Dispatched, ServiceOrder, FreeSlots, SomeIdle, SomeBusy, Stuck,
          SameJobs, OneStarted, StartedStay, AllJobs;
      ghost var before, known, started := Contents(), jobs, Started();
      NotInFrame();
      moved := Dispatch();
      ghost var qs := Contents();
      Rebalance();
      RoundMeans(before, qs, Contents(), moved, known, started);
    }
  }

  lemma TasksGrow(moved: seq<QueueJob>, job: QueueJob, rest: seq<Task>)
    ensures TasksOf(moved + [job]) + rest == TasksOf(moved) + ([job.task] + rest)
  {
    assert TasksOf(moved + [job]) == TasksOf(moved) + [job.task];
  }

  ghost function TasksOf(moved: seq<QueueJob>): (r: seq<Task>)
    ensures |r| == |moved| && forall i :: 0 <= i < |r| ==> r[i] == moved[i].task
  {
    seq(|moved|, i requires 0 <= i < |moved| => moved[i].task)
  }
}
