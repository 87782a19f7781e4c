/**
 The job queue of one thread as the object the scheduler and the thread share.
 Each method is proved to compute the operation of `JobQueue`, read off the arrays.
 Semaphores are left out: a method is one atomic step.
 */
module ThreadQueue {
  import opened Wrappers
  import opened JobQueue
  import opened TaskPool

  datatype StatusBit = RUNNING | PENDING | WAITING | FAILED | FINALIZED | DONE

  class QueueJob {
    const task: Task
    /** The status lives in the process table, whose bits are only ever added. */
    var status: set<StatusBit>
    var jobErrorHandle: bool
    var cpuSlice: nat

    constructor (task: Task)
      ensures this.task == task && status == {} && !jobErrorHandle && cpuSlice == 0
    {
      this.task := task;
      status, jobErrorHandle, cpuSlice := {}, false, 0;
    }

    method SetJobStatus(bits: set<StatusBit>)
      modifies `status
      ensures status == old(status) + bits
    {
      status := status + bits;
    }

    predicate IsJobStatusSet(bit: StatusBit)
      reads this
    {
      bit in status
    }

    /** The parameter is not used: the field is assigned to itself. */
    method SetCpuTimeSlice(cpuTimeSlice: nat)
      modifies `cpuSlice
      ensures cpuSlice == old(cpuSlice)
    {
      cpuSlice := cpuSlice;
    }

    predicate Started()
      reads this
    {
      RUNNING in status || FINALIZED in status
    }
  }

  class ThreadQueue {
    var head: nat
    const jobQueue: array<QueueJob?>
    const jobSlotDone: array<bool>
    var totalJobsInQueue: int
    /** The queue as a value. */
    ghost var contents: Queue<QueueJob>

    ghost predicate Valid()
      reads this, jobQueue, jobSlotDone
    {
      && jobQueue.Length == QUEUE_SIZE && jobSlotDone.Length == QUEUE_SIZE
      && WellFormed(contents) && Filled(contents) && head < QUEUE_SIZE
      && contents.head == head && contents.total == totalJobsInQueue
      && (forall i :: 0 <= i < QUEUE_SIZE ==> contents.done[i] == jobSlotDone[i])
      && (forall i :: 0 <= i < QUEUE_SIZE ==> contents.slots[i] == SlotContent(jobQueue[i]))
    }

    static function SlotContent(job: QueueJob?): Option<QueueJob> {
      if job == null then None else Some(job)
    }

    ghost function SlotJobs(): set<QueueJob>
      reads this
    {
      set i | 0 <= i < |contents.slots| && contents.slots[i].Some? :: contents.slots[i].value
    }

    /** The jobs in the slots that have started. */
    ghost function StartedJobs(): set<QueueJob>
      reads this, SlotJobs()
    {
      set j | j in SlotJobs() && j.Started()
    }

    constructor ()
      ensures Valid() && contents == NewQueue() && fresh(jobQueue) && fresh(jobSlotDone)
    {
      head, totalJobsInQueue := 0, 0;
      jobQueue := new QueueJob?[QUEUE_SIZE](i => null);
      jobSlotDone := new bool[QUEUE_SIZE](i => true);
      contents := NewQueue();
    }

    /** The first slot that is done takes the job; without one, or without a job, the result is -1. */
    method AddNewTask(job: QueueJob?) returns (rc: int)
      requires Valid()
      modifies this, jobQueue, jobSlotDone
      ensures Valid()
      ensures job == null ==> rc == -1 && contents == old(contents)
      ensures job != null ==>
        match Add(old(contents), job)
        case None => rc == -1 && contents == old(contents)
        case Some(q) => rc == 0 && contents == q
      ensures forall j :: j in SlotJobs() ==> j in old(SlotJobs()) || j == job
    {
      hide WellFormed, Add;
      if job == null {
        return -1;
      }
      for i := 0 to QUEUE_SIZE
        invariant Valid() && contents == old(contents)
        invariant forall k :: 0 <= k < i ==> !contents.done[k]
      {
        if jobSlotDone[i] {
          jobSlotDone[i] := false;
          jobQueue[i] := job;
          totalJobsInQueue := totalJobsInQueue + 1;
          AddAt(contents, job, i);
          contents := Placed(contents, job, i);
          return 0;
        }
      }
      AddFull(contents, job);
      rc := -1;
    }

    /** Moves `head` on to the next pending slot. */
    method GetNextTask() returns (job: QueueJob?)
      requires Valid()
      modifies this
      ensures Valid()
      ensures contents == Advance(old(contents), QUEUE_SIZE).0
      ensures SlotContent(job) == Advance(old(contents), QUEUE_SIZE).1
    {
      hide WellFormed, Advance;
      ghost var result := Advance(contents, QUEUE_SIZE);
      for i := 0 to QUEUE_SIZE
        invariant Valid() && Advance(contents, QUEUE_SIZE - i) == result
      {
        AdvanceStep(contents, QUEUE_SIZE - i);
        head := Successor(head);
        contents := contents.(head := head);
        if !jobSlotDone[head] {
          return jobQueue[head];
        }
      }
      AdvanceStep(contents, 0);
      job := null;
    }

    /** Takes a pending job that has not started out of the queue. */
    method PopJob() returns (job: QueueJob?)
      requires Valid()
      modifies this, jobQueue, jobSlotDone
      ensures Valid()
      ensures match Pop(old(contents), old(StartedJobs()))
        case None => job == null && contents == old(contents)
        case Some((q, j)) => job == j && contents == q
      ensures SlotJobs() <= old(SlotJobs()) && (job != null ==> job in old(SlotJobs()))
    {
      hide WellFormed, Pop;
      ghost var started := StartedJobs();
      for i := 0 to QUEUE_SIZE
        invariant Valid() && contents == old(contents)
        invariant forall k :: 0 <= k < i && !contents.done[k] ==> contents.slots[k].value in started
      {
        if !jobSlotDone[i] {
          job := jobQueue[i];
          assert job in SlotJobs();
          if !job.IsJobStatusSet(RUNNING) && !job.IsJobStatusSet(FINALIZED) {
            jobSlotDone[i] := true;
            totalJobsInQueue := totalJobsInQueue - 1;
            jobQueue[i] := null;
            PopAt(contents, started, i);
            contents := Cleared(contents, i);
            return;
          }
        }
      }
      PopNone(contents, started);
      job := null;
    }

    /** Frees the slot at `head`, which keeps naming the job until it is flushed. */
    method MarkTaskAsComplete()
      requires Valid() && !jobSlotDone[head]
      modifies this, jobSlotDone, jobQueue[head]
      ensures Valid() && contents == Complete(old(contents))
      ensures old(jobQueue[head]).status == old(jobQueue[head].status) + {DONE}
    {
      hide WellFormed, Load, Jobs;
      CompleteMeans(contents);
      contents := Complete(contents);
      jobSlotDone[head] := true;
      totalJobsInQueue := totalJobsInQueue - 1;
      jobQueue[head].SetJobStatus({DONE});
    }

    method FlushFinishedJobs()
      requires Valid()
      modifies `contents, jobQueue
      ensures Valid() && contents == Flush(old(contents))
      ensures SlotJobs() <= old(SlotJobs())
    {
      hide WellFormed, Flush, Load, Jobs;
      FlushMeans(contents);
      FlushIs(contents);
      for i := 0 to QUEUE_SIZE
        invariant contents == old(contents)
        invariant forall k :: 0 <= k < i ==> jobQueue[k] == if jobSlotDone[k] then null else old(jobQueue[k])
        invariant forall k :: i <= k < QUEUE_SIZE ==> jobQueue[k] == old(jobQueue[k])
      {
        if jobSlotDone[i] && jobQueue[i] != null {
          jobQueue[i] := null;
        }
      }
      contents := Flush(contents);
    }

    /** All slices being 0, every pending job counts the same. */
    method GetTotalWaitTime() returns (wait: nat)
      requires Valid() && forall j :: j in SlotJobs() ==> j.cpuSlice == 0
      ensures wait == WaitTime(contents)
    {
      if totalJobsInQueue == 0 {
        return 0;
      }
      wait := 0;
      for i := 0 to QUEUE_SIZE
        invariant wait + UNSLICED_WAIT * LoadFrom(contents.done, i) == WaitTime(contents)
      {
        assert !jobSlotDone[i] ==> contents.slots[i].Some?;
        if !jobSlotDone[i] && jobQueue[i] != null {
          assert jobQueue[i] in SlotJobs();
          var slice := jobQueue[i].cpuSlice;
          wait := wait + (if slice != 0 then slice else UNSLICED_WAIT);
        }
      }
    }
  }
}
