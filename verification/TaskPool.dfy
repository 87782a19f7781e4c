/**
 The pool of tasks that wait for a thread.

 The pool refines a queue that hands out, among the tasks of the largest numeric
 priority, the one that was pushed first.  The starvation counters take no part:
 the statement that should promote a starved task computes a value and drops it.
 */
module TaskPool {
  import opened Wrappers

  /** A task is identified by its process table. */
  datatype Task = Task(process: nat, priority: nat)

  datatype PoolEntry = PoolEntry(task: Task, starveCounter: nat)

  function StarveLimit(priority: nat): nat {
    match priority
    case 1 => 4
    case 2 => 6
    case 3 => 8
    case _ => 0
  }

  const COUNTER_RANGE := 0x1_0000

  function Tasks(sink: seq<PoolEntry>): (r: seq<Task>)
    ensures |r| == |sink| && forall i :: 0 <= i < |sink| ==> r[i] == sink[i].task
  {
    seq(|sink|, i requires 0 <= i < |sink| => sink[i].task)
  }

  // ------------------------------------------------------ the stable priority queue

  /** Inserts a task in front of the first one of smaller priority. */
  function InsertTask(tasks: seq<Task>, t: Task): seq<Task> {
    if tasks == [] then [t]
    else if tasks[0].priority < t.priority then [t] + tasks
    else [tasks[0]] + InsertTask(tasks[1..], t)
  }

  /** The pending tasks in the order of service, given in the order of arrival. */
  function ServiceOrder(pending: seq<Task>): seq<Task> {
    if pending == [] then []
    else InsertTask(ServiceOrder(pending[..|pending| - 1]), pending[|pending| - 1])
  }

  /** `i` is the first arrival among the tasks of the largest priority. */
  ghost predicate FirstOfLargest(pending: seq<Task>, i: nat) {
    && i < |pending|
    && (forall k :: 0 <= k < |pending| ==> pending[k].priority <= pending[i].priority)
    && (forall k :: 0 <= k < i ==> pending[k].priority < pending[i].priority)
  }

  function Without(pending: seq<Task>, i: nat): seq<Task>
    requires i < |pending|
  {
    pending[..i] + pending[i + 1..]
  }

  /** The first task in service is the first arrival of the largest priority; the others keep their order. */
  lemma {:induction false} HeadIsFirstOfLargest(pending: seq<Task>) returns (i: nat)
    requires pending != []
    ensures FirstOfLargest(pending, i)
    ensures ServiceOrder(pending) == [pending[i]] + ServiceOrder(Without(pending, i))
    decreases |pending|
  {
    hide FirstOfLargest, InsertTask;
    var earlier, t := pending[..|pending| - 1], pending[|pending| - 1];
    if earlier == [] {
      i := 0;
      OnlyTask(pending);
    } else {
      i := HeadIsFirstOfLargest(earlier);
      LaterTask(pending, i);
      var others := ServiceOrder(Without(earlier, i));
      InsertBehind(earlier[i], others, t);
      if earlier[i].priority < t.priority {
        i := |earlier|;
        assert Without(pending, i) == earlier;
      } else {
        var rest := Without(pending, i);
        assert rest[..|rest| - 1] == Without(earlier, i) && rest[|rest| - 1] == t;
      }
    }
  }

  lemma OnlyTask(pending: seq<Task>)
    requires |pending| == 1
    ensures FirstOfLargest(pending, 0)
    ensures ServiceOrder(pending) == [pending[0]] + ServiceOrder(Without(pending, 0))
  {
    assert Without(pending, 0) == [];
    assert ServiceOrder(pending[..0]) == [];
  }

  lemma LaterTask(pending: seq<Task>, i: nat)
    requires |pending| > 1 && FirstOfLargest(pending[..|pending| - 1], i)
    ensures i < |pending| - 1
    ensures FirstOfLargest(pending, if pending[i].priority < pending[|pending| - 1].priority then |pending| - 1 else i)
  {
    var earlier := pending[..|pending| - 1];
    assert forall k :: 0 <= k < |earlier| ==> pending[k] == earlier[k];
  }

  lemma InsertBehind(first: Task, others: seq<Task>, t: Task)
    ensures InsertTask([first] + others, t)
      == if first.priority < t.priority then [t] + ([first] + others) else [first] + InsertTask(others, t)
  {
    assert ([first] + others)[1..] == others;
  }

  /** The order that the documentation promises: the smallest number first. */
  ghost predicate FirstOfSmallest(pending: seq<Task>, i: nat) {
    && i < |pending|
    && (forall k :: 0 <= k < |pending| ==> pending[k].priority >= pending[i].priority)
    && (forall k :: 0 <= k < i ==> pending[k].priority > pending[i].priority)
  }

  /** The pool serves the documented task exactly when all pending tasks have the same priority. */
  lemma DocumentedOrderIff(pending: seq<Task>)
    requires pending != []
    ensures (exists i: nat :: FirstOfLargest(pending, i) && FirstOfSmallest(pending, i)) <==>
      forall i, k :: 0 <= i < |pending| && 0 <= k < |pending| ==> pending[i].priority == pending[k].priority
  {
    if forall i, k :: 0 <= i < |pending| && 0 <= k < |pending| ==> pending[i].priority == pending[k].priority {
      assert FirstOfLargest(pending, 0) && FirstOfSmallest(pending, 0);
    }
  }

  ghost predicate NonIncreasing(tasks: seq<Task>) {
    forall i, k :: 0 <= i < k < |tasks| ==> tasks[i].priority >= tasks[k].priority
  }

  lemma {:induction false} InsertStaysSorted(tasks: seq<Task>, t: Task)
    requires NonIncreasing(tasks)
    ensures NonIncreasing(InsertTask(tasks, t))
    ensures multiset(InsertTask(tasks, t)) == multiset(tasks) + multiset{t}
  {
    hide NonIncreasing;
    if tasks == [] || tasks[0].priority < t.priority {
      SortedCons(t, tasks);
      assert InsertTask(tasks, t) == [t] + tasks;
    } else {
      assert tasks == [tasks[0]] + tasks[1..];
      SortedTail(tasks);
      InsertStaysSorted(tasks[1..], t);
      InsertMembers(tasks[1..], t);
      SortedCons(tasks[0], InsertTask(tasks[1..], t));
    }
  }

  lemma SortedTail(tasks: seq<Task>)
    requires NonIncreasing(tasks) && tasks != []
    ensures NonIncreasing(tasks[1..]) && forall x :: x in tasks[1..] ==> tasks[0].priority >= x.priority
  {
  }

  lemma SortedCons(t: Task, tasks: seq<Task>)
    ensures NonIncreasing(tasks) && (tasks != [] ==> t.priority >= tasks[0].priority) ==> NonIncreasing([t] + tasks)
  {
  }

  lemma {:induction false} InsertMembers(tasks: seq<Task>, t: Task)
    ensures InsertTask(tasks, t) != []
    ensures forall x :: x in InsertTask(tasks, t) ==> x == t || x in tasks
    decreases |tasks|
  {
    if tasks != [] {
      InsertMembers(tasks[1..], t);
    }
  }

  lemma {:induction false} ServiceOrderSorted(pending: seq<Task>)
    ensures NonIncreasing(ServiceOrder(pending))
    ensures multiset(ServiceOrder(pending)) == multiset(pending)
  {
    if pending != [] {
      var earlier, t := pending[..|pending| - 1], pending[|pending| - 1];
      assert pending == earlier + [t];
      ServiceOrderSorted(earlier);
      InsertStaysSorted(ServiceOrder(earlier), t);
    }
  }

  lemma ServiceOrderLength(pending: seq<Task>)
    ensures |ServiceOrder(pending)| == |pending|
  {
    ServiceOrderSorted(pending);
    assert |multiset(ServiceOrder(pending))| == |multiset(pending)|;
  }

  /** Skipping tasks that are not smaller. */
  lemma {:induction false} InsertAt(tasks: seq<Task>, t: Task, i: nat)
    requires i <= |tasks|
    requires forall k :: 0 <= k < i ==> tasks[k].priority >= t.priority
    requires i < |tasks| ==> tasks[i].priority < t.priority
    ensures InsertTask(tasks, t) == tasks[..i] + [t] + tasks[i..]
  {
    if i > 0 {
      InsertAt(tasks[1..], t, i - 1);
      assert tasks[..i] == [tasks[0]] + tasks[1..][..i - 1];
      assert tasks[1..][i - 1..] == tasks[i..];
    } else {
      assert tasks[..0] + [t] + tasks[0..] == [t] + tasks;
    }
  }

  // --------------------------------------------------------------- the class

  class TaskPool {
    var taskSink: seq<PoolEntry>
    /** The tasks that were pushed and not popped, in the order of arrival. */
    ghost var pending: seq<Task>

    ghost predicate Valid()
      reads this
    {
      Tasks(taskSink) == ServiceOrder(pending)
    }

    constructor ()
      ensures Valid() && pending == []
    {
      taskSink, pending := [], [];
    }

    /** The counter of a new entry is not initialised, so it may hold anything. */
    method PushTask(task: Task, starveCounter: nat)
      requires Valid()
      modifies this
      ensures Valid() && pending == old(pending) + [task]
    {
      hide InsertTask;
      ghost var before := Tasks(taskSink);
      pending := pending + [task];
      assert pending[..|pending| - 1] == old(pending);
      assert ServiceOrder(pending) == InsertTask(before, task);
      var entry := PoolEntry(task, starveCounter);
      for i := 0 to |taskSink|
        invariant Tasks(taskSink) == before && pending == old(pending) + [task]
        invariant forall k :: 0 <= k < i ==> before[k].priority >= task.priority
      {
        if taskSink[i].task.priority < task.priority {
          Starve(i);
          InsertAt(before, task, i);
          taskSink := taskSink[..i] + [entry] + taskSink[i..];
          assert Tasks(taskSink) == before[..i] + [task] + before[i..];
          return;
        }
      }
      InsertAt(before, task, |before|);
      taskSink := taskSink + [entry];
      assert Tasks(taskSink) == before[..|before|] + [task] + before[|before|..];
    }

    /** Counts the entries that are pushed back; a starved entry starts again at 0. */
    method Starve(first: nat)
      requires first <= |taskSink|
      modifies `taskSink
      ensures Tasks(taskSink) == Tasks(old(taskSink))
    {
      for j := first to |taskSink|
        invariant Tasks(taskSink) == Tasks(old(taskSink))
      {
        var counter := taskSink[j].starveCounter;
        var counter' := if counter > StarveLimit(counter) then 0 else (counter + 1) % COUNTER_RANGE;
        assert Tasks(taskSink[j := taskSink[j].(starveCounter := counter')]) == Tasks(taskSink);
        taskSink := taskSink[j := taskSink[j].(starveCounter := counter')];
      }
    }

    /** Pops the earliest task of the largest priority; an empty pool is the failure. */
    method PopTask() returns (task: Option<Task>)
      requires Valid()
      modifies this
      ensures Valid()
      ensures task.None? <==> old(pending) == []
      ensures task.None? ==> pending == old(pending)
      ensures task.Some? ==> exists i: nat ::
        FirstOfLargest(old(pending), i) && task.value == old(pending)[i] && pending == Without(old(pending), i)
      ensures task.Some? ==> ServiceOrder(old(pending)) == [task.value] + ServiceOrder(pending)
    {
      ServiceOrderSorted(pending);
      assert |Tasks(taskSink)| == |multiset(pending)|;
      if |taskSink| == 0 {
        return None;
      }
      ghost var i := HeadIsFirstOfLargest(pending);
      task := Some(taskSink[0].task);
      ghost var rest := ServiceOrder(Without(pending, i));
      assert Tasks(taskSink[1..]) == Tasks(taskSink)[1..] == rest;
      taskSink := taskSink[1..];
      pending := Without(pending, i);
    }

    method Size() returns (n: nat)
      requires Valid()
      ensures n == |pending|
    {
      ServiceOrderSorted(pending);
      assert |Tasks(taskSink)| == |multiset(Tasks(taskSink))|;
      n := |taskSink|;
    }
  }
}
