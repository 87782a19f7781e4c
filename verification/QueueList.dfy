/**
 The queues of all threads, as values: their free slots, their jobs, and which of
 them are idle or hold work to give away.
 */
module QueueList {
  import opened Wrappers
  import opened JobQueue

  ghost predicate AllWellFormed<J>(qs: seq<Queue<J>>) {
    forall i :: 0 <= i < |qs| ==> WellFormed(qs[i])
  }

  /** The load of queue `i`. */
  ghost function LoadAt<J>(qs: seq<Queue<J>>, i: nat): nat
    requires AllWellFormed(qs) && i < |qs|
  {
    Load(qs[i])
  }

  ghost function FreeSlots<J>(qs: seq<Queue<J>>): int
    requires AllWellFormed(qs)
  {
    if qs == [] then 0 else FreeSlots(qs[..|qs| - 1]) + QUEUE_SIZE - Load(qs[|qs| - 1])
  }

  ghost function AllJobs<J>(qs: seq<Queue<J>>): multiset<J>
    requires AllWellFormed(qs)
  {
    if qs == [] then multiset{} else AllJobs(qs[..|qs| - 1]) + Jobs(qs[|qs| - 1])
  }

  /** The number of queues without a job. */
  ghost function Idle<J>(qs: seq<Queue<J>>): nat
    requires AllWellFormed(qs)
  {
    if qs == [] then 0 else Idle(qs[..|qs| - 1]) + One(Load(qs[|qs| - 1]) == 0)
  }

  ghost predicate SomeIdle<J>(qs: seq<Queue<J>>)
    requires AllWellFormed(qs)
  {
    exists i: nat :: i < |qs| && LoadAt(qs, i) == 0
  }

  /** Among the first `n` queues, `t` is the first of least load, and it is not full. */
  ghost predicate FirstLeastLoaded<J>(qs: seq<Queue<J>>, t: int, n: int)
    requires AllWellFormed(qs) && n <= |qs|
  {
    && 0 <= t < n && LoadAt(qs, t) < QUEUE_SIZE
    && forall k :: 0 <= k < n ==> LoadAt(qs, t) <= LoadAt(qs, k) && (k < t ==> LoadAt(qs, t) < LoadAt(qs, k))
  }

  /** Queue `i` is the last one with more than one job: the one that gives jobs away. */
  ghost predicate LastBusy<J>(qs: seq<Queue<J>>, i: nat)
    requires AllWellFormed(qs)
  {
    && i < |qs| && LoadAt(qs, i) >= 2
    && forall k :: i < k < |qs| ==> LoadAt(qs, k) < 2
  }

  ghost predicate SomeBusy<J>(qs: seq<Queue<J>>)
    requires AllWellFormed(qs)
  {
    exists i: nat :: i < |qs| && LoadAt(qs, i) >= 2
  }

  /** The largest and the smallest load differ by at most one. */
  ghost predicate Even<J>(qs: seq<Queue<J>>)
    requires AllWellFormed(qs)
  {
    forall i, k :: 0 <= i < |qs| && 0 <= k < |qs| ==> LoadAt(qs, i) <= LoadAt(qs, k) + 1
  }

  ghost predicate AllStarted<J>(q: Queue<J>, started: set<J>)
    requires WellFormed(q)
  {
    forall i :: 0 <= i < QUEUE_SIZE && !q.done[i] ==> q.slots[i].value in started
  }

  /** The job in slot `s` if it is pending and has started. */
  ghost function StartedSlot<J>(q: Queue<J>, started: set<J>, s: nat): Option<J>
    requires WellFormed(q) && s < QUEUE_SIZE
  {
    if !q.done[s] && q.slots[s].value in started then q.slots[s] else None
  }

  /** Loads of 4, 2 and 0: the second queue is the one that gives jobs away, and not the busiest. */
  lemma LastIsNotBusiest<J>(qs: seq<Queue<J>>)
    requires AllWellFormed(qs) && |qs| == 3 && LoadAt(qs, 0) == 4 && LoadAt(qs, 1) == 2 && LoadAt(qs, 2) == 0
    ensures forall i: nat :: LastBusy(qs, i) <==> i == 1
    ensures LoadAt(qs, 1) < LoadAt(qs, 0)
  {
    hide Load;
  }

  /** At most one pending job of the queue has started. */
  ghost predicate OneStarted<J>(q: Queue<J>, started: set<J>)
    requires WellFormed(q)
  {
    forall i, k :: 0 <= i < k < QUEUE_SIZE ==> StartedSlot(q, started, i) == None || StartedSlot(q, started, k) == None
  }

  /** The pending jobs of the set are the same, in the same slots. */
  ghost predicate SameIn<J>(q: Queue<J>, q': Queue<J>, started: set<J>)
    requires WellFormed(q) && WellFormed(q')
  {
    forall s :: 0 <= s < QUEUE_SIZE ==> StartedSlot(q, started, s) == StartedSlot(q', started, s)
  }

  ghost predicate StartedStay<J>(qs: seq<Queue<J>>, qs': seq<Queue<J>>, started: set<J>)
    requires AllWellFormed(qs) && AllWellFormed(qs')
  {
    |qs| == |qs'| && forall i :: 0 <= i < |qs| ==> SameIn(qs[i], qs'[i], started)
  }

  /** An idle queue stands beside one that has several jobs, the last of which has none to give away. */
  ghost predicate Stuck<J>(qs: seq<Queue<J>>, started: set<J>)
    requires AllWellFormed(qs)
  {
    SomeIdle(qs) && exists i: nat :: LastBusy(qs, i) && AllStarted(qs[i], started)
  }

  // ------------------------------------------------------------ changing one queue

  lemma {:induction false} ChangeOne<J>(qs: seq<Queue<J>>, i: nat, q: Queue<J>)
    requires AllWellFormed(qs) && WellFormed(q) && i < |qs|
    ensures AllWellFormed(qs[i := q])
    ensures FreeSlots(qs[i := q]) + Load(q) == FreeSlots(qs) + Load(qs[i])
    ensures AllJobs(qs[i := q]) + Jobs(qs[i]) == AllJobs(qs) + Jobs(q)
    ensures Idle(qs[i := q]) + One(Load(qs[i]) == 0) == Idle(qs) + One(Load(q) == 0)
  {
    hide Load, Jobs;
    var last := |qs| - 1;
    var qs' := qs[i := q];
    if i == last {
      assert qs'[..last] == qs[..last];
    } else {
      ChangeOne(qs[..last], i, q);
      assert qs'[..last] == qs[..last][i := q];
      assert qs'[last] == qs[last] && qs[..last][i] == qs[i];
      ghost var rest, rest' := AllJobs(qs[..last]), AllJobs(qs'[..last]);
      assert rest' + Jobs(qs[i]) == rest + Jobs(q);
      assert AllJobs(qs') + Jobs(qs[i]) == (rest' + Jobs(qs[i])) + Jobs(qs[last]);
    }
  }

  lemma {:induction false} FreeSlotsLimits<J>(qs: seq<Queue<J>>)
    requires AllWellFormed(qs)
    ensures FreeSlots(qs) >= 0
    ensures FreeSlots(qs) == 0 <==> forall i :: 0 <= i < |qs| ==> LoadAt(qs, i) == QUEUE_SIZE
  {
    hide Load;
    if qs != [] {
      var init := qs[..|qs| - 1];
      FreeSlotsLimits(init);
      LoadFits(qs[|qs| - 1]);
      assert forall i :: 0 <= i < |init| ==> LoadAt(init, i) == LoadAt(qs, i);
      assert LoadAt(qs, |qs| - 1) == Load(qs[|qs| - 1]);
    }
  }

  lemma LoadFits<J>(q: Queue<J>)
    requires WellFormed(q)
    ensures |q.done| == QUEUE_SIZE && Load(q) <= QUEUE_SIZE
  {
    LoadLimits(q);
  }

  lemma {:induction false} IdleLimits<J>(qs: seq<Queue<J>>)
    requires AllWellFormed(qs)
    ensures Idle(qs) <= |qs|
    ensures Idle(qs) == 0 <==> !SomeIdle(qs)
    ensures Idle(qs) == |qs| <==> forall i :: 0 <= i < |qs| ==> LoadAt(qs, i) == 0
  {
    hide Load;
    if qs != [] {
      var init := qs[..|qs| - 1];
      IdleLimits(init);
      assert forall i :: 0 <= i < |init| ==> LoadAt(init, i) == LoadAt(qs, i);
      assert LoadAt(qs, |qs| - 1) == Load(qs[|qs| - 1]);
    }
  }

  lemma TotalIsLoad<J>(q: Queue<J>)
    requires WellFormed(q)
    ensures |q.done| == QUEUE_SIZE && q.total == Load(q)
  {
  }

  /** A queue with all its jobs started and at most one of them has at most one job. */
  lemma StartedLimit<J>(q: Queue<J>, started: set<J>)
    requires WellFormed(q) && AllStarted(q, started) && OneStarted(q, started)
    ensures |q.done| == QUEUE_SIZE && Load(q) <= 1
  {
    assert forall i, k :: 0 <= i < k < QUEUE_SIZE && !q.done[i] && !q.done[k] ==>
      StartedSlot(q, started, i) == None || StartedSlot(q, started, k) == None;
    assert Load(q) == One(!q.done[0]) + LoadFrom(q.done, 1);
    assert LoadFrom(q.done, 1) == One(!q.done[1]) + LoadFrom(q.done, 2);
    assert LoadFrom(q.done, 2) == One(!q.done[2]) + LoadFrom(q.done, 3);
    assert LoadFrom(q.done, 3) == One(!q.done[3]) + LoadFrom(q.done, 4);
  }

  /** Two sets that agree on the pending jobs let the same job go. */
  lemma SameStarted<J>(q: Queue<J>, started: set<J>, started': set<J>)
    requires WellFormed(q)
    requires forall i :: 0 <= i < QUEUE_SIZE && !q.done[i] ==>
        (q.slots[i].value in started <==> q.slots[i].value in started')
    ensures Pop(q, started) == Pop(q, started')
  {
    hide Load, Cleared;
    assert MovableSlot(q, started, 0) == MovableSlot(q, started', 0);
  }

  // ------------------------------------------------------------- one job on the move

  lemma Cancel<J>(a: multiset<J>, b: multiset<J>, c: multiset<J>)
    ensures a + c == b + c ==> a == b
  {
    if a + c == b + c {
      forall x
        ensures a[x] == b[x]
      {
        assert (a + c)[x] == (b + c)[x];
      }
    }
  }

  lemma ChangedStays<J>(qs: seq<Queue<J>>, i: nat, q: Queue<J>, started: set<J>)
    requires AllWellFormed(qs) && i < |qs| && WellFormed(q) && SameIn(qs[i], q, started)
    ensures AllWellFormed(qs[i := q]) && StartedStay(qs, qs[i := q], started)
  {
    hide WellFormed;
  }

  /** A queue that is not full takes a job. */
  lemma AddOne<J>(qs: seq<Queue<J>>, i: nat, job: J, started: set<J>)
    requires AllWellFormed(qs) && i < |qs| && LoadAt(qs, i) < QUEUE_SIZE && job !in started
    ensures Add(qs[i], job).Some?
    ensures var qs' := qs[i := Add(qs[i], job).value];
      && AllWellFormed(qs')
      && FreeSlots(qs') == FreeSlots(qs) - 1
      && AllJobs(qs') == AllJobs(qs) + multiset{job}
      && Idle(qs') == Idle(qs) - One(LoadAt(qs, i) == 0)
      && StartedStay(qs, qs', started)
      && forall k :: 0 <= k < |qs| ==> LoadAt(qs', k) == LoadAt(qs, k) + One(k == i)
  {
    hide Load, Jobs, Add, SameIn, KeepsSlots;
    AddMeans(qs[i], job);
    AddStays(qs[i], job, started);
    var q := Add(qs[i], job).value;
    ChangeOne(qs, i, q);
    Cancel(AllJobs(qs[i := q]), AllJobs(qs) + multiset{job}, Jobs(qs[i]));
    ChangedStays(qs, i, q, started);
  }

  lemma AddStays<J>(q: Queue<J>, job: J, started: set<J>)
    requires WellFormed(q) && Add(q, job).Some? && job !in started && WellFormed(Add(q, job).value)
    ensures SameIn(q, Add(q, job).value, started)
  {
    hide Load;
  }

  /** A queue gives away a job unless all its jobs have started. */
  lemma PopOne<J>(qs: seq<Queue<J>>, i: nat, started: set<J>)
    requires AllWellFormed(qs) && i < |qs|
    ensures Pop(qs[i], started).None? <==> AllStarted(qs[i], started)
    ensures Pop(qs[i], started).Some? ==>
      var (q, job) := Pop(qs[i], started).value;
      var qs' := qs[i := q];
      && job !in started
      && AllWellFormed(qs')
      && FreeSlots(qs') == FreeSlots(qs) + 1
      && AllJobs(qs) == AllJobs(qs') + multiset{job}
      && Idle(qs') == Idle(qs) + One(LoadAt(qs, i) == 1)
      && StartedStay(qs, qs', started)
      && forall k :: 0 <= k < |qs| ==> LoadAt(qs, k) == LoadAt(qs', k) + One(k == i)
  {
    hide Load, Jobs, Pop, SameIn, KeepsSlots;
    PopMeans(qs[i], started);
    if Pop(qs[i], started).Some? {
      PopStays(qs[i], started);
      var (q, job) := Pop(qs[i], started).value;
      ChangeOne(qs, i, q);
      Cancel(AllJobs(qs), AllJobs(qs[i := q]) + multiset{job}, Jobs(q));
      ChangedStays(qs, i, q, started);
    }
  }

  lemma PopStays<J>(q: Queue<J>, started: set<J>)
    requires WellFormed(q) && Pop(q, started).Some? && WellFormed(Pop(q, started).value.0)
    ensures SameIn(q, Pop(q, started).value.0, started)
  {
    hide Load;
  }

  /** Once nothing is stuck and at most one job of each queue has started, no queue is idle beside a busy one. */
  lemma NotStuck<J>(before: seq<Queue<J>>, qs: seq<Queue<J>>, started: set<J>)
    requires AllWellFormed(before) && AllWellFormed(qs) && StartedStay(before, qs, started)
    requires forall i :: 0 <= i < |before| ==> OneStarted(before[i], started)
    ensures !Stuck(qs, started)
  {
    hide Load, WellFormed;
    if Stuck(qs, started) {
      var i: nat :| LastBusy(qs, i) && AllStarted(qs[i], started);
      assert SameIn(before[i], qs[i], started) && OneStarted(before[i], started);
      StartedLimit(qs[i], started);
    }
  }

  // ------------------------------------------------------------------- rebalancing

  /** The same jobs are pending, and the started ones stay where they are. */
  ghost predicate SameJobs<J>(qs: seq<Queue<J>>, qs': seq<Queue<J>>, started: set<J>)
    requires AllWellFormed(qs) && AllWellFormed(qs')
  {
    AllJobs(qs') == AllJobs(qs) && StartedStay(qs, qs', started)
  }

  /** While jobs move from queue `b`, that had several, to queue `f`, that had none. */
  ghost predicate Levelling<J>(qs: seq<Queue<J>>, qs': seq<Queue<J>>, f: nat, b: nat, started: set<J>)
    requires AllWellFormed(qs) && AllWellFormed(qs')
  {
    && |qs'| == |qs| && f < |qs| && b < |qs| && f != b
    && SameJobs(qs, qs', started)
    && (forall k :: 0 <= k < |qs| && k != f && k != b ==> qs'[k] == qs[k])
    && LoadAt(qs, f) == 0 && LoadAt(qs, b) >= 2
    && LoadAt(qs', f) + LoadAt(qs', b) == LoadAt(qs, b)
    && LoadAt(qs', f) <= LoadAt(qs', b) + 1
    && Idle(qs') == Idle(qs) - One(LoadAt(qs', f) > 0)
    && (if LoadAt(qs', f) == 0 then qs' == qs else !AllStarted(qs[b], started))
  }

  /**
   One idle queue less, or nothing to move.  Only the two queues change: the jobs of the busy one are shared
   evenly, the odd one going to the idle queue, unless all that the busy queue still has have started.
   */
  ghost predicate Levelled<J>(qs: seq<Queue<J>>, qs': seq<Queue<J>>, f: nat, b: nat, started: set<J>)
    requires AllWellFormed(qs) && AllWellFormed(qs') && f < |qs| && b < |qs|
  {
    && SameJobs(qs, qs', started)
    && (if AllStarted(qs[b], started) then qs' == qs else Idle(qs') == Idle(qs) - 1)
    && (forall k :: 0 <= k < |qs| && k != f && k != b ==> qs'[k] == qs[k])
    && LoadAt(qs', f) + LoadAt(qs', b) == LoadAt(qs, b)
    && LoadAt(qs', f) <= LoadAt(qs', b) + 1
    && (LoadAt(qs', b) <= LoadAt(qs', f) || AllStarted(qs'[b], started))
  }

  lemma LevelStart<J>(qs: seq<Queue<J>>, f: nat, b: nat, started: set<J>)
    requires AllWellFormed(qs) && f < |qs| && LoadAt(qs, f) == 0 && LastBusy(qs, b)
    ensures Levelling(qs, qs, f, b, started)
  {
    hide Load, WellFormed, Idle, AllJobs, StartedSlot;
  }

  lemma LevelStep<J>(qs: seq<Queue<J>>, qs': seq<Queue<J>>, f: nat, b: nat, started: set<J>)
    requires AllWellFormed(qs) && AllWellFormed(qs') && Levelling(qs, qs', f, b, started)
    requires LoadAt(qs', f) < LoadAt(qs', b)
    ensures Pop(qs'[b], started).None? ==> AllStarted(qs'[b], started)
    ensures Pop(qs'[b], started).Some? ==>
      var (q, job) := Pop(qs'[b], started).value;
      && WellFormed(q)
      && Add(qs'[b := q][f], job).Some?
      && var qs'' := qs'[b := q][f := Add(qs'[b := q][f], job).value];
      && AllWellFormed(qs'') && Levelling(qs, qs'', f, b, started) && LoadAt(qs'', b) < LoadAt(qs', b)
  {
    hide Load, WellFormed, Pop, Add, SameIn, Idle, AllJobs, FreeSlots, AllStarted;
    PopOne(qs', b, started);
    LoadFits(qs'[b]);
    if Pop(qs'[b], started).Some? {
      var (q, job) := Pop(qs'[b], started).value;
      AddOne(qs'[b := q], f, job, started);
      var qs'' := qs'[b := q][f := Add(qs'[b := q][f], job).value];
      StaysOn(qs', qs'[b := q], qs'', started);
      StaysOn(qs, qs', qs'', started);
      assert LoadAt(qs'', b) == LoadAt(qs'[b := q], b) == LoadAt(qs', b) - 1;
      assert LoadAt(qs'', f) == LoadAt(qs', f) + 1;
    }
  }

  lemma StaysOn<J>(qs: seq<Queue<J>>, qs': seq<Queue<J>>, qs'': seq<Queue<J>>, started: set<J>)
    requires AllWellFormed(qs) && AllWellFormed(qs') && AllWellFormed(qs'')
    requires StartedStay(qs, qs', started) && StartedStay(qs', qs'', started)
    ensures StartedStay(qs, qs'', started)
  {
    hide WellFormed, StartedSlot;
    forall i | 0 <= i < |qs|
      ensures SameIn(qs[i], qs''[i], started)
    {
      assert SameIn(qs[i], qs'[i], started) && SameIn(qs'[i], qs''[i], started);
    }
  }

  lemma LevelStop<J>(qs: seq<Queue<J>>, qs': seq<Queue<J>>, f: nat, b: nat, started: set<J>)
    requires AllWellFormed(qs) && AllWellFormed(qs') && Levelling(qs, qs', f, b, started)
    requires AllStarted(qs'[b], started)
    ensures Levelled(qs, qs', f, b, started)
  {
    hide Load, WellFormed, Idle, AllJobs, StartedSlot;
  }

  lemma LevelEnd<J>(qs: seq<Queue<J>>, qs': seq<Queue<J>>, f: nat, b: nat, started: set<J>)
    requires AllWellFormed(qs) && AllWellFormed(qs') && Levelling(qs, qs', f, b, started)
    requires LoadAt(qs', f) >= LoadAt(qs', b)
    ensures Levelled(qs, qs', f, b, started)
  {
    hide Load, WellFormed, Idle, AllJobs, StartedSlot;
  }

  /** Enough rounds are left to give every idle queue a job, or no queue can give one. */
  ghost predicate RoundsLeft<J>(qs: seq<Queue<J>>, rounds: int, started: set<J>)
    requires AllWellFormed(qs)
  {
    Stuck(qs, started) || (SomeIdle(qs) && SomeBusy(qs) ==> Idle(qs) <= rounds)
  }

  /** Without a free slot no queue is idle. */
  lemma FullIsEven<J>(qs: seq<Queue<J>>, started: set<J>)
    requires AllWellFormed(qs) && FreeSlots(qs) <= 0
    ensures SameJobs(qs, qs, started) && !SomeIdle(qs)
  {
    hide Load, WellFormed, AllJobs, StartedSlot;
    FreeSlotsLimits(qs);
  }

  lemma RoundsStart<J>(qs: seq<Queue<J>>, started: set<J>)
    requires AllWellFormed(qs)
    ensures SameJobs(qs, qs, started) && RoundsLeft(qs, |qs| - 1, started)
  {
    hide Load, WellFormed, AllJobs, StartedSlot, Stuck;
    IdleLimits(qs);
  }

  lemma RoundsDone<J>(qs: seq<Queue<J>>, started: set<J>)
    requires AllWellFormed(qs)
    ensures RoundsLeft(qs, 0, started) && SomeIdle(qs) && SomeBusy(qs) ==> Stuck(qs, started)
  {
    hide SomeIdle, SomeBusy, Stuck, Idle;
    IdleLimits(qs);
  }

  lemma IdleIsNotBusy<J>(qs: seq<Queue<J>>, f: nat, b: nat)
    requires AllWellFormed(qs) && f < |qs| && LoadAt(qs, f) == 0 && LastBusy(qs, b)
    ensures f != b
  {
  }

  lemma RoundHelps<J>(before: seq<Queue<J>>, qs: seq<Queue<J>>, qs': seq<Queue<J>>, f: nat, b: nat, rounds: int,
                      started: set<J>)
    requires AllWellFormed(before) && AllWellFormed(qs) && AllWellFormed(qs')
    requires SameJobs(before, qs, started) && RoundsLeft(qs, rounds, started)
    requires f < |qs| && LoadAt(qs, f) == 0 && LastBusy(qs, b) && Levelled(qs, qs', f, b, started)
    ensures SameJobs(before, qs', started) && RoundsLeft(qs', rounds - 1, started)
  {
    hide Load, WellFormed, AllJobs, StartedStay, Idle;
    StaysOn(before, qs, qs', started);
    assert SomeBusy(qs) && SomeIdle(qs);
    assert Stuck(qs, started) <==> AllStarted(qs[b], started);
  }

  // --------------------------------------------------------------------- dispatch

  /** `moved` are new pending jobs; the jobs `known` before stay in their slots, and even loads stay even. */
  ghost predicate Dispatched<J>(qs: seq<Queue<J>>, qs': seq<Queue<J>>, moved: seq<J>, known: set<J>)
    requires AllWellFormed(qs) && AllWellFormed(qs')
  {
    && AllJobs(qs') == AllJobs(qs) + multiset(moved)
    && FreeSlots(qs') == FreeSlots(qs) - |moved|
    && StartedStay(qs, qs', known)
    && (Even(qs) ==> Even(qs'))
  }

  lemma {:induction false} FlushedSame<J>(qs: seq<Queue<J>>, qs': seq<Queue<J>>, known: set<J>)
    requires AllWellFormed(qs) && |qs'| == |qs| && forall i :: 0 <= i < |qs| ==> qs'[i] == Flush(qs[i])
    ensures AllWellFormed(qs') && Dispatched(qs, qs', [], known)
  {
    hide Load, Jobs, Flush;
    forall i | 0 <= i < |qs|
      ensures WellFormed(qs'[i]) && SameIn(qs[i], qs'[i], known) && Load(qs'[i]) == Load(qs[i])
    {
      FlushMeans(qs[i]);
      FlushIs(qs[i]);
    }
    assert AllWellFormed(qs');
    assert forall i :: 0 <= i < |qs| ==> LoadAt(qs', i) == LoadAt(qs, i);
    if qs != [] {
      var last := |qs| - 1;
      FlushMeans(qs[last]);
      FlushedSame(qs[..last], qs'[..last], known);
    }
  }

  lemma DispatchNone<J>(qs: seq<Queue<J>>, known: set<J>)
    requires AllWellFormed(qs)
    ensures Dispatched(qs, qs, [], known)
  {
    hide Load, WellFormed, AllJobs, StartedSlot, FreeSlots;
  }

  lemma SomeRoom<J>(qs: seq<Queue<J>>, qs': seq<Queue<J>>, moved: seq<J>, known: set<J>)
    requires AllWellFormed(qs) && AllWellFormed(qs') && Dispatched(qs, qs', moved, known)
    ensures FreeSlots(qs) >= |moved|
    ensures |moved| == FreeSlots(qs) <==> forall k :: 0 <= k < |qs'| ==> LoadAt(qs', k) == QUEUE_SIZE
  {
    hide Load, WellFormed, AllJobs, StartedStay;
    FreeSlotsLimits(qs');
  }

  lemma FewerStay<J>(qs: seq<Queue<J>>, qs': seq<Queue<J>>, known: set<J>, started: set<J>)
    requires AllWellFormed(qs) && AllWellFormed(qs') && StartedStay(qs, qs', known) && started <= known
    ensures StartedStay(qs, qs', started)
  {
    hide Load;
    forall i, s | 0 <= i < |qs| && 0 <= s < QUEUE_SIZE
      ensures StartedSlot(qs[i], started, s) == StartedSlot(qs'[i], started, s)
    {
      assert SameIn(qs[i], qs'[i], known);
      assert StartedSlot(qs[i], known, s) == StartedSlot(qs'[i], known, s);
    }
  }

  /** A dispatch, then a rebalancing. */
  lemma RoundMeans<J>(before: seq<Queue<J>>, qs: seq<Queue<J>>, after: seq<Queue<J>>, moved: seq<J>, known: set<J>,
                      started: set<J>)
    requires AllWellFormed(before) && AllWellFormed(qs) && AllWellFormed(after) && started <= known
    requires Dispatched(before, qs, moved, known) && SameJobs(qs, after, started)
    requires SomeIdle(after) && SomeBusy(after) ==> Stuck(after, started)
    ensures AllJobs(after) == AllJobs(before) + multiset(moved) && StartedStay(before, after, started)
    ensures (forall i :: 0 <= i < |before| ==> OneStarted(before[i], started)) ==> !SomeIdle(after) || !SomeBusy(after)
  {
    hide Load, WellFormed, Stuck, SomeIdle, SomeBusy, SameIn, OneStarted, AllJobs, FreeSlots;
    FewerStay(before, qs, known, started);
    StaysOn(before, qs, after, started);
    if forall i :: 0 <= i < |before| ==> OneStarted(before[i], started) {
      NotStuck(before, after, started);
    }
  }

  lemma DispatchOne<J>(before: seq<Queue<J>>, qs: seq<Queue<J>>, moved: seq<J>, known: set<J>, t: nat, job: J)
    requires AllWellFormed(before) && AllWellFormed(qs) && Dispatched(before, qs, moved, known)
    requires FirstLeastLoaded(qs, t, |qs|) && job !in known
    ensures Add(qs[t], job).Some?
    ensures var qs' := qs[t := Add(qs[t], job).value];
      AllWellFormed(qs') && Dispatched(before, qs', moved + [job], known)
  {
    hide Load, WellFormed, Add, AllJobs, FreeSlots, SameIn, Idle;
    AddOne(qs, t, job, known);
    var qs' := qs[t := Add(qs[t], job).value];
    StaysOn(before, qs, qs', known);
    assert multiset(moved + [job]) == multiset(moved) + multiset{job};
    assert AllJobs(qs') == AllJobs(before) + multiset(moved) + multiset{job};
    if Even(qs) {
      forall i, k | 0 <= i < |qs| && 0 <= k < |qs|
        ensures LoadAt(qs', i) <= LoadAt(qs', k) + 1
      {
        assert LoadAt(qs, t) <= LoadAt(qs, k) && LoadAt(qs, i) <= LoadAt(qs, k) + 1;
      }
    }
  }
}
