/**
 The four-slot job queue of one thread, as a value.  `J` names a job; the jobs
 that carry one of the started bits are handed in as a set.
 */
module JobQueue {
  import opened Wrappers

  const QUEUE_SIZE := 4

  /** A slot that is done may still name its last job until it is flushed. */
  datatype Queue<J> = Queue(head: nat, slots: seq<Option<J>>, done: seq<bool>, total: int)

  function NewQueue<J>(): (q: Queue<J>)
    ensures WellFormed(q) && Load(q) == 0
  {
    Queue(0, [None, None, None, None], [true, true, true, true], 0)
  }

  /** Every pending slot holds a job. */
  predicate Filled<J>(q: Queue<J>) {
    FilledSlots(q.slots, q.done)
  }

  predicate FilledSlots<J>(slots: seq<Option<J>>, done: seq<bool>) {
    && |slots| == QUEUE_SIZE && |done| == QUEUE_SIZE
    && (forall i :: 0 <= i < QUEUE_SIZE && !done[i] ==> slots[i].Some?)
  }

  /** The counter is the number of pending slots. */
  predicate WellFormed<J>(q: Queue<J>) {
    Filled(q) && q.head < QUEUE_SIZE && q.total == Load(q)
  }

  /** The number of pending slots. */
  function Load<J>(q: Queue<J>): nat
    requires |q.done| == QUEUE_SIZE
  {
    LoadFrom(q.done, 0)
  }

  function LoadFrom(done: seq<bool>, i: nat): nat
    requires |done| == QUEUE_SIZE && i <= QUEUE_SIZE
    decreases QUEUE_SIZE - i
  {
    if i == QUEUE_SIZE then 0 else One(!done[i]) + LoadFrom(done, i + 1)
  }

  function One(b: bool): nat {
    if b then 1 else 0
  }

  /** The pending jobs with their multiplicities. */
  ghost function Jobs<J>(q: Queue<J>): multiset<J>
    requires Filled(q)
  {
    JobsFrom(q.slots, q.done, 0)
  }

  ghost function JobsFrom<J>(slots: seq<Option<J>>, done: seq<bool>, i: nat): multiset<J>
    requires FilledSlots(slots, done) && i <= QUEUE_SIZE
    decreases QUEUE_SIZE - i
  {
    if i == QUEUE_SIZE then multiset{} else SlotJob(slots, done, i) + JobsFrom(slots, done, i + 1)
  }

  ghost function SlotJob<J>(slots: seq<Option<J>>, done: seq<bool>, i: nat): multiset<J>
    requires FilledSlots(slots, done) && i < QUEUE_SIZE
  {
    if done[i] then multiset{} else multiset{slots[i].value}
  }

  // ------------------------------------------------------------- the operations

  /** `addNewTask`: the first slot that is done takes the job. */
  function FreeSlot<J>(q: Queue<J>, i: nat): (r: Option<nat>)
    requires |q.done| == QUEUE_SIZE && i <= QUEUE_SIZE
    ensures r.Some? ==> i <= r.value < QUEUE_SIZE && q.done[r.value]
    ensures forall k :: i <= k < QUEUE_SIZE && q.done[k] ==> r.Some? && r.value <= k
    decreases QUEUE_SIZE - i
  {
    if i == QUEUE_SIZE then None
    else if q.done[i] then Some(i)
    else FreeSlot(q, i + 1)
  }

  function Add<J>(q: Queue<J>, job: J): Option<Queue<J>>
    requires WellFormed(q)
  {
    match FreeSlot(q, 0)
    case None => None
    case Some(i) => Some(Placed(q, job, i))
  }

  function Placed<J>(q: Queue<J>, job: J, i: nat): Queue<J>
    requires |q.slots| == |q.done| == QUEUE_SIZE && i < QUEUE_SIZE
  {
    q.(slots := q.slots[i := Some(job)], done := q.done[i := false], total := q.total + 1)
  }

  /** `popJob`: the first pending slot whose job has not started. */
  function MovableSlot<J(==)>(q: Queue<J>, started: set<J>, i: nat): (r: Option<nat>)
    requires WellFormed(q) && i <= QUEUE_SIZE
    ensures r.Some? ==> i <= r.value < QUEUE_SIZE && !q.done[r.value] && q.slots[r.value].value !in started
    ensures forall k :: i <= k < QUEUE_SIZE && !q.done[k] && q.slots[k].value !in started ==> r.Some? && r.value <= k
    decreases QUEUE_SIZE - i
  {
    if i == QUEUE_SIZE then None
    else if !q.done[i] && q.slots[i].value !in started then Some(i)
    else MovableSlot(q, started, i + 1)
  }

  function Pop<J(==)>(q: Queue<J>, started: set<J>): Option<(Queue<J>, J)>
    requires WellFormed(q)
  {
    match MovableSlot(q, started, 0)
    case None => None
    case Some(i) => Some((Cleared(q, i), q.slots[i].value))
  }

  function Cleared<J>(q: Queue<J>, i: nat): Queue<J>
    requires |q.slots| == |q.done| == QUEUE_SIZE && i < QUEUE_SIZE
  {
    q.(slots := q.slots[i := None], done := q.done[i := true], total := q.total - 1)
  }

  function Successor(i: nat): (r: nat)
    requires i < QUEUE_SIZE
    ensures r == if i == QUEUE_SIZE - 1 then 0 else i + 1
  {
    (i + 1) % QUEUE_SIZE
  }

  /** `getNextTask`: the next pending slot after `head`, cyclically, the current one last. */
  function Advance<J>(q: Queue<J>, rounds: nat): (r: (Queue<J>, Option<J>))
    requires WellFormed(q)
    ensures r.0 == q.(head := r.0.head) && WellFormed(r.0)
    ensures r.1.Some? ==> !q.done[r.0.head] && r.1 == q.slots[r.0.head]
    decreases rounds
  {
    if rounds == 0 then (q, None)
    else
      var q' := q.(head := Successor(q.head));
      if !q.done[q'.head] then (q', q.slots[q'.head]) else Advance(q', rounds - 1)
  }

  /** `markTaskAsComplete` */
  function Complete<J>(q: Queue<J>): Queue<J>
    requires WellFormed(q)
  {
    q.(done := q.done[q.head := true], total := q.total - 1)
  }

  /** `flushFinishedJobs` */
  function Flush<J>(q: Queue<J>): Queue<J>
    requires WellFormed(q)
  {
    q.(slots := seq(QUEUE_SIZE, i requires 0 <= i < QUEUE_SIZE => if q.done[i] then None else q.slots[i]))
  }

  /** The weight of a pending job, all time slices being 0. */
  const UNSLICED_WAIT := 999

  function WaitTime<J>(q: Queue<J>): nat
    requires WellFormed(q)
  {
    UNSLICED_WAIT * Load(q)
  }

  // --------------------------------------------------------------- their meaning

  lemma LoadLimits<J>(q: Queue<J>)
    requires Filled(q)
    ensures Load(q) <= QUEUE_SIZE
    ensures Load(q) == QUEUE_SIZE <==> forall i :: 0 <= i < QUEUE_SIZE ==> !q.done[i]
    ensures Load(q) == 0 <==> forall i :: 0 <= i < QUEUE_SIZE ==> q.done[i]
  {
    LoadLimitsFrom(q.done, 0);
  }

  lemma {:induction false} LoadLimitsFrom(done: seq<bool>, i: nat)
    requires |done| == QUEUE_SIZE && i <= QUEUE_SIZE
    ensures LoadFrom(done, i) <= QUEUE_SIZE - i
    ensures LoadFrom(done, i) == QUEUE_SIZE - i <==> forall k :: i <= k < QUEUE_SIZE ==> !done[k]
    ensures LoadFrom(done, i) == 0 <==> forall k :: i <= k < QUEUE_SIZE ==> done[k]
    decreases QUEUE_SIZE - i
  {
    if i < QUEUE_SIZE {
      LoadLimitsFrom(done, i + 1);
    }
  }

  /** A change of one slot changes the load and the jobs by that slot. */
  lemma SlotChanges<J>(q: Queue<J>, q': Queue<J>, i: nat)
    requires Filled(q) && Filled(q') && i < QUEUE_SIZE && SameElsewhere(q, q', i)
    ensures Load(q') + One(!q.done[i]) == Load(q) + One(!q'.done[i])
    ensures Jobs(q') + SlotJob(q.slots, q.done, i) == Jobs(q) + SlotJob(q'.slots, q'.done, i)
  {
    SlotChangesFrom(q, q', i, 0);
  }

  predicate SameElsewhere<J(==)>(q: Queue<J>, q': Queue<J>, i: nat)
    requires Filled(q) && Filled(q')
  {
    forall k :: 0 <= k < QUEUE_SIZE && k != i ==> q'.done[k] == q.done[k] && (!q.done[k] ==> q'.slots[k] == q.slots[k])
  }

  lemma {:induction false} SlotChangesFrom<J>(q: Queue<J>, q': Queue<J>, i: nat, k: nat)
    requires Filled(q) && Filled(q') && i < QUEUE_SIZE && SameElsewhere(q, q', i) && k <= QUEUE_SIZE
    ensures k <= i ==> LoadFrom(q'.done, k) + One(!q.done[i]) == LoadFrom(q.done, k) + One(!q'.done[i])
    ensures k <= i ==> JobsFrom(q'.slots, q'.done, k) + SlotJob(q.slots, q.done, i)
                       == JobsFrom(q.slots, q.done, k) + SlotJob(q'.slots, q'.done, i)
    ensures k > i ==> LoadFrom(q'.done, k) == LoadFrom(q.done, k)
    ensures k > i ==> JobsFrom(q'.slots, q'.done, k) == JobsFrom(q.slots, q.done, k)
    decreases QUEUE_SIZE - k
  {
    hide SlotJob;
    if k < QUEUE_SIZE {
      SlotChangesFrom(q, q', i, k + 1);
      var old', new' := SlotJob(q.slots, q.done, i), SlotJob(q'.slots, q'.done, i);
      var rest, rest' := JobsFrom(q.slots, q.done, k + 1), JobsFrom(q'.slots, q'.done, k + 1);
      if k != i {
        SameSlotJob(q, q', k);
        SumsExchange(SlotJob(q.slots, q.done, k), rest', old', rest, new');
      } else {
        SumsExchange(rest, new', old', old', new');
      }
    }
  }

  lemma SameSlotJob<J>(q: Queue<J>, q': Queue<J>, k: nat)
    requires Filled(q) && Filled(q') && k < QUEUE_SIZE
    requires q'.done[k] == q.done[k] && (!q.done[k] ==> q'.slots[k] == q.slots[k])
    ensures SlotJob(q'.slots, q'.done, k) == SlotJob(q.slots, q.done, k)
  {
  }

  lemma SumsExchange<J>(s: multiset<J>, r': multiset<J>, a: multiset<J>, r: multiset<J>, b: multiset<J>)
    ensures r' + a == r + b ==> s + r' + a == s + r + b
    ensures r' + s == s + r' && r + s == s + r
  {
    assert s + r' + a == s + (r' + a);
    assert s + r + b == s + (r + b);
  }

  /** The pending jobs other than `moved` stay pending in their slots. */
  predicate KeepsSlots<J(==)>(q: Queue<J>, q': Queue<J>, moved: set<J>)
    requires Filled(q) && Filled(q')
  {
    forall i :: 0 <= i < QUEUE_SIZE && !q.done[i] && q.slots[i].value !in moved ==>
        !q'.done[i] && q'.slots[i] == q.slots[i]
  }

  lemma AddMeans<J>(q: Queue<J>, job: J)
    requires WellFormed(q)
    ensures Add(q, job).None? <==> Load(q) == QUEUE_SIZE
    ensures Add(q, job).Some? ==>
      var q' := Add(q, job).value;
      WellFormed(q') && Jobs(q') == Jobs(q) + multiset{job} && Load(q') == Load(q) + 1
    ensures Add(q, job).Some? ==> KeepsSlots(q, Add(q, job).value, {})
  {
    hide Load, Jobs;
    LoadLimits(q);
    match FreeSlot(q, 0)
    case None =>
    case Some(i) =>
      var q' := Add(q, job).value;
      SlotChanges(q, q', i);
  }

  /** `Add` when the first free slot is known. */
  lemma AddAt<J>(q: Queue<J>, job: J, i: nat)
    requires WellFormed(q) && i < QUEUE_SIZE && q.done[i] && forall k :: 0 <= k < i ==> !q.done[k]
    ensures |q.slots| == |q.done| == QUEUE_SIZE
    ensures Add(q, job) == Some(Placed(q, job, i)) && WellFormed(Placed(q, job, i))
  {
    hide Load, Placed, KeepsSlots;
    AddMeans(q, job);
    assert FreeSlot(q, 0) == Some(i);
  }

  lemma AddFull<J>(q: Queue<J>, job: J)
    requires WellFormed(q) && forall k :: 0 <= k < QUEUE_SIZE ==> !q.done[k]
    ensures Add(q, job) == None
  {
  }

  lemma PopMeans<J>(q: Queue<J>, started: set<J>)
    requires WellFormed(q)
    ensures Pop(q, started).None? <==> forall i :: 0 <= i < QUEUE_SIZE && !q.done[i] ==> q.slots[i].value in started
    ensures Pop(q, started).Some? ==>
      var (q', job) := Pop(q, started).value;
      WellFormed(q') && job !in started && Jobs(q) == Jobs(q') + multiset{job} && Load(q) == Load(q') + 1
    ensures Pop(q, started).Some? ==>
      KeepsSlots(q, Pop(q, started).value.0, {Pop(q, started).value.1})
  {
    hide Load, Jobs;
    LoadLimits(q);
    match MovableSlot(q, started, 0)
    case None =>
    case Some(i) =>
      var q' := Pop(q, started).value.0;
      SlotChanges(q, q', i);
  }

  /** `Pop` when the first movable slot is known. */
  lemma PopAt<J>(q: Queue<J>, started: set<J>, i: nat)
    requires WellFormed(q) && i < QUEUE_SIZE && !q.done[i] && q.slots[i].value !in started
    requires forall k :: 0 <= k < i && !q.done[k] ==> q.slots[k].value in started
    ensures |q.slots| == |q.done| == QUEUE_SIZE
    ensures Pop(q, started) == Some((Cleared(q, i), q.slots[i].value)) && WellFormed(Cleared(q, i))
  {
    hide Load, Cleared, KeepsSlots;
    PopMeans(q, started);
    assert MovableSlot(q, started, 0) == Some(i);
  }

  lemma PopNone<J>(q: Queue<J>, started: set<J>)
    requires WellFormed(q) && forall k :: 0 <= k < QUEUE_SIZE && !q.done[k] ==> q.slots[k].value in started
    ensures Pop(q, started) == None
  {
    hide Load;
    PopMeans(q, started);
  }

  lemma CompleteMeans<J>(q: Queue<J>)
    requires WellFormed(q) && !q.done[q.head]
    ensures WellFormed(Complete(q)) && Load(q) == Load(Complete(q)) + 1
    ensures Jobs(q) == Jobs(Complete(q)) + multiset{q.slots[q.head].value}
  {
    hide Load, Jobs;
    LoadLimits(q);
    var q' := Complete(q);
    SlotChanges(q, q', q.head);
  }

  lemma FlushIs<J>(q: Queue<J>)
    requires WellFormed(q)
    ensures var q' := Flush(q);
      && q'.head == q.head && q'.total == q.total && q'.done == q.done && |q'.slots| == |q.slots|
      && forall i :: 0 <= i < QUEUE_SIZE ==> q'.slots[i] == if q.done[i] then None else q.slots[i]
  {
  }

  lemma FlushMeans<J>(q: Queue<J>)
    requires WellFormed(q)
    ensures WellFormed(Flush(q)) && Load(Flush(q)) == Load(q) && Jobs(Flush(q)) == Jobs(q)
  {
    hide Flush, LoadFrom, JobsFrom;
    FlushIs(q);
    SameJobsFrom(q, Flush(q), 0);
  }

  lemma {:induction false} SameJobsFrom<J>(q: Queue<J>, q': Queue<J>, i: nat)
    requires Filled(q) && q'.done == q.done && |q'.slots| == |q.slots| && i <= QUEUE_SIZE
    requires forall k :: 0 <= k < QUEUE_SIZE && !q.done[k] ==> q'.slots[k] == q.slots[k]
    ensures FilledSlots(q'.slots, q'.done)
    ensures JobsFrom(q'.slots, q'.done, i) == JobsFrom(q.slots, q.done, i)
    decreases QUEUE_SIZE - i
  {
    hide SlotJob;
    if i < QUEUE_SIZE {
      SameJobsFrom(q, q', i + 1);
      SameSlotJob(q, q', i);
    }
  }

  /** One turn of the loop of `getNextTask`. */
  lemma AdvanceStep<J>(q: Queue<J>, rounds: nat)
    requires WellFormed(q)
    ensures rounds == 0 ==> Advance(q, rounds) == (q, None)
    ensures var q' := q.(head := Successor(q.head));
      rounds > 0 ==>
        && WellFormed(q')
        && Advance(q, rounds) == if !q.done[q'.head] then (q', q.slots[q'.head]) else Advance(q', rounds - 1)
  {
    hide LoadFrom;
  }

  /** The slot that lies `d` places further on, cyclically. */
  function Ahead(i: nat, d: nat): (r: nat)
    ensures r < QUEUE_SIZE
  {
    (i + d) % QUEUE_SIZE
  }

  /** The head comes to the nearest pending slot, cyclically; the one it came from is the last to be looked at. */
  lemma AdvanceIsNext<J>(q: Queue<J>) returns (d: nat)
    requires WellFormed(q) && Advance(q, QUEUE_SIZE).1.Some?
    ensures var q' := Advance(q, QUEUE_SIZE).0;
      && 1 <= d <= QUEUE_SIZE && q'.head == Ahead(q.head, d) && !q.done[q'.head]
      && forall e: nat :: 1 <= e < d ==> q.done[Ahead(q.head, e)]
  {
    hide LoadFrom;
    d := NearestFrom(q, QUEUE_SIZE);
  }

  lemma {:induction false} NearestFrom<J>(q: Queue<J>, rounds: nat) returns (d: nat)
    requires WellFormed(q) && Advance(q, rounds).1.Some?
    ensures var q' := Advance(q, rounds).0;
      && 1 <= d <= rounds && q'.head == Ahead(q.head, d) && !q.done[q'.head]
      && forall e: nat :: 1 <= e < d ==> q.done[Ahead(q.head, e)]
    decreases rounds
  {
    hide LoadFrom, Advance;
    AdvanceStep(q, rounds);
    var q' := q.(head := Successor(q.head));
    if !q.done[q'.head] {
      d := 1;
    } else {
      d := NearestFrom(q', rounds - 1);
      forall e: nat | 1 <= e < d + 1
        ensures q.done[Ahead(q.head, e)]
      {
        if e > 1 {
          assert Ahead(q'.head, e - 1) == Ahead(q.head, e);
        }
      }
      assert Ahead(q'.head, d) == Ahead(q.head, d + 1);
      d := d + 1;
    }
  }

  /** The slot that `rounds` steps from `i` lead to. */
  function Nth(i: nat, rounds: nat): (r: nat)
    requires i < QUEUE_SIZE
    ensures r < QUEUE_SIZE
    decreases rounds
  {
    if rounds == 0 then i else Nth(Successor(i), rounds - 1)
  }

  /** Slot `k` is one of those that `rounds` steps from `i` look at. */
  predicate Visited(i: nat, rounds: nat, k: nat)
    requires i < QUEUE_SIZE
    decreases rounds
  {
    rounds > 0 && (k == Successor(i) || Visited(Successor(i), rounds - 1, k))
  }

  lemma FullTurn(i: nat, k: nat)
    requires i < QUEUE_SIZE && k < QUEUE_SIZE
    ensures Nth(i, QUEUE_SIZE) == i && Visited(i, QUEUE_SIZE, k)
  {
    var i1 := Successor(i);
    var i2 := Successor(i1);
    var i3 := Successor(i2);
    assert Nth(i3, 1) == i && Nth(i2, 2) == i && Nth(i1, 3) == i;
    assert Visited(i3, 1, k) <==> k == i;
    assert Visited(i2, 2, k) <==> k == i3 || k == i;
    assert Visited(i1, 3, k) <==> k == i2 || k == i3 || k == i;
  }

  lemma {:induction false} NothingFound<J>(q: Queue<J>, rounds: nat)
    requires WellFormed(q)
    ensures Advance(q, rounds).1.None? <==> forall k :: 0 <= k < QUEUE_SIZE && Visited(q.head, rounds, k) ==> q.done[k]
    ensures Advance(q, rounds).1.None? ==> Advance(q, rounds).0 == q.(head := Nth(q.head, rounds))
    decreases rounds
  {
    if rounds > 0 {
      NothingFound(q.(head := Successor(q.head)), rounds - 1);
    }
  }

  /** A full turn finds a job exactly if one is pending, and otherwise leaves `head` where it was. */
  lemma AdvanceFinds<J>(q: Queue<J>)
    requires WellFormed(q)
    ensures Advance(q, QUEUE_SIZE).1.Some? <==> Load(q) > 0
    ensures Advance(q, QUEUE_SIZE).1.None? ==> Advance(q, QUEUE_SIZE).0 == q
  {
    hide Load, Advance, Visited, Nth;
    LoadLimits(q);
    NothingFound(q, QUEUE_SIZE);
    forall k | 0 <= k < QUEUE_SIZE
      ensures Nth(q.head, QUEUE_SIZE) == q.head && Visited(q.head, QUEUE_SIZE, k)
    {
      FullTurn(q.head, k);
    }
    FullTurn(q.head, 0);
  }
}
