/**
 The scanner of mail addresses: an interpreter over flat tables.  For every coherent
 set of tables its two binary searches choose the transition that a linear scan of the
 keys of a state chooses, so it runs the automaton that the tables stand for.
 */
module AddressScanner {
  import opened Wrappers

  const ERROR_STATE := 0

  /** Single keys first, then pairs of range ends; a transition for each, then the default one. */
  datatype Tables = Tables(
    states: nat,
    keyOffsets: seq<nat>,
    singleLengths: seq<nat>,
    rangeLengths: seq<nat>,
    indexOffsets: seq<nat>,
    keys: seq<int>,
    targets: seq<nat>,
    targetActions: seq<nat>,
    actions: seq<nat>,
    eofTransitions: seq<nat>,
    start: nat,
    firstFinal: nat)

  /** The arrays may have further entries, as padding. */
  predicate IsState(t: Tables, s: nat) {
    && ERROR_STATE < s < t.states
    && t.states <= |t.keyOffsets| && t.states <= |t.singleLengths| && t.states <= |t.rangeLengths|
    && t.states <= |t.indexOffsets| && t.states <= |t.eofTransitions|
  }

  function RangeBase(t: Tables, s: nat): nat
    requires IsState(t, s)
  {
    t.keyOffsets[s] + t.singleLengths[s]
  }

  /** The tables of a state lie within their arrays, and its keys are sorted. */
  predicate StateFits(t: Tables, s: nat)
    requires IsState(t, s)
  {
    && RangeBase(t, s) + 2 * t.rangeLengths[s] <= |t.keys|
    && t.indexOffsets[s] + t.singleLengths[s] + t.rangeLengths[s] < |t.targets|
    && 0 < t.eofTransitions[s] <= |t.targets|
    && SinglesSorted(t.keys, t.keyOffsets[s], t.singleLengths[s])
    && RangesSorted(t.keys, RangeBase(t, s), t.rangeLengths[s])
  }

  function Key(keys: seq<int>, base: nat, i: nat): int
    requires base + i < |keys|
  {
    keys[base + i]
  }

  predicate SinglesSorted(keys: seq<int>, base: nat, n: nat)
    requires base + n <= |keys|
  {
    forall i: nat, k: nat :: i < k < n ==> Key(keys, base, i) < Key(keys, base, k)
  }

  function Low(keys: seq<int>, base: nat, i: nat): int
    requires base + 2 * i + 1 < |keys|
  {
    keys[base + 2 * i]
  }

  function High(keys: seq<int>, base: nat, i: nat): int
    requires base + 2 * i + 1 < |keys|
  {
    keys[base + 2 * i + 1]
  }

  predicate RangesSorted(keys: seq<int>, base: nat, n: nat)
    requires base + 2 * n <= |keys|
  {
    && (forall i: nat :: i < n ==> Low(keys, base, i) <= High(keys, base, i))
    && (forall i: nat, k: nat :: i < k < n ==> High(keys, base, i) < Low(keys, base, k))
  }

  predicate ActionFits(t: Tables, a: nat) {
    a == 0 || (a < |t.actions| && a + t.actions[a] < |t.actions|)
  }

  ghost predicate Coherent(t: Tables) {
    && IsState(t, t.start)
    && (forall s: nat :: IsState(t, s) ==> StateFits(t, s))
    && |t.targetActions| == |t.targets|
    && (forall tr :: 0 <= tr < |t.targets| ==> t.targets[tr] < t.states)
    && (forall tr :: 0 <= tr < |t.targets| ==> ActionFits(t, t.targetActions[tr]))
  }

  // -------------------------------------------------------------- the automaton

  /** The first of the keys from `i` on that is `c`. */
  function FindSingle(keys: seq<int>, base: nat, n: nat, c: int, i: nat): (r: Option<nat>)
    requires base + n <= |keys| && i <= n
    decreases n - i
  {
    if i == n then None
    else if Key(keys, base, i) == c then Some(i)
    else FindSingle(keys, base, n, c, i + 1)
  }

  /** The first of the ranges from `i` on that contains `c`. */
  function FindRange(keys: seq<int>, base: nat, n: nat, c: int, i: nat): (r: Option<nat>)
    requires base + 2 * n <= |keys| && i <= n
    decreases n - i
  {
    if i == n then None
    else if Low(keys, base, i) <= c <= High(keys, base, i) then Some(i)
    else FindRange(keys, base, n, c, i + 1)
  }

  /** The transition of a state on a character, by a linear scan of its keys. */
  ghost function Transition(t: Tables, s: nat, c: int): (tr: nat)
    requires Coherent(t) && IsState(t, s)
    ensures tr < |t.targets|
  {
    assert StateFits(t, s);
    match FindSingle(t.keys, t.keyOffsets[s], t.singleLengths[s], c, 0)
    case Some(i) => SingleFits(t.keys, t.keyOffsets[s], t.singleLengths[s], c, 0); t.indexOffsets[s] + i
    case None =>
      match FindRange(t.keys, RangeBase(t, s), t.rangeLengths[s], c, 0)
      case Some(i) =>
        RangeFits(t.keys, RangeBase(t, s), t.rangeLengths[s], c, 0);
        t.indexOffsets[s] + t.singleLengths[s] + i
      case None => t.indexOffsets[s] + t.singleLengths[s] + t.rangeLengths[s]
  }

  lemma {:induction false} SingleFits(keys: seq<int>, base: nat, n: nat, c: int, i: nat)
    requires base + n <= |keys| && i <= n
    ensures FindSingle(keys, base, n, c, i).Some? ==> i <= FindSingle(keys, base, n, c, i).value < n
    decreases n - i
  {
    if i < n {
      SingleFits(keys, base, n, c, i + 1);
    }
  }

  lemma {:induction false} RangeFits(keys: seq<int>, base: nat, n: nat, c: int, i: nat)
    requires base + 2 * n <= |keys| && i <= n
    ensures FindRange(keys, base, n, c, i).Some? ==> i <= FindRange(keys, base, n, c, i).value < n
    decreases n - i
  {
    if i < n {
      RangeFits(keys, base, n, c, i + 1);
    }
  }

  /** The state that the input leads to; an error is final. */
  ghost function RunFrom(t: Tables, s: nat, input: seq<int>): nat
    requires Coherent(t) && IsState(t, s)
    decreases |input|
  {
    if input == [] then s
    else
      var next := t.targets[Transition(t, s, input[0])];
      if next == ERROR_STATE then ERROR_STATE else RunFrom(t, next, input[1..])
  }

  ghost predicate Recognises(t: Tables, input: seq<int>)
    requires Coherent(t)
  {
    RunFrom(t, t.start, input) >= t.firstFinal
  }

  // -------------------------------------------------------------- the actions

  /** The result after the actions numbered `first` to `last - 1`. */
  function Effect(t: Tables, first: nat, last: nat, result: bool): bool
    requires first <= last <= |t.actions|
    decreases last - first
  {
    if first == last then result
    else Effect(t, first + 1, last, if t.actions[first] == 0 then true else if t.actions[first] == 1 then false
        else result)
  }

  ghost function Acted(t: Tables, tr: nat, result: bool): bool
    requires Coherent(t) && tr < |t.targets|
  {
    var a := t.targetActions[tr];
    assert ActionFits(t, a);
    if a == 0 then result else Effect(t, a + 1, a + 1 + t.actions[a], result)
  }

  /** What the interpreter computes, with linear scans. */
  ghost function Interpreted(t: Tables, s: nat, input: seq<int>, result: bool): bool
    requires Coherent(t) && IsState(t, s)
    decreases |input|
  {
    if input == [] then assert StateFits(t, s); Acted(t, t.eofTransitions[s] - 1, result)
    else
      var tr := Transition(t, s, input[0]);
      var result' := Acted(t, tr, result);
      if t.targets[tr] == ERROR_STATE then result' else Interpreted(t, t.targets[tr], input[1..], result')
  }

  /**
     The actions record finality: entering the error state or ending the input elsewhere than in a
     final state sets false, entering a final state sets true, and ending the input there keeps it.
   */
  ghost predicate ActionsRecordFinality(t: Tables)
    requires Coherent(t)
  {
    && ERROR_STATE < t.firstFinal && t.start < t.firstFinal
    && (forall tr, result :: 0 <= tr < |t.targets| && t.targets[tr] == ERROR_STATE && IsInputTransition(t, tr) ==>
        !Acted(t, tr, result))
    && (forall tr, result :: 0 <= tr < |t.targets| && t.targets[tr] >= t.firstFinal && IsInputTransition(t, tr) ==>
        Acted(t, tr, result))
    && (forall s: nat :: IsState(t, s) ==> EofRecords(t, s))
  }

  ghost predicate IsInputTransition(t: Tables, tr: nat)
    requires Coherent(t)
  {
    exists s: nat, c :: IsState(t, s) && Transition(t, s, c) == tr
  }

  ghost predicate EofRecords(t: Tables, s: nat)
    requires Coherent(t) && IsState(t, s)
  {
    assert StateFits(t, s);
    if s >= t.firstFinal then Acted(t, t.eofTransitions[s] - 1, true)
        else !Acted(t, t.eofTransitions[s] - 1, true) && !Acted(t, t.eofTransitions[s] - 1, false)
  }

  lemma {:induction false} InterpretedRecognises(t: Tables, s: nat, input: seq<int>, result: bool)
    requires Coherent(t) && ActionsRecordFinality(t) && IsState(t, s) && (s >= t.firstFinal ==> result)
    ensures Interpreted(t, s, input, result) <==> RunFrom(t, s, input) >= t.firstFinal
    decreases |input|
  {
    hide Coherent, Transition, Acted;
    if input == [] {
      assert EofRecords(t, s);
    } else {
      var tr := Transition(t, s, input[0]);
      assert IsInputTransition(t, tr);
      if t.targets[tr] != ERROR_STATE {
        TargetIsState(t, tr);
        InterpretedRecognises(t, t.targets[tr], input[1..], Acted(t, tr, result));
      }
    }
  }

  lemma TargetIsState(t: Tables, tr: nat)
    requires Coherent(t) && tr < |t.targets| && t.targets[tr] != ERROR_STATE
    ensures IsState(t, t.targets[tr])
  {
  }

  lemma Fits(t: Tables)
    requires Coherent(t)
    ensures IsState(t, t.start)
    ensures forall s: nat :: IsState(t, s) ==> StateFits(t, s)
  {
  }

  lemma StartIsPlain(t: Tables)
    requires Coherent(t) && ActionsRecordFinality(t)
    ensures IsState(t, t.start) && t.start < t.firstFinal
  {
  }

  // ------------------------------------------------------------ the interpreter

  lemma {:induction false} SingleIs(keys: seq<int>, base: nat, n: nat, c: int, i: nat, k: nat)
    requires base + n <= |keys| && SinglesSorted(keys, base, n) && i <= k < n && Key(keys, base, k) == c
    ensures FindSingle(keys, base, n, c, i) == Some(k)
    decreases k - i
  {
    if i < k {
      SingleIs(keys, base, n, c, i + 1, k);
    }
  }

  lemma {:induction false} SingleMissing(keys: seq<int>, base: nat, n: nat, c: int, i: nat)
    requires base + n <= |keys| && i <= n && forall k: nat :: i <= k < n ==> Key(keys, base, k) != c
    ensures FindSingle(keys, base, n, c, i) == None
    decreases n - i
  {
    if i < n {
      SingleMissing(keys, base, n, c, i + 1);
    }
  }

  method SearchSingle(keys: seq<int>, base: nat, n: nat, c: int) returns (found: Option<nat>)
    requires base + n <= |keys| && SinglesSorted(keys, base, n)
    ensures found == FindSingle(keys, base, n, c, 0)
  {
    var lower, upper := base, base + n - 1;
    while lower <= upper
      invariant base <= lower <= base + n && lower - 1 <= upper < base + n
      invariant forall k: nat :: k < lower - base ==> Key(keys, base, k) < c
      invariant forall k: nat :: upper - base < k < n ==> c < Key(keys, base, k)
      decreases upper - lower
    {
      var mid := lower + (upper - lower) / 2;
      assert keys[mid] == Key(keys, base, mid - base);
      if c < keys[mid] {
        upper := mid - 1;
      } else if c > keys[mid] {
        lower := mid + 1;
      } else {
        SingleIs(keys, base, n, c, 0, mid - base);
        return Some(mid - base);
      }
    }
    SingleMissing(keys, base, n, c, 0);
    found := None;
  }

  lemma {:induction false} RangeIs(keys: seq<int>, base: nat, n: nat, c: int, i: nat, k: nat)
    requires base + 2 * n <= |keys| && RangesSorted(keys, base, n) && i <= k < n
    requires Low(keys, base, k) <= c <= High(keys, base, k)
    ensures FindRange(keys, base, n, c, i) == Some(k)
    decreases k - i
  {
    if i < k {
      RangeIs(keys, base, n, c, i + 1, k);
    }
  }

  lemma {:induction false} RangeMissing(keys: seq<int>, base: nat, n: nat, c: int, i: nat)
    requires base + 2 * n <= |keys| && i <= n
    requires forall k: nat :: i <= k < n ==> !(Low(keys, base, k) <= c <= High(keys, base, k))
    ensures FindRange(keys, base, n, c, i) == None
    decreases n - i
  {
    if i < n {
      RangeMissing(keys, base, n, c, i + 1);
    }
  }

  /** The middle is rounded down to the lower end of a range. */
  method SearchRange(keys: seq<int>, base: nat, n: nat, c: int) returns (found: Option<nat>)
    requires base + 2 * n <= |keys| && RangesSorted(keys, base, n)
    ensures found == FindRange(keys, base, n, c, 0)
  {
    var lower, upper := base, base + 2 * n - 2;
    ghost var lo: nat, up: int := 0, n - 1;
    while lower <= upper
      invariant lower == base + 2 * lo && upper == base + 2 * up
      invariant 0 <= lo <= n && lo - 1 <= up < n
      invariant forall k: nat :: k < lo ==> High(keys, base, k) < c
      invariant forall k: nat :: up < k < n ==> c < Low(keys, base, k)
      decreases upper - lower
    {
      var half := (upper - lower) / 2;
      var mid := lower + (half - half % 2);
      ghost var m: nat := (mid - base) / 2;
      assert mid == base + 2 * m && lo <= m <= up;
      assert Low(keys, base, m) == keys[mid] && High(keys, base, m) == keys[mid + 1];
      if c < keys[mid] {
        upper := mid - 2;
        up := m - 1;
      } else if c > keys[mid + 1] {
        lower := mid + 2;
        lo := m + 1;
      } else {
        RangeIs(keys, base, n, c, 0, m);
        return Some((mid - base) / 2);
      }
    }
    RangeMissing(keys, base, n, c, 0);
    found := None;
  }

  method FindTransition(t: Tables, cs: nat, c: int) returns (trans: nat)
    requires Coherent(t) && IsState(t, cs)
    ensures trans == Transition(t, cs, c)
  {
    assert StateFits(t, cs);
    var keys := t.keyOffsets[cs];
    trans := t.indexOffsets[cs];
    var klen := t.singleLengths[cs];
    if klen > 0 {
      var single := SearchSingle(t.keys, keys, klen, c);
      if single.Some? {
        return trans + single.value;
      }
      keys := keys + klen;
      trans := trans + klen;
    }
    klen := t.rangeLengths[cs];
    if klen > 0 {
      var range := SearchRange(t.keys, keys, klen, c);
      trans := trans + if range.Some? then range.value else klen;
    }
  }

  method DoActions(t: Tables, trans: nat, before: bool) returns (result: bool)
    requires Coherent(t) && trans < |t.targets|
    ensures result == Acted(t, trans, before)
  {
    result := before;
    if t.targetActions[trans] != 0 {
      assert ActionFits(t, t.targetActions[trans]);
      var acts: nat := t.targetActions[trans];
      var nacts: nat := t.actions[acts];
      acts := acts + 1;
      while nacts > 0
        invariant acts + nacts <= |t.actions| && Effect(t, acts, acts + nacts, result) == Acted(t, trans, before)
      {
        if t.actions[acts] == 0 {
          result := true;
        } else if t.actions[acts] == 1 {
          result := false;
        }
        nacts := nacts - 1;
        acts := acts + 1;
      }
    }
  }

  /** The result is true exactly if the automaton ends in a final state, provided that the actions record it. */
  method IsAddress(t: Tables, input: seq<int>) returns (result: bool)
    requires Coherent(t)
    ensures result == Interpreted(t, t.start, input, false)
    ensures ActionsRecordFinality(t) ==> (result <==> Recognises(t, input))
  {
    hide Coherent, Transition, Acted, ActionsRecordFinality;
    if ActionsRecordFinality(t) {
      StartIsPlain(t);
      InterpretedRecognises(t, t.start, input, false);
    }
    Fits(t);
    var cs, p := t.start, 0;
    assert input[0..] == input;
    result := false;
    while true
      invariant 0 <= p <= |input| && IsState(t, cs)
      invariant Interpreted(t, cs, input[p..], result) == Interpreted(t, t.start, input, false)
      decreases |input| - p
    {
      var trans;
      if p == |input| {
        Fits(t);
        assert StateFits(t, cs);
        trans := t.eofTransitions[cs] - 1;
      } else {
        trans := FindTransition(t, cs, input[p]);
      }
      assert p < |input| ==> input[p..][0] == input[p] && input[p..][1..] == input[p + 1..];
      result := DoActions(t, trans, result);
      var target := t.targets[trans];
      if target != ERROR_STATE {
        TargetIsState(t, trans);
      }
      if p == |input| || target == ERROR_STATE {
        return;
      }
      cs := target;
      p := p + 1;
    }
  }

  // ----------------------------------------------------------------- the layout

  /** Where a transition leads, and the actions on the way. */
  datatype Cell = Cell(target: nat, actions: seq<nat>)

  /** A state as the generator is given it: keys, ranges of keys, and what every other key and the end do. */
  datatype StateRow = StateRow(singles: seq<(int, Cell)>, ranges: seq<(int, int, Cell)>, other: Cell, atEnd: Cell)

  /** The actions are written with their number in front; no list at all is the number 0. */
  predicate ActionsAt(t: Tables, a: nat, actions: seq<nat>) {
    if a == 0 then actions == []
    else
      && a + 1 + |actions| <= |t.actions| && t.actions[a] == |actions|
      && t.actions[a + 1..a + 1 + |actions|] == actions
  }

  predicate CellAt(t: Tables, tr: nat, cell: Cell) {
    && tr < |t.targets| == |t.targetActions|
    && t.targets[tr] == cell.target && ActionsAt(t, t.targetActions[tr], cell.actions)
  }

  /** The keys of a state lie together, the single ones first; its transitions in the same order, the other one last. */
  predicate RowAt(t: Tables, s: nat, row: StateRow)
    requires IsState(t, s) && StateFits(t, s)
  {
    var n, keys, index := |row.singles|, t.keyOffsets[s], t.indexOffsets[s];
    && t.singleLengths[s] == n && t.rangeLengths[s] == |row.ranges|
    && SinglesAt(t, keys, index, row.singles)
    && RangesAt(t, keys + n, index + n, row.ranges)
    && CellAt(t, index + n + |row.ranges|, row.other)
    && CellAt(t, t.eofTransitions[s] - 1, row.atEnd)
  }

  predicate SinglesAt(t: Tables, keys: nat, index: nat, singles: seq<(int, Cell)>) {
    && keys + |singles| <= |t.keys|
    && forall i: nat :: i < |singles| ==>
      Key(t.keys, keys, i) == singles[i].0 && CellAt(t, index + i, singles[i].1)
  }

  predicate RangesAt(t: Tables, keys: nat, index: nat, ranges: seq<(int, int, Cell)>) {
    && keys + 2 * |ranges| <= |t.keys|
    && forall i: nat :: i < |ranges| ==>
      && Low(t.keys, keys, i) == ranges[i].0 && High(t.keys, keys, i) == ranges[i].1
      && CellAt(t, index + i, ranges[i].2)
  }

  ghost predicate LaidOut(t: Tables, rows: map<nat, StateRow>)
    requires Coherent(t)
  {
    forall s: nat :: IsState(t, s) ==> StateFits(t, s) && s in rows && RowAt(t, s, rows[s])
  }

  /** The cell of the character's own key, or else of its range, or else the one for every other character. */
  ghost function CellFor(row: StateRow, c: int): Cell {
    if exists i: nat :: i < |row.singles| && row.singles[i].0 == c then
      var i: nat :| i < |row.singles| && row.singles[i].0 == c;
      row.singles[i].1
    else if exists i: nat :: i < |row.ranges| && row.ranges[i].0 <= c <= row.ranges[i].1 then
      var i: nat :| i < |row.ranges| && row.ranges[i].0 <= c <= row.ranges[i].1;
      row.ranges[i].2
    else row.other
  }

  /** The transition that is chosen has the cell of the character. */
  lemma TransitionHasCell(t: Tables, s: nat, row: StateRow, c: int)
    requires Coherent(t) && IsState(t, s) && StateFits(t, s) && RowAt(t, s, row)
    ensures CellAt(t, Transition(t, s, c), CellFor(row, c))
  {
    hide Coherent, CellAt, CellFor;
    var base, n, m := t.keyOffsets[s], |row.singles|, |row.ranges|;
    SingleOf(t, base, t.indexOffsets[s], row.singles, c);
    RangeOf(t, base + n, t.indexOffsets[s] + n, row.ranges, c);
    CellForIs(t, s, row, c);
  }

  lemma SingleOf(t: Tables, keys: nat, index: nat, singles: seq<(int, Cell)>, c: int)
    requires SinglesAt(t, keys, index, singles) && SinglesSorted(t.keys, keys, |singles|)
    ensures match FindSingle(t.keys, keys, |singles|, c, 0)
      case Some(k) =>
        && k < |singles| && CellAt(t, index + k, singles[k].1)
        && forall i: nat :: i < |singles| ==> (singles[i].0 == c <==> i == k)
      case None => forall i: nat :: i < |singles| ==> singles[i].0 != c
  {
    hide CellAt;
    if k: nat :| k < |singles| && singles[k].0 == c {
      SingleIs(t.keys, keys, |singles|, c, 0, k);
      forall i: nat | i < |singles|
        ensures singles[i].0 == c <==> i == k
      {
        assert Key(t.keys, keys, i) == singles[i].0 && Key(t.keys, keys, k) == singles[k].0;
      }
    } else {
      SingleMissing(t.keys, keys, |singles|, c, 0);
    }
  }

  lemma RangeOf(t: Tables, keys: nat, index: nat, ranges: seq<(int, int, Cell)>, c: int)
    requires RangesAt(t, keys, index, ranges) && RangesSorted(t.keys, keys, |ranges|)
    ensures match FindRange(t.keys, keys, |ranges|, c, 0)
      case Some(k) =>
        && k < |ranges| && CellAt(t, index + k, ranges[k].2)
        && forall i: nat :: i < |ranges| ==> (ranges[i].0 <= c <= ranges[i].1 <==> i == k)
      case None => forall i: nat :: i < |ranges| ==> !(ranges[i].0 <= c <= ranges[i].1)
  {
    hide CellAt;
    if k: nat :| k < |ranges| && ranges[k].0 <= c <= ranges[k].1 {
      RangeIs(t.keys, keys, |ranges|, c, 0, k);
      forall i: nat | i < |ranges|
        ensures ranges[i].0 <= c <= ranges[i].1 <==> i == k
      {
        assert Low(t.keys, keys, i) == ranges[i].0 && High(t.keys, keys, i) == ranges[i].1;
        assert Low(t.keys, keys, k) == ranges[k].0 && High(t.keys, keys, k) == ranges[k].1;
      }
    } else {
      RangeMissing(t.keys, keys, |ranges|, c, 0);
    }
  }

  /** Sorted keys and ranges leave no choice. */
  lemma CellForIs(t: Tables, s: nat, row: StateRow, c: int)
    requires IsState(t, s) && StateFits(t, s) && RowAt(t, s, row)
    ensures var base, n := t.keyOffsets[s], |row.singles|;
      CellFor(row, c) ==
        match FindSingle(t.keys, base, n, c, 0)
        case Some(k) => if k < n then row.singles[k].1 else row.other
        case None =>
          match FindRange(t.keys, base + n, |row.ranges|, c, 0)
          case Some(k) => if k < |row.ranges| then row.ranges[k].2 else row.other
          case None => row.other
  {
    hide CellAt;
    SingleOf(t, t.keyOffsets[s], t.indexOffsets[s], row.singles, c);
    RangeOf(t, t.keyOffsets[s] + |row.singles|, t.indexOffsets[s] + |row.singles|, row.ranges, c);
  }

  /** What a list of actions makes of the result: the last one that sets it decides. */
  function After(actions: seq<nat>, result: bool): bool {
    if actions == [] then result
    else
      var n := |actions| - 1;
      if actions[n] == 0 then true else if actions[n] == 1 then false else After(actions[..n], result)
  }

  lemma {:induction false} AfterCons(a: nat, rest: seq<nat>, result: bool)
    ensures After([a] + rest, result) == After(rest, After([a], result))
  {
    if rest == [] {
      assert [a] + rest == [a];
    } else {
      var n := |rest| - 1;
      AfterCons(a, rest[..n], result);
      assert ([a] + rest)[..n + 1] == [a] + rest[..n];
    }
  }

  lemma {:induction false} EffectIsAfter(t: Tables, first: nat, last: nat, result: bool)
    requires first <= last <= |t.actions|
    ensures Effect(t, first, last, result) == After(t.actions[first..last], result)
    decreases last - first
  {
    if first < last {
      var a := t.actions[first];
      assert t.actions[first..last] == [a] + t.actions[first + 1..last];
      AfterCons(a, t.actions[first + 1..last], result);
      assert After([a], result) == if a == 0 then true else if a == 1 then false else result;
      EffectIsAfter(t, first + 1, last, After([a], result));
    }
  }

  lemma ActedIsAfter(t: Tables, tr: nat, cell: Cell, result: bool)
    requires Coherent(t) && CellAt(t, tr, cell)
    ensures Acted(t, tr, result) == After(cell.actions, result)
  {
    var a := t.targetActions[tr];
    if a != 0 {
      EffectIsAfter(t, a + 1, a + 1 + t.actions[a], result);
    }
  }

  /** What the automaton of the rows makes of the input, from state `s` on. */
  ghost function Outcome(rows: map<nat, StateRow>, s: nat, input: seq<int>, result: bool): bool
    decreases |input|
  {
    if s !in rows then result
    else if input == [] then After(rows[s].atEnd.actions, result)
    else
      var cell := CellFor(rows[s], input[0]);
      var result' := After(cell.actions, result);
      if cell.target == ERROR_STATE then result' else Outcome(rows, cell.target, input[1..], result')
  }

  /** The state in which the automaton of the rows ends. */
  ghost function EndsIn(rows: map<nat, StateRow>, s: nat, input: seq<int>): nat
    decreases |input|
  {
    if input == [] || s !in rows then s
    else
      var next := CellFor(rows[s], input[0]).target;
      if next == ERROR_STATE then ERROR_STATE else EndsIn(rows, next, input[1..])
  }

  /** The tables in which an automaton is laid out run that automaton. */
  lemma {:induction false} LayoutRuns(t: Tables, rows: map<nat, StateRow>, s: nat, input: seq<int>, result: bool)
    requires Coherent(t) && LaidOut(t, rows) && IsState(t, s)
    ensures Interpreted(t, s, input, result) == Outcome(rows, s, input, result)
    ensures RunFrom(t, s, input) == EndsIn(rows, s, input)
    decreases |input|
  {
    hide Coherent, Transition, Acted, CellFor, After;
    assert StateFits(t, s) && RowAt(t, s, rows[s]);
    if input == [] {
      ActedIsAfter(t, t.eofTransitions[s] - 1, rows[s].atEnd, result);
    } else {
      var tr, cell := Transition(t, s, input[0]), CellFor(rows[s], input[0]);
      TransitionHasCell(t, s, rows[s], input[0]);
      ActedIsAfter(t, tr, cell, result);
      if t.targets[tr] != ERROR_STATE {
        TargetIsState(t, tr);
        LayoutRuns(t, rows, t.targets[tr], input[1..], Acted(t, tr, result));
      }
    }
  }

  /** The rows that can be read off any coherent tables. */
  function CellOf(t: Tables, tr: nat): (cell: Cell)
    requires tr < |t.targets| == |t.targetActions| && ActionFits(t, t.targetActions[tr])
    ensures CellAt(t, tr, cell)
  {
    var a := t.targetActions[tr];
    Cell(t.targets[tr], if a == 0 then [] else t.actions[a + 1..a + 1 + t.actions[a]])
  }

  function SinglesOf(t: Tables, keys: nat, index: nat, n: nat): (r: seq<(int, Cell)>)
    requires keys + n <= |t.keys| && index + n <= |t.targets| == |t.targetActions|
    requires forall tr :: 0 <= tr < |t.targets| ==> ActionFits(t, t.targetActions[tr])
    ensures |r| == n && SinglesAt(t, keys, index, r)
  {
    hide CellAt;
    seq(n, i requires 0 <= i < n => (Key(t.keys, keys, i), CellOf(t, index + i)))
  }

  function RangesOf(t: Tables, keys: nat, index: nat, m: nat): (r: seq<(int, int, Cell)>)
    requires keys + 2 * m <= |t.keys| && index + m <= |t.targets| == |t.targetActions|
    requires forall tr :: 0 <= tr < |t.targets| ==> ActionFits(t, t.targetActions[tr])
    ensures |r| == m && RangesAt(t, keys, index, r)
  {
    hide CellAt;
    seq(m, i requires 0 <= i < m => (Low(t.keys, keys, i), High(t.keys, keys, i), CellOf(t, index + i)))
  }

  ghost function RowOf(t: Tables, s: nat): (row: StateRow)
    requires Coherent(t) && IsState(t, s)
    ensures StateFits(t, s) && RowAt(t, s, row)
  {
    hide Coherent, CellAt, SinglesAt, RangesAt, ActionFits, SinglesSorted, RangesSorted;
    Fits(t);
    assert StateFits(t, s);
    AllCells(t);
    var n, m, keys, index := t.singleLengths[s], t.rangeLengths[s], t.keyOffsets[s], t.indexOffsets[s];
    StateRow(SinglesOf(t, keys, index, n), RangesOf(t, keys + n, index + n, m), CellOf(t, index + n + m),
             CellOf(t, t.eofTransitions[s] - 1))
  }

  lemma AllCells(t: Tables)
    requires Coherent(t)
    ensures |t.targets| == |t.targetActions|
    ensures forall tr :: 0 <= tr < |t.targets| ==> ActionFits(t, t.targetActions[tr])
  {
  }

  /** All coherent tables are the layout of an automaton. */
  lemma EveryTableIsLayout(t: Tables) returns (rows: map<nat, StateRow>)
    requires Coherent(t)
    ensures LaidOut(t, rows)
  {
    hide Coherent, RowAt, StateFits;
    rows := map s: nat | s < t.states && IsState(t, s) :: RowOf(t, s);
    forall s: nat | IsState(t, s)
      ensures StateFits(t, s) && s in rows && RowAt(t, s, rows[s])
    {
      assert rows[s] == RowOf(t, s);
    }
  }

  // --------------------------------------------------------------- an instance

  /**
   The automaton of the single word "a", in the layout that the generator uses: states 1 and 2,
   a padded entry after them, the transition that ends the input of each state at the end.
   */
  const OneLetter := Tables(
    3,
    [0, 0, 1, 1], [0, 1, 0, 0], [0, 0, 0, 0], [0, 0, 2, 0],
    ['a' as int],
    [2, 0, 0, 1, 2], [1, 3, 3, 3, 0],
    [0, 1, 0, 1, 1],
    [0, 4, 5, 0],
    1, 2)

  lemma OneLetterCoherent()
    ensures Coherent(OneLetter)
  {
    forall s: nat | IsState(OneLetter, s)
      ensures StateFits(OneLetter, s)
    {
      assert s == 1 || s == 2;
    }
  }

  /** The hypotheses can be met: the tables record finality, and recognise the word and nothing else. */
  lemma OneLetterRecords(input: seq<int>)
    ensures Coherent(OneLetter) && ActionsRecordFinality(OneLetter)
    ensures Recognises(OneLetter, input) <==> input == ['a' as int]
  {
    hide Transition, Acted;
    OneLetterCoherent();
    OneLetterTransitions();
    OneLetterActions();
    OneLetterRuns(input);
  }

  lemma OneLetterTransitions()
    requires Coherent(OneLetter)
    ensures forall c :: Transition(OneLetter, 1, c) == if c == 'a' as int then 0 else 1
    ensures forall c :: Transition(OneLetter, 2, c) == 2
  {
  }

  lemma OneLetterActions()
    requires Coherent(OneLetter)
    ensures forall result :: Acted(OneLetter, 0, result) && !Acted(OneLetter, 1, result) && !Acted(OneLetter, 2, result)
    ensures forall result :: !Acted(OneLetter, 3, result) && Acted(OneLetter, 4, result) == result
  {
    forall result
      ensures Effect(OneLetter, 2, 3, result) && !Effect(OneLetter, 4, 5, result)
    {
      assert Effect(OneLetter, 2, 3, result) == Effect(OneLetter, 3, 3, true);
      assert Effect(OneLetter, 4, 5, result) == Effect(OneLetter, 5, 5, false);
    }
  }

  lemma OneLetterRuns(input: seq<int>)
    requires Coherent(OneLetter)
    ensures RunFrom(OneLetter, 1, input) >= 2 <==> input == ['a' as int]
  {
    hide Coherent, Transition;
    OneLetterTransitions();
    if input != [] && input[0] == 'a' as int {
      var rest := input[1..];
      assert input == [input[0]] + rest;
      assert rest != [] ==> RunFrom(OneLetter, 2, rest) == ERROR_STATE;
      assert RunFrom(OneLetter, 1, input) == RunFrom(OneLetter, 2, rest);
    }
  }
}
