/**
 The candidate elimination of a chunk as the object its thread works on: the start
 process is called until it returns DONE, one row a call, with the first positive row
 compared once before all others.
 */
module Candidates {
  import opened Hypotheses

  datatype JobStatus = JOB_PENDING | JOB_DONE

  /** What a chunk reports. */
  datatype ChunkResult = ChunkResult(s: seq<string>, g: seq<string>, totalPositives: int, totalNegatives: int)

  /** The row of a file; past the end there is none. */
  function RowAt(file: seq<Row>, i: nat): Row {
    if i < |file| then file[i] else []
  }

  /** The rows from `first` to `last` that have the right number of values. */
  function ChunkRows(t: Target, file: seq<Row>, first: nat, last: int): (rows: seq<Row>)
    ensures WellSized(t, rows)
    decreases last - first
  {
    if last < first then []
    else if |RowAt(file, last)| == t.columns + 1 then ChunkRows(t, file, first, last - 1) + [RowAt(file, last)]
    else ChunkRows(t, file, first, last - 1)
  }

  /** The rows of a file whose rows all have the right number of values are those between the two places. */
  lemma {:induction false} ChunkRowsAre(t: Target, file: seq<Row>, first: nat, last: int)
    requires first <= last + 1 && last < |file| && WellSized(t, file)
    ensures ChunkRows(t, file, first, last) == file[first..last + 1]
    decreases last + 1 - first
  {
    if first <= last {
      ChunkRowsAre(t, file, first, last - 1);
    }
  }

  /** Of all rows those between the two places that have the right number of values. */
  lemma {:induction false} ChunkRowsHold(t: Target, file: seq<Row>, first: nat, last: int, row: Row)
    ensures row in ChunkRows(t, file, first, last) <==>
      |row| == t.columns + 1 && exists i: nat :: first <= i <= last && i < |file| && file[i] == row
    decreases last + 1 - first
  {
    if first <= last {
      ChunkRowsHold(t, file, first, last - 1, row);
    }
  }

  /** The index of the first positive row; `|rows|` if there is none. */
  function FirstPositive(t: Target, rows: seq<Row>): (k: nat)
    requires WellSized(t, rows)
    ensures k <= |rows|
    ensures k < |rows| ==> IsPositive(t, rows, k)
    ensures forall j :: 0 <= j < k ==> !IsPositive(t, rows, j)
  {
    if rows == [] then 0
    else
      var n := |rows| - 1;
      var k := FirstPositive(t, rows[..n]);
      assert forall j: nat :: j < n ==> (IsPositive(t, rows, j) <==> IsPositive(t, rows[..n], j));
      if k < n || IsPositive(t, rows, n) then k else n + 1
  }

  /** Without a positive row the chunk is not read. */
  function ChunkVectors(t: Target, rows: seq<Row>): (v: Vectors)
    requires WellSized(t, rows)
    ensures Sized(t, v)
  {
    var k := FirstPositive(t, rows);
    if k == |rows| then Initial(t) else Pass(t, Compared(t, Initial(t), rows[k]), rows)
  }

  class CandidateElimination {
    const t: Target
    const file: seq<Row>
    var s: seq<string>
    var g: seq<string>
    var totalPositives: int
    var totalNegatives: int
    var start: nat
    const end: int
    var startSet: bool
    const first: nat

    constructor (t: Target, file: seq<Row>, start: nat, end: int)
      ensures this.t == t && this.file == file && first == start && this.start == start && this.end == end
      ensures !startSet && Now() == Initial(t) && Valid()
    {
      this.t, this.file, this.first, this.start, this.end := t, file, start, start, end;
      s, g := seq(t.columns, i => NOTHING), seq(t.columns, i => NOTHING);
      totalPositives, totalNegatives := 0, 0;
      startSet := false;
    }

    function Now(): Vectors
      reads this
    {
      Vectors(s, g, totalPositives, totalNegatives)
    }

    method Compare(valueList: Row)
      requires Sized(t, Now()) && |valueList| == t.columns + 1
      modifies `s, `g, `totalPositives, `totalNegatives
      ensures Now() == Compared(t, old(Now()), valueList)
    {
      hide IEquals;
      var n := t.columns;
      if IEquals(valueList[n], t.confirmValue) {
        totalPositives := totalPositives + 1;
        for i := 0 to n
          invariant |s| == |g| == n && totalPositives == old(totalPositives) + 1
              && totalNegatives == old(totalNegatives)
          invariant forall k :: i <= k < n ==> s[k] == old(s)[k] && g[k] == old(g)[k]
          invariant forall k :: 0 <= k < i ==> s[k] == SpecificCell(old(s)[k], valueList[k], true)
          invariant forall k :: 0 <= k < i ==> g[k] == GeneralCell(old(s)[k], old(g)[k], valueList[k], true)
        {
          if s[i] == NOTHING {
            s := s[i := valueList[i]];
          } else if !IEquals(s[i], valueList[i]) {
            s := s[i := ANYTHING];
            g := g[i := ANYTHING];
          }
        }
      } else {
        totalNegatives := totalNegatives + 1;
        for i := 0 to n
          invariant |g| == n && s == old(s) && totalPositives == old(totalPositives)
              && totalNegatives == old(totalNegatives) + 1
          invariant forall k :: i <= k < n ==> g[k] == old(g)[k]
          invariant forall k :: 0 <= k < i ==> g[k] == GeneralCell(old(s)[k], old(g)[k], valueList[k], false)
        {
          if !IEquals(s[i], valueList[i]) && !IEquals(g[i], ANYTHING) {
            g := g[i := s[i]];
          } else {
            g := g[i := ANYTHING];
          }
        }
        assert s == Compared(t, old(Now()), valueList).s;
      }
    }

    /** The next row of the chunk; -1 past its end. */
    method GetNextRow() returns (row: int)
      modifies `start
      ensures old(start) <= end ==> row == old(start) && start == old(start) + 1
      ensures old(start) > end ==> row == -1 && start == old(start)
    {
      if start <= end {
        row := start;
        start := start + 1;
      } else {
        row := -1;
      }
    }

    method GetFirstPositive() returns (row: Row)
      ensures var rows := ChunkRows(t, file, start, end);
        var k := FirstPositive(t, rows);
        row == if k == |rows| then [] else rows[k]
    {
      hide IEquals, ChunkRows, FirstPositive;
      var startRow := start;
      NoRows(t, file, start);
      while startRow <= end
        invariant start <= startRow
        invariant startRow <= end + 1 || startRow == start
        invariant var rows := ChunkRows(t, file, start, startRow - 1);
          FirstPositive(t, rows) == |rows|
        decreases end - startRow
      {
        var field := RowAt(file, startRow);
        startRow := startRow + 1;
        RowsSnoc(t, file, start, startRow - 1);
        if |field| == t.columns + 1 {
          FirstSnoc(t, ChunkRows(t, file, start, startRow - 2), field);
          if IEquals(field[t.columns], t.confirmValue) {
            FirstStays(t, file, start, startRow - 1, end);
            return field;
          }
        }
      }
      row := [];
    }

    ghost predicate Valid()
      reads this
    {
      && Sized(t, Now())
      && first <= start && (start <= end + 1 || start == first)
      && var rows := ChunkRows(t, file, first, end);
         var k := FirstPositive(t, rows);
         if !startSet then start == first && Now() == Initial(t)
         else k < |rows| && Now() == Pass(t, Compared(t, Initial(t), rows[k]), ChunkRows(t, file, first, start - 1))
    }

    /** One call of the start process. */
    method StartProcess() returns (status: JobStatus)
      requires Valid()
      modifies `s, `g, `totalPositives, `totalNegatives, `start, `startSet
      ensures Valid()
      ensures status == JOB_DONE ==> Now() == ChunkVectors(t, ChunkRows(t, file, first, end))
      ensures status == JOB_PENDING ==> startSet && (if old(startSet) then start == old(start) + 1 <= end + 1
          else start == old(start))
    {
      hide Compared, IEquals;
      if !startSet {
        var seed := GetFirstPositive();
        if seed == [] {
          return JOB_DONE;
        }
        Compare(seed);
        startSet := true;
        return JOB_PENDING;
      }
      var rowIndex := GetNextRow();
      if rowIndex < 0 {
        return JOB_DONE;
      }
      var field := RowAt(file, rowIndex);
      if |field| == t.columns + 1 {
        Compare(field);
      }
      status := JOB_PENDING;
    }

    /** The calls that the thread makes, and the result that the end process reports. */
    method Run() returns (result: ChunkResult)
      requires Valid() && !startSet
      modifies `s, `g, `totalPositives, `totalNegatives, `start, `startSet
      ensures result == Reported(t, ChunkRows(t, file, first, end))
    {
      var status := StartProcess();
      while status == JOB_PENDING
        invariant Valid()
        invariant status == JOB_PENDING ==> startSet
        invariant status == JOB_DONE ==> Now() == ChunkVectors(t, ChunkRows(t, file, first, end))
        decreases status == JOB_PENDING, end + 1 - start
      {
        status := StartProcess();
      }
      result := ChunkResult(s, g, totalPositives - 1, totalNegatives);
    }
  }

  function Reported(t: Target, rows: seq<Row>): (r: ChunkResult)
    requires WellSized(t, rows)
    ensures |r.s| == |r.g| == t.columns
  {
    var v := ChunkVectors(t, rows);
    ChunkResult(v.s, v.g, v.positives - 1, v.negatives)
  }

  lemma NoRows(t: Target, file: seq<Row>, first: nat)
    ensures ChunkRows(t, file, first, first - 1) == [] && FirstPositive(t, []) == 0
    ensures forall last :: last < first ==> ChunkRows(t, file, first, last) == []
  {
  }

  /** One more row number. */
  lemma RowsSnoc(t: Target, file: seq<Row>, first: nat, last: nat)
    requires first <= last
    ensures ChunkRows(t, file, first, last) ==
      if |RowAt(file, last)| == t.columns + 1 then ChunkRows(t, file, first, last - 1) + [RowAt(file, last)]
      else ChunkRows(t, file, first, last - 1)
  {
    hide RowAt;
  }

  lemma FirstSnoc(t: Target, rows: seq<Row>, row: Row)
    requires WellSized(t, rows) && |row| == t.columns + 1
    ensures FirstPositive(t, rows + [row])
      == if FirstPositive(t, rows) < |rows| || Positive(t, row) then FirstPositive(t, rows) else |rows| + 1
  {
    assert (rows + [row])[..|rows|] == rows;
  }

  /** Later rows do not change which positive row is the first. */
  lemma {:induction false} FirstStays(t: Target, file: seq<Row>, first: nat, last: int, end: int)
    requires last <= end
    requires var rows := ChunkRows(t, file, first, last); FirstPositive(t, rows) < |rows|
    ensures var rows, all := ChunkRows(t, file, first, last), ChunkRows(t, file, first, end);
      FirstPositive(t, all) == FirstPositive(t, rows) < |all|
          && all[FirstPositive(t, all)] == rows[FirstPositive(t, rows)]
    decreases end - last
  {
    if last < end {
      FirstStays(t, file, first, last, end - 1);
      var before := ChunkRows(t, file, first, end - 1);
      if first <= end && |RowAt(file, end)| == t.columns + 1 {
        FirstSnoc(t, before, RowAt(file, end));
      }
    }
  }
}
