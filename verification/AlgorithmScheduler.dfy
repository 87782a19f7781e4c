/**
 The split of a table over the threads, and the barrier that schedules one final
 stage when all parts have reported.
 */
module AlgorithmScheduler {
  import opened Hypotheses
  import opened Candidates
  import opened Aggregation

  /** A scheduled stage: a range of rows, or the aggregation of results. */
  datatype Stage =
    | Chunk(table: string, first: nat, last: nat)
    | Finalize(table: string, results: seq<ChunkResult>)

  datatype ReturnCode = EXIT_SUCCESS | EXIT_FAILURE

  // -------------------------------------------------------------------- the split

  /** The first row of part `i` of `n`, counted from 0; part `n` would start after the last row. */
  function PartStart(rows: nat, n: nat, i: nat): nat
    requires 0 < n && i <= n
  {
    if i == n then rows + 1 else rows / n * i + 1
  }

  function Parts(table: string, rows: nat, n: nat, k: nat): (r: seq<Stage>)
    requires 0 < n && k <= n
    ensures |r| == k
    ensures forall i: nat :: i < k ==> r[i] == Part(table, rows, n, i)
  {
    seq(k, i requires 0 <= i < k => Part(table, rows, n, i))
  }

  function Part(table: string, rows: nat, n: nat, i: nat): Stage
    requires 0 < n && i < n
  {
    var last := PartStart(rows, n, i + 1) - 1;
    Chunk(table, PartStart(rows, n, i), last)
  }

  /** The number of rows of a chunk. */
  function Size(stage: Stage): int
    requires stage.Chunk?
  {
    stage.last - stage.first + 1
  }

  /** Every chunk but the last has an equal share; the last one has the remainder as well; they follow one another. */
  lemma EqualShares(table: string, rows: nat, n: nat)
    requires 0 < n
    ensures var parts := Parts(table, rows, n, n);
      && |parts| == n
      && (forall i: nat :: i < n ==> parts[i].Chunk? && parts[i].table == table)
      && (forall i: nat :: i < n - 1 ==> Size(parts[i]) == rows / n)
      && Size(parts[n - 1]) == rows / n + rows % n
      && parts[0].first == 1 && parts[n - 1].last == rows
      && forall i: nat :: i < n - 1 ==> parts[i + 1].first == parts[i].last + 1
  {
    var q := rows / n;
    assert rows == q * n + rows % n;
    assert q * n == q * (n - 1) + q;
    forall i: nat | i < n - 1
      ensures q * (i + 1) == q * i + q
    {
    }
  }

  lemma PartsOrdered(rows: nat, n: nat, i: nat)
    requires 0 < n && i < n
    ensures 1 <= PartStart(rows, n, i) <= PartStart(rows, n, i + 1) <= rows + 1
    ensures PartStart(rows, n, 0) == 1
  {
    var q := rows / n;
    Below(q, i, i + 1);
    Below(q, i + 1, n);
    assert q * n <= rows;
  }

  lemma LastPart(rows: nat, n: nat)
    requires 0 < n
    ensures PartStart(rows, n, n) == rows + 1
  {
  }

  lemma Below(q: nat, a: nat, b: nat)
    requires a <= b
    ensures 0 <= q * a <= q * b
  {
  }

  /** Every row from 1 to `rows` belongs to exactly one part. */
  lemma EveryRowOnce(table: string, rows: nat, n: nat, row: nat)
    requires 0 < n && 1 <= row <= rows
    ensures exists i: nat :: i < n && PartStart(rows, n, i) <= row < PartStart(rows, n, i + 1)
    ensures forall i: nat, k: nat ::
      i < k < n && PartStart(rows, n, i) <= row < PartStart(rows, n, i + 1) ==> !(PartStart(rows, n, k) <= row)
  {
    FindPart(rows, n, row, n);
    forall i: nat, k: nat | i < k < n && PartStart(rows, n, i) <= row < PartStart(rows, n, i + 1)
      ensures !(PartStart(rows, n, k) <= row)
    {
      Below(rows / n, i + 1, k);
    }
  }

  lemma {:induction false} FindPart(rows: nat, n: nat, row: nat, m: nat)
    requires 0 < m <= n && 1 <= row < PartStart(rows, n, m)
    ensures exists i: nat :: i < m && PartStart(rows, n, i) <= row < PartStart(rows, n, i + 1)
  {
    if PartStart(rows, n, m - 1) > row {
      FindPart(rows, n, row, m - 1);
    } else {
      assert PartStart(rows, n, m - 1) <= row < PartStart(rows, n, m - 1 + 1);
    }
  }

  function RowsOfPart(t: Target, file: seq<Row>, rows: nat, n: nat, i: nat): (r: seq<Row>)
    requires 0 < n && i < n
    ensures WellSized(t, r)
  {
    var last := PartStart(rows, n, i + 1) - 1;
    ChunkRows(t, file, PartStart(rows, n, i), last)
  }

  /** The rows of the first `k` parts. */
  function PartRows(t: Target, file: seq<Row>, rows: nat, n: nat, k: nat): (chunks: seq<seq<Row>>)
    requires 0 < n && k <= n
    ensures |chunks| == k && ChunksSized(t, chunks)
    ensures forall i: nat :: i < k ==> chunks[i] == RowsOfPart(t, file, rows, n, i)
  {
    seq(k, i requires 0 <= i < k => RowsOfPart(t, file, rows, n, i))
  }

  lemma {:induction false} RangesConcat(t: Target, file: seq<Row>, first: nat, middle: nat, last: int)
    requires first <= middle <= last + 1
    ensures ChunkRows(t, file, first, middle - 1) + ChunkRows(t, file, middle, last) == ChunkRows(t, file, first, last)
    decreases last + 1 - middle
  {
    if middle <= last {
      RangesConcat(t, file, first, middle, last - 1);
    }
  }

  /** The rows of all parts together are the rows of the table, in order. */
  lemma {:induction false} PartsConcat(t: Target, file: seq<Row>, rows: nat, n: nat, k: nat)
    requires 0 < n && k <= n
    ensures Concat(t, PartRows(t, file, rows, n, k)) == ChunkRows(t, file, 1, PartStart(rows, n, k) - 1)
  {
    hide PartStart, PartRows, ChunkRows, Concat, RowsOfPart;
    PartsOrdered(rows, n, if k > 0 then k - 1 else 0);
    if k > 0 {
      PartsConcat(t, file, rows, n, k - 1);
      OnePart(t, file, rows, n, k);
      RangesConcat(t, file, 1, PartStart(rows, n, k - 1), PartStart(rows, n, k) - 1);
    } else {
      NoRows(t, file);
    }
  }

  lemma OnePart(t: Target, file: seq<Row>, rows: nat, n: nat, k: nat)
    requires 0 < k <= n
    ensures Concat(t, PartRows(t, file, rows, n, k))
      == Concat(t, PartRows(t, file, rows, n, k - 1)) + ChunkRows(t, file, PartStart(rows, n, k - 1),
          PartStart(rows, n, k) - 1)
  {
    hide PartStart, ChunkRows;
    assert PartRows(t, file, rows, n, k)[..k - 1] == PartRows(t, file, rows, n, k - 1);
  }

  lemma NoRows(t: Target, file: seq<Row>)
    ensures Concat(t, []) == [] == ChunkRows(t, file, 1, 0)
    ensures forall rows: nat, n: nat :: 0 < n ==> PartRows(t, file, rows, n, 0) == []
  {
  }

  // ------------------------------------------------------------------- the barrier

  datatype Tracking = Tracking(waiting: map<string, seq<ChunkResult>>, stages: seq<Stage>)

  datatype Update = Update(table: string, result: ChunkResult)

  function Updated(tr: Tracking, threads: nat, u: Update): Tracking {
    if u.table == "" || u.table !in tr.waiting then tr
    else
      var results := tr.waiting[u.table] + [u.result];
      if |results| == threads then
        Tracking(tr.waiting - {u.table}, tr.stages + [Finalize(u.table, results)])
      else tr.(waiting := tr.waiting[u.table := results])
  }

  function AllUpdated(tr: Tracking, threads: nat, updates: seq<Update>): Tracking
    decreases |updates|
  {
    if updates == [] then tr else AllUpdated(Updated(tr, threads, updates[0]), threads, updates[1..])
  }

  /** The results for one table, in the order of arrival. */
  function ResultsFor(updates: seq<Update>, table: string): seq<ChunkResult>
    decreases |updates|
  {
    if updates == [] then []
    else (if updates[0].table == table then [updates[0].result] else []) + ResultsFor(updates[1..], table)
  }

  /** The results with which the final stage of a table was scheduled, once for each time. */
  function FinalStages(stages: seq<Stage>, table: string): seq<seq<ChunkResult>> {
    if stages == [] then []
    else
      FinalStages(stages[..|stages| - 1], table)
      + (if stages[|stages| - 1].Finalize? && stages[|stages| - 1].table == table then [stages[|stages| - 1].results]
          else [])
  }

  lemma {:induction false} NoLongerWaiting(tr: Tracking, threads: nat, updates: seq<Update>, table: string)
    requires table !in tr.waiting
    ensures var tr' := AllUpdated(tr, threads, updates);
      table !in tr'.waiting && FinalStages(tr'.stages, table) == FinalStages(tr.stages, table)
    decreases |updates|
  {
    if updates != [] {
      var tr' := Updated(tr, threads, updates[0]);
      OtherStage(tr, threads, updates[0], table);
      NoLongerWaiting(tr', threads, updates[1..], table);
    }
  }

  lemma OtherStage(tr: Tracking, threads: nat, u: Update, table: string)
    requires table !in tr.waiting || u.table != table
    ensures FinalStages(Updated(tr, threads, u).stages, table) == FinalStages(tr.stages, table)
  {
    var stages := Updated(tr, threads, u).stages;
    if stages != tr.stages {
      assert stages[..|stages| - 1] == tr.stages;
    }
  }

  /**
     However the updates of several tables interleave, the final stage of a table is scheduled
     with its first `threads` results, once they are there, and never again.
   */
  lemma {:induction false} ScheduledOnce(tr: Tracking, threads: nat, updates: seq<Update>, table: string)
    requires table != "" && table in tr.waiting && |tr.waiting[table]| < threads
    ensures var tr' := AllUpdated(tr, threads, updates);
      var all := tr.waiting[table] + ResultsFor(updates, table);
      if |all| < threads then
        table in tr'.waiting && tr'.waiting[table] == all
            && FinalStages(tr'.stages, table) == FinalStages(tr.stages, table)
      else
        table !in tr'.waiting && FinalStages(tr'.stages, table) == FinalStages(tr.stages, table) + [all[..threads]]
    decreases |updates|
  {
    hide Updated, FinalStages;
    if updates != [] {
      var u, results := updates[0], tr.waiting[table];
      var tr' := Updated(tr, threads, u);
      var rest := ResultsFor(updates[1..], table);
      OneUpdate(tr, threads, u, table);
      if u.table != table {
        assert ResultsFor(updates, table) == rest;
        ScheduledOnce(tr', threads, updates[1..], table);
      } else {
        var more := results + [u.result];
        assert results + ResultsFor(updates, table) == more + rest;
        if |results| + 1 == threads {
          assert (more + rest)[..threads] == more;
          NoLongerWaiting(tr', threads, updates[1..], table);
        } else {
          ScheduledOnce(tr', threads, updates[1..], table);
        }
      }
    }
  }

  lemma OneUpdate(tr: Tracking, threads: nat, u: Update, table: string)
    requires table != "" && table in tr.waiting && |tr.waiting[table]| < threads
    ensures var tr', more := Updated(tr, threads, u), tr.waiting[table] + [u.result];
      if u.table == table && |more| == threads then
        table !in tr'.waiting && FinalStages(tr'.stages, table) == FinalStages(tr.stages, table) + [more]
      else
        && table in tr'.waiting && FinalStages(tr'.stages, table) == FinalStages(tr.stages, table)
        && tr'.waiting[table] == if u.table == table then more else tr.waiting[table]
  {
    var tr' := Updated(tr, threads, u);
    if u.table != table {
      OtherStage(tr, threads, u, table);
    } else if |tr.waiting[table]| + 1 == threads {
      assert tr'.stages[..|tr'.stages| - 1] == tr.stages;
    }
  }

  // ------------------------------------------------------------------ the two calls

  class AlgorithmQueue {
    const totalThreads: nat
    var algorithmResultMap: map<string, seq<ChunkResult>>
    var scheduled: seq<Stage>

    constructor (totalThreads: nat)
      ensures this.totalThreads == totalThreads && algorithmResultMap == map[] && scheduled == []
    {
      this.totalThreads, algorithmResultMap, scheduled := totalThreads, map[], [];
    }

    function Now(): Tracking
      reads this
    {
      Tracking(algorithmResultMap, scheduled)
    }

    /** Splits the rows; a table that is already tracked keeps its entry. */
    method SchedAlgo(table: string, rows: nat) returns (code: ReturnCode)
      requires totalThreads > 0
      modifies this
      ensures code == EXIT_SUCCESS
      ensures scheduled == old(scheduled) + Parts(table, rows, totalThreads, totalThreads)
      ensures algorithmResultMap == if table in old(algorithmResultMap) then old(algorithmResultMap)
          else old(algorithmResultMap)[table := []]
    {
      var endRowNumber := rows / totalThreads;
      var startRowNumber := 1;
      if table !in algorithmResultMap {
        algorithmResultMap := algorithmResultMap[table := []];
      }
      ghost var tracked := algorithmResultMap;
      for i := 1 to totalThreads
        invariant algorithmResultMap == tracked
        invariant startRowNumber == PartStart(rows, totalThreads, i - 1)
        invariant scheduled == old(scheduled) + Parts(table, rows, totalThreads, i - 1)
      {
        var last := endRowNumber * i;
        ghost var parts := Parts(table, rows, totalThreads, i - 1);
        scheduled := scheduled + [Chunk(table, startRowNumber, last)];
        assert Parts(table, rows, totalThreads, i) == parts + [Chunk(table, startRowNumber, last)];
        startRowNumber := last + 1;
      }
      ghost var parts := Parts(table, rows, totalThreads, totalThreads - 1);
      scheduled := scheduled + [Chunk(table, startRowNumber, rows)];
      assert Parts(table, rows, totalThreads, totalThreads) == parts + [Chunk(table, startRowNumber, rows)];
      code := EXIT_SUCCESS;
    }

    method UpdateAlgoResult(table: string, result: ChunkResult) returns (code: ReturnCode)
      modifies this
      ensures Now() == Updated(old(Now()), totalThreads, Update(table, result))
      ensures code == EXIT_FAILURE <==> table == "" || table !in old(algorithmResultMap)
    {
      if table == "" {
        return EXIT_FAILURE;
      }
      if table in algorithmResultMap {
        var results := algorithmResultMap[table] + [result];
        algorithmResultMap := algorithmResultMap[table := results];
        if |results| == totalThreads {
          scheduled := scheduled + [Finalize(table, results)];
          algorithmResultMap := algorithmResultMap - {table};
          assert algorithmResultMap == old(algorithmResultMap) - {table};
        }
        return EXIT_SUCCESS;
      }
      code := EXIT_FAILURE;
    }
  }

  // ------------------------------------------------------------------- end to end

  /**
     A table split over any number of threads: when all parts have reported, in any order and
     among updates of other tables, exactly one final stage is scheduled.  Its S is that of a
     single pass over all rows exactly under the condition of the merge, its positives exactly if
     every part has a positive row or there is only one part, and its negatives exactly if no part
     has one or those without hold no rows.
   */
  lemma SplitIsOnePass(t: Target, file: seq<Row>, rows: nat, threads: nat, tr: Tracking, updates: seq<Update>,
                       table: string,
                       arrived: seq<seq<Row>>)
    requires threads > 0 && t.columns > 0
    requires table != "" && table in tr.waiting && tr.waiting[table] == []
    requires ArrivalOf(PartRows(t, file, rows, threads, threads), arrived) && ChunksSized(t, arrived)
    requires ResultsFor(updates, table) == Reports(t, arrived)
    ensures var tr', results := AllUpdated(tr, threads, updates), Reports(t, arrived);
      && table !in tr'.waiting
      && FinalStages(tr'.stages, table) == FinalStages(tr.stages, table) + [results]
    ensures var m, one := Merged(Reports(t, arrived), t.columns), Reported(t, ChunkRows(t, file, 1, rows));
      var parts := PartRows(t, file, rows, threads, threads);
      && (EachUnmarked(t, parts) ==> (m.s == one.s <==> MergesExactly(t, arrived)))
      && (m.positives == one.totalPositives <==> EachPositive(t, parts) || threads == 1)
      && (m.negatives == one.totalNegatives <==>
          NoPositives(t, parts) || forall c :: 0 <= c < threads && !HasPositive(t, parts[c]) ==> parts[c] == [])
  {
    hide Reported, Merged, Updated, AllUpdated, FinalStages, ResultsFor, HasPositive, PartStart, PartRows,
        EachUnmarked, MergesExactly,
      EachPositive;
    var parts, results := PartRows(t, file, rows, threads, threads), Reports(t, arrived);
    ArrivalMembers(t, parts, arrived);
    ScheduledOnce(tr, threads, updates, table);
    assert [] + results == results && results[..threads] == results;
    PartsConcat(t, file, rows, threads, threads);
    LastPart(rows, threads);
    TotalsAreOnePassIff(t, parts, arrived);
    if EachUnmarked(t, parts) {
      MergedIsOnePassIff(t, parts, arrived);
    }
  }
}
