/**
 The aggregation of the chunk results, in the order in which they arrive.  Cells are
 compared exactly here, while the chunks ignore letter case.
 */
module Aggregation {
  import opened Hypotheses
  import opened Candidates

  /** What the aggregation has built; it starts to merge after the first result that is not empty. */
  datatype Merging = Merging(s: seq<string>, g: seq<string>, positives: int, negatives: int, started: bool)

  predicate Wide(results: seq<ChunkResult>, columns: nat) {
    columns > 0 && forall k :: 0 <= k < |results| ==> |results[k].s| == |results[k].g| == columns
  }

  function MergeCell(cell: string, other: string): string {
    if other != cell then ANYTHING else cell
  }

  function MergeVector(v: seq<string>, w: seq<string>): (r: seq<string>)
    requires |v| == |w|
    ensures |r| == |v| && forall j :: 0 <= j < |r| ==> r[j] == MergeCell(v[j], w[j])
  {
    seq(|v|, j requires 0 <= j < |v| => MergeCell(v[j], w[j]))
  }

  function Merged(results: seq<ChunkResult>, columns: nat): (m: Merging)
    requires Wide(results, columns)
    ensures results != [] ==> |m.s| == |m.g| == columns
    ensures m.started ==> results != []
  {
    if results == [] then Merging([], [], 0, 0, false)
    else
      var n := |results| - 1;
      var m, res := Merged(results[..n], columns), results[n];
      if m.started then
        Merging(MergeVector(m.s, res.s), MergeVector(m.g, res.g), m.positives + res.totalPositives,
            m.negatives + res.totalNegatives, true)
      else
        Merging(res.s, res.g, m.positives + res.totalPositives, m.negatives + res.totalNegatives, res.s[0] != NOTHING)
  }

  class CeFinalize {
    const resultVectors: seq<ChunkResult>
    const columns: nat
    var s: seq<string>
    var g: seq<string>
    var totalPositives: int
    var totalNegatives: int

    constructor (resultVectors: seq<ChunkResult>, columns: nat)
      ensures this.resultVectors == resultVectors && this.columns == columns
      ensures s == [] && g == [] && totalPositives == 0 && totalNegatives == 0
    {
      this.resultVectors, this.columns := resultVectors, columns;
      s, g, totalPositives, totalNegatives := [], [], 0, 0;
    }

    method AggregateResults()
      requires Wide(resultVectors, columns) && s == [] && g == [] && totalPositives == 0 && totalNegatives == 0
      modifies this
      ensures var m := Merged(resultVectors, columns);
        s == m.s && g == m.g && totalPositives == m.positives && totalNegatives == m.negatives
    {
      var start := false;
      for i := 0 to |resultVectors|
        invariant Merged(resultVectors[..i], columns) == Merging(s, g, totalPositives, totalNegatives, start)
      {
        ghost var m := Merged(resultVectors[..i], columns);
        assert resultVectors[..i + 1][..i] == resultVectors[..i];
        var res := resultVectors[i];
        totalPositives := totalPositives + res.totalPositives;
        totalNegatives := totalNegatives + res.totalNegatives;
        if !start {
          s, g := res.s, res.g;
          if s[0] != NOTHING {
            start := true;
          }
        } else {
          MergeInto(res);
        }
      }
      assert resultVectors[..|resultVectors|] == resultVectors;
    }

    method MergeInto(res: ChunkResult)
      requires |s| == |g| == |res.s| == |res.g|
      modifies `s, `g
      ensures s == MergeVector(old(s), res.s) && g == MergeVector(old(g), res.g)
    {
      for j := 0 to |res.s|
        invariant |s| == |g| == |res.s|
        invariant forall k :: 0 <= k < |s| ==> s[k] == if k < j then MergeCell(old(s)[k], res.s[k]) else old(s)[k]
        invariant forall k :: 0 <= k < |g| ==> g[k] == if k < j then MergeCell(old(g)[k], res.g[k]) else old(g)[k]
      {
        if res.s[j] != s[j] {
          s := s[j := ANYTHING];
        }
        if res.g[j] != g[j] {
          g := g[j := ANYTHING];
        }
      }
    }
  }

  // ------------------------------------------------------- the order of arrival

  ghost predicate AllHave(results: seq<ChunkResult>, columns: nat, first: nat, j: nat, cell: string)
    requires Wide(results, columns) && j < columns
  {
    forall k :: first <= k < |results| ==> results[k].s[j] == cell
  }

  ghost predicate AllHaveG(results: seq<ChunkResult>, columns: nat, first: nat, j: nat, cell: string)
    requires Wide(results, columns) && j < columns
  {
    forall k :: first <= k < |results| ==> results[k].g[j] == cell
  }

  /** `first` is the first result that is not of an empty report. */
  predicate StartsAt(results: seq<ChunkResult>, columns: nat, first: nat)
    requires Wide(results, columns)
  {
    && first < |results| && results[first].s[0] != NOTHING
    && forall k :: 0 <= k < first ==> results[k].s[0] == NOTHING
  }

  /** From the first result that is not empty on, a cell is what all results have, or the mark. */
  lemma {:induction false} MergedClosed(results: seq<ChunkResult>, columns: nat, first: nat, j: nat)
    requires Wide(results, columns) && StartsAt(results, columns, first) && j < columns
    ensures var m, cell := Merged(results, columns), results[first].s[j];
      m.started && m.s[j] == if AllHave(results, columns, first, j, cell) then cell else ANYTHING
  {
    var n := |results| - 1;
    var cell := results[first].s[j];
    if first < n {
      MergedClosed(results[..n], columns, first, j);
      assert AllHave(results, columns, first, j, cell) <==>
          AllHave(results[..n], columns, first, j, cell) && results[n].s[j] == cell;
    } else {
      MergedEmpty(results[..n], columns);
    }
  }

  /** The same for G, whose cells count from the same result on. */
  lemma {:induction false} MergedClosedG(results: seq<ChunkResult>, columns: nat, first: nat, j: nat)
    requires Wide(results, columns) && StartsAt(results, columns, first) && j < columns
    ensures var m, cell := Merged(results, columns), results[first].g[j];
      m.started && m.g[j] == if AllHaveG(results, columns, first, j, cell) then cell else ANYTHING
  {
    var n := |results| - 1;
    var cell := results[first].g[j];
    if first < n {
      MergedClosedG(results[..n], columns, first, j);
      assert AllHaveG(results, columns, first, j, cell) <==>
          AllHaveG(results[..n], columns, first, j, cell) && results[n].g[j] == cell;
    } else {
      MergedEmpty(results[..n], columns);
    }
  }

  /** Empty reports are skipped: the last one shows. */
  lemma {:induction false} MergedEmpty(results: seq<ChunkResult>, columns: nat)
    requires Wide(results, columns) && forall k :: 0 <= k < |results| ==> results[k].s[0] == NOTHING
    ensures !Merged(results, columns).started
    ensures results != [] ==>
      Merged(results, columns).s == results[|results| - 1].s && Merged(results, columns).g == results[|results| - 1].g
  {
    if results != [] {
      MergedEmpty(results[..|results| - 1], columns);
    }
  }

  function PositiveSum(results: seq<ChunkResult>): int {
    if results == [] then 0 else PositiveSum(results[..|results| - 1]) + results[|results| - 1].totalPositives
  }

  function NegativeSum(results: seq<ChunkResult>): int {
    if results == [] then 0 else NegativeSum(results[..|results| - 1]) + results[|results| - 1].totalNegatives
  }

  lemma {:induction false} MergedSums(results: seq<ChunkResult>, columns: nat)
    requires Wide(results, columns)
    ensures Merged(results, columns).positives == PositiveSum(results)
    ensures Merged(results, columns).negatives == NegativeSum(results)
  {
    if results != [] {
      MergedSums(results[..|results| - 1], columns);
    }
  }

  lemma {:induction false} SumsConcat(a: seq<ChunkResult>, b: seq<ChunkResult>)
    ensures PositiveSum(a + b) == PositiveSum(a) + PositiveSum(b)
    ensures NegativeSum(a + b) == NegativeSum(a) + NegativeSum(b)
  {
    if b == [] {
      assert a + b == a;
    } else {
      var n := |b| - 1;
      assert (a + b)[..|a + b| - 1] == a + b[..n];
      SumsConcat(a, b[..n]);
    }
  }

  lemma SumsRemove(results: seq<ChunkResult>, k: nat)
    requires k < |results|
    ensures var rest := results[..k] + results[k + 1..];
      && PositiveSum(results) == PositiveSum(rest) + results[k].totalPositives
      && NegativeSum(results) == NegativeSum(rest) + results[k].totalNegatives
      && multiset(rest) == multiset(results) - multiset{results[k]}
  {
    var a, b := results[..k], results[k + 1..];
    assert results == (a + [results[k]]) + b;
    SumsConcat(a + [results[k]], b);
    SumsConcat(a, b);
    assert (a + [results[k]])[..k] == a;
  }

  lemma {:induction false} SumsPermuted(results: seq<ChunkResult>, results': seq<ChunkResult>)
    requires multiset(results) == multiset(results')
    ensures PositiveSum(results) == PositiveSum(results') && NegativeSum(results) == NegativeSum(results')
    decreases |results|
  {
    assert |results| == |multiset(results)| == |multiset(results')| == |results'|;
    if results != [] {
      var n := |results| - 1;
      assert results[n] in multiset(results');
      var j: nat :| j < |results'| && results'[j] == results[n];
      SumsRemove(results, n);
      SumsRemove(results', j);
      assert results[..n] + results[n + 1..] == results[..n];
      SumsPermuted(results[..n], results'[..j] + results'[j + 1..]);
    }
  }

  // ---------------------------------------------------------- against a single pass

  /** The values of the positive rows are no marks. */
  ghost predicate Unmarked(t: Target, rows: seq<Row>)
    requires WellSized(t, rows)
  {
    forall k, i :: 0 <= k < |rows| && IsPositive(t, rows, k) && 0 <= i < t.columns ==>
      rows[k][i] != NOTHING && rows[k][i] != ANYTHING
  }

  ghost predicate HasPositive(t: Target, rows: seq<Row>)
    requires WellSized(t, rows)
  {
    FirstPositive(t, rows) < |rows|
  }

  /** The value of the first positive row in the column: the spelling that the chunk reports. */
  ghost function Spelling(t: Target, rows: seq<Row>, j: nat): string
    requires WellSized(t, rows) && HasPositive(t, rows) && j < t.columns
  {
    rows[FirstPositive(t, rows)][j]
  }

  /** The cell is the spelling of the chunk if its positive rows agree, the mark if not, and empty without any. */
  ghost predicate CellMeans(t: Target, rows: seq<Row>, j: nat, cell: string)
    requires WellSized(t, rows) && j < t.columns
  {
    if !HasPositive(t, rows) then cell == NOTHING
    else
      var value := Spelling(t, rows, j);
      && value != NOTHING && value != ANYTHING
      && cell == if PositivesAgree(t, rows, j, value) then value else ANYTHING
  }

  lemma ReportCell(t: Target, rows: seq<Row>, j: nat)
    requires WellSized(t, rows) && Unmarked(t, rows) && j < t.columns
    ensures CellMeans(t, rows, j, Reported(t, rows).s[j])
  {
    hide Pass;
    if HasPositive(t, rows) {
      PassClosed(t, rows[FirstPositive(t, rows)], rows);
    }
  }

  predicate ChunksSized(t: Target, chunks: seq<seq<Row>>) {
    forall c :: 0 <= c < |chunks| ==> WellSized(t, chunks[c])
  }

  function Concat(t: Target, chunks: seq<seq<Row>>): (rows: seq<Row>)
    requires ChunksSized(t, chunks)
    ensures WellSized(t, rows)
  {
    if chunks == [] then [] else Concat(t, chunks[..|chunks| - 1]) + chunks[|chunks| - 1]
  }

  function Reports(t: Target, chunks: seq<seq<Row>>): (r: seq<ChunkResult>)
    requires ChunksSized(t, chunks)
    ensures |r| == |chunks| && forall c :: 0 <= c < |r| ==> r[c] == Reported(t, chunks[c])
    ensures t.columns > 0 ==> Wide(r, t.columns)
  {
    seq(|chunks|, c requires 0 <= c < |chunks| => Reported(t, chunks[c]))
  }

  ghost predicate EachPositive(t: Target, chunks: seq<seq<Row>>)
    requires ChunksSized(t, chunks)
  {
    forall c :: 0 <= c < |chunks| ==> HasPositive(t, chunks[c])
  }

  ghost predicate EachUnmarked(t: Target, chunks: seq<seq<Row>>)
    requires ChunksSized(t, chunks)
  {
    forall c :: 0 <= c < |chunks| ==> Unmarked(t, chunks[c])
  }

  /** `results` are the reports of the chunks, in any order of arrival. */
  ghost predicate Arrived(t: Target, chunks: seq<seq<Row>>, results: seq<ChunkResult>)
    requires ChunksSized(t, chunks)
  {
    multiset(results) == multiset(Reports(t, chunks))
  }

  lemma ArrivedMembers(t: Target, chunks: seq<seq<Row>>, results: seq<ChunkResult>)
    requires ChunksSized(t, chunks) && Arrived(t, chunks, results)
    ensures |results| == |chunks|
    ensures forall k :: 0 <= k < |results| ==> exists c :: 0 <= c < |chunks| && results[k] == Reported(t, chunks[c])
    ensures forall c :: 0 <= c < |chunks| ==> Reported(t, chunks[c]) in results
    ensures t.columns > 0 ==> Wide(results, t.columns)
  {
    hide Reported;
    var reports := Reports(t, chunks);
    assert |results| == |multiset(results)| == |multiset(reports)|;
    forall k | 0 <= k < |results|
      ensures exists c :: 0 <= c < |chunks| && results[k] == Reported(t, chunks[c])
    {
      assert results[k] in multiset(reports);
      var c :| 0 <= c < |reports| && reports[c] == results[k];
      assert results[k] == Reported(t, chunks[c]);
    }
    forall c | 0 <= c < |chunks|
      ensures Reported(t, chunks[c]) in results
    {
      assert reports[c] in multiset(reports);
    }
    forall k | 0 <= k < |results| && t.columns > 0
      ensures |results[k].s| == |results[k].g| == t.columns
    {
      assert results[k] in multiset(reports);
      var c :| 0 <= c < |reports| && reports[c] == results[k];
    }
  }

  /** Rows one after the other. */
  lemma AppendedAgree(t: Target, a: seq<Row>, b: seq<Row>, i: nat, value: string)
    requires WellSized(t, a) && WellSized(t, b) && i < t.columns
    ensures PositivesAgree(t, a + b, i, value) <==> PositivesAgree(t, a, i, value) && PositivesAgree(t, b, i, value)
  {
    hide Positive, IEquals;
    forall k: nat | k < |a|
      ensures (a + b)[k] == a[k] && (IsPositive(t, a + b, k) <==> IsPositive(t, a, k))
    {
    }
    forall k: nat | k < |b|
      ensures (a + b)[|a| + k] == b[k] && (IsPositive(t, a + b, |a| + k) <==> IsPositive(t, b, k))
    {
    }
    if PositivesAgree(t, a, i, value) && PositivesAgree(t, b, i, value) {
      forall k | 0 <= k < |a + b| && IsPositive(t, a + b, k)
        ensures IEquals(value, (a + b)[k][i])
      {
        if k >= |a| {
          assert IsPositive(t, b, k - |a|);
        }
      }
    }
    if PositivesAgree(t, a + b, i, value) {
      forall k | 0 <= k < |b| && IsPositive(t, b, k)
        ensures IEquals(value, b[k][i])
      {
        assert IsPositive(t, a + b, |a| + k);
      }
    }
  }

  lemma AppendedUnmarked(t: Target, a: seq<Row>, b: seq<Row>)
    requires WellSized(t, a) && WellSized(t, b)
    ensures Unmarked(t, a) && Unmarked(t, b) ==> Unmarked(t, a + b)
  {
    hide Positive;
    if Unmarked(t, a) && Unmarked(t, b) {
      forall k, i | 0 <= k < |a + b| && IsPositive(t, a + b, k) && 0 <= i < t.columns
        ensures (a + b)[k][i] != NOTHING && (a + b)[k][i] != ANYTHING
      {
        if k < |a| {
          assert IsPositive(t, a, k);
        } else {
          assert IsPositive(t, b, k - |a|);
        }
      }
    }
  }

  /** The first positive row of `a + b` is that of `a`, or else that of `b`. */
  lemma {:induction false} AppendedFirst(t: Target, a: seq<Row>, b: seq<Row>)
    requires WellSized(t, a) && WellSized(t, b)
    ensures FirstPositive(t, a + b) == if HasPositive(t, a) then FirstPositive(t, a) else |a| + FirstPositive(t, b)
    decreases |b|
  {
    hide Positive, IsPositive, FirstPositive;
    if b == [] {
      assert a + b == a;
      NoneFirst(t);
    } else {
      var n := |b| - 1;
      AppendedFirst(t, a, b[..n]);
      FirstSnoc(t, b[..n], b[n]);
      FirstSnoc(t, a + b[..n], b[n]);
      assert b == b[..n] + [b[n]] && a + b == (a + b[..n]) + [b[n]];
    }
  }

  lemma NoneFirst(t: Target)
    ensures FirstPositive(t, []) == 0
  {
  }

  lemma {:induction false} ConcatUnmarked(t: Target, chunks: seq<seq<Row>>)
    requires ChunksSized(t, chunks) && EachUnmarked(t, chunks)
    ensures Unmarked(t, Concat(t, chunks))
  {
    hide Unmarked;
    if chunks == [] {
      NoRowsUnmarked(t);
    } else {
      var n := |chunks| - 1;
      ConcatUnmarked(t, chunks[..n]);
      AppendedUnmarked(t, Concat(t, chunks[..n]), chunks[n]);
    }
  }

  lemma NoRowsUnmarked(t: Target)
    ensures Unmarked(t, [])
  {
  }

  lemma {:induction false} PositivesLimit(t: Target, rows: seq<Row>)
    requires WellSized(t, rows)
    ensures Positives(t, rows) <= |rows|
    ensures Positives(t, rows) > 0 <==> HasPositive(t, rows)
  {
    if rows != [] {
      PositivesLimit(t, rows[..|rows| - 1]);
    }
  }

  lemma {:induction false} ConcatAgree(t: Target, chunks: seq<seq<Row>>, i: nat, value: string)
    requires ChunksSized(t, chunks) && i < t.columns
    ensures PositivesAgree(t, Concat(t, chunks), i, value) <==> forall c :: 0 <= c < |chunks| ==>
        PositivesAgree(t, chunks[c], i, value)
  {
    hide PositivesAgree;
    if chunks == [] {
      NoRowsAgree(t, i, value);
    } else {
      var n := |chunks| - 1;
      ConcatAgree(t, chunks[..n], i, value);
      AppendedAgree(t, Concat(t, chunks[..n]), chunks[n], i, value);
    }
  }

  lemma NoRowsAgree(t: Target, i: nat, value: string)
    requires i < t.columns
    ensures PositivesAgree(t, [], i, value)
  {
  }

  /** The first positive row of all chunks is the first positive row of one of them. */
  lemma {:induction false} ConcatFirst(t: Target, chunks: seq<seq<Row>>)
    requires ChunksSized(t, chunks)
    ensures HasPositive(t, Concat(t, chunks)) <==> exists c :: 0 <= c < |chunks| && HasPositive(t, chunks[c])
    ensures HasPositive(t, Concat(t, chunks)) ==>
      exists c :: 0 <= c < |chunks| && HasPositive(t, chunks[c])
        && forall j :: 0 <= j < t.columns ==> Spelling(t, Concat(t, chunks), j) == Spelling(t, chunks[c], j)
  {
    hide Positive, IsPositive, FirstPositive;
    if chunks == [] {
      NoneFirst(t);
    } else {
      var n := |chunks| - 1;
      var init, last := Concat(t, chunks[..n]), chunks[n];
      ConcatFirst(t, chunks[..n]);
      AppendedFirst(t, init, last);
      if HasPositive(t, init) {
        var c :| 0 <= c < n && HasPositive(t, chunks[..n][c])
          && forall j :: 0 <= j < t.columns ==> Spelling(t, init, j) == Spelling(t, chunks[..n][c], j);
        assert HasPositive(t, chunks[c]);
      }
    }
  }

  // --------------------------------------------------------- against a single pass

  /** All positive rows agree in the column, up to letter case. */
  ghost predicate ColumnAgrees(t: Target, rows: seq<Row>, j: nat)
    requires WellSized(t, rows) && j < t.columns
  {
    forall k, l :: 0 <= k < |rows| && 0 <= l < |rows| && IsPositive(t, rows, k) && IsPositive(t, rows, l) ==>
      IEquals(rows[k][j], rows[l][j])
  }

  /** All chunks with a positive row report the column in the same letters. */
  ghost predicate SpeltAlike(t: Target, chunks: seq<seq<Row>>, j: nat)
    requires ChunksSized(t, chunks) && j < t.columns
  {
    forall c, d :: 0 <= c < |chunks| && 0 <= d < |chunks| && HasPositive(t, chunks[c]) && HasPositive(t, chunks[d]) ==>
      Spelling(t, chunks[c], j) == Spelling(t, chunks[d], j)
  }

  ghost predicate NoPositives(t: Target, chunks: seq<seq<Row>>)
    requires ChunksSized(t, chunks)
  {
    forall c :: 0 <= c < |chunks| ==> !HasPositive(t, chunks[c])
  }

  /** A chunk without a positive row reports after one that has some. */
  ghost predicate BarrenLate(t: Target, arrived: seq<seq<Row>>)
    requires ChunksSized(t, arrived)
  {
    exists c, d :: 0 <= c < d < |arrived| && HasPositive(t, arrived[c]) && !HasPositive(t, arrived[d])
  }

  /** Agreement can be read off any positive row. */
  lemma AgreesWithOne(t: Target, rows: seq<Row>, row: Row, j: nat)
    requires WellSized(t, rows) && row in rows && Positive(t, row) && j < t.columns
    ensures ColumnAgrees(t, rows, j) <==> PositivesAgree(t, rows, j, row[j])
  {
    hide LowerCase, Positive;
    var i: nat :| i < |rows| && rows[i] == row;
    assert IsPositive(t, rows, i);
  }

  lemma {:induction false} ConcatMembers(t: Target, chunks: seq<seq<Row>>, c: nat, row: Row)
    requires ChunksSized(t, chunks) && c < |chunks| && row in chunks[c]
    ensures row in Concat(t, chunks)
  {
    var n := |chunks| - 1;
    if c < n {
      ConcatMembers(t, chunks[..n], c, row);
    }
  }

  /** Whether all positive rows agree can be read off the spelling of any chunk, and chunk by chunk. */
  lemma AgreesByChunks(t: Target, chunks: seq<seq<Row>>, c: nat, j: nat)
    requires ChunksSized(t, chunks) && c < |chunks| && HasPositive(t, chunks[c]) && j < t.columns
    ensures ColumnAgrees(t, Concat(t, chunks), j) <==>
      forall d :: 0 <= d < |chunks| ==> PositivesAgree(t, chunks[d], j, Spelling(t, chunks[c], j))
  {
    hide Positive, IEquals, Concat;
    var row := chunks[c][FirstPositive(t, chunks[c])];
    assert IsPositive(t, chunks[c], FirstPositive(t, chunks[c]));
    ConcatMembers(t, chunks, c, row);
    AgreesWithOne(t, Concat(t, chunks), row, j);
    ConcatAgree(t, chunks, j, row[j]);
  }

  /** The cell of a single pass over rows with a positive one. */
  lemma OnePassCell(t: Target, rows: seq<Row>, j: nat)
    requires WellSized(t, rows) && Unmarked(t, rows) && HasPositive(t, rows) && j < t.columns
    ensures Spelling(t, rows, j) != ANYTHING
    ensures Reported(t, rows).s[j] == if ColumnAgrees(t, rows, j) then Spelling(t, rows, j) else ANYTHING
  {
    hide Reported, ColumnAgrees, PositivesAgree;
    ReportCell(t, rows, j);
    assert IsPositive(t, rows, FirstPositive(t, rows));
    AgreesWithOne(t, rows, rows[FirstPositive(t, rows)], j);
  }

  /** The first chunk with a positive row, in the order of arrival. */
  lemma FirstFruitful(t: Target, arrived: seq<seq<Row>>) returns (first: nat)
    requires t.columns > 0 && ChunksSized(t, arrived) && EachUnmarked(t, arrived) && !NoPositives(t, arrived)
    ensures first < |arrived| && HasPositive(t, arrived[first]) && forall c :: 0 <= c < first ==>
        !HasPositive(t, arrived[c])
    ensures StartsAt(Reports(t, arrived), t.columns, first)
  {
    hide Reported, HasPositive, Unmarked;
    first := 0;
    while !HasPositive(t, arrived[first])
      invariant first < |arrived|
      invariant forall c :: 0 <= c < first ==> !HasPositive(t, arrived[c])
      invariant exists c :: first <= c < |arrived| && HasPositive(t, arrived[c])
      decreases |arrived| - first
    {
      first := first + 1;
    }
    forall c | 0 <= c <= first
      ensures Reported(t, arrived[c]).s[0] == NOTHING <==> !HasPositive(t, arrived[c])
    {
      ReportCell(t, arrived[c], 0);
    }
  }

  /** The merged cell of a column, when some chunk has a positive row. */
  lemma MergedCell(t: Target, arrived: seq<seq<Row>>, first: nat, j: nat)
    requires t.columns > 0 && ChunksSized(t, arrived) && EachUnmarked(t, arrived) && j < t.columns
    requires first < |arrived| && HasPositive(t, arrived[first]) && StartsAt(Reports(t, arrived), t.columns, first)
    requires forall c :: 0 <= c < first ==> !HasPositive(t, arrived[c])
    ensures Merged(Reports(t, arrived), t.columns).s[j] ==
      if !BarrenLate(t, arrived) && ColumnAgrees(t, Concat(t, arrived), j) && SpeltAlike(t, arrived, j)
      then Spelling(t, arrived[first], j) else ANYTHING
  {
    hide Reported, Merged, HasPositive, Unmarked, Concat, ColumnAgrees, PositivesAgree;
    var results, value := Reports(t, arrived), Spelling(t, arrived[first], j);
    MergedClosed(results, t.columns, first, j);
    AgreesByChunks(t, arrived, first, j);
    forall c | 0 <= c < |arrived|
      ensures CellMeans(t, arrived[c], j, results[c].s[j])
      ensures !HasPositive(t, arrived[c]) ==> PositivesAgree(t, arrived[c], j, value)
      ensures HasPositive(t, arrived[c]) && ColumnAgrees(t, Concat(t, arrived), j) ==>
        PositivesAgree(t, arrived[c], j, Spelling(t, arrived[c], j))
    {
      ReportCell(t, arrived[c], j);
      BarrenAgrees(t, arrived[c], j, value);
      if HasPositive(t, arrived[c]) {
        AgreesByChunks(t, arrived, c, j);
      }
    }
    assert CellMeans(t, arrived[first], j, results[first].s[j]);
  }

  lemma BarrenAgrees(t: Target, rows: seq<Row>, j: nat, value: string)
    requires WellSized(t, rows) && j < t.columns
    ensures !HasPositive(t, rows) ==> PositivesAgree(t, rows, j, value)
  {
  }

  lemma {:induction false} ConcatOnly(t: Target, chunks: seq<seq<Row>>, row: Row)
    requires ChunksSized(t, chunks) && row in Concat(t, chunks)
    ensures exists c: nat :: c < |chunks| && row in chunks[c]
  {
    var n := |chunks| - 1;
    if row in Concat(t, chunks[..n]) {
      ConcatOnly(t, chunks[..n], row);
    }
  }

  lemma AgreementWithin(t: Target, rows: seq<Row>, rows': seq<Row>, j: nat)
    requires WellSized(t, rows) && WellSized(t, rows') && j < t.columns
    requires forall r :: r in rows ==> r in rows'
    ensures ColumnAgrees(t, rows', j) ==> ColumnAgrees(t, rows, j)
  {
    hide IEquals, Positive;
    if ColumnAgrees(t, rows', j) {
      forall k, l | 0 <= k < |rows| && 0 <= l < |rows| && IsPositive(t, rows, k) && IsPositive(t, rows, l)
        ensures IEquals(rows[k][j], rows[l][j])
      {
        assert rows[k] in rows' && rows[l] in rows';
        var k': nat :| k' < |rows'| && rows'[k'] == rows[k];
        var l': nat :| l' < |rows'| && rows'[l'] == rows[l];
        assert IsPositive(t, rows', k') && IsPositive(t, rows', l');
      }
    }
  }

  /** The chunks in the order in which they report. */
  ghost predicate ArrivalOf(chunks: seq<seq<Row>>, arrived: seq<seq<Row>>) {
    multiset(arrived) == multiset(chunks)
  }

  lemma ArrivalMembers(t: Target, chunks: seq<seq<Row>>, arrived: seq<seq<Row>>)
    requires ChunksSized(t, chunks) && ArrivalOf(chunks, arrived)
    ensures |arrived| == |chunks| && ChunksSized(t, arrived)
    ensures EachUnmarked(t, chunks) ==> EachUnmarked(t, arrived)
    ensures NoPositives(t, chunks) <==> NoPositives(t, arrived)
    ensures forall row :: row in Concat(t, arrived) <==> row in Concat(t, chunks)
  {
    hide Concat, Unmarked, HasPositive;
    assert |arrived| == |multiset(arrived)| == |multiset(chunks)|;
    SameChunks(chunks, arrived);
    assert ChunksSized(t, arrived);
    forall row | row in Concat(t, arrived)
      ensures row in Concat(t, chunks)
    {
      ConcatOnly(t, arrived, row);
      var c: nat :| c < |arrived| && row in arrived[c];
      var d: nat :| d < |chunks| && chunks[d] == arrived[c];
      ConcatMembers(t, chunks, d, row);
    }
    forall row | row in Concat(t, chunks)
      ensures row in Concat(t, arrived)
    {
      ConcatOnly(t, chunks, row);
      var c: nat :| c < |chunks| && row in chunks[c];
      var d: nat :| d < |arrived| && arrived[d] == chunks[c];
      ConcatMembers(t, arrived, d, row);
    }
  }

  lemma SameChunks(chunks: seq<seq<Row>>, arrived: seq<seq<Row>>)
    requires ArrivalOf(chunks, arrived)
    ensures forall c :: 0 <= c < |arrived| ==> arrived[c] in chunks
    ensures forall c :: 0 <= c < |chunks| ==> chunks[c] in arrived
  {
    forall x
      ensures x in arrived <==> x in chunks
    {
      assert x in arrived <==> x in multiset(arrived);
      assert x in chunks <==> x in multiset(chunks);
    }
  }

  /** When the merged S of reports that arrive in this order is that of a single pass. */
  ghost predicate MergesExactly(t: Target, arrived: seq<seq<Row>>)
    requires ChunksSized(t, arrived)
  {
    || NoPositives(t, arrived)
    || (forall j :: 0 <= j < t.columns && ColumnAgrees(t, Concat(t, arrived), j) ==>
        !BarrenLate(t, arrived) && SpeltAlike(t, arrived, j))
  }

  /**
     For rows without literal marks and every order of arrival, the merged S is the S of a single
     pass over all rows exactly if no chunk has a positive row; or every column in which all
     positive rows agree is spelt alike by the chunks, none of which reports empty after one that
     does not.
   */
  lemma MergedIsOnePassIff(t: Target, chunks: seq<seq<Row>>, arrived: seq<seq<Row>>)
    requires t.columns > 0 && chunks != [] && ChunksSized(t, chunks) && EachUnmarked(t, chunks)
        && ArrivalOf(chunks, arrived)
    ensures ChunksSized(t, arrived)
    ensures Merged(Reports(t, arrived), t.columns).s == Reported(t, Concat(t, chunks)).s <==> MergesExactly(t, arrived)
  {
    hide Reported, Merged, HasPositive, Unmarked, Concat, ColumnAgrees, SpeltAlike, BarrenLate, MergesExactly;
    ArrivalMembers(t, chunks, arrived);
    if NoPositives(t, arrived) {
      AllBarren(t, chunks, arrived);
    } else {
      var first := FirstFruitful(t, arrived);
      var merged, one := Merged(Reports(t, arrived), t.columns).s, Reported(t, Concat(t, chunks)).s;
      forall j | 0 <= j < t.columns
        ensures merged[j] == one[j] <==>
          (ColumnAgrees(t, Concat(t, arrived), j) ==> !BarrenLate(t, arrived) && SpeltAlike(t, arrived, j))
      {
        ColumnMeets(t, chunks, arrived, first, j);
      }
      ColumnsDecide(t, arrived, merged, one);
    }
  }

  lemma ColumnsDecide(t: Target, arrived: seq<seq<Row>>, merged: seq<string>, one: seq<string>)
    requires ChunksSized(t, arrived) && !NoPositives(t, arrived) && |merged| == |one| == t.columns
    requires forall j :: 0 <= j < t.columns ==>
      (merged[j] == one[j] <==> (ColumnAgrees(t, Concat(t, arrived), j) ==>
          !BarrenLate(t, arrived) && SpeltAlike(t, arrived, j)))
    ensures merged == one <==> MergesExactly(t, arrived)
  {
    hide HasPositive, Concat, ColumnAgrees, SpeltAlike, BarrenLate;
  }

  /** The cell of the single pass, in terms of the chunks as they arrive. */
  lemma OnePassByArrival(t: Target, chunks: seq<seq<Row>>, arrived: seq<seq<Row>>, j: nat) returns (d: nat)
    requires ChunksSized(t, chunks) && EachUnmarked(t, chunks) && ArrivalOf(chunks, arrived) && j < t.columns
    requires ChunksSized(t, arrived) && !NoPositives(t, arrived)
    ensures d < |arrived| && HasPositive(t, arrived[d]) && Spelling(t, arrived[d], j) != ANYTHING
    ensures Reported(t, Concat(t, chunks)).s[j] == if ColumnAgrees(t, Concat(t, arrived), j)
        then Spelling(t, arrived[d], j) else ANYTHING
  {
    hide Reported, Merged, HasPositive, Unmarked, Concat, ColumnAgrees;
    var all := Concat(t, chunks);
    ArrivalMembers(t, chunks, arrived);
    AgreementWithin(t, all, Concat(t, arrived), j);
    AgreementWithin(t, Concat(t, arrived), all, j);
    ConcatFirst(t, chunks);
    var c :| 0 <= c < |chunks| && HasPositive(t, chunks[c])
      && forall j :: 0 <= j < t.columns ==> Spelling(t, all, j) == Spelling(t, chunks[c], j);
    ConcatUnmarked(t, chunks);
    OnePassCell(t, all, j);
    SameChunks(chunks, arrived);
    d :| d < |arrived| && arrived[d] == chunks[c];
  }

  /** One column, when some chunk has a positive row. */
  lemma ColumnMeets(t: Target, chunks: seq<seq<Row>>, arrived: seq<seq<Row>>, first: nat, j: nat)
    requires t.columns > 0 && ChunksSized(t, chunks) && EachUnmarked(t, chunks) && ArrivalOf(chunks, arrived)
        && j < t.columns
    requires ChunksSized(t, arrived) && EachUnmarked(t, arrived)
    requires first < |arrived| && HasPositive(t, arrived[first]) && StartsAt(Reports(t, arrived), t.columns, first)
    requires forall c :: 0 <= c < first ==> !HasPositive(t, arrived[c])
    ensures Merged(Reports(t, arrived), t.columns).s[j] == Reported(t, Concat(t, chunks)).s[j]
      <==> (ColumnAgrees(t, Concat(t, arrived), j) ==> !BarrenLate(t, arrived) && SpeltAlike(t, arrived, j))
  {
    hide Reported, Merged, HasPositive, Unmarked, Concat, ColumnAgrees, BarrenLate, StartsAt, ArrivalOf, Spelling;
    var d := OnePassByArrival(t, chunks, arrived, j);
    MergedCell(t, arrived, first, j);
    assert SpeltAlike(t, arrived, j) ==> Spelling(t, arrived[first], j) == Spelling(t, arrived[d], j);
  }

  /** Without any positive row both are empty. */
  lemma AllBarren(t: Target, chunks: seq<seq<Row>>, arrived: seq<seq<Row>>)
    requires t.columns > 0 && chunks != [] && ChunksSized(t, chunks) && EachUnmarked(t, chunks)
        && ArrivalOf(chunks, arrived)
    requires ChunksSized(t, arrived) && NoPositives(t, arrived)
    ensures Merged(Reports(t, arrived), t.columns).s == Reported(t, Concat(t, chunks)).s
    ensures MergesExactly(t, arrived)
  {
    hide Merged, Unmarked, Concat;
    ArrivalMembers(t, chunks, arrived);
    ConcatFirst(t, chunks);
    MergedEmpty(Reports(t, arrived), t.columns);
  }

  // -------------------------------------------------------------------- the totals

  /** The number of chunks without a positive row. */
  function Barren(t: Target, chunks: seq<seq<Row>>): nat
    requires ChunksSized(t, chunks)
  {
    if chunks == [] then 0
    else Barren(t, chunks[..|chunks| - 1])
         + if FirstPositive(t, chunks[|chunks| - 1]) == |chunks[|chunks| - 1]| then 1 else 0
  }

  /** The number of rows in chunks without a positive row. */
  function BarrenRows(t: Target, chunks: seq<seq<Row>>): nat
    requires ChunksSized(t, chunks)
  {
    if chunks == [] then 0
    else BarrenRows(t, chunks[..|chunks| - 1])
         + if FirstPositive(t, chunks[|chunks| - 1]) == |chunks[|chunks| - 1]| then |chunks[|chunks| - 1]| else 0
  }

  /** A chunk without a positive row reports -1 positives and leaves its negatives out. */
  lemma ReportTotals(t: Target, rows: seq<Row>)
    requires WellSized(t, rows)
    ensures var r := Reported(t, rows);
      if FirstPositive(t, rows) == |rows| then r.totalPositives == -1 && r.totalNegatives == 0 &&
          Positives(t, rows) == 0
      else r.totalPositives == Positives(t, rows) && r.totalNegatives == |rows| - Positives(t, rows)
  {
    PositivesLimit(t, rows);
    var k := FirstPositive(t, rows);
    if k < |rows| {
      PassTotals(t, Compared(t, Initial(t), rows[k]), rows);
    }
  }

  lemma {:induction false} PassTotals(t: Target, v: Vectors, rows: seq<Row>)
    requires Sized(t, v) && WellSized(t, rows)
    ensures Pass(t, v, rows).positives == v.positives + Positives(t, rows)
    ensures Pass(t, v, rows).negatives == v.negatives + |rows| - Positives(t, rows)
  {
    hide Positive;
    if rows != [] {
      PassTotals(t, v, rows[..|rows| - 1]);
    }
  }

  lemma {:induction false} ReportSums(t: Target, chunks: seq<seq<Row>>)
    requires ChunksSized(t, chunks)
    ensures PositiveSum(Reports(t, chunks)) == Positives(t, Concat(t, chunks)) - Barren(t, chunks)
    ensures NegativeSum(Reports(t, chunks)) == |Concat(t, chunks)| - Positives(t, Concat(t, chunks)) - BarrenRows(t,
        chunks)
    ensures Barren(t, chunks) == 0 <==> EachPositive(t, chunks)
  {
    hide Reported, Positive, FirstPositive;
    if chunks != [] {
      var n := |chunks| - 1;
      ReportSums(t, chunks[..n]);
      assert Reports(t, chunks)[..n] == Reports(t, chunks[..n]);
      ReportTotals(t, chunks[n]);
      PositivesConcat(t, Concat(t, chunks[..n]), chunks[n]);
      assert EachPositive(t, chunks) <==> EachPositive(t, chunks[..n]) && HasPositive(t, chunks[n]);
    }
  }

  /**
     In every order of arrival each chunk without a positive row costs one positive and its
     negatives.
   */
  lemma MergedTotals(t: Target, chunks: seq<seq<Row>>, results: seq<ChunkResult>)
    requires t.columns > 0 && ChunksSized(t, chunks) && Arrived(t, chunks, results)
    ensures Wide(results, t.columns)
    ensures var m, all := Merged(results, t.columns), Concat(t, chunks);
      && m.positives == Positives(t, all) - Barren(t, chunks)
      && m.negatives == |all| - Positives(t, all) - BarrenRows(t, chunks)
      && (Barren(t, chunks) == 0 <==> EachPositive(t, chunks))
  {
    hide Merged, Reported, HasPositive;
    ArrivedMembers(t, chunks, results);
    MergedSums(results, t.columns);
    SumsPermuted(results, Reports(t, chunks));
    ReportSums(t, chunks);
  }

  /** The reports of permuted chunks are the permuted reports. */
  lemma {:induction false} ReportsPermuted(t: Target, chunks: seq<seq<Row>>, arrived: seq<seq<Row>>)
    requires ChunksSized(t, chunks) && ChunksSized(t, arrived) && ArrivalOf(chunks, arrived)
    ensures Arrived(t, chunks, Reports(t, arrived))
    decreases |chunks|
  {
    hide Reported;
    assert |arrived| == |multiset(arrived)| == |multiset(chunks)| == |chunks|;
    if chunks != [] {
      var n := |chunks| - 1;
      assert chunks[n] in multiset(arrived);
      var k: nat :| k < |arrived| && arrived[k] == chunks[n];
      assert chunks[..n] + chunks[n + 1..] == chunks[..n];
      RemoveOne(arrived, k);
      RemoveOne(chunks, n);
      ReportsPermuted(t, chunks[..n], arrived[..k] + arrived[k + 1..]);
      ReportsWithout(t, arrived, k);
      ReportsWithout(t, chunks, n);
    }
  }

  lemma RemoveOne<T>(s: seq<T>, k: nat)
    requires k < |s|
    ensures multiset(s[..k] + s[k + 1..]) == multiset(s) - multiset{s[k]}
  {
    assert s == s[..k] + [s[k]] + s[k + 1..];
  }

  lemma ReportsWithout(t: Target, chunks: seq<seq<Row>>, k: nat)
    requires ChunksSized(t, chunks) && k < |chunks|
    ensures multiset(Reports(t, chunks)) == multiset(Reports(t,
        chunks[..k] + chunks[k + 1..])) + multiset{Reported(t, chunks[k])}
  {
    hide Reported;
    var reports, rest := Reports(t, chunks), Reports(t, chunks[..k] + chunks[k + 1..]);
    assert reports == reports[..k] + [reports[k]] + reports[k + 1..];
    assert rest == reports[..k] + reports[k + 1..];
  }

  lemma {:induction false} AllBarrenCounts(t: Target, chunks: seq<seq<Row>>)
    requires ChunksSized(t, chunks)
    ensures NoPositives(t, chunks) ==> Barren(t, chunks) == |chunks| && BarrenRows(t, chunks) == |Concat(t, chunks)|
    ensures BarrenRows(t, chunks) == 0 <==> forall c :: 0 <= c < |chunks| && !HasPositive(t, chunks[c]) ==>
        chunks[c] == []
  {
    if chunks != [] {
      AllBarrenCounts(t, chunks[..|chunks| - 1]);
    }
  }

  /**
     The merged positives are those of a single pass exactly if every chunk has a positive row or
     there is only one chunk; the negatives exactly if no chunk has one, or those without hold no
     rows at all.
   */
  lemma TotalsAreOnePassIff(t: Target, chunks: seq<seq<Row>>, arrived: seq<seq<Row>>)
    requires t.columns > 0 && chunks != [] && ChunksSized(t, chunks) && ChunksSized(t, arrived)
        && ArrivalOf(chunks, arrived)
    ensures var m, one := Merged(Reports(t, arrived), t.columns), Reported(t, Concat(t, chunks));
      && (m.positives == one.totalPositives <==> EachPositive(t, chunks) || |chunks| == 1)
      && (m.negatives == one.totalNegatives <==>
          NoPositives(t, chunks) || forall c :: 0 <= c < |chunks| && !HasPositive(t, chunks[c]) ==> chunks[c] == [])
  {
    hide Merged, Reported, Concat, Barren, BarrenRows, Arrived, HasPositive, FirstPositive, Positives;
    ReportsPermuted(t, chunks, arrived);
    MergedTotals(t, chunks, Reports(t, arrived));
    OnePassTotals(t, Concat(t, chunks));
    ConcatFirst(t, chunks);
    AllBarrenCounts(t, chunks);
  }

  lemma OnePassTotals(t: Target, rows: seq<Row>)
    requires WellSized(t, rows)
    ensures var r := Reported(t, rows);
      if HasPositive(t, rows) then r.totalPositives == Positives(t, rows) &&
          r.totalNegatives == |rows| - Positives(t, rows)
      else r.totalPositives == -1 && r.totalNegatives == 0 && Positives(t, rows) == 0
  {
    hide Reported;
    ReportTotals(t, rows);
  }

  lemma OneRow(t: Target, row: Row)
    requires |row| == t.columns + 1
    ensures HasPositive(t, [row]) <==> Positive(t, row)
    ensures HasPositive(t, [row]) ==> FirstPositive(t, [row]) == 0
  {
    if Positive(t, row) {
      assert IsPositive(t, [row], 0);
    }
  }

  lemma TwoChunks(t: Target, row: Row, other: Row)
    requires |row| == |other| == t.columns + 1
    ensures Concat(t, [[row], [other]]) == [row, other]
  {
    assert [[row], [other]][..1] == [[row]] && [[row]][..0] == [];
    assert Concat(t, [[row]]) == [row];
  }

  /** A row with the value `a` and then, in the next chunk, only a negative row: the value is lost. */
  lemma BarrenChunkLosesS()
    ensures var t, chunks := Target(1, "yes"), [[["a", "yes"]], [["b", "no"]]];
      && EachUnmarked(t, chunks)
      && Merged(Reports(t, chunks), 1).s != Reported(t, Concat(t, chunks)).s
  {
    hide Merged, Reported;
    var t, row, other := Target(1, "yes"), ["a", "yes"], ["b", "no"];
    var chunks := [[row], [other]];
    assert |LowerCase("no")| != |LowerCase("yes")|;
    OneRow(t, row);
    OneRow(t, other);
    TwoChunks(t, row, other);
    assert HasPositive(t, chunks[0]) && !HasPositive(t, chunks[1]);
    assert ColumnAgrees(t, Concat(t, chunks), 0);
    MergedIsOnePassIff(t, chunks, chunks);
  }

  lemma CapitalLetter()
    ensures IEquals("a", "A") && IEquals("A", "a")
  {
    assert LowerCase("A")[0] == 'a' && LowerCase("A") == "a" == LowerCase("a");
  }

  /** Two chunks of one positive row each, with values that differ in case only. */
  lemma CaseLosesS(t: Target, row: Row, other: Row)
    requires t.columns == 1 && |row| == |other| == 2 && Positive(t, row) && Positive(t, other)
    requires IEquals(row[0], other[0]) && row[0] != other[0]
    requires row[0] != NOTHING && row[0] != ANYTHING && other[0] != NOTHING && other[0] != ANYTHING
    ensures var chunks := [[row], [other]];
      && EachUnmarked(t, chunks) && EachPositive(t, chunks)
      && Merged(Reports(t, chunks), 1).s != Reported(t, Concat(t, chunks)).s
  {
    hide Merged, Reported, LowerCase, FirstPositive, Concat, BarrenLate, Positive;
    var chunks := [[row], [other]];
    OneRow(t, row);
    OneRow(t, other);
    TwoChunks(t, row, other);
    assert HasPositive(t, chunks[0]) && HasPositive(t, chunks[1]);
    assert Spelling(t, chunks[0], 0) == row[0] && Spelling(t, chunks[1], 0) == other[0];
    assert !SpeltAlike(t, chunks, 0);
    assert ColumnAgrees(t, [row, other], 0);
    MergedIsOnePassIff(t, chunks, chunks);
  }

  /** The values `a` and `A` are equal within a chunk and different in the merge. */
  lemma LetterCaseLosesS()
    ensures var t, chunks := Target(1, "yes"), [[["a", "yes"]], [["A", "yes"]]];
      && EachUnmarked(t, chunks) && EachPositive(t, chunks)
      && Merged(Reports(t, chunks), 1).s != Reported(t, Concat(t, chunks)).s
  {
    hide Merged, Reported, EachUnmarked, EachPositive, Concat;
    CapitalLetter();
    CaseLosesS(Target(1, "yes"), ["a", "yes"], ["A", "yes"]);
  }
}
