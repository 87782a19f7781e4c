/**
 The candidate elimination of one chunk of rows: the most specific vector S and the
 most general vector G that a pass over the rows builds, and what they amount to
 whatever the order of the rows.
 */
module Hypotheses {

  const NOTHING := "*"
  const ANYTHING := "?"

  /** Letters are compared without case. */
  function LowerCase(s: string): (r: string)
    ensures |r| == |s|
  {
    seq(|s|, i requires 0 <= i < |s| => if 'A' <= s[i] <= 'Z' then s[i] - 'A' + 'a' else s[i])
  }

  predicate IEquals(a: string, b: string) {
    LowerCase(a) == LowerCase(b)
  }

  /** The same letter of the ASCII alphabet, a small one and a capital. */
  predicate SameLetter(small: char, capital: char) {
    'a' <= small <= 'z' && 'A' <= capital <= 'Z' && small - 'a' == capital - 'A'
  }

  /** Two texts are equal without case exactly if they are, place by place, the same but for small and capital. */
  lemma IEqualsMeans(a: string, b: string)
    ensures IEquals(a, b) <==>
      |a| == |b| && forall i :: 0 <= i < |a| ==> a[i] == b[i] || SameLetter(a[i], b[i]) || SameLetter(b[i], a[i])
  {
    var x, y := LowerCase(a), LowerCase(b);
    if |a| == |b| {
      forall i | 0 <= i < |a|
        ensures x[i] == y[i] <==> a[i] == b[i] || SameLetter(a[i], b[i]) || SameLetter(b[i], a[i])
      {
      }
      assert x == y <==> forall i :: 0 <= i < |a| ==> x[i] == y[i];
    }
  }

  type Row = seq<string>

  /** What a pass has built: S, G and the two counters. */
  datatype Vectors = Vectors(s: seq<string>, g: seq<string>, positives: int, negatives: int)

  /** The table: the number of attributes, and the value of the target column that makes a row positive. */
  datatype Target = Target(columns: nat, confirmValue: string)

  function Initial(t: Target): Vectors {
    Vectors(seq(t.columns, i => NOTHING), seq(t.columns, i => NOTHING), 0, 0)
  }

  predicate Sized(t: Target, v: Vectors) {
    |v.s| == |v.g| == t.columns
  }

  predicate Positive(t: Target, row: Row)
    requires |row| == t.columns + 1
  {
    IEquals(row[t.columns], t.confirmValue)
  }

  function SpecificCell(s: string, x: string, positive: bool): string {
    if !positive then s
    else if s == NOTHING then x
    else if IEquals(s, x) then s
    else ANYTHING
  }

  function GeneralCell(s: string, g: string, x: string, positive: bool): string {
    if positive then
      if s == NOTHING || IEquals(s, x) then g else ANYTHING
    else if !IEquals(s, x) && !IEquals(g, ANYTHING) then s
    else ANYTHING
  }

  function Compared(t: Target, v: Vectors, row: Row): (r: Vectors)
    requires Sized(t, v) && |row| == t.columns + 1
    ensures Sized(t, r)
  {
    var positive := Positive(t, row);
    Vectors(
      seq(t.columns, i requires 0 <= i < t.columns => SpecificCell(v.s[i], row[i], positive)),
      seq(t.columns, i requires 0 <= i < t.columns => GeneralCell(v.s[i], v.g[i], row[i], positive)),
      v.positives + (if positive then 1 else 0),
      v.negatives + (if positive then 0 else 1))
  }

  predicate WellSized(t: Target, rows: seq<Row>) {
    forall k :: 0 <= k < |rows| ==> |rows[k]| == t.columns + 1
  }

  function Pass(t: Target, v: Vectors, rows: seq<Row>): (r: Vectors)
    requires Sized(t, v) && WellSized(t, rows)
    ensures Sized(t, r)
  {
    if rows == [] then v else Compared(t, Pass(t, v, rows[..|rows| - 1]), rows[|rows| - 1])
  }

  // ------------------------------------------------------- the order-independent form

  predicate IsPositive(t: Target, rows: seq<Row>, k: nat)
    requires WellSized(t, rows) && k < |rows|
  {
    Positive(t, rows[k])
  }

  /** All positive rows agree with the value in the column. */
  ghost predicate PositivesAgree(t: Target, rows: seq<Row>, i: nat, value: string)
    requires WellSized(t, rows) && i < t.columns
  {
    forall k :: 0 <= k < |rows| && IsPositive(t, rows, k) ==> IEquals(value, rows[k][i])
  }

  /** All negative rows differ from the value in the column. */
  ghost predicate NegativesDiffer(t: Target, rows: seq<Row>, i: nat, value: string)
    requires WellSized(t, rows) && i < t.columns
  {
    forall k :: 0 <= k < |rows| && !IsPositive(t, rows, k) ==> !IEquals(value, rows[k][i])
  }

  ghost predicate HasNegative(t: Target, rows: seq<Row>)
    requires WellSized(t, rows)
  {
    exists k: nat :: k < |rows| && !IsPositive(t, rows, k)
  }

  ghost function ClosedS(t: Target, rows: seq<Row>, i: nat, value: string): string
    requires WellSized(t, rows) && i < t.columns
  {
    if PositivesAgree(t, rows, i, value) then value else ANYTHING
  }

  ghost function ClosedG(t: Target, rows: seq<Row>, i: nat, value: string): string
    requires WellSized(t, rows) && i < t.columns
  {
    if !PositivesAgree(t, rows, i, value) || !NegativesDiffer(t, rows, i, value) then ANYTHING
    else if HasNegative(t, rows) then value
    else NOTHING
  }

  function Positives(t: Target, rows: seq<Row>): nat
    requires WellSized(t, rows)
  {
    if rows == [] then 0
    else Positives(t, rows[..|rows| - 1]) + if Positive(t, rows[|rows| - 1]) then 1 else 0
  }

  /** The seed: a positive row with no literal `*` among its attributes. */
  predicate Seed(t: Target, seed: Row) {
    |seed| == t.columns + 1 && Positive(t, seed) && forall i :: 0 <= i < t.columns ==> seed[i] != NOTHING
  }

  /** After the seed, a pass over any rows gives the closed form. */
  lemma {:induction false} PassClosed(t: Target, seed: Row, rows: seq<Row>)
    requires Seed(t, seed) && WellSized(t, rows)
    ensures var v := Pass(t, Compared(t, Initial(t), seed), rows);
      && (forall i :: 0 <= i < t.columns ==> v.s[i] == ClosedS(t, rows, i, seed[i]))
      && (forall i :: 0 <= i < t.columns ==> v.g[i] == ClosedG(t, rows, i, seed[i]))
      && v.positives == Positives(t, rows) + 1
      && v.negatives == |rows| - Positives(t, rows)
  {
    hide IEquals;
    var v0 := Compared(t, Initial(t), seed);
    if rows == [] {
      assert v0.s == seed[..t.columns];
    } else {
      var init, last := rows[..|rows| - 1], rows[|rows| - 1];
      PassClosed(t, seed, init);
      var v := Pass(t, v0, init);
      forall i | 0 <= i < t.columns
        ensures SpecificCell(v.s[i], last[i], Positive(t, last)) == ClosedS(t, rows, i, seed[i])
        ensures GeneralCell(v.s[i], v.g[i], last[i], Positive(t, last)) == ClosedG(t, rows, i, seed[i])
      {
        CellClosed(t, rows, i, seed[i]);
      }
    }
  }

  lemma CellClosed(t: Target, rows: seq<Row>, i: nat, value: string)
    requires rows != [] && WellSized(t, rows) && i < t.columns && value != NOTHING
    ensures var init, last := rows[..|rows| - 1], rows[|rows| - 1];
      var s, g := ClosedS(t, init, i, value), ClosedG(t, init, i, value);
      && SpecificCell(s, last[i], Positive(t, last)) == ClosedS(t, rows, i, value)
      && GeneralCell(s, g, last[i], Positive(t, last)) == ClosedG(t, rows, i, value)
  {
    hide IEquals;
    var n := |rows| - 1;
    var init, last := rows[..n], rows[n];
    AgreeSnoc(t, rows, i, value);
    MarkAlone(ClosedG(t, init, i, value));
  }

  lemma MarkAlone(s: string)
    ensures IEquals(s, ANYTHING) <==> s == ANYTHING
  {
    assert LowerCase(ANYTHING) == ANYTHING;
    if LowerCase(s) == ANYTHING {
      assert LowerCase(s)[0] == '?' && s == [s[0]];
    }
  }

  lemma AgreeSnoc(t: Target, rows: seq<Row>, i: nat, value: string)
    requires rows != [] && WellSized(t, rows) && i < t.columns
    ensures var init, last := rows[..|rows| - 1], rows[|rows| - 1];
      && (PositivesAgree(t, rows, i, value) <==>
          PositivesAgree(t, init, i, value) && (Positive(t, last) ==> IEquals(value, last[i])))
      && (NegativesDiffer(t, rows, i, value) <==>
          NegativesDiffer(t, init, i, value) && (!Positive(t, last) ==> !IEquals(value, last[i])))
      && (HasNegative(t, rows) <==> HasNegative(t, init) || !Positive(t, last))
  {
    hide IEquals;
    var n := |rows| - 1;
    assert forall k :: 0 <= k < n ==> (IsPositive(t, rows, k) <==> IsPositive(t, rows[..n], k));
    assert IsPositive(t, rows, n) <==> Positive(t, rows[n]);
  }

  // ------------------------------------------------------------ what the form means

  /** A hypothesis admits a row that has its value in every column, or where it allows anything. */
  predicate Covers(h: seq<string>, row: Row)
    requires |h| <= |row|
  {
    forall i :: 0 <= i < |h| ==> h[i] == ANYTHING || IEquals(h[i], row[i])
  }

  /** Every row that `s` covers `h` covers, read off column by column. */
  predicate AtLeastAsGeneral(h: seq<string>, s: seq<string>)
    requires |h| == |s|
  {
    forall i :: 0 <= i < |h| ==> h[i] == ANYTHING || (s[i] != ANYTHING && IEquals(h[i], s[i]))
  }

  ghost predicate CoversPositives(t: Target, h: seq<string>, rows: seq<Row>)
    requires |h| == t.columns && WellSized(t, rows)
  {
    forall k :: 0 <= k < |rows| && IsPositive(t, rows, k) ==> Covers(h, rows[k])
  }

  /** A pass that has met its seed among the rows. */
  ghost predicate FromSeed(t: Target, rows: seq<Row>, k: nat)
    requires WellSized(t, rows)
  {
    k < |rows| && IsPositive(t, rows, k) && Seed(t, rows[k])
  }

  /** The positive rows hold no literal `?`. */
  ghost predicate NoLiteral(t: Target, rows: seq<Row>)
    requires WellSized(t, rows)
  {
    forall k, i :: 0 <= k < |rows| && IsPositive(t, rows, k) && 0 <= i < t.columns ==> rows[k][i] != ANYTHING
  }

  /** S is the least general hypothesis that covers all positive rows. */
  lemma LeastGeneral(t: Target, rows: seq<Row>, k: nat, h: seq<string>)
    requires WellSized(t, rows) && FromSeed(t, rows, k) && NoLiteral(t, rows) && |h| == t.columns
    ensures var s := Pass(t, Compared(t, Initial(t), rows[k]), rows).s;
      && CoversPositives(t, s, rows)
      && (CoversPositives(t, h, rows) <==> AtLeastAsGeneral(h, s))
  {
    var seed := rows[k];
    PassClosed(t, seed, rows);
    var s := Pass(t, Compared(t, Initial(t), seed), rows).s;
    if CoversPositives(t, h, rows) {
      forall i | 0 <= i < t.columns
        ensures h[i] == ANYTHING || (s[i] != ANYTHING && IEquals(h[i], s[i]))
      {
        assert Covers(h, rows[k]);
        assert h[i] != ANYTHING ==> PositivesAgree(t, rows, i, seed[i]) by {
          assert forall j :: 0 <= j < |rows| && IsPositive(t, rows, j) ==> Covers(h, rows[j]);
        }
      }
    }
  }

  lemma {:induction false} PositivesConcat(t: Target, a: seq<Row>, b: seq<Row>)
    requires WellSized(t, a) && WellSized(t, b)
    ensures Positives(t, a + b) == Positives(t, a) + Positives(t, b)
  {
    if b == [] {
      assert a + b == a;
    } else {
      var n := |b| - 1;
      assert (a + b)[..|a + b| - 1] == a + b[..n];
      PositivesConcat(t, a, b[..n]);
    }
  }

  lemma PositivesOne(t: Target, row: Row)
    requires |row| == t.columns + 1
    ensures Positives(t, [row]) == if Positive(t, row) then 1 else 0
  {
    assert [row][..0] == [];
  }

  lemma PositivesRemove(t: Target, rows: seq<Row>, k: nat)
    requires WellSized(t, rows) && k < |rows|
    ensures WellSized(t, rows[..k] + rows[k + 1..])
    ensures Positives(t, rows) == Positives(t, rows[..k] + rows[k + 1..]) + if Positive(t, rows[k]) then 1 else 0
    ensures multiset(rows) == multiset(rows[..k] + rows[k + 1..]) + multiset{rows[k]}
  {
    var a, b := rows[..k], rows[k + 1..];
    assert rows == (a + [rows[k]]) + b;
    PositivesConcat(t, a + [rows[k]], b);
    PositivesConcat(t, a, [rows[k]]);
    PositivesConcat(t, a, b);
    PositivesOne(t, rows[k]);
  }

  lemma {:induction false} PositivesPermuted(t: Target, rows: seq<Row>, rows': seq<Row>)
    requires WellSized(t, rows) && WellSized(t, rows') && multiset(rows) == multiset(rows')
    ensures Positives(t, rows) == Positives(t, rows') && |rows| == |rows'|
    decreases |rows|
  {
    hide Positive;
    assert |rows| == |multiset(rows)| == |multiset(rows')| == |rows'|;
    if rows != [] {
      var n := |rows| - 1;
      assert rows[n] in multiset(rows');
      var j: nat :| j < |rows'| && rows'[j] == rows[n];
      PositivesRemove(t, rows', j);
      PositivesRemove(t, rows, n);
      assert rows[..n] + rows[n + 1..] == rows[..n];
      assert multiset(rows[..n]) == multiset(rows) - multiset{rows[n]};
      assert multiset(rows'[..j] + rows'[j + 1..]) == multiset(rows') - multiset{rows'[j]};
      PositivesPermuted(t, rows[..n], rows'[..j] + rows'[j + 1..]);
    }
  }

  /** The same rows, whatever their order, give the same closed form. */
  lemma SameRows(t: Target, rows: seq<Row>, rows': seq<Row>, i: nat, value: string)
    requires WellSized(t, rows) && WellSized(t, rows') && i < t.columns
    requires forall r :: r in rows <==> r in rows'
    ensures PositivesAgree(t, rows, i, value) <==> PositivesAgree(t, rows', i, value)
    ensures NegativesDiffer(t, rows, i, value) <==> NegativesDiffer(t, rows', i, value)
    ensures HasNegative(t, rows) <==> HasNegative(t, rows')
  {
    RowsWithin(t, rows, rows', i, value);
    RowsWithin(t, rows', rows, i, value);
  }

  lemma RowsWithin(t: Target, rows: seq<Row>, rows': seq<Row>, i: nat, value: string)
    requires WellSized(t, rows) && WellSized(t, rows') && i < t.columns
    requires forall r :: r in rows ==> r in rows'
    ensures PositivesAgree(t, rows', i, value) ==> PositivesAgree(t, rows, i, value)
    ensures NegativesDiffer(t, rows', i, value) ==> NegativesDiffer(t, rows, i, value)
    ensures HasNegative(t, rows) ==> HasNegative(t, rows')
  {
    hide IEquals;
    forall k: nat | k < |rows|
      ensures exists k': nat ::
        k' < |rows'| && rows'[k'] == rows[k] && (IsPositive(t, rows', k') <==> IsPositive(t, rows, k))
    {
      assert rows[k] in rows';
      var k': nat :| k' < |rows'| && rows'[k'] == rows[k];
      assert IsPositive(t, rows', k') <==> IsPositive(t, rows, k);
    }
  }

  /** Values that are equal but for letter case give the same closed form, but for letter case. */
  lemma SameValue(t: Target, rows: seq<Row>, i: nat, value: string, value': string)
    requires WellSized(t, rows) && i < t.columns && IEquals(value, value')
    ensures IEquals(ClosedS(t, rows, i, value), ClosedS(t, rows, i, value'))
    ensures IEquals(ClosedG(t, rows, i, value), ClosedG(t, rows, i, value'))
  {
  }

  lemma SeedsMeet(t: Target, rows: seq<Row>, k: nat, k': nat, i: nat)
    requires WellSized(t, rows) && i < t.columns
    requires k < |rows| && IsPositive(t, rows, k) && k' < |rows| && IsPositive(t, rows, k')
    ensures IEquals(ClosedS(t, rows, i, rows[k][i]), ClosedS(t, rows, i, rows[k'][i]))
    ensures IEquals(ClosedG(t, rows, i, rows[k][i]), ClosedG(t, rows, i, rows[k'][i]))
  {
    var value, value' := rows[k][i], rows[k'][i];
    if IEquals(value, value') {
      SameValue(t, rows, i, value, value');
    }
  }

  /**
     A literal `*` in the seed is taken for an empty cell.  S covers all positive rows, whatever
     rows follow the seed, exactly if the seed holds none.
   */
  lemma CoversIffNoStar(t: Target, seed: Row)
    requires |seed| == t.columns + 1 && Positive(t, seed)
    ensures (forall rest :: WellSized(t, rest) ==> SCovers(t, seed, rest)) <==> Seed(t, seed)
  {
    if Seed(t, seed) {
      forall rest | WellSized(t, rest)
        ensures SCovers(t, seed, rest)
      {
        SeedCovers(t, seed, rest);
      }
    } else {
      var i :| 0 <= i < t.columns && seed[i] == NOTHING;
      StarUncovered(t, seed, i);
    }
  }

  /** S, built from the seed and a chunk that starts with it, covers the chunk's positive rows. */
  ghost predicate SCovers(t: Target, seed: Row, rest: seq<Row>)
    requires |seed| == t.columns + 1 && WellSized(t, rest)
  {
    CoversPositives(t, Pass(t, Compared(t, Initial(t), seed), [seed] + rest).s, [seed] + rest)
  }

  lemma SeedCovers(t: Target, seed: Row, rest: seq<Row>)
    requires Seed(t, seed) && WellSized(t, rest)
    ensures SCovers(t, seed, rest)
  {
    hide IEquals, Pass;
    PassClosed(t, seed, [seed] + rest);
  }

  lemma StarUncovered(t: Target, seed: Row, i: nat)
    requires |seed| == t.columns + 1 && Positive(t, seed) && i < t.columns && seed[i] == NOTHING
    ensures WellSized(t, [seed[i := "a"]]) && !SCovers(t, seed, [seed[i := "a"]])
  {
    var other := seed[i := "a"];
    var rows := [seed] + [other];
    var v := Compared(t, Initial(t), seed);
    assert rows[..1] == [seed] && [seed][..0] == [];
    assert Pass(t, v, [seed]) == Compared(t, v, seed);
    assert Pass(t, v, rows).s[i] == "a";
    assert LowerCase("a")[0] == 'a' && LowerCase(NOTHING)[0] == '*';
    assert IsPositive(t, rows, 0) && !Covers(Pass(t, v, rows).s, rows[0]);
  }

  /** The order of the rows and the choice of the seed do not matter, up to letter case. */
  lemma OrderIndependent(t: Target, rows: seq<Row>, k: nat, rows': seq<Row>, k': nat)
    requires WellSized(t, rows) && FromSeed(t, rows, k) && WellSized(t, rows') && FromSeed(t, rows', k')
    requires multiset(rows) == multiset(rows')
    ensures var v := Pass(t, Compared(t, Initial(t), rows[k]), rows);
      var v' := Pass(t, Compared(t, Initial(t), rows'[k']), rows');
      && (forall i :: 0 <= i < t.columns ==> IEquals(v.s[i], v'.s[i]) && IEquals(v.g[i], v'.g[i]))
      && v.positives == v'.positives && v.negatives == v'.negatives
  {
    hide IEquals, Pass, Positives, PositivesAgree, ClosedS, ClosedG;
    PassClosed(t, rows[k], rows);
    PassClosed(t, rows'[k'], rows');
    PositivesPermuted(t, rows, rows');
    SameMembers(rows, rows');
    assert rows'[k'] in rows;
    var j: nat :| j < |rows| && rows[j] == rows'[k'];
    assert IsPositive(t, rows, j);
    forall i | 0 <= i < t.columns
      ensures IEquals(ClosedS(t, rows, i, rows[k][i]), ClosedS(t, rows', i, rows'[k'][i]))
      ensures IEquals(ClosedG(t, rows, i, rows[k][i]), ClosedG(t, rows', i, rows'[k'][i]))
    {
      SeedsMeet(t, rows, k, j, i);
      SameClosed(t, rows, rows', i, rows[j][i]);
    }
  }

  lemma SameMembers(rows: seq<Row>, rows': seq<Row>)
    requires multiset(rows) == multiset(rows')
    ensures forall r :: r in rows <==> r in rows'
  {
    forall r
      ensures r in rows <==> r in rows'
    {
      assert r in rows <==> r in multiset(rows);
    }
  }

  lemma SameClosed(t: Target, rows: seq<Row>, rows': seq<Row>, i: nat, value: string)
    requires WellSized(t, rows) && WellSized(t, rows') && i < t.columns
    requires forall r :: r in rows <==> r in rows'
    ensures ClosedS(t, rows, i, value) == ClosedS(t, rows', i, value)
    ensures ClosedG(t, rows, i, value) == ClosedG(t, rows', i, value)
  {
    SameRows(t, rows, rows', i, value);
  }

  /** The seed is compared a second time when its turn comes: only the count of positives shows it. */
  lemma SeedTwice(t: Target, rows: seq<Row>, k: nat)
    requires WellSized(t, rows) && FromSeed(t, rows, k)
    ensures WellSized(t, rows[..k] + rows[k + 1..])
    ensures var v := Pass(t, Compared(t, Initial(t), rows[k]), rows);
      var once := Pass(t, Compared(t, Initial(t), rows[k]), rows[..k] + rows[k + 1..]);
      && v.s == once.s && v.g == once.g
      && v.positives == once.positives + 1 && v.negatives == once.negatives
      && v.positives - 1 == Positives(t, rows)
  {
    hide IEquals, Pass, Positives, PositivesAgree, NegativesDiffer, HasNegative;
    var others := rows[..k] + rows[k + 1..];
    PositivesRemove(t, rows, k);
    PassClosed(t, rows[k], rows);
    PassClosed(t, rows[k], others);
    forall i | 0 <= i < t.columns
      ensures ClosedS(t, rows, i, rows[k][i]) == ClosedS(t, others, i, rows[k][i])
      ensures ClosedG(t, rows, i, rows[k][i]) == ClosedG(t, others, i, rows[k][i])
    {
      SeedAgrees(t, rows, k, i);
    }
  }

  lemma SeedAgrees(t: Target, rows: seq<Row>, k: nat, i: nat)
    requires WellSized(t, rows) && k < |rows| && IsPositive(t, rows, k) && i < t.columns
    ensures var others, value := rows[..k] + rows[k + 1..], rows[k][i];
      && WellSized(t, others)
      && (PositivesAgree(t, rows, i, value) <==> PositivesAgree(t, others, i, value))
      && (NegativesDiffer(t, rows, i, value) <==> NegativesDiffer(t, others, i, value))
      && (HasNegative(t, rows) <==> HasNegative(t, others))
  {
    var others := rows[..k] + rows[k + 1..];
    SameRows(t, [rows[k]] + others, rows, i, rows[k][i]);
    SeedFirst(t, rows[k], others, i);
  }

  lemma SeedFirst(t: Target, row: Row, others: seq<Row>, i: nat)
    requires |row| == t.columns + 1 && Positive(t, row) && WellSized(t, others) && i < t.columns
    ensures WellSized(t, [row] + others)
    ensures PositivesAgree(t, [row] + others, i, row[i]) <==> PositivesAgree(t, others, i, row[i])
    ensures NegativesDiffer(t, [row] + others, i, row[i]) <==> NegativesDiffer(t, others, i, row[i])
    ensures HasNegative(t, [row] + others) <==> HasNegative(t, others)
  {
    hide LowerCase, Positive;
    var all := [row] + others;
    assert IsPositive(t, all, 0);
    forall k | 0 <= k < |others|
      ensures all[k + 1] == others[k] && (IsPositive(t, all, k + 1) <==> IsPositive(t, others, k))
    {
    }
    FirstAgrees(t, row, others, i);
    FirstDiffers(t, row, others, i);
    assert HasNegative(t, others) ==> HasNegative(t, all) by {
      if k: nat :| k < |others| && !IsPositive(t, others, k) {
        assert !IsPositive(t, all, k + 1);
      }
    }
    assert HasNegative(t, all) ==> HasNegative(t, others) by {
      if k: nat :| k < |all| && !IsPositive(t, all, k) {
        assert !IsPositive(t, others, k - 1);
      }
    }
  }

  lemma FirstAgrees(t: Target, row: Row, others: seq<Row>, i: nat)
    requires |row| == t.columns + 1 && Positive(t, row) && WellSized(t, others) && i < t.columns
    ensures WellSized(t, [row] + others)
    ensures PositivesAgree(t, [row] + others, i, row[i]) <==> PositivesAgree(t, others, i, row[i])
  {
    hide LowerCase, Positive;
    var all := [row] + others;
    if PositivesAgree(t, all, i, row[i]) {
      forall k | 0 <= k < |others| && IsPositive(t, others, k)
        ensures IEquals(row[i], others[k][i])
      {
        assert all[k + 1] == others[k] && IsPositive(t, all, k + 1);
      }
    }
    if PositivesAgree(t, others, i, row[i]) {
      forall k | 0 <= k < |all| && IsPositive(t, all, k)
        ensures IEquals(row[i], all[k][i])
      {
        if k > 0 {
          assert all[k] == others[k - 1] && IsPositive(t, others, k - 1);
        }
      }
    }
  }

  lemma FirstDiffers(t: Target, row: Row, others: seq<Row>, i: nat)
    requires |row| == t.columns + 1 && Positive(t, row) && WellSized(t, others) && i < t.columns
    ensures WellSized(t, [row] + others)
    ensures NegativesDiffer(t, [row] + others, i, row[i]) <==> NegativesDiffer(t, others, i, row[i])
  {
    hide LowerCase, Positive;
    var all := [row] + others;
    if NegativesDiffer(t, all, i, row[i]) {
      forall k | 0 <= k < |others| && !IsPositive(t, others, k)
        ensures !IEquals(row[i], others[k][i])
      {
        assert all[k + 1] == others[k] && !IsPositive(t, all, k + 1);
      }
    }
    if NegativesDiffer(t, others, i, row[i]) {
      forall k | 0 <= k < |all| && !IsPositive(t, all, k)
        ensures !IEquals(row[i], all[k][i])
      {
        assert all[k] == others[k - 1] && !IsPositive(t, others, k - 1);
      }
    }
  }
}
