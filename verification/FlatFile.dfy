/**
 The flat file of a table: the in-place removal of duplicate rows, and the text forms
 of a file and of a row.
 */
module FlatFile {
  // ---------------------------------------------------------- first occurrences

  /** The rows at the places where they occur first, in order. */
  function FirstOccurrences(rows: seq<string>): (r: seq<string>)
    ensures forall x :: x in r <==> x in rows
    ensures |r| <= |rows|
  {
    if rows == [] then []
    else
      var n := |rows| - 1;
      assert rows == rows[..n] + [rows[n]];
      FirstOccurrences(rows[..n]) + if rows[n] in rows[..n] then [] else [rows[n]]
  }

  predicate NoDuplicates(rows: seq<string>) {
    forall i, k :: 0 <= i < k < |rows| ==> rows[i] != rows[k]
  }

  /** `places` are the places of the first occurrences. */
  ghost predicate PicksFirsts(rows: seq<string>, picked: seq<string>, places: seq<nat>) {
    && |places| == |picked|
    && (forall k :: 0 <= k < |places| ==> places[k] < |rows| && picked[k] == rows[places[k]])
    && (forall k :: 0 <= k < |places| ==> forall i :: 0 <= i < places[k] ==> rows[i] != rows[places[k]])
    && (forall k, l :: 0 <= k < l < |places| ==> places[k] < places[l])
  }

  /** The result is a subsequence of first occurrences without duplicates; the header stays first. */
  lemma {:induction false} FirstOccurrencesMeans(rows: seq<string>) returns (places: seq<nat>)
    ensures NoDuplicates(FirstOccurrences(rows))
    ensures PicksFirsts(rows, FirstOccurrences(rows), places)
    ensures rows != [] ==> FirstOccurrences(rows) != [] && FirstOccurrences(rows)[0] == rows[0]
  {
    hide PicksFirsts, NoDuplicates;
    places := [];
    PicksNone();
    if rows != [] {
      var n := |rows| - 1;
      var init := rows[..n];
      places := FirstOccurrencesMeans(init);
      PicksLonger(rows, FirstOccurrences(init), places);
      if rows[n] !in init {
        PicksLast(rows, FirstOccurrences(init), places);
        NewLast(FirstOccurrences(init), rows[n]);
        places := places + [n];
      } else {
        assert FirstOccurrences(rows) == FirstOccurrences(init);
      }
    }
  }

  lemma PicksNone()
    ensures PicksFirsts([], [], []) && NoDuplicates([])
  {
  }

  lemma PicksLonger(rows: seq<string>, picked: seq<string>, places: seq<nat>)
    requires rows != [] && PicksFirsts(rows[..|rows| - 1], picked, places)
    ensures PicksFirsts(rows, picked, places)
  {
    var init := rows[..|rows| - 1];
    assert forall i :: 0 <= i < |init| ==> rows[i] == init[i];
  }

  lemma PicksLast(rows: seq<string>, picked: seq<string>, places: seq<nat>)
    requires rows != [] && PicksFirsts(rows[..|rows| - 1], picked, places) && rows[|rows| - 1] !in rows[..|rows| - 1]
    ensures PicksFirsts(rows, picked + [rows[|rows| - 1]], places + [|rows| - 1])
  {
    var init := rows[..|rows| - 1];
    assert forall i :: 0 <= i < |init| ==> rows[i] == init[i] && rows[i] != rows[|rows| - 1];
  }

  lemma NewLast(rows: seq<string>, x: string)
    requires NoDuplicates(rows) && x !in rows
    ensures NoDuplicates(rows + [x])
  {
  }

  lemma {:induction false} NothingToRemove(rows: seq<string>)
    requires NoDuplicates(rows)
    ensures FirstOccurrences(rows) == rows
  {
    if rows != [] {
      var n := |rows| - 1;
      NothingToRemove(rows[..n]);
      assert rows == rows[..n] + [rows[n]];
    }
  }

  lemma OneMoreRow(rows: seq<string>, x: string)
    ensures FirstOccurrences(rows + [x]) == FirstOccurrences(rows) + if x in rows then [] else [x]
  {
    assert (rows + [x])[..|rows|] == rows;
  }

  /** A row that has occurred before may go. */
  lemma {:induction false} RepetitionGoes(a: seq<string>, x: string, b: seq<string>)
    requires x in a
    ensures FirstOccurrences(a + [x] + b) == FirstOccurrences(a + b)
  {
    if b == [] {
      assert a + [x] + b == a + [x] && a + b == a;
      OneMoreRow(a, x);
    } else {
      hide FirstOccurrences;
      var n := |b| - 1;
      RepetitionGoes(a, x, b[..n]);
      assert a + [x] + b == (a + [x] + b[..n]) + [b[n]] && a + b == (a + b[..n]) + [b[n]];
      OneMoreRow(a + [x] + b[..n], b[n]);
      OneMoreRow(a + b[..n], b[n]);
      assert b[n] in a + [x] + b[..n] <==> b[n] in a + b[..n];
    }
  }

  function Without(rows: seq<string>, x: string): (r: seq<string>)
    ensures x !in r && forall y :: y in r ==> y in rows
  {
    if rows == [] then []
    else (if rows[0] == x then [] else [rows[0]]) + Without(rows[1..], x)
  }

  /** The removal of the rows equal to row `r` has come as far as place `i`. */
  ghost predicate ErasedUpTo(rows: seq<string>, r: nat, now: seq<string>, i: nat) {
    && r < |rows| && i <= |now|
    && now[..i] + Without(now[i..], rows[r]) == rows[..r + 1] + Without(rows[r + 1..], rows[r])
    && FirstOccurrences(now) == FirstOccurrences(rows)
  }

  lemma EraseStart(rows: seq<string>, r: nat)
    requires r < |rows|
    ensures ErasedUpTo(rows, r, rows, r + 1) && rows[r] in rows[..r + 1]
  {
    assert rows[..r + 1][r] == rows[r];
  }

  lemma EraseEnd(rows: seq<string>, r: nat, now: seq<string>)
    requires ErasedUpTo(rows, r, now, |now|)
    ensures r < |rows| && now == rows[..r + 1] + Without(rows[r + 1..], rows[r])
    ensures FirstOccurrences(now) == FirstOccurrences(rows)
  {
    assert now[..|now|] == now && now[|now|..] == [];
  }

  lemma Splits(rows: seq<string>, i: nat)
    requires i < |rows|
    ensures rows == rows[..i] + [rows[i]] + rows[i + 1..]
    ensures rows[i..] == [rows[i]] + rows[i + 1..] && rows[..i + 1] == rows[..i] + [rows[i]]
    ensures var less := rows[..i] + rows[i + 1..]; less[..i] == rows[..i] && less[i..] == rows[i + 1..]
  {
  }

  lemma EraseStep(rows: seq<string>, r: nat, now: seq<string>, i: nat)
    requires i < |now| && ErasedUpTo(rows, r, now, i) && now[i] == rows[r] && rows[r] in now[..i]
    ensures ErasedUpTo(rows, r, now[..i] + now[i + 1..], i)
  {
    hide FirstOccurrences;
    Splits(now, i);
    RepetitionGoes(now[..i], now[i], now[i + 1..]);
  }

  lemma KeepStep(rows: seq<string>, r: nat, now: seq<string>, i: nat)
    requires i < |now| && ErasedUpTo(rows, r, now, i) && now[i] != rows[r]
    ensures ErasedUpTo(rows, r, now, i + 1)
  {
    hide FirstOccurrences;
    Splits(now, i);
    assert Without(now[i..], rows[r]) == [now[i]] + Without(now[i + 1..], rows[r]);
    assert now[..i] + ([now[i]] + Without(now[i + 1..], rows[r]))
        == (now[..i] + [now[i]]) + Without(now[i + 1..], rows[r]);
  }

  // ------------------------------------------------------------------ the file

  datatype AccessMode = READ_FILE | RW_FILE

  datatype FileStatus = OK | ACCESS_DENIED | INVALID_ACCESS_MODE | DUPLICATE_CLEANUP_DONE | ROW_INDEX_UNDERFLOW

  const SIZE_RANGE := 0x1_0000_0000_0000_0000

  /** A row index compared with a size is read as unsigned. */
  function Unsigned(i: int): int {
    if i < 0 then i + SIZE_RANGE else i
  }

  class FileDataBaseAccess {
    const accessMode: AccessMode
    var readData: seq<string>
    var readWriteData: seq<string>
    var dataModified: bool
    var fileDeleted: bool

    constructor (accessMode: AccessMode, rows: seq<string>)
      ensures this.accessMode == accessMode && !dataModified && !fileDeleted
      ensures readData == (if accessMode == READ_FILE then rows else [])
      ensures readWriteData == (if accessMode == READ_FILE then [] else rows)
    {
      this.accessMode := accessMode;
      readData := if accessMode == READ_FILE then rows else [];
      readWriteData := if accessMode == READ_FILE then [] else rows;
      dataModified, fileDeleted := false, false;
    }

    function Rows(): seq<string>
      reads this
    {
      if accessMode == READ_FILE then readData else readWriteData
    }

    /** The rows after `rowIndex` that are equal to it go, in place. */
    method DeleteDuplicateRecords(rowIndex: int) returns (code: FileStatus)
      modifies `readWriteData, `dataModified
      ensures code ==
        if fileDeleted then ACCESS_DENIED
        else if accessMode == READ_FILE then INVALID_ACCESS_MODE
        else if |old(readWriteData)| <= Unsigned(rowIndex) then DUPLICATE_CLEANUP_DONE
        else if rowIndex < 0 then ROW_INDEX_UNDERFLOW
        else OK
      ensures code != OK ==> readWriteData == old(readWriteData) && dataModified == old(dataModified)
      ensures code == OK ==>
        var rows := old(readWriteData);
        && readWriteData == rows[..rowIndex + 1] + Without(rows[rowIndex + 1..], rows[rowIndex])
        && dataModified == (old(dataModified) || rows[rowIndex] in rows[rowIndex + 1..])
        && FirstOccurrences(readWriteData) == FirstOccurrences(rows)
    {
      hide Without, FirstOccurrences, ErasedUpTo;
      if fileDeleted {
        return ACCESS_DENIED;
      }
      if accessMode == READ_FILE {
        return INVALID_ACCESS_MODE;
      }
      if |readWriteData| <= Unsigned(rowIndex) {
        return DUPLICATE_CLEANUP_DONE;
      }
      if rowIndex < 0 {
        return ROW_INDEX_UNDERFLOW;
      }
      var compareString := readWriteData[rowIndex];
      var i := rowIndex + 1;
      ghost var rows := readWriteData;
      EraseStart(rows, rowIndex);
      while i < |readWriteData|
        invariant rowIndex < i <= |readWriteData|
        invariant compareString in readWriteData[..i]
        invariant ErasedUpTo(rows, rowIndex, readWriteData, i)
        invariant dataModified || compareString in readWriteData[i..] <==>
            old(dataModified) || compareString in rows[rowIndex + 1..]
        decreases |readWriteData| - i
      {
        Splits(readWriteData, i);
        if compareString == readWriteData[i] {
          EraseStep(rows, rowIndex, readWriteData, i);
          readWriteData := readWriteData[..i] + readWriteData[i + 1..];
          dataModified := true;
        } else {
          KeepStep(rows, rowIndex, readWriteData, i);
          i := i + 1;
        }
      }
      EraseEnd(rows, rowIndex, readWriteData);
      code := OK;
    }

    /** All rows, each followed by a line feed; nothing for a deleted file. */
    method GetBlob() returns (blob: string)
      ensures blob == if fileDeleted then "" else Blob(Rows())
    {
      if fileDeleted {
        return "";
      }
      blob := "";
      var rows := Rows();
      for i := 0 to |rows|
        invariant blob == Blob(rows[..i])
      {
        blob := blob + (rows[i] + "\n");
        assert rows[..i + 1][..i] == rows[..i];
      }
      assert rows[..|rows|] == rows;
    }

    /** Replaces the rows by the lines of a text. */
    method WriteBlob(data: string) returns (code: FileStatus)
      modifies `readWriteData, `dataModified
      ensures code == if fileDeleted then ACCESS_DENIED else if accessMode == READ_FILE then INVALID_ACCESS_MODE else OK
      ensures if code == OK then readWriteData == Lines(data) && dataModified
              else readWriteData == old(readWriteData) && dataModified == old(dataModified)
    {
      if fileDeleted {
        return ACCESS_DENIED;
      }
      if accessMode == READ_FILE {
        return INVALID_ACCESS_MODE;
      }
      readWriteData := SplitStringByNewline(data);
      dataModified := true;
      code := OK;
    }
  }

  /** The cleaner calls the removal with an index that grows by one each time. */
  class DataCleaner {
    var iterator_: nat
    const file: FileDataBaseAccess

    constructor (file: FileDataBaseAccess)
      ensures this.file == file && iterator_ == 0
    {
      this.file, iterator_ := file, 0;
    }

    method Clean() returns (done: bool)
      modifies `iterator_, file`readWriteData, file`dataModified
      ensures iterator_ == old(iterator_) + 1
      ensures file.accessMode == RW_FILE && !file.fileDeleted ==>
        (done <==> |old(file.readWriteData)| <= old(iterator_))
      ensures done || file.accessMode == READ_FILE || file.fileDeleted ==> file.readWriteData == old(file.readWriteData)
      ensures file.accessMode == RW_FILE && !file.fileDeleted && !done ==>
        var rows, i := old(file.readWriteData), old(iterator_);
        && file.readWriteData == rows[..i + 1] + Without(rows[i + 1..], rows[i])
        && FirstOccurrences(file.readWriteData) == FirstOccurrences(rows)
    {
      var code := file.DeleteDuplicateRecords(iterator_);
      iterator_ := iterator_ + 1;
      done := code == DUPLICATE_CLEANUP_DONE;
    }

    /** The start process is called until it is done. */
    method Run()
      requires file.accessMode == RW_FILE && !file.fileDeleted && iterator_ == 0
      modifies `iterator_, file`readWriteData, file`dataModified
      ensures file.readWriteData == FirstOccurrences(old(file.readWriteData))
    {
      hide FirstOccurrences, Without;
      ghost var original := file.readWriteData;
      var done := false;
      while !done
        invariant FirstOccurrences(file.readWriteData) == FirstOccurrences(original)
        invariant forall i, k :: 0 <= i < iterator_ && i < k < |file.readWriteData| ==>
            file.readWriteData[i] != file.readWriteData[k]
        invariant done ==> |file.readWriteData| <= iterator_
        decreases !done, |file.readWriteData| - iterator_
      {
        ghost var rows, i := file.readWriteData, iterator_;
        done := Clean();
        if !done {
          CleanedPrefix(rows, i);
        }
      }
      NothingToRemove(file.readWriteData);
    }
  }

  lemma CleanedPrefix(rows: seq<string>, i: nat)
    requires i < |rows|
    requires forall j, k :: 0 <= j < i && j < k < |rows| ==> rows[j] != rows[k]
    ensures var rest := Without(rows[i + 1..], rows[i]);
      var rows' := rows[..i + 1] + rest;
      && |rows'| <= |rows|
      && forall j, k :: 0 <= j < i + 1 && j < k < |rows'| ==> rows'[j] != rows'[k]
  {
    var rest := Without(rows[i + 1..], rows[i]);
    var rows' := rows[..i + 1] + rest;
    WithoutShorter(rows[i + 1..], rows[i]);
    forall j, k | 0 <= j < i + 1 && j < k < |rows'|
      ensures rows'[j] != rows'[k]
    {
      if k > i {
        assert rows'[k] in rest;
        assert rows'[k] in rows[i + 1..];
      }
    }
  }

  lemma {:induction false} WithoutShorter(rows: seq<string>, x: string)
    ensures |Without(rows, x)| <= |rows|
  {
    if rows != [] {
      WithoutShorter(rows[1..], x);
    }
  }

  // -------------------------------------------------------------- the text of a file

  function Blob(rows: seq<string>): string {
    if rows == [] then "" else Blob(rows[..|rows| - 1]) + (rows[|rows| - 1] + "\n")
  }

  /** The lines of a text; what follows the last line feed is a line unless it is empty. */
  function Lines(text: string): seq<string>
    decreases |text|
  {
    if text == "" then []
    else
      var k := Index(text, '\n');
      if k == |text| then [text] else [text[..k]] + Lines(text[k + 1..])
  }

  /** The parts between the separators, of which there is always one more. */
  function Fields(row: string, separator: char): (r: seq<string>)
    ensures r != []
    decreases |row|
  {
    var k := Index(row, separator);
    if k == |row| then [row] else [row[..k]] + Fields(row[k + 1..], separator)
  }

  /** The first place of the character; the length if it does not occur. */
  function Index(text: string, c: char): (k: nat)
    ensures k <= |text| && (k < |text| ==> text[k] == c)
    ensures forall i :: 0 <= i < k ==> text[i] != c
    decreases |text|
  {
    if text == "" || text[0] == c then 0 else 1 + Index(text[1..], c)
  }

  lemma LinesUnfold(text: string)
    requires text != ""
    ensures var k := Index(text, '\n');
      Lines(text) == if k == |text| then [text] else [text[..k]] + Lines(text[k + 1..])
  {
    hide Index;
  }

  lemma NoLines()
    ensures Lines("") == []
  {
  }

  lemma FieldsUnfold(row: string, separator: char)
    ensures var k := Index(row, separator);
      Fields(row, separator) == if k == |row| then [row] else [row[..k]] + Fields(row[k + 1..], separator)
  {
    hide Index;
  }

  lemma SliceOfSlice(text: string, p: nat, k: nat)
    requires p + k <= |text|
    ensures p + k < |text| ==> text[p..][k + 1..] == text[p + k + 1..]
    ensures p + k == |text| ==> text[p..][..k] == text[p..]
  {
  }

  lemma Regroup(before: seq<string>, x: string, rest: seq<string>)
    ensures before + ([x] + rest) == (before + [x]) + rest
    ensures before + [x] == (before + [x]) + []
  {
  }

  lemma LinesStep(text: string, p: nat, before: seq<string>)
    requires p < |text|
    ensures var k := Index(text[p..], '\n');
      before + Lines(text[p..])
      == (before + [text[p..][..k]]) + (if p + k == |text| then [] else Lines(text[p + k + 1..]))
  {
    hide Index, Lines;
    var k := Index(text[p..], '\n');
    LinesUnfold(text[p..]);
    SliceOfSlice(text, p, k);
    Regroup(before, text[p..][..k], if p + k == |text| then [] else Lines(text[p + k + 1..]));
  }

  lemma FieldsStep(row: string, p: nat, separator: char, before: seq<string>)
    requires p <= |row|
    ensures var k := Index(row[p..], separator);
      before + Fields(row[p..], separator)
      == (before + [row[p..][..k]]) + (if p + k == |row| then [] else Fields(row[p + k + 1..], separator))
  {
    hide Index, Fields;
    var k := Index(row[p..], separator);
    FieldsUnfold(row[p..], separator);
    SliceOfSlice(row, p, k);
    Regroup(before, row[p..][..k], if p + k == |row| then [] else Fields(row[p + k + 1..], separator));
  }

  method SplitStringByNewline(text: string) returns (lines: seq<string>)
    ensures lines == Lines(text)
  {
    hide Index, Lines;
    lines := [];
    var p := 0;
    assert text[0..] == text;
    NoLines();
    while p < |text|
      invariant p <= |text| && lines + Lines(text[p..]) == Lines(text)
      decreases |text| - p
    {
      var k := Index(text[p..], '\n');
      LinesStep(text, p, lines);
      lines := lines + [text[p..][..k]];
      if p + k == |text| {
        p := p + k;
        assert text[p..] == "";
      } else {
        p := p + k + 1;
      }
    }
    assert text[p..] == "";
  }

  /** Reads fields until the end of the row has been met. */
  method AdvTokenizer(row: string, separator: char) returns (fields: seq<string>)
    ensures fields == Fields(row, separator)
  {
    hide Index, Fields;
    assert row[0..] == row;
    fields := [];
    var p, eof := 0, false;
    while !eof
      invariant p <= |row|
      invariant if eof then fields == Fields(row, separator)
          else fields + Fields(row[p..], separator) == Fields(row, separator)
      decreases !eof, |row| - p
    {
      var k := Index(row[p..], separator);
      FieldsStep(row, p, separator, fields);
      fields := fields + [row[p..][..k]];
      if p + k == |row| {
        eof := true;
      } else {
        p := p + k + 1;
      }
    }
  }

  function JoinFields(values: seq<string>, separator: char): string
    requires values != []
  {
    if |values| == 1 then values[0] else values[0] + [separator] + JoinFields(values[1..], separator)
  }

  /** The row that `writeRowValueList` puts together. */
  method JoinRow(valueList: seq<string>) returns (row: string)
    requires valueList != []
    ensures row == JoinFields(valueList, ',')
  {
    row := valueList[0];
    for i := 1 to |valueList|
      invariant JoinFields(valueList, ',') == row + (if i < |valueList| then "," + JoinFields(valueList[i..], ',')
          else "")
    {
      row := row + ("," + valueList[i]);
    }
  }

  // --------------------------------------------------------------------- round trips

  lemma IndexOfEnd(a: string, c: char, b: string)
    requires c !in a
    ensures Index(a + [c] + b, c) == |a|
  {
    var text := a + [c] + b;
    assert text[|a|] == c;
    assert forall i :: 0 <= i < |a| ==> text[i] == a[i];
  }

  function BlobFront(rows: seq<string>): string {
    if rows == [] then "" else rows[0] + "\n" + BlobFront(rows[1..])
  }

  lemma {:induction false} BlobFrontSame(rows: seq<string>)
    ensures Blob(rows) == BlobFront(rows)
  {
    if |rows| > 0 {
      BlobFrontSame(rows[1..]);
      BlobCons(rows[0], rows[1..]);
      assert rows == [rows[0]] + rows[1..];
    }
  }

  lemma {:induction false} BlobCons(row: string, rows: seq<string>)
    ensures Blob([row] + rows) == row + "\n" + Blob(rows)
  {
    var n := |rows|;
    if n == 0 {
      assert [row] + rows == [row] && [row][..0] == [];
      assert Blob([row]) == Blob([]) + (row + "\n");
    } else {
      BlobCons(row, rows[..n - 1]);
      assert ([row] + rows)[..n] == [row] + rows[..n - 1];
    }
  }

  /** Rows without line feeds survive being printed and split again. */
  lemma {:induction false} LinesOfBlob(rows: seq<string>)
    requires forall i :: 0 <= i < |rows| ==> '\n' !in rows[i]
    ensures Lines(Blob(rows)) == rows
  {
    hide Lines, Index, Blob;
    NoLines();
    BlobFrontSame(rows);
    if rows != [] {
      var rest := BlobFront(rows[1..]);
      BlobFrontSame(rows[1..]);
      LinesOfBlob(rows[1..]);
      IndexOfEnd(rows[0], '\n', rest);
      LinesUnfold(rows[0] + "\n" + rest);
      EndOfLine(rows[0], '\n', rest);
    }
  }

  lemma EndOfLine(a: string, c: char, b: string)
    ensures var text := a + [c] + b; text[..|a|] == a && text[|a| + 1..] == b
  {
  }

  /** A text survives being split and printed again exactly if it is empty or ends with a line feed. */
  lemma {:induction false} BlobOfLines(text: string)
    ensures Blob(Lines(text)) == text <==> text == "" || text[|text| - 1] == '\n'
    decreases |text|
  {
    hide Blob;
    BlobFrontSame(Lines(text));
    if text != "" {
      var k := Index(text, '\n');
      if k == |text| {
        LastLineGrows(text);
      } else {
        var rest := text[k + 1..];
        BlobOfLines(rest);
        BlobFrontSame(Lines(rest));
        FirstLine(text, k);
        SameTail(text[..k] + "\n", BlobFront(Lines(rest)), rest);
      }
    }
  }

  lemma LastLineGrows(text: string)
    requires text != "" && Index(text, '\n') == |text|
    ensures BlobFront(Lines(text)) != text && text[|text| - 1] != '\n'
  {
    assert Lines(text) == [text];
    assert BlobFront([text]) == text + "\n";
    assert |text + "\n"| == |text| + 1;
  }

  lemma FirstLine(text: string, k: nat)
    requires k == Index(text, '\n') < |text|
    ensures BlobFront(Lines(text)) == text[..k] + "\n" + BlobFront(Lines(text[k + 1..]))
    ensures text == text[..k] + "\n" + text[k + 1..]
  {
    hide Index, Lines, BlobFront;
    LinesUnfold(text);
    BlobFrontCons(text[..k], Lines(text[k + 1..]));
    SplitAt(text, k);
  }

  lemma BlobFrontCons(row: string, rows: seq<string>)
    ensures BlobFront([row] + rows) == row + "\n" + BlobFront(rows)
  {
    assert ([row] + rows)[1..] == rows;
  }

  lemma SplitAt(text: string, k: nat)
    requires k < |text| && text[k] == '\n'
    ensures text == text[..k] + "\n" + text[k + 1..]
  {
  }

  lemma SameTail(a: string, b: string, c: string)
    ensures a + b == a + c <==> b == c
  {
    if a + b == a + c {
      assert (a + b)[|a|..] == b && (a + c)[|a|..] == c;
    }
  }

  /** Values without separators survive being joined into a row and split again. */
  lemma {:induction false} FieldsOfJoined(values: seq<string>, separator: char)
    requires values != [] && forall i :: 0 <= i < |values| ==> separator !in values[i]
    ensures Fields(JoinFields(values, separator), separator) == values
  {
    hide Fields, Index;
    if |values| == 1 {
      NoSeparator(values[0], separator);
      FieldsUnfold(values[0], separator);
    } else {
      var rest := JoinFields(values[1..], separator);
      FieldsOfJoined(values[1..], separator);
      IndexOfEnd(values[0], separator, rest);
      FieldsUnfold(values[0] + [separator] + rest, separator);
      EndOfLine(values[0], separator, rest);
    }
  }

  lemma NoSeparator(s: string, c: char)
    requires c !in s
    ensures Index(s, c) == |s|
  {
  }

  /** Every row is the join of its fields. */
  lemma {:induction false} JoinedOfFields(row: string, separator: char)
    ensures JoinFields(Fields(row, separator), separator) == row
    decreases |row|
  {
    hide Fields, Index;
    var k := Index(row, separator);
    FieldsUnfold(row, separator);
    if k < |row| {
      JoinedOfFields(row[k + 1..], separator);
      var rest := Fields(row[k + 1..], separator);
      JoinOneMore(row[..k], rest, separator);
      assert row == row[..k] + [separator] + row[k + 1..];
    }
  }

  lemma JoinOneMore(first: string, rest: seq<string>, separator: char)
    requires rest != []
    ensures JoinFields([first] + rest, separator) == first + [separator] + JoinFields(rest, separator)
  {
    assert ([first] + rest)[1..] == rest;
  }
}
