/**
 * The result files both runners append to: `exists()` is checked first,
 * the file is opened with mode "a" (which creates it), the header row is
 * written only when the file did not exist, and then the data rows follow.
 * A file is its sequence of lines; CSV quoting and encoding are not modelled.
 */
module CsvLog {

  /** One written line: the column names, or one data row. */
  datatype Line<R> = HeaderLine(columns: seq<string>) | DataLine(row: R)

  /** The rows as data lines, in order. */
  function DataLines<R>(rows: seq<R>): (ls: seq<Line<R>>)
    ensures |ls| == |rows|
    ensures forall i :: 0 <= i < |rows| ==> ls[i] == DataLine(rows[i])
  {
    seq(|rows|, i requires 0 <= i < |rows| => DataLine(rows[i]))
  }

  /** Data lines of two batches are the data lines of the joined batch. */
  lemma DataLinesAppend<R>(rows: seq<R>, rows': seq<R>)
    ensures DataLines(rows + rows') == DataLines(rows) + DataLines(rows')
  {
  }

  /** Writing the rows `rows[i..j]` after the rows `rows[..i]` gives the rows `rows[..j]`. */
  lemma DataLinesPrefixStep<R>(start: seq<Line<R>>, rows: seq<R>, i: nat, j: nat)
    requires i <= j <= |rows|
    ensures start + DataLines(rows[..i]) + DataLines(rows[i..j]) == start + DataLines(rows[..j])
  {
    assert rows[..j] == rows[..i] + rows[i..j];
    DataLinesAppend(rows[..i], rows[i..j]);
  }

  /** The lines after one append: the old lines, the header if the file did not exist, the new rows. */
  function Appended<R>(existed: bool, lines: seq<Line<R>>, header: seq<string>, rows: seq<R>): seq<Line<R>> {
    lines + (if existed then [] else [HeaderLine(header)]) + DataLines(rows)
  }

  /** The number of header lines. */
  function HeaderCount<R>(lines: seq<Line<R>>): (n: nat)
    ensures n <= |lines|
  {
    if lines == [] then 0
    else HeaderCount(lines[..|lines| - 1]) + (if lines[|lines| - 1].HeaderLine? then 1 else 0)
  }

  /** Header lines of two pieces add up. */
  lemma {:induction false} HeaderCountAppend<R>(a: seq<Line<R>>, b: seq<Line<R>>)
    ensures HeaderCount(a + b) == HeaderCount(a) + HeaderCount(b)
    decreases |b|
  {
    if b != [] {
      var b' := b[..|b| - 1];
      assert (a + b)[..|a + b| - 1] == a + b';
      HeaderCountAppend(a, b');
    } else {
      assert a + b == a;
    }
  }

  /** Data lines hold no header. */
  lemma {:induction false} DataLinesHaveNoHeader<R>(rows: seq<R>)
    ensures HeaderCount(DataLines(rows)) == 0
    decreases |rows|
  {
    if rows != [] {
      var rows' := rows[..|rows| - 1];
      assert DataLines(rows)[..|rows| - 1] == DataLines(rows');
      DataLinesHaveNoHeader(rows');
    }
  }

  /**
   * An append keeps every earlier line in place, adds one header exactly
   * when the file did not exist, and ends with the new rows.
   */
  lemma AppendedKeepsAndCounts<R>(existed: bool, lines: seq<Line<R>>, header: seq<string>, rows: seq<R>)
    ensures var r := Appended(existed, lines, header, rows);
      && |r| == |lines| + (if existed then 0 else 1) + |rows|
      && r[..|lines|] == lines
      && r[|r| - |rows|..] == DataLines(rows)
      && HeaderCount(r) == HeaderCount(lines) + (if existed then 0 else 1)
  {
    var h: seq<Line<R>> := if existed then [] else [HeaderLine(header)];
    HeaderCountAppend(lines + h, DataLines(rows));
    HeaderCountAppend(lines, h);
    DataLinesHaveNoHeader(rows);
    if !existed {
      assert HeaderCount(h) == HeaderCount(h[..0]) + 1;
    }
  }

  /** The file is empty, or it is one header followed by data lines only. */
  ghost predicate WellFormed<R>(lines: seq<Line<R>>, header: seq<string>) {
    lines != [] ==> lines[0] == HeaderLine(header) && forall k :: 1 <= k < |lines| ==> lines[k].DataLine?
  }

  /** Appending to a missing file, or to a well-formed non-empty one, keeps it well formed. */
  lemma AppendedKeepsWellFormed<R>(existed: bool, lines: seq<Line<R>>, header: seq<string>, rows: seq<R>)
    requires existed <==> lines != []
    requires WellFormed(lines, header)
    ensures WellFormed(Appended(existed, lines, header, rows), header)
  {
  }

  /** A file that exists but is empty gets no header: its first line is a data row. */
  lemma ExistingEmptyFileGetsNoHeader<R>(header: seq<string>, row: R)
    ensures Appended(true, [], header, [row]) == [DataLine(row)]
    ensures !WellFormed(Appended(true, [], header, [row]), header)
  {
  }

  /** All batches, joined in order. */
  function Flatten<R>(batches: seq<seq<R>>): (rows: seq<R>)
    ensures batches == [] ==> rows == []
  {
    if batches == [] then [] else Flatten(batches[..|batches| - 1]) + batches[|batches| - 1]
  }

  /** The lines after one append per batch, starting from a missing file. */
  function AfterRuns<R>(header: seq<string>, batches: seq<seq<R>>): seq<Line<R>> {
    if batches == [] then []
    else
      var before := batches[..|batches| - 1];
      Appended(before != [], AfterRuns(header, before), header, batches[|batches| - 1])
  }

  /** However many runs append to a fresh file, it holds one header and then every batch in order. */
  lemma {:induction false} AfterRunsIsHeaderThenRows<R>(header: seq<string>, batches: seq<seq<R>>)
    requires batches != []
    ensures AfterRuns(header, batches) == [HeaderLine(header)] + DataLines(Flatten(batches))
    decreases |batches|
  {
    var before := batches[..|batches| - 1];
    var last := batches[|batches| - 1];
    if before == [] {
      assert batches == [last];
      assert Flatten(batches) == [] + last;
    } else {
      AfterRunsIsHeaderThenRows(header, before);
      DataLinesAppend(Flatten(before), last);
    }
  }

  /** A result file: whether it exists, and its lines. */
  class CsvFile<R> {
    var present: bool
    var lines: seq<Line<R>>

    /** A missing file has no lines. */
    ghost predicate Valid()
      reads this
    {
      !present ==> lines == []
    }

    /** A file that does not exist yet. */
    constructor Missing()
      ensures Valid() && !present && lines == []
    {
      present := false;
      lines := [];
    }

    /** A file left by earlier runs. */
    constructor Existing(contents: seq<Line<R>>)
      ensures Valid() && present && lines == contents
    {
      present := true;
      lines := contents;
    }

    /** `open(path, "a")`: the file exists afterwards, and nothing in it changes. */
    method OpenForAppend()
      modifies this
      requires Valid()
      ensures Valid() && present && lines == old(lines)
    {
      present := true;
    }

    /** `writer.writerow(...)`: one line at the end. */
    method WriteLine(line: Line<R>)
      modifies this
      requires present
      ensures present && lines == old(lines) + [line]
    {
      lines := lines + [line];
    }

    /** `writer.writerows(rows)`: the rows at the end, in order. */
    method WriteRows(rows: seq<R>)
      modifies this
      requires present
      ensures present && lines == old(lines) + DataLines(rows)
    {
      for i := 0 to |rows|
        invariant present && lines == old(lines) + DataLines(rows[..i])
      {
        assert rows[..i + 1] == rows[..i] + [rows[i]];
        DataLinesAppend(rows[..i], [rows[i]]);
        WriteLine(DataLine(rows[i]));
      }
      assert rows[..|rows|] == rows;
    }
  }

  /**
   * The append step both runners end with: check whether the file exists,
   * open it for appending, write the header if it did not, then the rows.
   */
  method AppendWithHeader<R>(file: CsvFile<R>, header: seq<string>, rows: seq<R>)
    modifies file
    requires file.Valid()
    ensures file.Valid() && file.present
    ensures file.lines == Appended(old(file.present), old(file.lines), header, rows)
  {
    var existed := file.present;
    file.OpenForAppend();
    if !existed {
      file.WriteLine(HeaderLine(header));
    }
    file.WriteRows(rows);
  }
}
