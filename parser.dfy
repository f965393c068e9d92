/** The decisions of `parse_header_and_data` (build_database.py): where the
    start time and the table are, which delimiter the table uses, how the
    column names are normalised, and the time of every sample. Turning the
    date text into a datetime and tokenising the table are pandas' and
    `strptime`'s work; they are the two functions of `Readers`. */
module Parser {
  import opened Wrappers
  import opened Text
  import opened Clock
  import opened Seqs

  /** A table cell as pandas reads it; `Missing` is NaN (an empty or absent
      field), which fails every comparison. */
  datatype Cell = Num(v: real) | Missing

  /** What `pd.read_csv` returns: the raw header names and the data rows. */
  datatype CsvTable = CsvTable(columns: seq<string>, rows: seq<seq<Cell>>)

  /** `','` or the regular expression `\s+`. */
  datatype Delimiter = Comma | Whitespace

  /** `datetime.strptime(text, "%d/%m/%Y %I:%M:%S %p")` and
      `pd.read_csv(fp, skiprows=n, sep=delim, engine='python')` over the
      file's lines; `None` where they raise. */
  datatype Readers = Readers(
    parseDate: string -> Option<Timestamp>,
    readCsv: (seq<string>, nat, Delimiter) -> Option<CsvTable>)

  /** Every way the parser raises; the ingestion loop treats them alike. */
  datatype ParseError = NoDateHeader | BadDate | NoLineAfterHeader | CsvFailure | MissingColumns

  /** The data frame: normalised column names, the rows, and the start time
      the sample times count from. */
  datatype Frame = Frame(columns: seq<string>, rows: seq<seq<Cell>>, start: Timestamp)

  const DatePrefix: string := "Date:"
  const HeaderMarker: string := "Time[s]"
  const DefaultDataStart: nat := 8

  /** `time_per_sample = 0.1706666667` seconds, in units of 10^-10 seconds. */
  const TimePerSample: nat := 1_706_666_667

  /** `timedelta(seconds=i * time_per_sample)` in microseconds, rounded to
      the nearest microsecond. */
  function SampleOffset(i: nat): nat
  {
    (i * TimePerSample + 5_000) / 10_000
  }

  /** Later samples lie at least 170666 microseconds after earlier ones. */
  lemma SampleOffsetGrows(i: nat, j: nat)
    requires i < j
    ensures SampleOffset(i) + 170_666 <= SampleOffset(j)
  {
    var a, b := i * TimePerSample + 5_000, j * TimePerSample + 5_000;
    assert b - a == (j - i) * TimePerSample;
    assert b - a >= TimePerSample;
    assert a == 10_000 * (a / 10_000) + a % 10_000;
    assert b == 10_000 * (b / 10_000) + b % 10_000;
  }

  /** `start + timedelta(seconds=i * time_per_sample)` for every row `i`. */
  function SampleTimes(start: Timestamp, n: nat): (ts: seq<Timestamp>)
    ensures |ts| == n
  {
    seq(n, i requires 0 <= i < n => Plus(start, SampleOffset(i)))
  }

  /** The first sample is at the start time and the sample times strictly
      increase with the row index. */
  lemma SampleTimesIncrease(start: Timestamp, n: nat)
    ensures n > 0 ==> SampleTimes(start, n)[0] == start
    ensures forall i, j :: 0 <= i < j < n ==>
      Instant(SampleTimes(start, n)[i]) < Instant(SampleTimes(start, n)[j]) &&
      !NotAfter(SampleTimes(start, n)[j], SampleTimes(start, n)[i])
  {
    var ts := SampleTimes(start, n);
    if n > 0 {
      NotAfterIffInstant(ts[0], start);
    }
    forall i, j | 0 <= i < j < n
      ensures Instant(ts[i]) < Instant(ts[j]) && !NotAfter(ts[j], ts[i])
    {
      SampleOffsetGrows(i, j);
      NotAfterIffInstant(ts[j], ts[i]);
    }
  }

  /** `c.strip().lower()` */
  function NormaliseColumn(c: string): string
  {
    Lower(Strip(c))
  }

  /** `df.columns = [c.strip().lower() for c in df.columns]` */
  function NormaliseColumns(cols: seq<string>): seq<string>
  {
    seq(|cols|, k requires 0 <= k < |cols| => NormaliseColumn(cols[k]))
  }

  predicate IsNormalised(c: string)
  {
    IsLowerCase(c) && (|c| > 0 ==> !IsSpace(c[0]) && !IsSpace(c[|c| - 1]))
  }

  lemma TrimOfUnpadded(s: string)
    requires |s| > 0 ==> !IsSpace(s[0]) && !IsSpace(s[|s| - 1])
    ensures Strip(s) == s
  {
  }

  /** A normalised name has no upper-case letter and no white space at
      either end, and normalising it again changes nothing. */
  lemma NormaliseColumnSpec(c: string)
    ensures IsNormalised(NormaliseColumn(c))
    ensures NormaliseColumn(NormaliseColumn(c)) == NormaliseColumn(c)
  {
    StripSpec(c);
    var s := Strip(c);
    LowerIsLowerCase(s);
    var n := Lower(s);
    assert |n| > 0 ==> !IsSpace(n[0]) && !IsSpace(n[|n| - 1]);
    TrimOfUnpadded(n);
  }

  /** `next((i for i, l in enumerate(lines) if 'Time[s]' in l), 8)` */
  function DataStart(lines: seq<string>): nat
  {
    var k := FirstIndex(lines, l => Contains(l, HeaderMarker));
    if k == -1 then DefaultDataStart else k
  }

  /** `',' if ',' in lines[data_start + 1] else r'\s+'` */
  function DelimiterOf(line: string): Delimiter
  {
    if Contains(line, ",") then Comma else Whitespace
  }

  /** `parse_header_and_data(fp)`. The date value is the text after the
      first colon, which in a line starting "Date:" is at position 4. A file
      whose table header is its last line (or that has no line after the
      fallback position 8) raises `IndexError` when the delimiter is
      chosen. */
  function ParseHeaderAndData(lines: seq<string>, rd: Readers): Result<Frame, ParseError>
  {
    var dateAt := FirstIndex(lines, l => StartsWith(l, DatePrefix));
    if dateAt == -1 then Err(NoDateHeader)
    else
      match rd.parseDate(Strip(lines[dateAt][|DatePrefix|..]))
      case None => Err(BadDate)
      case Some(start) =>
        var dataStart := DataStart(lines);
        if dataStart + 1 >= |lines| then Err(NoLineAfterHeader)
        else
          match rd.readCsv(lines, dataStart, DelimiterOf(lines[dataStart + 1]))
          case None => Err(CsvFailure)
          case Some(table) =>
            var names := NormaliseColumns(table.columns);
            if "lcs" !in names || "lceq" !in names then Err(MissingColumns)
            else Ok(Frame(names, table.rows, start))
  }

  /** `df['datetime']`: one timestamp per row of the frame. */
  function Times(f: Frame): (ts: seq<Timestamp>)
    ensures |ts| == |f.rows|
  {
    SampleTimes(f.start, |f.rows|)
  }

  /** What a successful parse guarantees: a "Date:" line exists and the
      start time is the date parsed from the first one, a line follows the
      table header, the rows are the ones pandas read with the chosen skip
      count and delimiter, the column names are the table's header names
      stripped and lower-cased (hence normalised), both mandatory columns
      are present, and there is one strictly increasing timestamp per row.
      A file without a "Date:" line always fails, and a file that meets
      every one of these conditions parses. */
  lemma ParseSpec(lines: seq<string>, rd: Readers)
    ensures (forall i :: 0 <= i < |lines| ==> !StartsWith(lines[i], DatePrefix)) ==>
              ParseHeaderAndData(lines, rd) == Err(NoDateHeader)
    ensures (var dateAt := FirstIndex(lines, l => StartsWith(l, DatePrefix));
             0 <= dateAt && rd.parseDate(Strip(lines[dateAt][|DatePrefix|..])).Some? &&
             DataStart(lines) + 1 < |lines| &&
             var table := rd.readCsv(lines, DataStart(lines), DelimiterOf(lines[DataStart(lines) + 1]));
             table.Some? &&
             (exists k :: 0 <= k < |table.value.columns| && NormaliseColumn(table.value.columns[k]) == "lcs") &&
             (exists k :: 0 <= k < |table.value.columns| && NormaliseColumn(table.value.columns[k]) == "lceq")) ==>
            ParseHeaderAndData(lines, rd).Ok?
    ensures ParseHeaderAndData(lines, rd).Ok? ==>
      var f := ParseHeaderAndData(lines, rd).value;
      (exists i :: 0 <= i < |lines| && StartsWith(lines[i], DatePrefix)) &&
      DataStart(lines) + 1 < |lines| &&
      rd.readCsv(lines, DataStart(lines), DelimiterOf(lines[DataStart(lines) + 1])).Some? &&
      f.rows == rd.readCsv(lines, DataStart(lines), DelimiterOf(lines[DataStart(lines) + 1])).value.rows &&
      "lcs" in f.columns && "lceq" in f.columns &&
      (var table := rd.readCsv(lines, DataStart(lines), DelimiterOf(lines[DataStart(lines) + 1])).value;
       |f.columns| == |table.columns| &&
       forall k :: 0 <= k < |f.columns| ==> f.columns[k] == NormaliseColumn(table.columns[k])) &&
      (var dateAt := FirstIndex(lines, l => StartsWith(l, DatePrefix));
       0 <= dateAt && rd.parseDate(Strip(lines[dateAt][|DatePrefix|..])) == Some(f.start)) &&
      (forall k :: 0 <= k < |f.columns| ==> IsNormalised(f.columns[k])) &&
      (forall i, j :: 0 <= i < j < |f.rows| ==> Instant(Times(f)[i]) < Instant(Times(f)[j]))
  {
    var r := ParseHeaderAndData(lines, rd);
    if r.Ok? {
      var f := r.value;
      var dateAt := FirstIndex(lines, l => StartsWith(l, DatePrefix));
      assert StartsWith(lines[dateAt], DatePrefix);
      SampleTimesIncrease(f.start, |f.rows|);
      forall k | 0 <= k < |f.columns|
        ensures IsNormalised(f.columns[k])
      {
        var table := rd.readCsv(lines, DataStart(lines), DelimiterOf(lines[DataStart(lines) + 1])).value;
        assert f.columns[k] == NormaliseColumn(table.columns[k]);
        NormaliseColumnSpec(table.columns[k]);
      }
    }
    ParsesWhenWellFormed(lines, rd);
  }

  /** A file with a "Date:" line whose date parses, a line after the table
      header, a table pandas can read and both mandatory columns parses. */
  lemma ParsesWhenWellFormed(lines: seq<string>, rd: Readers)
    ensures (var dateAt := FirstIndex(lines, l => StartsWith(l, DatePrefix));
             0 <= dateAt && rd.parseDate(Strip(lines[dateAt][|DatePrefix|..])).Some? &&
             DataStart(lines) + 1 < |lines| &&
             var table := rd.readCsv(lines, DataStart(lines), DelimiterOf(lines[DataStart(lines) + 1]));
             table.Some? &&
             (exists k :: 0 <= k < |table.value.columns| && NormaliseColumn(table.value.columns[k]) == "lcs") &&
             (exists k :: 0 <= k < |table.value.columns| && NormaliseColumn(table.value.columns[k]) == "lceq")) ==>
            ParseHeaderAndData(lines, rd).Ok?
  {
    var dateAt := FirstIndex(lines, l => StartsWith(l, DatePrefix));
    if 0 <= dateAt && DataStart(lines) + 1 < |lines| {
      var table := rd.readCsv(lines, DataStart(lines), DelimiterOf(lines[DataStart(lines) + 1]));
      if table.Some? {
        NormalisedNameIn(table.value.columns, "lcs");
        NormalisedNameIn(table.value.columns, "lceq");
      }
    }
  }

  /** A header name that normalises to `name` puts `name` among the
      normalised columns, and only such a name does. */
  lemma NormalisedNameIn(cols: seq<string>, name: string)
    ensures name in NormaliseColumns(cols) <==>
      exists k :: 0 <= k < |cols| && NormaliseColumn(cols[k]) == name
  {
    var names := NormaliseColumns(cols);
    if name in names {
      var k :| 0 <= k < |names| && names[k] == name;
    }
    if exists k :: 0 <= k < |cols| && NormaliseColumn(cols[k]) == name {
      var k :| 0 <= k < |cols| && NormaliseColumn(cols[k]) == name;
      assert names[k] == name;
    }
  }
}
