/** The per-file ingestion loop of build_database.py: skip content already
    recorded by its MD5 digest, report invalid or unparsable files, silently
    skip files without the extended columns or without a plausible row, and
    otherwise append the plausible rows to `spl_data` and record the digest.
    Hashing and text decoding are the functions of `Codecs`. */
module Ingest {
  import opened Wrappers
  import opened Clock
  import opened Seqs
  import opened Header
  import opened Parser
  import opened Store

  type Byte = bv8

  /** `hashlib.md5(...).hexdigest()` */
  type Digest = string

  /** A `.txt` file found under a dated folder: its path and its bytes. */
  datatype LogFile = LogFile(path: Path, bytes: seq<Byte>)

  /** `file_md5sum`, `open(fp, encoding='utf-8').readlines()` (`None` when
      opening or decoding fails) and the parser's readers. */
  datatype Codecs = Codecs(
    md5: seq<Byte> -> Digest,
    readLines: seq<Byte> -> Option<seq<string>>,
    readers: Readers)

  // ---------------------------------------------------------------------
  // The plausibility filter (`spl_rows = df[[...]]` and the mask after it)

  /** One row of `df[['timestamp', 'lceq', 'lceq1m', 'lceq10m', 'lcs']]`. */
  datatype Selected = Selected(timestamp: Timestamp, lceq: Cell, lceq1m: Cell, lceq10m: Cell, lcs: Cell)

  /** Position of a normalised column name (the first, if repeated). */
  function ColumnIndex(columns: seq<string>, name: string): int
  {
    FirstIndex(columns, c => c == name)
  }

  /** A row's cell in column `k`; pandas pads short rows with NaN. */
  function CellAt(row: seq<Cell>, k: int): Cell
  {
    if 0 <= k < |row| then row[k] else Missing
  }

  function SelectColumns(f: Frame): (s: seq<Selected>)
    ensures |s| == |f.rows|
  {
    var times := Times(f);
    var iLceq, iLceq1m := ColumnIndex(f.columns, "lceq"), ColumnIndex(f.columns, "lceq1m");
    var iLceq10m, iLcs := ColumnIndex(f.columns, "lceq10m"), ColumnIndex(f.columns, "lcs");
    seq(|f.rows|, i requires 0 <= i < |f.rows| =>
      Selected(times[i], CellAt(f.rows[i], iLceq), CellAt(f.rows[i], iLceq1m),
               CellAt(f.rows[i], iLceq10m), CellAt(f.rows[i], iLcs)))
  }

  /** `cell >= MIN_SPL_LIMIT`; NaN compares false. */
  predicate AtLeastFloor(c: Cell)
  {
    c.Num? && c.v >= MinSplLimit
  }

  /** The mask of lines 215-220. */
  predicate PlausibleRow(s: Selected)
  {
    AtLeastFloor(s.lcs) && AtLeastFloor(s.lceq) && AtLeastFloor(s.lceq1m) && AtLeastFloor(s.lceq10m)
  }

  function ValueOf(c: Cell): real
  {
    if c.Num? then c.v else 0.0
  }

  /** The `spl_data` row written for a selected row; `lzpeak` is not among
      the selected columns, so it is stored as NULL. */
  function ToReading(s: Selected, path: Path, location: Location): Reading
  {
    Reading(s.timestamp, ValueOf(s.lceq), ValueOf(s.lcs), ValueOf(s.lceq1m), ValueOf(s.lceq10m),
            None, path, location)
  }

  /** The rows ingestion appends for a parsed file. */
  function PlausibleReadings(f: Frame, path: Path, location: Location): seq<Reading>
  {
    var kept := Filter(SelectColumns(f), PlausibleRow);
    seq(|kept|, k requires 0 <= k < |kept| => ToReading(kept[k], path, location))
  }

  /** Selecting from a sequence whose keys strictly increase keeps them
      strictly increasing. */
  lemma {:induction false} FilterKeepsTimeOrder(s: seq<Selected>, p: Selected -> bool)
    requires forall i, j :: 0 <= i < j < |s| ==> Instant(s[i].timestamp) < Instant(s[j].timestamp)
    ensures forall i, j :: 0 <= i < j < |Filter(s, p)| ==>
              Instant(Filter(s, p)[i].timestamp) < Instant(Filter(s, p)[j].timestamp)
    decreases |s|
  {
    if s != [] {
      var init := s[..|s| - 1];
      FilterKeepsTimeOrder(init, p);
      var r, prev := Filter(s, p), Filter(init, p);
      FilterMembers(init, p);
      forall i, j | 0 <= i < j < |r|
        ensures Instant(r[i].timestamp) < Instant(r[j].timestamp)
      {
        if j == |prev| {
          assert r[i] == prev[i] && prev[i] in init;
          var i' :| 0 <= i' < |init| && init[i'] == prev[i];
        } else {
          assert r[i] == prev[i] && r[j] == prev[j];
        }
      }
    }
  }

  /** The filter of lines 215-220: every appended row clears the floor on
      `lcs`, `lceq`, `lceq1m` and `lceq10m`, has no `lzpeak`, and carries
      the file's path and location. */
  lemma PlausibleReadingsAboveFloor(f: Frame, path: Path, location: Location)
    ensures var out := PlausibleReadings(f, path, location);
      AllAboveFloor(out) &&
      forall k :: 0 <= k < |out| ==> out[k].lzpeak == None && out[k].source == path && out[k].location == location
  {
    var kept := Filter(SelectColumns(f), PlausibleRow);
    FilterMembers(SelectColumns(f), PlausibleRow);
    forall k | 0 <= k < |kept|
      ensures PlausibleRow(kept[k])
    {
      assert kept[k] in kept;
    }
  }

  /** The appended rows keep the frame's order: their timestamps strictly
      increase. */
  lemma PlausibleReadingsInOrder(f: Frame, path: Path, location: Location)
    ensures var out := PlausibleReadings(f, path, location);
      forall k, l :: 0 <= k < l < |out| ==> Instant(out[k].timestamp) < Instant(out[l].timestamp)
  {
    var sel := SelectColumns(f);
    SampleTimesIncrease(f.start, |f.rows|);
    assert forall i, j :: 0 <= i < j < |sel| ==> Instant(sel[i].timestamp) < Instant(sel[j].timestamp);
    FilterKeepsTimeOrder(sel, PlausibleRow);
  }

  /** In a selection from rows with distinct timestamps, an element with a
      row's timestamp is that row, and the row qualified. */
  lemma KeptByTime(s: seq<Selected>, p: Selected -> bool, k: nat, i: nat)
    requires forall a, b :: 0 <= a < b < |s| ==> Instant(s[a].timestamp) < Instant(s[b].timestamp)
    requires i < |s| && k < |Filter(s, p)| && Filter(s, p)[k].timestamp == s[i].timestamp
    ensures Filter(s, p)[k] == s[i] && p(s[i])
  {
    var x := Filter(s, p)[k];
    FilterMembers(s, p);
    assert x in Filter(s, p);
    var i' :| 0 <= i' < |s| && s[i'] == x;
  }

  /** The selected rows of a frame are in strictly increasing time order,
      each stamped with its row's sample time. */
  lemma SelectionInOrder(f: Frame)
    ensures var sel := SelectColumns(f);
      (forall i :: 0 <= i < |sel| ==> sel[i].timestamp == Times(f)[i]) &&
      forall a, b :: 0 <= a < b < |sel| ==> Instant(sel[a].timestamp) < Instant(sel[b].timestamp)
  {
    SampleTimesIncrease(f.start, |f.rows|);
  }

  /** In a selection from rows with distinct timestamps, the rows kept are
      told apart by their timestamps, and every qualifying row is kept. */
  lemma KeptExactly(sel: seq<Selected>)
    requires forall a, b :: 0 <= a < b < |sel| ==> Instant(sel[a].timestamp) < Instant(sel[b].timestamp)
    ensures var kept := Filter(sel, PlausibleRow);
      (forall i, k :: 0 <= i < |sel| && 0 <= k < |kept| && kept[k].timestamp == sel[i].timestamp ==>
         kept[k] == sel[i] && PlausibleRow(sel[i])) &&
      forall i :: 0 <= i < |sel| && PlausibleRow(sel[i]) ==>
        exists k :: 0 <= k < |kept| && kept[k].timestamp == sel[i].timestamp
  {
    var kept := Filter(sel, PlausibleRow);
    FilterMembers(sel, PlausibleRow);
    forall i, k | 0 <= i < |sel| && 0 <= k < |kept| && kept[k].timestamp == sel[i].timestamp
      ensures kept[k] == sel[i] && PlausibleRow(sel[i])
    {
      KeptByTime(sel, PlausibleRow, k, i);
    }
    forall i | 0 <= i < |sel| && PlausibleRow(sel[i])
      ensures exists k :: 0 <= k < |kept| && kept[k].timestamp == sel[i].timestamp
    {
      assert sel[i] in kept;
      var k :| 0 <= k < |kept| && kept[k] == sel[i];
    }
  }

  /** The statement of `PlausibleReadingsExact` for any selection whose rows are stamped with `times`
      in increasing order and any `out` that maps the kept rows to readings. */
  lemma MappedExact(sel: seq<Selected>, times: seq<Timestamp>, out: seq<Reading>, path: Path, location: Location)
    requires |times| == |sel| && forall i :: 0 <= i < |sel| ==> sel[i].timestamp == times[i]
    requires forall a, b :: 0 <= a < b < |sel| ==> Instant(sel[a].timestamp) < Instant(sel[b].timestamp)
    requires |out| == |Filter(sel, PlausibleRow)|
    requires forall k :: 0 <= k < |out| ==> out[k] == ToReading(Filter(sel, PlausibleRow)[k], path, location)
    ensures forall i :: 0 <= i < |sel| ==>
              (PlausibleRow(sel[i]) <==> exists k :: 0 <= k < |out| && out[k].timestamp == times[i])
    ensures forall i, k :: 0 <= i < |sel| && 0 <= k < |out| && out[k].timestamp == times[i] ==>
              out[k] == ToReading(sel[i], path, location)
  {
    var kept := Filter(sel, PlausibleRow);
    KeptExactly(sel);
    forall i | 0 <= i < |sel|
      ensures PlausibleRow(sel[i]) <==> exists k :: 0 <= k < |out| && out[k].timestamp == times[i]
    {
      if exists k :: 0 <= k < |out| && out[k].timestamp == times[i] {
        var k :| 0 <= k < |out| && out[k].timestamp == times[i];
        assert kept[k].timestamp == sel[i].timestamp;
      }
      if PlausibleRow(sel[i]) {
        var k :| 0 <= k < |kept| && kept[k].timestamp == sel[i].timestamp;
        assert out[k].timestamp == times[i];
      }
    }
  }

  /** A row of the frame is appended exactly when all four of its checked
      levels clear the floor, and then with its own values; nothing else is
      appended. Rows are told apart by their timestamps, which strictly
      increase. */
  lemma PlausibleReadingsExact(f: Frame, path: Path, location: Location)
    ensures var out := PlausibleReadings(f, path, location);
      (forall k :: 0 <= k < |out| ==>
         exists i :: 0 <= i < |f.rows| && out[k] == ToReading(SelectColumns(f)[i], path, location)) &&
      (forall i :: 0 <= i < |f.rows| ==>
         (PlausibleRow(SelectColumns(f)[i]) <==> exists k :: 0 <= k < |out| && out[k].timestamp == Times(f)[i])) &&
      (forall i, k :: 0 <= i < |f.rows| && 0 <= k < |out| && out[k].timestamp == Times(f)[i] ==>
         out[k] == ToReading(SelectColumns(f)[i], path, location))
  {
    SelectionInOrder(f);
    MappedExact(SelectColumns(f), Times(f), PlausibleReadings(f, path, location), path, location);
    FromFrameRows(f, path, location);
  }

  /** Every appended reading is the reading of some row of the frame. */
  lemma FromFrameRows(f: Frame, path: Path, location: Location)
    ensures var out := PlausibleReadings(f, path, location);
      forall k :: 0 <= k < |out| ==>
        exists i :: 0 <= i < |f.rows| && out[k] == ToReading(SelectColumns(f)[i], path, location)
  {
    var sel := SelectColumns(f);
    var kept := Filter(sel, PlausibleRow);
    var out := PlausibleReadings(f, path, location);
    FilterMembers(sel, PlausibleRow);
    forall k | 0 <= k < |out|
      ensures exists i :: 0 <= i < |f.rows| && out[k] == ToReading(sel[i], path, location)
    {
      assert kept[k] in sel;
      var i :| 0 <= i < |sel| && sel[i] == kept[k];
    }
  }

  // ---------------------------------------------------------------------
  // Routing one file

  /** Where the loop body sends a file. */
  datatype Route =
    | AlreadyProcessed         // digest already in `processed_files`
    | InvalidHeader            // `is_valid_rew_file` is false: reported
    | ParseFailed(error: ParseError)  // the parser raised: reported
    | MissingExtended          // no lceq1m, lceq10m or lzpeak column: skipped silently
    | NothingPlausible         // every row below the floor: skipped silently
    | Inserted(rows: seq<Reading>)

  predicate HasExtendedColumns(f: Frame)
  {
    "lceq1m" in f.columns && "lceq10m" in f.columns && "lzpeak" in f.columns
  }

  /** The route of a file whose digest is not recorded yet; it depends on
      the file's bytes and path only. */
  function ContentRoute(f: LogFile, c: Codecs): Route
  {
    var text := c.readLines(f.bytes);
    if !IsValidRewFile(text) then InvalidHeader
    else
      match ParseHeaderAndData(text.value, c.readers)
      case Err(e) => ParseFailed(e)
      case Ok(frame) =>
        if !HasExtendedColumns(frame) then MissingExtended
        else
          var rows := PlausibleReadings(frame, f.path, ExtractLocation(text));
          if rows == [] then NothingPlausible else Inserted(rows)
  }

  /** Everything the loop needs to know about a file: its path, the digest
      of its bytes, and the route its content takes when that digest is not
      recorded yet. */
  datatype Scanned = Scanned(path: Path, digest: Digest, content: Route)

  function Scan(f: LogFile, c: Codecs): Scanned
  {
    Scanned(f.path, c.md5(f.bytes), ContentRoute(f, c))
  }

  /** One scan per file, in walk order. */
  function ScanAll(files: seq<LogFile>, c: Codecs): seq<Scanned>
  {
    seq(|files|, k requires 0 <= k < |files| => Scan(files[k], c))
  }

  /** What the content of a file can lead to: inserted rows are never
      empty, all clear the plausibility floor, and all carry the file's
      path. Byte-identical files get the same digest and the same content
      route whatever their paths, apart from the path recorded in the rows. */
  lemma ScanSpec(f: LogFile, g: LogFile, c: Codecs)
    ensures var s := Scan(f, c);
      s.content.Inserted? ==>
        s.content.rows != [] && AllAboveFloor(s.content.rows) &&
        forall k :: 0 <= k < |s.content.rows| ==> s.content.rows[k].source == f.path
    ensures f.bytes == g.bytes ==>
      Scan(f, c).digest == Scan(g, c).digest &&
      (Scan(f, c).content.Inserted? <==> Scan(g, c).content.Inserted?)
  {
    var text := c.readLines(f.bytes);
    if ContentRoute(f, c).Inserted? {
      PlausibleReadingsAboveFloor(ParseHeaderAndData(text.value, c.readers).value, f.path, ExtractLocation(text));
    }
  }

  /** Lines 191-223 for one file, given the recorded digests. */
  function RouteOf(s: Scanned, recorded: set<Digest>): Route
  {
    if s.digest in recorded then AlreadyProcessed else s.content
  }

  /** Everything the loop reads and writes: `processed_files` (digest to
      path), `spl_data`, the `bad_files` list and `processed_count`. */
  datatype Db = Db(processed: map<Digest, Path>, splData: seq<Reading>, badFiles: seq<Path>, processedCount: nat)

  /** The effect of the loop body on one file. */
  function Step(db: Db, s: Scanned): Db
  {
    var route := RouteOf(s, db.processed.Keys);
    if route.Inserted? then
      db.(splData := db.splData + route.rows,
          processed := db.processed[s.digest := s.path],
          processedCount := db.processedCount + 1)
    else if route.InvalidHeader? || route.ParseFailed? then
      db.(badFiles := db.badFiles + [s.path])
    else
      db
  }

  /** The loop over the files in the order the directory walk yields them. */
  function Run(db: Db, ss: seq<Scanned>): Db
    decreases |ss|
  {
    if ss == [] then db else Step(Run(db, ss[..|ss| - 1]), ss[|ss| - 1])
  }

  /** The route the loop takes for the `i`-th file of a run. */
  function RouteAt(db: Db, ss: seq<Scanned>, i: nat): Route
    requires i < |ss|
  {
    RouteOf(ss[i], Run(db, ss[..i]).processed.Keys)
  }

  /** How each route changes the state: a recorded digest changes nothing;
      an invalid header or a parse failure appends the path to `bad_files`
      and nothing else; missing extended columns or no plausible row change
      nothing; only an insertion appends rows, records the digest and
      counts the file. */
  lemma StepEffects(db: Db, s: Scanned)
    requires s.content.Inserted? ==> s.content.rows != []
    ensures var r, db' := RouteOf(s, db.processed.Keys), Step(db, s);
      (s.digest in db.processed ==> db' == db) &&
      ((r.InvalidHeader? || r.ParseFailed?) ==> db' == db.(badFiles := db.badFiles + [s.path])) &&
      ((r.MissingExtended? || r.NothingPlausible?) ==> db' == db) &&
      (db'.processed.Keys == if r.Inserted? then db.processed.Keys + {s.digest} else db.processed.Keys) &&
      (db'.processedCount == if r.Inserted? then db.processedCount + 1 else db.processedCount) &&
      (r.Inserted? <==> s.digest !in db.processed && |db'.splData| > |db.splData|)
  {
  }

  /** Appended rows always clear the plausibility floor, and rows already
      stored are kept. */
  lemma {:induction false} RunKeepsFloor(db: Db, ss: seq<Scanned>)
    requires AllAboveFloor(db.splData)
    requires forall k :: 0 <= k < |ss| && ss[k].content.Inserted? ==> AllAboveFloor(ss[k].content.rows)
    ensures AllAboveFloor(Run(db, ss).splData)
    ensures db.splData <= Run(db, ss).splData
    decreases |ss|
  {
    if ss != [] {
      RunKeepsFloor(db, ss[..|ss| - 1]);
    }
  }

  /** Recorded digests are never dropped: a run only adds to them. */
  lemma {:induction false} RunKeysGrow(db: Db, ss: seq<Scanned>, i: nat, j: nat)
    requires i <= j <= |ss|
    ensures Run(db, ss[..i]).processed.Keys <= Run(db, ss[..j]).processed.Keys
    decreases j
  {
    if i < j {
      RunKeysGrow(db, ss, i, j - 1);
      assert ss[..j][..j - 1] == ss[..j - 1];
    }
  }

  /** Files with the same digest are inserted at most once, even within one
      run and under different paths: once one is inserted, every later one
      is skipped as already processed. */
  lemma SameDigestInsertedOnce(db: Db, ss: seq<Scanned>, i: nat, j: nat)
    requires i < j < |ss| && ss[i].digest == ss[j].digest
    requires RouteAt(db, ss, i).Inserted?
    ensures RouteAt(db, ss, j) == AlreadyProcessed
  {
    assert ss[..i + 1][..i] == ss[..i];
    RunKeysGrow(db, ss, i + 1, j);
  }

  /** The same for files: byte-identical files found anywhere in one walk
      are inserted at most once. */
  lemma IdenticalFilesInsertedOnce(db: Db, files: seq<LogFile>, c: Codecs, i: nat, j: nat)
    requires i < j < |files| && files[i].bytes == files[j].bytes
    requires RouteAt(db, ScanAll(files, c), i).Inserted?
    ensures RouteAt(db, ScanAll(files, c), j) == AlreadyProcessed
  {
    ScanSpec(files[i], files[j], c);
    SameDigestInsertedOnce(db, ScanAll(files, c), i, j);
  }

  /** One step keeps the count of processed files equal to the number of
      digests recorded since `db0`. */
  lemma StepCountsNewDigest(db0: Db, mid: Db, s: Scanned)
    requires db0.processed.Keys <= mid.processed.Keys
    requires mid.processedCount == db0.processedCount + |mid.processed.Keys - db0.processed.Keys|
    ensures db0.processed.Keys <= Step(mid, s).processed.Keys
    ensures Step(mid, s).processedCount == db0.processedCount + |Step(mid, s).processed.Keys - db0.processed.Keys|
  {
    var inserted := RouteOf(s, mid.processed.Keys).Inserted?;
    StepRecords(mid, s);
    if inserted {
      NewKeyCounts(db0.processed.Keys, mid.processed.Keys, s.digest);
    }
  }

  /** A step records the digest and counts the file exactly when it inserts. */
  lemma StepRecords(db: Db, s: Scanned)
    ensures var inserted := RouteOf(s, db.processed.Keys).Inserted?;
      Step(db, s).processed.Keys == (if inserted then db.processed.Keys + {s.digest} else db.processed.Keys) &&
      Step(db, s).processedCount == (if inserted then db.processedCount + 1 else db.processedCount) &&
      (inserted ==> s.digest !in db.processed.Keys)
  {
  }

  lemma NewKeyCounts(K0: set<Digest>, K: set<Digest>, d: Digest)
    requires K0 <= K && d !in K
    ensures K0 <= K + {d}
    ensures |(K + {d}) - K0| == |K - K0| + 1
  {
    assert (K + {d}) - K0 == (K - K0) + {d};
  }

  /** A step never changes the path recorded for a digest. */
  lemma StepKeepsPaths(mid: Db, s: Scanned)
    ensures forall h :: h in mid.processed ==> h in Step(mid, s).processed && Step(mid, s).processed[h] == mid.processed[h]
  {
  }

  /** Each insertion records a digest not recorded before, so the count of
      processed files equals the number of new digests, and the path kept
      for every earlier digest is unchanged. */
  lemma {:induction false} RunCountsNewDigests(db: Db, ss: seq<Scanned>)
    ensures db.processed.Keys <= Run(db, ss).processed.Keys
    ensures forall h :: h in db.processed ==> Run(db, ss).processed[h] == db.processed[h]
    ensures Run(db, ss).processedCount == db.processedCount + |Run(db, ss).processed.Keys - db.processed.Keys|
    decreases |ss|
  {
    if ss == [] {
      assert db.processed.Keys - db.processed.Keys == {};
    } else {
      var init := ss[..|ss| - 1];
      RunCountsNewDigests(db, init);
      StepCountsNewDigest(db, Run(db, init), ss[|ss| - 1]);
      StepKeepsPaths(Run(db, init), ss[|ss| - 1]);
    }
  }

  /** The state a new run of the script starts from: the tables persist,
      the bad-files list and the counter start afresh. */
  function Restart(db: Db): Db
  {
    Db(db.processed, db.splData, [], 0)
  }

  /** After a run, every file of it is settled: its digest is recorded or
      its content would not be inserted anyway. */
  lemma {:induction false} RunSettles(db: Db, ss: seq<Scanned>)
    ensures forall k :: 0 <= k < |ss| ==> ss[k].digest in Run(db, ss).processed || !ss[k].content.Inserted?
    decreases |ss|
  {
    if ss != [] {
      var init := ss[..|ss| - 1];
      RunSettles(db, init);
      RunKeysGrow(db, ss, |ss| - 1, |ss|);
      assert ss[..|ss|] == ss;
    }
  }

  /** A run over settled files inserts nothing. */
  lemma {:induction false} SettledRunInsertsNothing(db: Db, ss: seq<Scanned>)
    requires forall k :: 0 <= k < |ss| ==> ss[k].digest in db.processed || !ss[k].content.Inserted?
    ensures Run(db, ss).processed == db.processed
    ensures Run(db, ss).splData == db.splData
    ensures Run(db, ss).processedCount == db.processedCount
    decreases |ss|
  {
    if ss != [] {
      SettledRunInsertsNothing(db, ss[..|ss| - 1]);
    }
  }

  /** Running the script again over the same files leaves `spl_data` and
      `processed_files` as they are and counts no new file. */
  lemma RerunInsertsNothing(db: Db, ss: seq<Scanned>)
    ensures var again := Run(Restart(Run(db, ss)), ss);
      again.processed == Run(db, ss).processed &&
      again.splData == Run(db, ss).splData &&
      again.processedCount == 0
  {
    RunSettles(db, ss);
    SettledRunInsertsNothing(Restart(Run(db, ss)), ss);
  }

  /** A file that lacks the extended columns is neither reported nor
      recorded, so it is examined again on every run. */
  lemma MissingExtendedIsNotReported(db: Db, s: Scanned)
    requires s.digest !in db.processed
    requires s.content == MissingExtended
    ensures Step(db, s) == db
    ensures Step(Restart(Step(db, s)), s) == Restart(db)
    ensures s.path !in db.badFiles ==> s.path !in Step(db, s).badFiles
  {
  }

  /** The checks of the loop body once the digest is known to be new
      (lines 196-226), in the script's order: header, parse, extended
      columns, plausible rows. This is the loop body's step-by-step form of
      `ContentRoute`, which states the same routing as one expression. */
  method ClassifyContent(f: LogFile, c: Codecs) returns (route: Route)
    ensures route == ContentRoute(f, c)
  {
    var text := c.readLines(f.bytes);
    if !IsValidRewFile(text) {
      return InvalidHeader;
    }
    var parsed := ParseHeaderAndData(text.value, c.readers);
    if parsed.Err? {
      return ParseFailed(parsed.error);
    }
    var frame := parsed.value;
    if !HasExtendedColumns(frame) {
      return MissingExtended;
    }
    var location := ExtractLocation(text);
    var rows := PlausibleReadings(frame, f.path, location);
    if rows == [] {
      return NothingPlausible;
    }
    route := Inserted(rows);
  }

  // ---------------------------------------------------------------------
  // The loop itself, over the script's module-level state

  class Ingestor {
    var processedFiles: map<Digest, Path>
    var splData: seq<Reading>
    var badFiles: seq<Path>
    var processedCount: nat
    const codecs: Codecs

    function State(): Db
      reads this
    {
      Db(processedFiles, splData, badFiles, processedCount)
    }

    /** A run starts from the stored tables, no bad files and a zero count. */
    constructor (processed: map<Digest, Path>, stored: seq<Reading>, c: Codecs)
      ensures State() == Db(processed, stored, [], 0) && codecs == c
    {
      processedFiles, splData, badFiles, processedCount := processed, stored, [], 0;
      codecs := c;
    }

    /** The loop body for one file (lines 191-232). */
    method ProcessFile(f: LogFile) returns (route: Route)
      modifies this
      ensures route == RouteOf(Scan(f, codecs), old(processedFiles).Keys)
      ensures State() == Step(old(State()), Scan(f, codecs))
    {
      var md5 := codecs.md5(f.bytes);
      if md5 in processedFiles {
        return AlreadyProcessed;
      }
      route := ClassifyContent(f, codecs);
      if route.InvalidHeader? || route.ParseFailed? {
        badFiles := badFiles + [f.path];
      } else if route.Inserted? {
        splData := splData + route.rows;
        processedFiles := processedFiles[md5 := f.path];
        processedCount := processedCount + 1;
      }
    }

    /** The loop over all files (lines 178-232). */
    method ProcessAll(files: seq<LogFile>)
      modifies this
      ensures State() == Run(old(State()), ScanAll(files, codecs))
    {
      var i := 0;
      while i < |files|
        invariant 0 <= i <= |files|
        invariant State() == Run(old(State()), ScanAll(files[..i], codecs))
      {
        var _ := ProcessFile(files[i]);
        assert ScanAll(files[..i + 1], codecs)[..i] == ScanAll(files[..i], codecs);
        i := i + 1;
      }
      assert files[..|files|] == files;
    }
  }
}
