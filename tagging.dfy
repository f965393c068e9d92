/** The session tagger at the end of build_database.py: every stored
    reading that falls in a configured window yields a key
    `(label, date, time, round(lceq, 1), source)`; a key is emitted once,
    and only when the `sessions` table does not hold it already. */
module Tagging {
  import opened Wrappers
  import opened Clock
  import opened Header
  import opened Store
  import opened Windows

  /** `(session_label, date_key, time_key, lceq_rounded, source)`. The date
      and time strings are `strftime` renderings of the reading's day and
      time of day, which they determine and are determined by. */
  datatype SessionKey = SessionKey(session: string, date: int, time: TimeOfDay, lceq: real, source: Path)

  /** `(*row_key, None, location)`: one row for the `sessions` table. */
  datatype SessionRow = SessionRow(key: SessionKey, plot: Option<string>, location: Location)

  /** A key the loop considers, with the location it would be stored with. */
  datatype Candidate = Candidate(key: SessionKey, location: Location)

  /** The key of reading `r` under window `w`; `round1` is Python's
      `round(x, 1)` (and SQLite's `ROUND(x, 1)` for the stored keys). */
  function KeyOf(w: Window, r: Reading, round1: real -> real): SessionKey
  {
    SessionKey(w.name, r.timestamp.day, r.timestamp.time, round1(r.lceq), r.source)
  }

  /** The inner loop's candidates: the readings inside `w`, in table order. */
  function CandidatesFor(w: Window, rows: seq<Reading>, round1: real -> real): seq<Candidate>
    decreases |rows|
  {
    if rows == [] then []
    else
      var r := rows[|rows| - 1];
      CandidatesFor(w, rows[..|rows| - 1], round1) +
        (if Includes(r.timestamp, w) then [Candidate(KeyOf(w, r, round1), r.location)] else [])
  }

  /** All candidates, window by window in configuration order. */
  function Candidates(ws: seq<Window>, rows: seq<Reading>, round1: real -> real): seq<Candidate>
    decreases |ws|
  {
    if ws == [] then []
    else Candidates(ws[..|ws| - 1], rows, round1) + CandidatesFor(ws[|ws| - 1], rows, round1)
  }

  /** The keys of the rows emitted so far: the loop's `seen` set. */
  function KeySet(data: seq<SessionRow>): set<SessionKey>
  {
    set k | 0 <= k < |data| :: data[k].key
  }

  /** The rows the loop appends to `session_data` for the candidates in
      order: a candidate is emitted unless its key was seen or exists. */
  function Emit(cands: seq<Candidate>, existing: set<SessionKey>): seq<SessionRow>
    decreases |cands|
  {
    if cands == [] then []
    else
      var prev := Emit(cands[..|cands| - 1], existing);
      var c := cands[|cands| - 1];
      if c.key !in KeySet(prev) && c.key !in existing then prev + [SessionRow(c.key, None, c.location)]
      else prev
  }

  /** `session_data` after the tagging loop. */
  function SessionData(ws: seq<Window>, rows: seq<Reading>, existing: set<SessionKey>, round1: real -> real): seq<SessionRow>
  {
    Emit(Candidates(ws, rows, round1), existing)
  }

  lemma KeySetAppend(data: seq<SessionRow>, row: SessionRow)
    ensures KeySet(data + [row]) == KeySet(data) + {row.key}
  {
    var d := data + [row];
    assert d[|data|].key == row.key;
    forall k | k in KeySet(data)
      ensures k in KeySet(d)
    {
      var i :| 0 <= i < |data| && data[i].key == k;
      assert d[i].key == k;
    }
  }

  /** A candidate of window `w` comes from a reading inside `w`, and every
      reading inside `w` yields one. */
  lemma {:induction false} CandidatesForIff(w: Window, rows: seq<Reading>, round1: real -> real)
    ensures forall c :: c in CandidatesFor(w, rows, round1) <==>
      exists j :: 0 <= j < |rows| && Includes(rows[j].timestamp, w) &&
        c == Candidate(KeyOf(w, rows[j], round1), rows[j].location)
    decreases |rows|
  {
    if rows != [] {
      var init := rows[..|rows| - 1];
      CandidatesForIff(w, init, round1);
      forall c | c in CandidatesFor(w, rows, round1)
        ensures (exists j :: 0 <= j < |rows| && Includes(rows[j].timestamp, w) &&
                   c == Candidate(KeyOf(w, rows[j], round1), rows[j].location))
      {
        if c in CandidatesFor(w, init, round1) {
          var j :| 0 <= j < |init| && Includes(init[j].timestamp, w) &&
            c == Candidate(KeyOf(w, init[j], round1), init[j].location);
          assert rows[j] == init[j];
        }
      }
      forall j | 0 <= j < |rows| && Includes(rows[j].timestamp, w)
        ensures Candidate(KeyOf(w, rows[j], round1), rows[j].location) in CandidatesFor(w, rows, round1)
      {
        if j < |init| {
          assert rows[j] == init[j];
        }
      }
    }
  }

  /** A candidate comes from a configured window and a reading inside it,
      and every such pair yields a candidate. */
  lemma {:induction false} CandidatesIff(ws: seq<Window>, rows: seq<Reading>, round1: real -> real)
    ensures forall c :: c in Candidates(ws, rows, round1) <==>
      exists i, j :: 0 <= i < |ws| && 0 <= j < |rows| && Includes(rows[j].timestamp, ws[i]) &&
        c == Candidate(KeyOf(ws[i], rows[j], round1), rows[j].location)
    decreases |ws|
  {
    if ws != [] {
      var init, w := ws[..|ws| - 1], ws[|ws| - 1];
      CandidatesIff(init, rows, round1);
      CandidatesForIff(w, rows, round1);
      forall c | c in Candidates(ws, rows, round1)
        ensures (exists i, j :: 0 <= i < |ws| && 0 <= j < |rows| && Includes(rows[j].timestamp, ws[i]) &&
                   c == Candidate(KeyOf(ws[i], rows[j], round1), rows[j].location))
      {
        if c in Candidates(init, rows, round1) {
          var i, j :| 0 <= i < |init| && 0 <= j < |rows| && Includes(rows[j].timestamp, init[i]) &&
            c == Candidate(KeyOf(init[i], rows[j], round1), rows[j].location);
          assert ws[i] == init[i];
        } else {
          var j :| 0 <= j < |rows| && Includes(rows[j].timestamp, w) &&
            c == Candidate(KeyOf(w, rows[j], round1), rows[j].location);
          assert ws[|ws| - 1] == w;
        }
      }
      forall i, j | 0 <= i < |ws| && 0 <= j < |rows| && Includes(rows[j].timestamp, ws[i])
        ensures Candidate(KeyOf(ws[i], rows[j], round1), rows[j].location) in Candidates(ws, rows, round1)
      {
        if i < |init| {
          assert ws[i] == init[i];
        }
      }
    }
  }

  /** What the `seen`/`existing` test guarantees: emitted keys are pairwise
      distinct and new to the table, every emitted row has no plot and is
      one of the candidates, and every candidate's key ends up emitted or
      was already in the table. */
  lemma {:induction false} EmitSpec(cands: seq<Candidate>, existing: set<SessionKey>)
    ensures var e := Emit(cands, existing);
      (forall i, j :: 0 <= i < j < |e| ==> e[i].key != e[j].key) &&
      (forall k :: 0 <= k < |e| ==>
         e[k].key !in existing && e[k].plot == None && Candidate(e[k].key, e[k].location) in cands) &&
      (forall k :: 0 <= k < |cands| ==> cands[k].key in existing || cands[k].key in KeySet(e))
    decreases |cands|
  {
    if cands != [] {
      var init, c := cands[..|cands| - 1], cands[|cands| - 1];
      var prev := Emit(init, existing);
      EmitSpec(init, existing);
      if c.key !in KeySet(prev) && c.key !in existing {
        var e := prev + [SessionRow(c.key, None, c.location)];
        KeySetAppend(prev, SessionRow(c.key, None, c.location));
        forall i, j | 0 <= i < j < |e|
          ensures e[i].key != e[j].key
        {
          if j == |prev| {
            assert e[i].key in KeySet(prev);
          }
        }
        forall k | 0 <= k < |cands|
          ensures cands[k].key in existing || cands[k].key in KeySet(e)
        {
          if k < |init| {
            assert cands[k] == init[k];
          }
        }
        forall k | 0 <= k < |e|
          ensures Candidate(e[k].key, e[k].location) in cands
        {
          if k < |prev| {
            assert Candidate(e[k].key, e[k].location) in init;
          }
        }
      } else {
        forall k | 0 <= k < |cands|
          ensures cands[k].key in existing || cands[k].key in KeySet(prev)
        {
          if k < |init| {
            assert cands[k] == init[k];
          }
        }
        forall k | 0 <= k < |prev|
          ensures Candidate(prev[k].key, prev[k].location) in cands
        {
          assert Candidate(prev[k].key, prev[k].location) in init;
        }
      }
    }
  }

  /** Candidates whose keys all exist already produce no row. */
  lemma {:induction false} EmitNothingNew(cands: seq<Candidate>, existing: set<SessionKey>)
    requires forall k :: 0 <= k < |cands| ==> cands[k].key in existing
    ensures Emit(cands, existing) == []
    decreases |cands|
  {
    if cands != [] {
      EmitNothingNew(cands[..|cands| - 1], existing);
    }
  }

  /** The tagging loop emits rows for exactly the (window, reading) pairs
      whose key is new: each row carries the key of a reading inside a
      window and that reading's location, and the key of every reading
      inside a window is in the table already or among the emitted rows. */
  lemma TaggedRowsSpec(ws: seq<Window>, rows: seq<Reading>, existing: set<SessionKey>, round1: real -> real)
    ensures var data := SessionData(ws, rows, existing, round1);
      (forall k :: 0 <= k < |data| ==>
         exists i, j :: 0 <= i < |ws| && 0 <= j < |rows| && Includes(rows[j].timestamp, ws[i]) &&
           data[k].key == KeyOf(ws[i], rows[j], round1) && data[k].location == rows[j].location) &&
      (forall i, j :: 0 <= i < |ws| && 0 <= j < |rows| && Includes(rows[j].timestamp, ws[i]) ==>
         KeyOf(ws[i], rows[j], round1) in existing || KeyOf(ws[i], rows[j], round1) in KeySet(data))
  {
    var cands := Candidates(ws, rows, round1);
    var data := SessionData(ws, rows, existing, round1);
    CandidatesIff(ws, rows, round1);
    EmitSpec(cands, existing);
    forall i, j | 0 <= i < |ws| && 0 <= j < |rows| && Includes(rows[j].timestamp, ws[i])
      ensures KeyOf(ws[i], rows[j], round1) in existing || KeyOf(ws[i], rows[j], round1) in KeySet(data)
    {
      var c := Candidate(KeyOf(ws[i], rows[j], round1), rows[j].location);
      assert c in cands;
      var k :| 0 <= k < |cands| && cands[k] == c;
    }
  }

  /** The stored keys as the next run reads them back: the `SELECT` of
      line 244 applies `ROUND(lceq, 1)` to each stored `lceq`. */
  function Reread(keys: set<SessionKey>, round1: real -> real): set<SessionKey>
  {
    set k | k in keys :: k.(lceq := round1(k.lceq))
  }

  /** `x` is the rounded level of one of the stored readings. */
  predicate RoundedLevel(x: real, rows: seq<Reading>, round1: real -> real)
  {
    exists j :: 0 <= j < |rows| && x == round1(rows[j].lceq)
  }

  /** Every emitted key carries the rounded level of a stored reading. */
  lemma EmittedLevelsRounded(ws: seq<Window>, rows: seq<Reading>, existing: set<SessionKey>, round1: real -> real)
    ensures var e := SessionData(ws, rows, existing, round1);
      forall k :: 0 <= k < |e| ==> RoundedLevel(e[k].key.lceq, rows, round1)
  {
    TaggedRowsSpec(ws, rows, existing, round1);
  }

  /** An emitted key carries a rounded level, so reading it back through a
      rounding that is idempotent gives the same key. */
  lemma EmittedKeysReread(ws: seq<Window>, rows: seq<Reading>, existing: set<SessionKey>, round1: real -> real)
    requires forall x :: round1(round1(x)) == round1(x)
    ensures var keys := KeySet(SessionData(ws, rows, existing, round1));
      keys <= Reread(keys, round1)
  {
    var e := SessionData(ws, rows, existing, round1);
    EmittedLevelsRounded(ws, rows, existing, round1);
    forall key | key in KeySet(e)
      ensures key in Reread(KeySet(e), round1)
    {
      var k :| 0 <= k < |e| && e[k].key == key;
      assert RoundedLevel(key.lceq, rows, round1);
      var j :| 0 <= j < |rows| && key.lceq == round1(rows[j].lceq);
      assert round1(key.lceq) == key.lceq;
      assert key.(lceq := round1(key.lceq)) == key;
    }
  }

  /** Running the tagger again, once the first run's rows are in the table
      and are read back through `ROUND(lceq, 1)`, emits nothing, provided
      rounding a rounded level changes nothing. */
  lemma RerunEmitsNothing(ws: seq<Window>, rows: seq<Reading>, existing: set<SessionKey>, round1: real -> real)
    requires forall x :: round1(round1(x)) == round1(x)
    ensures var first := SessionData(ws, rows, existing, round1);
      SessionData(ws, rows, existing + Reread(KeySet(first), round1), round1) == []
  {
    var cands := Candidates(ws, rows, round1);
    var first := Emit(cands, existing);
    EmitSpec(cands, existing);
    EmittedKeysReread(ws, rows, existing, round1);
    EmitNothingNew(cands, existing + Reread(KeySet(first), round1));
  }

  /** One pass of the inner loop's body, stated on the specification. */
  lemma TagStep(done: seq<Candidate>, w: Window, rows: seq<Reading>, j: nat, existing: set<SessionKey>, round1: real -> real)
    requires j < |rows|
    ensures var prev := Emit(done + CandidatesFor(w, rows[..j], round1), existing);
      var key := KeyOf(w, rows[j], round1);
      Emit(done + CandidatesFor(w, rows[..j + 1], round1), existing) ==
        if Includes(rows[j].timestamp, w) && key !in KeySet(prev) && key !in existing
        then prev + [SessionRow(key, None, rows[j].location)]
        else prev
  {
    assert rows[..j + 1][..j] == rows[..j];
    var cands := done + CandidatesFor(w, rows[..j + 1], round1);
    if Includes(rows[j].timestamp, w) {
      assert cands[..|cands| - 1] == done + CandidatesFor(w, rows[..j], round1);
    } else {
      assert cands == done + CandidatesFor(w, rows[..j], round1);
    }
  }

  /** The tagging loop (lines 250-272) with its `seen` set. */
  method TagSessions(windows: seq<Window>, allRows: seq<Reading>, existing: set<SessionKey>, round1: real -> real)
    returns (sessionData: seq<SessionRow>)
    ensures sessionData == SessionData(windows, allRows, existing, round1)
  {
    sessionData := [];
    var seen: set<SessionKey> := {};
    var i := 0;
    while i < |windows|
      invariant 0 <= i <= |windows|
      invariant sessionData == Emit(Candidates(windows[..i], allRows, round1), existing)
      invariant seen == KeySet(sessionData)
    {
      var w := windows[i];
      var done := Candidates(windows[..i], allRows, round1);
      var j := 0;
      assert done + CandidatesFor(w, allRows[..0], round1) == done;
      while j < |allRows|
        invariant 0 <= j <= |allRows|
        invariant sessionData == Emit(done + CandidatesFor(w, allRows[..j], round1), existing)
        invariant seen == KeySet(sessionData)
      {
        var r := allRows[j];
        TagStep(done, w, allRows, j, existing, round1);
        if Includes(r.timestamp, w) {
          var key := KeyOf(w, r, round1);
          if key !in seen && key !in existing {
            KeySetAppend(sessionData, SessionRow(key, None, r.location));
            seen := seen + {key};
            sessionData := sessionData + [SessionRow(key, None, r.location)];
          }
        }
        j := j + 1;
      }
      assert allRows[..|allRows|] == allRows;
      assert windows[..i + 1][..i] == windows[..i];
      i := i + 1;
    }
    assert windows[..|windows|] == windows;
  }
}
