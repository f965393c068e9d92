/** Recurring weekly session windows and the membership test
    `session_includes`, which both scripts define with the same test. */
module Windows {
  import opened Clock
  import opened Seqs

  /** `(label, weekday, start_time, end_time)`; both bounds inclusive. */
  datatype Window = Window(name: string, weekday: Weekday, start: TimeOfDay, end: TimeOfDay)

  predicate Wraps(w: Window)
  {
    w.start > w.end
  }

  /** `session_includes(dt, weekday, start, end)` exactly as both scripts
      write it. In the wrapping branch the after-midnight part is checked with
      `(dt.weekday() + 1) % 7 == weekday`, i.e. on the day BEFORE the
      window's weekday. */
  predicate IncludesAsWritten(ts: Timestamp, w: Window)
  {
    if w.start <= w.end then
      WeekdayOf(ts.day) == w.weekday && w.start <= ts.time <= w.end
    else
      (WeekdayOf(ts.day) == w.weekday && ts.time >= w.start) ||
      ((WeekdayOf(ts.day) + 1) % 7 == w.weekday && ts.time <= w.end)
  }

  /** The membership test the rest of the model uses: the same test as the
      scripts for windows that do not wrap (every configured one), and for a
      wrapping window it takes the after-midnight part from the day AFTER
      the window's weekday, as the window's meaning demands. */
  predicate Includes(ts: Timestamp, w: Window)
  {
    if w.start <= w.end then
      WeekdayOf(ts.day) == w.weekday && w.start <= ts.time <= w.end
    else
      (WeekdayOf(ts.day) == w.weekday && ts.time >= w.start) ||
      (WeekdayOf(ts.day) == (w.weekday + 1) % 7 && ts.time <= w.end)
  }

  /** The occurrence of `w` that begins on day `d` contains `ts`: it starts
      at `start` on a day with the window's weekday and ends at `end` on the
      same day, or on the next day when the window wraps midnight. */
  predicate InOccurrence(ts: Timestamp, w: Window, d: int)
  {
    var endDay := if w.start <= w.end then d else d + 1;
    WeekdayOf(d) == w.weekday &&
    NotAfter(Timestamp(d, w.start), ts) && NotAfter(ts, Timestamp(endDay, w.end))
  }

  /** The corrected test holds exactly when some occurrence of the window
      contains the timestamp. */
  lemma IncludesIffInOccurrence(ts: Timestamp, w: Window)
    ensures Includes(ts, w) <==> exists d :: InOccurrence(ts, w, d)
  {
    WeekdayOfNextDay(ts.day - 1);
    if Includes(ts, w) {
      if w.start <= w.end || (WeekdayOf(ts.day) == w.weekday && ts.time >= w.start) {
        assert InOccurrence(ts, w, ts.day);
      } else {
        assert InOccurrence(ts, w, ts.day - 1);
      }
    }
    if exists d :: InOccurrence(ts, w, d) {
      var d :| InOccurrence(ts, w, d);
      if w.start > w.end && d != ts.day {
        assert d + 1 == ts.day;
        WeekdayOfNextDay(d);
      }
    }
  }

  /** For a window that does not wrap, the scripts' test and the corrected
      one agree, so both hold exactly within an occurrence. */
  lemma AsWrittenAgreesWhenNotWrapping(ts: Timestamp, w: Window)
    requires !Wraps(w)
    ensures IncludesAsWritten(ts, w) == Includes(ts, w)
    ensures IncludesAsWritten(ts, w) <==> exists d :: InOccurrence(ts, w, d)
  {
    IncludesIffInOccurrence(ts, w);
  }

  /** The window (Friday, 23:00, 01:00) as the scripts test it. */
  const FridayLate: Window := Window("Friday_23-01", Friday, TimeOf(23, 0, 0, 0), TimeOf(1, 0, 0, 0))

  /** Day 739436 is Friday 4 July 2025. */
  const AFriday: int := 739436

  /** For the wrapping window (Friday, 23:00, 01:00), Saturday 00:30 lies in
      the occurrence that began on Friday evening yet the scripts' test
      rejects it, while Thursday 00:30 lies in no occurrence yet the test
      accepts it. */
  lemma AsWrittenMissesAfterMidnight()
    ensures WeekdayOf(AFriday) == Friday
    ensures var sat := Timestamp(AFriday + 1, TimeOf(0, 30, 0, 0));
            InOccurrence(sat, FridayLate, AFriday) && Includes(sat, FridayLate) &&
            !IncludesAsWritten(sat, FridayLate)
    ensures var thu := Timestamp(AFriday - 1, TimeOf(0, 30, 0, 0));
            IncludesAsWritten(thu, FridayLate) && !Includes(thu, FridayLate) &&
            !exists d :: InOccurrence(thu, FridayLate, d)
  {
    var thu := Timestamp(AFriday - 1, TimeOf(0, 30, 0, 0));
    IncludesIffInOccurrence(thu, FridayLate);
  }

  /** Friday 23:30 is inside the wrapping window, Saturday 02:00 is not. */
  lemma FridayLateExamples()
    ensures Includes(Timestamp(AFriday, TimeOf(23, 30, 0, 0)), FridayLate)
    ensures !Includes(Timestamp(AFriday + 1, TimeOf(2, 0, 0, 0)), FridayLate)
  {
  }

  // ---------------------------------------------------------------------
  // The configured windows (the same table appears in both scripts).

  const EndOfEvening: TimeOfDay := TimeOf(23, 59, 59, 0)
  const OneAm: TimeOfDay := TimeOf(1, 0, 0, 0)
  const FourAm: TimeOfDay := TimeOf(4, 0, 0, 0)
  const NinePm: TimeOfDay := TimeOf(21, 0, 0, 0)

  const Sessions: seq<Window> := [
    Window("Thursday_21-00", Thursday, NinePm, EndOfEvening),
    Window("Friday_00-01", Friday, 0, OneAm),
    Window("Friday_01-04", Friday, OneAm, FourAm),
    Window("Friday_21-00", Friday, NinePm, EndOfEvening),
    Window("Saturday_00-01", Saturday, 0, OneAm),
    Window("Saturday_01-04", Saturday, OneAm, FourAm),
    Window("Saturday_21-00", Saturday, NinePm, EndOfEvening),
    Window("Sunday_00-01", Sunday, 0, OneAm),
    Window("Sunday_01-04", Sunday, OneAm, FourAm),
    Window("Sunday_21-00", Sunday, NinePm, EndOfEvening),
    Window("Monday_00-01", Monday, 0, OneAm),
    Window("Monday_01-04", Monday, OneAm, FourAm)
  ]

  /** No configured window wraps midnight, so for every configured window
      the model's test is the scripts' test. */
  lemma ConfiguredWindowsDoNotWrap(ts: Timestamp)
    ensures forall w :: w in Sessions ==> !Wraps(w)
    ensures forall w :: w in Sessions ==> (Includes(ts, w) <==> IncludesAsWritten(ts, w))
  {
  }

  /** The windows of `ws` that contain `ts`, in configuration order. */
  function Matching(ws: seq<Window>, ts: Timestamp): seq<Window>
  {
    Filter(ws, w => Includes(ts, w))
  }

  /** At exactly 01:00:00 on Friday, Saturday, Sunday or Monday a reading
      lies in both that day's `_00-01` and `_01-04` windows and in no other. */
  lemma OneAmInTwoWindows(day: int)
    requires WeekdayOf(day) in {Friday, Saturday, Sunday, Monday}
    ensures var wd := WeekdayOf(day);
            var i := if wd == Monday then 10 else 1 + 3 * (wd - Friday);
            forall k :: 0 <= k < |Sessions| ==>
              (Includes(Timestamp(day, OneAm), Sessions[k]) <==> k == i || k == i + 1)
  {
  }

  /** Thursday 23:59:59.5 falls after the Thursday window closes at
      23:59:59 and before Friday's first window opens: no window has it. */
  lemma ThursdayMidnightGap(day: int)
    requires WeekdayOf(day) == Thursday
    ensures Matching(Sessions, Timestamp(day, TimeOf(23, 59, 59, 500_000))) == []
  {
    var ts := Timestamp(day, TimeOf(23, 59, 59, 500_000));
    FilterNone(Sessions, w => Includes(ts, w));
  }

  // ---------------------------------------------------------------------
  // `SESSIONS = {label: (wd, start, end) for label, wd, start, end in tmp}`

  /** Position of the first entry carrying `label`. */
  function IndexOfLabel(ws: seq<Window>, name: string): (k: int)
    ensures -1 <= k < |ws|
    ensures 0 <= k ==> ws[k].name == name && forall j :: 0 <= j < k ==> ws[j].name != name
    ensures k == -1 ==> forall j :: 0 <= j < |ws| ==> ws[j].name != name
    decreases |ws|
  {
    if ws == [] then -1
    else if ws[0].name == name then 0
    else var k := IndexOfLabel(ws[1..], name); if k == -1 then -1 else k + 1
  }

  /** The `items()` of a dict built from `entries` in order: a repeated
      label keeps the position of its first insertion and takes the value
      of its last one. */
  function DictItems(entries: seq<Window>): (r: seq<Window>)
    decreases |entries|
  {
    if entries == [] then []
    else
      var prev := DictItems(entries[..|entries| - 1]);
      var e := entries[|entries| - 1];
      var k := IndexOfLabel(prev, e.name);
      if k == -1 then prev + [e] else prev[k := e]
  }

  predicate DistinctLabels(ws: seq<Window>)
  {
    forall i, j :: 0 <= i < j < |ws| ==> ws[i].name != ws[j].name
  }

  /** With distinct labels, as in both configured tables, the dict's items
      are the table itself, in the same order. */
  lemma {:induction false} DictItemsOfDistinct(entries: seq<Window>)
    requires DistinctLabels(entries)
    ensures DictItems(entries) == entries
    decreases |entries|
  {
    if entries != [] {
      var init := entries[..|entries| - 1];
      DictItemsOfDistinct(init);
      assert IndexOfLabel(init, entries[|entries| - 1].name) == -1;
      assert init + [entries[|entries| - 1]] == entries;
    }
  }

  lemma ConfiguredLabelsDistinct()
    ensures DistinctLabels(Sessions)
    ensures DictItems(Sessions) == Sessions
  {
    // the first two letters and the last one already tell the labels apart
    forall i, j | 0 <= i < j < |Sessions|
      ensures Sessions[i].name != Sessions[j].name
    {
      var a, b := Sessions[i].name, Sessions[j].name;
      assert a[0] != b[0] || a[1] != b[1] || a[|a| - 1] != b[|b| - 1];
    }
    DictItemsOfDistinct(Sessions);
  }
}
