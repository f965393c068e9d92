/** spl_session_summary.py: allocating stored readings to dated sessions,
    classifying each as day or night, choosing the limit and flagging
    breaches, and the distinct counts written to the batch details. */
module Summary {
  import opened Wrappers
  import opened Clock
  import opened Seqs
  import opened Store
  import opened Windows

  /** `f"{sess_date}_{label}"`, kept as the date and label it is made of. */
  datatype SessionId = SessionId(date: int, name: string)

  /** One dict of `rows`: the stored reading plus `Session` and `Epoch`. The
      model keeps the whole stored row; the script's query reads six of its
      columns (timestamp, lcs, lceq, lceq1m, lceq10m, location), and the
      other two (source, lzpeak) play no part in the summary. */
  datatype Allocated = Allocated(reading: Reading, session: SessionId, epoch: Timestamp)

  // ---------------------------------------------------------------------
  // The specification of the allocation loop (lines 84-98)

  /** `df[df['timestamp'].apply(lambda ts: session_includes(ts, wd, start, end))]` */
  function Selection(w: Window, rows: seq<Reading>): seq<Reading>
  {
    Filter(rows, (r: Reading) => Includes(r.timestamp, w))
  }

  predicate Increasing(s: seq<int>)
  {
    forall i, j :: 0 <= i < j < |s| ==> s[i] < s[j]
  }

  function InsertSorted(s: seq<int>, x: int): (r: seq<int>)
    requires Increasing(s)
    ensures Increasing(r)
    ensures forall y :: y in r <==> y in s || y == x
    decreases |s|
  {
    if s == [] then [x]
    else if x < s[0] then [x] + s
    else if x == s[0] then s
    else
      var t := InsertSorted(s[1..], x);
      assert forall k :: 0 <= k < |t| ==> t[k] in s[1..] || t[k] == x;
      assert forall y :: y in s[1..] ==> s[0] < y;
      [s[0]] + t
  }

  /** The keys of `sel.groupby(sel['timestamp'].dt.date)`: every date of
      the selection once, in ascending order. */
  function GroupKeys(sel: seq<Reading>): (days: seq<int>)
    ensures Increasing(days)
    ensures forall d :: d in days <==> exists k :: 0 <= k < |sel| && sel[k].timestamp.day == d
    decreases |sel|
  {
    if sel == [] then []
    else
      var init := sel[..|sel| - 1];
      assert forall k :: 0 <= k < |init| ==> init[k] == sel[k];
      InsertSorted(GroupKeys(init), sel[|sel| - 1].timestamp.day)
  }

  /** `daily_group`: the selection's readings on day `d`, in table order. */
  function Group(sel: seq<Reading>, d: int): seq<Reading>
  {
    Filter(sel, (r: Reading) => r.timestamp.day == d)
  }

  /** `daily_group['timestamp'].min()` */
  function Earliest(g: seq<Reading>): (t: Timestamp)
    requires g != []
    ensures exists k :: 0 <= k < |g| && g[k].timestamp == t
    ensures forall k :: 0 <= k < |g| ==> NotAfter(t, g[k].timestamp)
    decreases |g|
  {
    if |g| == 1 then g[0].timestamp
    else
      var m := Earliest(g[1..]);
      assert forall k :: 0 < k < |g| ==> g[k] == g[1..][k - 1];
      if NotAfter(g[0].timestamp, m) then g[0].timestamp else m
  }

  /** The innermost loop: one output row per reading of a group. */
  function GroupRows(g: seq<Reading>, id: SessionId, epoch: Timestamp): (r: seq<Allocated>)
    ensures |r| == |g|
  {
    seq(|g|, k requires 0 <= k < |g| => Allocated(g[k], id, epoch))
  }

  /** The rows for day `d` of a selection under the label `name`. */
  function GroupOf(sel: seq<Reading>, d: int, name: string): seq<Allocated>
  {
    var g := Group(sel, d);
    if g == [] then [] else GroupRows(g, SessionId(d, name), Earliest(g))
  }

  /** The loop over the day groups, in the order of `days`. */
  function DayGroups(sel: seq<Reading>, days: seq<int>, name: string): seq<Allocated>
    decreases |days|
  {
    if days == [] then []
    else DayGroups(sel, days[..|days| - 1], name) + GroupOf(sel, days[|days| - 1], name)
  }

  /** The rows one label contributes; an empty selection contributes none. */
  function AllocateWindow(w: Window, rows: seq<Reading>): seq<Allocated>
  {
    var sel := Selection(w, rows);
    if sel == [] then [] else DayGroups(sel, GroupKeys(sel), w.name)
  }

  /** `rows` after the loop over `SESSIONS.items()`. */
  function Allocate(ws: seq<Window>, rows: seq<Reading>): seq<Allocated>
    decreases |ws|
  {
    if ws == [] then [] else Allocate(ws[..|ws| - 1], rows) + AllocateWindow(ws[|ws| - 1], rows)
  }

  /** The readings of allocated rows, in order. */
  function Readings(s: seq<Allocated>): (r: seq<Reading>)
    ensures |r| == |s|
  {
    seq(|s|, k requires 0 <= k < |s| => s[k].reading)
  }

  /** Rows allocated under the label `name`. */
  function ByName(name: string): Allocated -> bool
  {
    (a: Allocated) => a.session.name == name
  }

  // ---------------------------------------------------------------------
  // The allocation loop itself

  lemma GroupRowsStep(g: seq<Reading>, id: SessionId, epoch: Timestamp, j: nat)
    requires j < |g|
    ensures GroupRows(g[..j + 1], id, epoch) == GroupRows(g[..j], id, epoch) + [Allocated(g[j], id, epoch)]
  {
  }

  lemma DayGroupsStep(sel: seq<Reading>, days: seq<int>, name: string, k: nat)
    requires k < |days|
    ensures DayGroups(sel, days[..k + 1], name) == DayGroups(sel, days[..k], name) + GroupOf(sel, days[k], name)
  {
    assert days[..k + 1][..k] == days[..k];
  }

  lemma AllocateStep(ws: seq<Window>, rows: seq<Reading>, i: nat)
    requires i < |ws|
    ensures Allocate(ws[..i + 1], rows) == Allocate(ws[..i], rows) + AllocateWindow(ws[i], rows)
  {
    assert ws[..i + 1][..i] == ws[..i];
  }

  /** A selection holds exactly the stored readings inside the window. */
  lemma SelectionMembers(w: Window, rows: seq<Reading>)
    ensures forall r :: r in Selection(w, rows) <==> r in rows && Includes(r.timestamp, w)
  {
    FilterMembers(rows, (r: Reading) => Includes(r.timestamp, w));
  }

  /** A day group holds exactly the selected readings of that date. */
  lemma GroupMembers(sel: seq<Reading>, d: int)
    ensures forall r :: r in Group(sel, d) <==> r in sel && r.timestamp.day == d
  {
    FilterMembers(sel, (r: Reading) => r.timestamp.day == d);
  }

  /** A date among the group keys has a nonempty group. */
  lemma GroupOfKey(sel: seq<Reading>, d: int)
    requires d in GroupKeys(sel)
    ensures Group(sel, d) != []
  {
    var k :| 0 <= k < |sel| && sel[k].timestamp.day == d;
    GroupMembers(sel, d);
    assert sel[k] in Group(sel, d);
  }

  /** The innermost loop of lines 96-98: one row per reading of a day
      group, appended in table order. */
  method AppendGroup(rows: seq<Allocated>, dailyGroup: seq<Reading>, sessionId: SessionId, epoch: Timestamp)
    returns (rows': seq<Allocated>)
    ensures rows' == rows + GroupRows(dailyGroup, sessionId, epoch)
  {
    rows' := rows;
    var j := 0;
    assert rows + GroupRows(dailyGroup[..0], sessionId, epoch) == rows;
    while j < |dailyGroup|
      invariant 0 <= j <= |dailyGroup|
      invariant rows' == rows + GroupRows(dailyGroup[..j], sessionId, epoch)
    {
      GroupRowsStep(dailyGroup, sessionId, epoch, j);
      rows' := rows' + [Allocated(dailyGroup[j], sessionId, epoch)];
      j := j + 1;
    }
    assert dailyGroup[..|dailyGroup|] == dailyGroup;
  }

  /** One pass of the loop over day groups (lines 95-98): take the group's
      earliest timestamp as the epoch and append the group's rows after
      those of the earlier dates. */
  method AppendDay(base: seq<Allocated>, rows: seq<Allocated>, sel: seq<Reading>, days: seq<int>, k: nat, name: string)
    returns (rows': seq<Allocated>)
    requires k < |days| && Group(sel, days[k]) != []
    requires rows == base + DayGroups(sel, days[..k], name)
    ensures rows' == base + DayGroups(sel, days[..k + 1], name)
  {
    var sessDate := days[k];
    var dailyGroup := Group(sel, sessDate);
    var epoch := Earliest(dailyGroup);
    rows' := AppendGroup(rows, dailyGroup, SessionId(sessDate, name), epoch);
    DayGroupsStep(sel, days, name, k);
  }

  /** The loop over the day groups of a selection (lines 94-98), given
      dates whose groups are not empty. */
  method AppendDays(rows: seq<Allocated>, sel: seq<Reading>, days: seq<int>, name: string)
    returns (rows': seq<Allocated>)
    requires forall k :: 0 <= k < |days| ==> Group(sel, days[k]) != []
    ensures rows' == rows + DayGroups(sel, days, name)
  {
    rows' := rows;
    var k := 0;
    assert rows + DayGroups(sel, days[..0], name) == rows;
    while k < |days|
      invariant 0 <= k <= |days|
      invariant rows' == rows + DayGroups(sel, days[..k], name)
    {
      rows' := AppendDay(rows, rows', sel, days, k, name);
      k := k + 1;
    }
    assert days[..|days|] == days;
  }

  /** The body of the loop over labels (lines 91-98): select the readings
      inside the window, skip the label when there are none, and otherwise
      go through the day groups in ascending date order. */
  method AppendLabel(rows: seq<Allocated>, w: Window, df: seq<Reading>) returns (rows': seq<Allocated>)
    ensures rows' == rows + AllocateWindow(w, df)
  {
    var sel := Selection(w, df);
    if sel == [] {
      rows' := rows;
    } else {
      var days := GroupKeys(sel);
      forall k | 0 <= k < |days|
        ensures Group(sel, days[k]) != []
      {
        GroupOfKey(sel, days[k]);
      }
      rows' := AppendDays(rows, sel, days, w.name);
    }
  }

  /** The allocation loop (lines 84-98): labels in dict order, then date
      groups in ascending date order, then the group's rows in table order. */
  method AllocateSessions(sessions: seq<Window>, df: seq<Reading>) returns (rows: seq<Allocated>)
    ensures rows == Allocate(sessions, df)
  {
    rows := [];
    var i := 0;
    while i < |sessions|
      invariant 0 <= i <= |sessions|
      invariant rows == Allocate(sessions[..i], df)
    {
      AllocateStep(sessions, df, i);
      rows := AppendLabel(rows, sessions[i], df);
      i := i + 1;
    }
    assert sessions[..|sessions|] == sessions;
  }

  // ---------------------------------------------------------------------
  // What the allocation guarantees

  /** A row belongs to the day group its session id names: its reading is
      in that group and its epoch is that group's earliest timestamp. */
  predicate InGroup(a: Allocated, sel: seq<Reading>, name: string)
  {
    a.session.name == name && a.reading in Group(sel, a.session.date) &&
    a.epoch == Earliest(Group(sel, a.session.date))
  }

  lemma GroupOfSpec(sel: seq<Reading>, d: int, name: string)
    ensures forall a :: a in GroupOf(sel, d, name) ==> a.session.date == d && InGroup(a, sel, name)
    ensures forall k :: 0 <= k < |Group(sel, d)| ==>
      Allocated(Group(sel, d)[k], SessionId(d, name), Earliest(Group(sel, d))) in GroupOf(sel, d, name)
  {
    var g := Group(sel, d);
    if g != [] {
      var rows := GroupRows(g, SessionId(d, name), Earliest(g));
      forall a | a in rows
        ensures a.session.date == d && InGroup(a, sel, name)
      {
        var k :| 0 <= k < |rows| && rows[k] == a;
      }
      forall k | 0 <= k < |g|
        ensures Allocated(g[k], SessionId(d, name), Earliest(g)) in rows
      {
        assert rows[k] == Allocated(g[k], SessionId(d, name), Earliest(g));
      }
    }
  }

  /** Every row of the day loop belongs to the group its session id names,
      and that date is one of the loop's dates; every group of a listed
      date is emitted whole. */
  lemma {:induction false} DayGroupsSpec(sel: seq<Reading>, days: seq<int>, name: string)
    ensures forall a :: a in DayGroups(sel, days, name) ==> a.session.date in days && InGroup(a, sel, name)
    ensures forall d, a :: d in days && a in GroupOf(sel, d, name) ==> a in DayGroups(sel, days, name)
    decreases |days|
  {
    if days != [] {
      var init, d := days[..|days| - 1], days[|days| - 1];
      DayGroupsSpec(sel, init, name);
      GroupOfSpec(sel, d, name);
      assert days == init + [d];
    }
  }

  /** A label's rows carry its name and belong to one of its day groups. */
  lemma WindowMembers(w: Window, rows: seq<Reading>)
    ensures forall a :: a in AllocateWindow(w, rows) ==>
      a.session.name == w.name && a.session.date in GroupKeys(Selection(w, rows)) &&
      InGroup(a, Selection(w, rows), w.name)
  {
    var sel := Selection(w, rows);
    if sel != [] {
      DayGroupsSpec(sel, GroupKeys(sel), w.name);
    }
  }

  /** Every allocated row of a label holds a stored reading inside the
      label's window and carries the reading's own date and the label; its
      epoch lies on that date, no later than the reading. */
  lemma WindowSound(w: Window, rows: seq<Reading>)
    ensures forall a :: a in AllocateWindow(w, rows) ==>
      a.reading in rows && Includes(a.reading.timestamp, w) &&
      a.session == SessionId(a.reading.timestamp.day, w.name) &&
      a.epoch.day == a.session.date && NotAfter(a.epoch, a.reading.timestamp)
  {
    var sel := Selection(w, rows);
    WindowMembers(w, rows);
    forall a | a in AllocateWindow(w, rows)
      ensures a.reading in rows && Includes(a.reading.timestamp, w) &&
        a.session == SessionId(a.reading.timestamp.day, w.name) &&
        a.epoch.day == a.session.date && NotAfter(a.epoch, a.reading.timestamp)
    {
      var g := Group(sel, a.session.date);
      var k :| 0 <= k < |g| && g[k].timestamp == a.epoch;
      assert g[k] in g;
      GroupMembers(sel, a.session.date);
      SelectionMembers(w, rows);
    }
  }

  /** The timestamps of the rows of `out` that belong to session `id`. */
  function SessionTimes(out: seq<Allocated>, id: SessionId): set<Timestamp>
  {
    set b | b in out && b.session == id :: b.reading.timestamp
  }

  /** Within a label, each session's epoch is no later than any of the
      session's readings and is the timestamp of one of them. */
  lemma WindowEpoch(w: Window, rows: seq<Reading>)
    ensures var out := AllocateWindow(w, rows);
      (forall a, b :: a in out && b in out && a.session == b.session ==> NotAfter(a.epoch, b.reading.timestamp)) &&
      (forall a :: a in out ==> a.epoch in SessionTimes(out, a.session))
  {
    var sel := Selection(w, rows);
    var out := AllocateWindow(w, rows);
    WindowMembers(w, rows);
    forall a, b | a in out && b in out && a.session == b.session
      ensures NotAfter(a.epoch, b.reading.timestamp)
    {
      var g := Group(sel, a.session.date);
      var k :| 0 <= k < |g| && g[k] == b.reading;
    }
    forall a | a in out
      ensures a.epoch in SessionTimes(out, a.session)
    {
      var d := a.session.date;
      var g := Group(sel, d);
      var k :| 0 <= k < |g| && g[k].timestamp == a.epoch;
      GroupOfSpec(sel, d, w.name);
      DayGroupsSpec(sel, GroupKeys(sel), w.name);
      var b := Allocated(g[k], a.session, a.epoch);
      assert b in GroupOf(sel, d, w.name);
      assert b in out && b.session == a.session;
    }
  }

  /** Every allocated row comes from one of the labels. */
  lemma {:induction false} AllocateMembers(ws: seq<Window>, rows: seq<Reading>)
    ensures forall a :: a in Allocate(ws, rows) ==> exists i :: 0 <= i < |ws| && a in AllocateWindow(ws[i], rows)
    decreases |ws|
  {
    if ws != [] {
      var init := ws[..|ws| - 1];
      AllocateMembers(init, rows);
      forall a | a in Allocate(ws, rows)
        ensures exists i :: 0 <= i < |ws| && a in AllocateWindow(ws[i], rows)
      {
        if a in Allocate(init, rows) {
          var i :| 0 <= i < |init| && a in AllocateWindow(init[i], rows);
          assert ws[i] == init[i];
        } else {
          assert a in AllocateWindow(ws[|ws| - 1], rows);
        }
      }
    }
  }

  /** What every allocated row satisfies: its reading is a stored one,
      inside the window of the label its session id names, the session id
      carries the reading's own date, and its epoch lies on that date, no
      later than the reading. */
  lemma AllocationSound(ws: seq<Window>, rows: seq<Reading>)
    ensures forall a :: a in Allocate(ws, rows) ==>
      a.reading in rows && a.session.date == a.reading.timestamp.day &&
      a.epoch.day == a.session.date && NotAfter(a.epoch, a.reading.timestamp) &&
      exists i :: 0 <= i < |ws| && ws[i].name == a.session.name && Includes(a.reading.timestamp, ws[i])
  {
    AllocateMembers(ws, rows);
    forall a | a in Allocate(ws, rows)
      ensures a.reading in rows && a.session.date == a.reading.timestamp.day &&
        a.epoch.day == a.session.date && NotAfter(a.epoch, a.reading.timestamp) &&
        exists i :: 0 <= i < |ws| && ws[i].name == a.session.name && Includes(a.reading.timestamp, ws[i])
    {
      var i :| 0 <= i < |ws| && a in AllocateWindow(ws[i], rows);
      WindowSound(ws[i], rows);
    }
  }

  /** With distinct labels, rows of one session come from one label. */
  lemma SessionOfOneLabel(ws: seq<Window>, rows: seq<Reading>, a: Allocated, b: Allocated, i: nat, j: nat)
    requires DistinctLabels(ws) && i < |ws| && j < |ws|
    requires a in AllocateWindow(ws[i], rows) && b in AllocateWindow(ws[j], rows)
    requires a.session == b.session
    ensures i == j
  {
    WindowMembers(ws[i], rows);
    WindowMembers(ws[j], rows);
  }

  /** No row of a session is earlier than the session's epoch. */
  lemma EpochNoLater(ws: seq<Window>, rows: seq<Reading>)
    requires DistinctLabels(ws)
    ensures var out := Allocate(ws, rows);
      forall a, b :: a in out && b in out && a.session == b.session ==> NotAfter(a.epoch, b.reading.timestamp)
  {
    var out := Allocate(ws, rows);
    AllocateMembers(ws, rows);
    forall a, b | a in out && b in out && a.session == b.session
      ensures NotAfter(a.epoch, b.reading.timestamp)
    {
      var i :| 0 <= i < |ws| && a in AllocateWindow(ws[i], rows);
      var j :| 0 <= j < |ws| && b in AllocateWindow(ws[j], rows);
      SessionOfOneLabel(ws, rows, a, b, i, j);
      WindowEpoch(ws[i], rows);
    }
  }

  lemma InSessionTimes(out: seq<Allocated>, b: Allocated)
    requires b in out
    ensures b.reading.timestamp in SessionTimes(out, b.session)
  {
  }

  /** The epoch of an allocated row is the timestamp of a row of its
      session. */
  lemma EpochOfRow(ws: seq<Window>, rows: seq<Reading>, a: Allocated, i: nat)
    requires i < |ws| && a in AllocateWindow(ws[i], rows)
    ensures a.epoch in SessionTimes(Allocate(ws, rows), a.session)
  {
    var w := AllocateWindow(ws[i], rows);
    WindowEpoch(ws[i], rows);
    assert a.epoch in SessionTimes(w, a.session);
    var b :| b in w && b.session == a.session && b.reading.timestamp == a.epoch;
    AllocateHasWindow(ws, rows, i);
    InSessionTimes(Allocate(ws, rows), b);
  }

  /** Every session's epoch is the timestamp of one of its rows. */
  lemma EpochInSession(ws: seq<Window>, rows: seq<Reading>)
    ensures var out := Allocate(ws, rows);
      forall a :: a in out ==> a.epoch in SessionTimes(out, a.session)
  {
    var out := Allocate(ws, rows);
    AllocateMembers(ws, rows);
    forall a | a in out
      ensures a.epoch in SessionTimes(out, a.session)
    {
      var i :| 0 <= i < |ws| && a in AllocateWindow(ws[i], rows);
      EpochOfRow(ws, rows, a, i);
    }
  }

  /** With distinct labels, as a dict guarantees, each session's epoch is
      the earliest timestamp among the rows of that session and is the
      timestamp of one of them. */
  lemma EpochIsSessionMinimum(ws: seq<Window>, rows: seq<Reading>)
    requires DistinctLabels(ws)
    ensures var out := Allocate(ws, rows);
      (forall a, b :: a in out && b in out && a.session == b.session ==> NotAfter(a.epoch, b.reading.timestamp)) &&
      (forall a :: a in out ==> a.epoch in SessionTimes(out, a.session))
  {
    EpochNoLater(ws, rows);
    EpochInSession(ws, rows);
  }

  /** Each label's rows are part of the whole allocation. */
  lemma {:induction false} AllocateHasWindow(ws: seq<Window>, rows: seq<Reading>, i: nat)
    requires i < |ws|
    ensures forall a :: a in AllocateWindow(ws[i], rows) ==> a in Allocate(ws, rows)
    decreases |ws|
  {
    var init := ws[..|ws| - 1];
    assert Allocate(ws, rows) == Allocate(init, rows) + AllocateWindow(ws[|ws| - 1], rows);
    if i < |ws| - 1 {
      assert init[i] == ws[i];
      AllocateHasWindow(init, rows, i);
    }
  }

  lemma ReadingsConcat(a: seq<Allocated>, b: seq<Allocated>)
    ensures Readings(a + b) == Readings(a) + Readings(b)
  {
  }

  lemma GroupOfReadings(sel: seq<Reading>, d: int, name: string)
    ensures Readings(GroupOf(sel, d, name)) == Group(sel, d)
  {
  }

  /** Over distinct dates, the day loop emits the readings of those dates,
      each as often as the selection holds it. */
  lemma {:induction false} DayGroupsReadings(sel: seq<Reading>, days: seq<int>, name: string)
    requires Increasing(days)
    ensures multiset(Readings(DayGroups(sel, days, name))) ==
            multiset(Filter(sel, (r: Reading) => r.timestamp.day in days))
    decreases |days|
  {
    if days == [] {
      FilterNone(sel, (r: Reading) => r.timestamp.day in days);
    } else {
      var init, d := days[..|days| - 1], days[|days| - 1];
      DayGroupsReadings(sel, init, name);
      ReadingsConcat(DayGroups(sel, init, name), GroupOf(sel, d, name));
      GroupOfReadings(sel, d, name);
      assert days == init + [d];
      assert d !in init;
      FilterDisjointUnion(sel, (r: Reading) => r.timestamp.day in init, (r: Reading) => r.timestamp.day == d,
                          (r: Reading) => r.timestamp.day in days);
    }
  }

  /** A label's rows hold exactly the readings inside its window, each as
      often as it is stored. */
  lemma WindowReadings(w: Window, rows: seq<Reading>)
    ensures multiset(Readings(AllocateWindow(w, rows))) == multiset(Selection(w, rows))
  {
    var sel := Selection(w, rows);
    if sel != [] {
      var days := GroupKeys(sel);
      DayGroupsReadings(sel, days, w.name);
      FilterAll(sel, (r: Reading) => r.timestamp.day in days);
    }
  }

  /** No row carries a label that no window has. */
  lemma NoOtherLabel(ws: seq<Window>, rows: seq<Reading>, name: string)
    requires forall j :: 0 <= j < |ws| ==> ws[j].name != name
    ensures Filter(Allocate(ws, rows), ByName(name)) == []
  {
    var all := Allocate(ws, rows);
    AllocateMembers(ws, rows);
    forall k | 0 <= k < |all|
      ensures !ByName(name)(all[k])
    {
      assert all[k] in all;
      var j :| 0 <= j < |ws| && all[k] in AllocateWindow(ws[j], rows);
      WindowMembers(ws[j], rows);
    }
    FilterNone(all, ByName(name));
  }

  /** A label's rows all carry its name. */
  lemma WindowByName(w: Window, rows: seq<Reading>, name: string)
    ensures Filter(AllocateWindow(w, rows), ByName(name)) == if w.name == name then AllocateWindow(w, rows) else []
  {
    var out := AllocateWindow(w, rows);
    WindowMembers(w, rows);
    assert forall k :: 0 <= k < |out| ==> out[k] in out;
    if w.name == name {
      FilterAll(out, ByName(name));
    } else {
      FilterNone(out, ByName(name));
    }
  }

  /** The rows carrying a label: those of the earlier labels, then the
      last label's own when it has that name. */
  lemma AllocateSplitByName(ws: seq<Window>, rows: seq<Reading>, name: string)
    requires ws != []
    ensures Filter(Allocate(ws, rows), ByName(name)) ==
      Filter(Allocate(ws[..|ws| - 1], rows), ByName(name)) +
      (if ws[|ws| - 1].name == name then AllocateWindow(ws[|ws| - 1], rows) else [])
  {
    var init, last := ws[..|ws| - 1], ws[|ws| - 1];
    FilterConcat(Allocate(init, rows), AllocateWindow(last, rows), ByName(name));
    WindowByName(last, rows, name);
  }

  /** With distinct labels, the rows carrying a label are exactly that
      label's contribution. */
  lemma {:induction false} AllocateByName(ws: seq<Window>, rows: seq<Reading>, i: nat)
    requires DistinctLabels(ws) && i < |ws|
    ensures Filter(Allocate(ws, rows), ByName(ws[i].name)) == AllocateWindow(ws[i], rows)
    decreases |ws|
  {
    var init, name := ws[..|ws| - 1], ws[i].name;
    AllocateSplitByName(ws, rows, name);
    if i == |ws| - 1 {
      assert forall j :: 0 <= j < |init| ==> init[j].name != name;
      NoOtherLabel(init, rows, name);
    } else {
      assert init[i] == ws[i];
      assert ws[|ws| - 1].name != name;
      assert DistinctLabels(init) by {
        forall a, b | 0 <= a < b < |init|
          ensures init[a].name != init[b].name
        {
          assert init[a] == ws[a] && init[b] == ws[b];
        }
      }
      AllocateByName(init, rows, i);
    }
  }

  /** Each stored reading appears under a label once for every time it is
      stored when the label's window contains it, and otherwise not at
      all. */
  lemma ReadingsPerLabel(ws: seq<Window>, rows: seq<Reading>, i: nat, r: Reading)
    requires DistinctLabels(ws) && i < |ws|
    ensures multiset(Readings(Filter(Allocate(ws, rows), ByName(ws[i].name))))[r] ==
            if Includes(r.timestamp, ws[i]) then multiset(rows)[r] else 0
  {
    AllocateByName(ws, rows, i);
    WindowReadings(ws[i], rows);
    FilterCount(rows, (x: Reading) => Includes(x.timestamp, ws[i]), r);
  }

  /** Over the configured table, a reading stored at exactly 01:00:00 on
      a Friday is allocated under both "Friday_00-01" and "Friday_01-04",
      as often as it is stored. */
  lemma FridayOneAmAllocatedTwice(rows: seq<Reading>, r: Reading)
    requires r in rows && WeekdayOf(r.timestamp.day) == Friday && r.timestamp.time == OneAm
    ensures var all := Allocate(DictItems(Sessions), rows);
      multiset(Readings(Filter(all, ByName("Friday_00-01"))))[r] == multiset(rows)[r] > 0 &&
      multiset(Readings(Filter(all, ByName("Friday_01-04"))))[r] == multiset(rows)[r]
  {
    ConfiguredLabelsDistinct();
    assert Sessions[1].name == "Friday_00-01" && Includes(r.timestamp, Sessions[1]);
    assert Sessions[2].name == "Friday_01-04" && Includes(r.timestamp, Sessions[2]);
    ReadingsPerLabel(Sessions, rows, 1, r);
    ReadingsPerLabel(Sessions, rows, 2, r);
  }

  // ---------------------------------------------------------------------
  // Distinct counts (lines 129-130)

  /** `all_df['timestamp'].dt.date.nunique()` */
  function DaysProcessed(all: seq<Allocated>): nat
  {
    |set a | a in all :: a.reading.timestamp.day|
  }

  /** `all_df['Session'].nunique()` */
  function SessionsProcessed(all: seq<Allocated>): nat
  {
    |set a | a in all :: a.session|
  }

  lemma {:induction false} SessionIdsBound(all: seq<Allocated>)
    ensures |set a | a in all :: a.session| <= |all|
    decreases |all|
  {
    if all != [] {
      var init := all[..|all| - 1];
      SessionIdsBound(init);
      assert all == init + [all[|all| - 1]];
      assert (set a | a in all :: a.session) == (set a | a in init :: a.session) + {all[|all| - 1].session};
    }
  }

  lemma {:induction false} DatesBound(ids: set<SessionId>)
    ensures |set id | id in ids :: id.date| <= |ids|
    decreases |ids|
  {
    if ids != {} {
      var x :| x in ids;
      var rest := ids - {x};
      DatesBound(rest);
      assert (set id | id in ids :: id.date) == (set id | id in rest :: id.date) + {x.date};
    }
  }

  /** When every session id embeds its rows' date, there are no more dates
      than sessions, and no more sessions than rows. */
  lemma CountsBoundedFor(all: seq<Allocated>)
    requires forall a :: a in all ==> a.session.date == a.reading.timestamp.day
    ensures DaysProcessed(all) <= SessionsProcessed(all) <= |all|
  {
    var ids := set a | a in all :: a.session;
    SessionIdsBound(all);
    DatesBound(ids);
    var days := set a | a in all :: a.reading.timestamp.day;
    forall d | d in days
      ensures d in set id | id in ids :: id.date
    {
      var a :| a in all && a.reading.timestamp.day == d;
      assert a.session in ids;
    }
    assert days <= set id | id in ids :: id.date;
    SubsetCard(days, set id | id in ids :: id.date);
  }

  lemma SubsetCard(a: set<int>, b: set<int>)
    requires a <= b
    ensures |a| <= |b|
  {
    assert b == a + (b - a);
  }

  /** The distinct counts of the batch details: days processed is at most
      sessions processed, which is at most the number of allocated rows. */
  lemma CountsBounded(ws: seq<Window>, rows: seq<Reading>)
    ensures var all := Allocate(ws, rows);
      DaysProcessed(all) <= SessionsProcessed(all) <= |all|
  {
    AllocationSound(ws, rows);
    CountsBoundedFor(Allocate(ws, rows));
  }

  // ---------------------------------------------------------------------
  // Day or night, limit and breach (lines 102-119)

  const LimitDay: real := 90.0
  const LimitNight: real := 80.0

  const TenAm: TimeOfDay := TimeOf(10, 0, 0, 0)
  const ElevenFiftyNinePm: TimeOfDay := TimeOf(23, 59, 0, 0)

  /** `is_day(ts)` */
  predicate IsDay(ts: Timestamp)
  {
    var wd, t := WeekdayOf(ts.day), ts.time;
    if wd in {Sunday, Monday, 1, 2, Thursday} && TenAm <= t <= ElevenFiftyNinePm then true
    else if wd == Friday && (TenAm <= t || t <= OneAm) then true
    else if wd == Saturday && (TenAm <= t || t <= OneAm) then true
    else false
  }

  /** The hours counted as night: before 10:00 on every weekday except the
      first hour (up to 01:00:00 inclusive) of a Friday or a Saturday, and
      after 23:59:00 from Sunday to Thursday. */
  lemma NightHours(ts: Timestamp)
    ensures !IsDay(ts) <==>
      (ts.time < TenAm && !(WeekdayOf(ts.day) in {Friday, Saturday} && ts.time <= OneAm)) ||
      (ElevenFiftyNinePm < ts.time && WeekdayOf(ts.day) !in {Friday, Saturday})
  {
  }

  /** Friday and Saturday have every day hour of the other days, and more. */
  lemma WeekendDaysAreLonger(ts: Timestamp, later: int)
    requires IsDay(ts) && WeekdayOf(later) in {Friday, Saturday}
    ensures IsDay(Timestamp(later, ts.time))
  {
  }

  /** The boundaries, with 4 July 2025 a Friday. */
  lemma IsDayBoundaries()
    ensures IsDay(Timestamp(AFriday + 2, TenAm))                                  // Sunday 10:00
    ensures IsDay(Timestamp(AFriday + 2, ElevenFiftyNinePm))                      // Sunday 23:59:00
    ensures !IsDay(Timestamp(AFriday + 2, TimeOf(23, 59, 30, 0)))                 // Sunday 23:59:30
    ensures IsDay(Timestamp(AFriday + 2, TimeOf(11, 0, 0, 0)))                    // Sunday 11:00
    ensures !IsDay(Timestamp(AFriday - 2, TimeOf(2, 0, 0, 0)))                    // Wednesday 02:00
    ensures IsDay(Timestamp(AFriday, TimeOf(0, 30, 0, 0)))                        // Friday 00:30
    ensures IsDay(Timestamp(AFriday, OneAm))                                      // Friday 01:00
    ensures !IsDay(Timestamp(AFriday, OneAm + 1))                                 // Friday 01:00:00.000001
    ensures !IsDay(Timestamp(AFriday + 1, TimeOf(9, 59, 0, 0)))                   // Saturday 09:59
    ensures !IsDay(Timestamp(AFriday + 2, TimeOf(0, 30, 0, 0)))                   // Sunday 00:30
  {
  }

  /** `LIMIT_DAY if is_day(ts) else LIMIT_NIGHT` */
  function Limit(ts: Timestamp): (l: real)
    ensures l == LimitDay || l == LimitNight
    ensures l == LimitDay <==> IsDay(ts)
  {
    if IsDay(ts) then LimitDay else LimitNight
  }

  /** A row of `all_df` with the columns added at lines 102-119. */
  datatype Classified = Classified(row: Allocated, estLceq: real, limit: real, breached: bool)

  function Classify(a: Allocated): Classified
  {
    var est := a.reading.lceq;
    var limit := Limit(a.reading.timestamp);
    Classified(a, est, limit, est > limit)
  }

  /** Lines 101-119. With no allocated row, `pd.DataFrame([])` has no
      `lceq` column and the script stops with a `KeyError`: `None`. */
  function ClassifyAll(all: seq<Allocated>): Option<seq<Classified>>
  {
    if all == [] then None
    else Some(seq(|all|, k requires 0 <= k < |all| => Classify(all[k])))
  }

  /** The estimate is the level itself, and a row is breached exactly when
      it is strictly louder than the limit of its time: 90 dB by day, 80 dB
      at night. A level equal to the limit is no breach. */
  lemma ClassifyAllSpec(all: seq<Allocated>)
    ensures ClassifyAll(all).Some? <==> all != []
    ensures ClassifyAll(all).Some? ==>
      var out := ClassifyAll(all).value;
      |out| == |all| &&
      forall k :: 0 <= k < |out| ==>
        out[k].row == all[k] && out[k].estLceq == all[k].reading.lceq &&
        (out[k].breached <==>
           (IsDay(all[k].reading.timestamp) && all[k].reading.lceq > 90.0) ||
           (!IsDay(all[k].reading.timestamp) && all[k].reading.lceq > 80.0))
  {
  }

  /** A reading that breaches by day breaches at night, and a louder reading
      at the same time breaches whenever a quieter one does. */
  lemma BreachMonotone(a: Allocated, b: Allocated)
    ensures Classify(a).breached && !IsDay(b.reading.timestamp) && b.reading.lceq >= a.reading.lceq ==>
            Classify(b).breached
    ensures a.reading.timestamp == b.reading.timestamp && Classify(a).breached && b.reading.lceq >= a.reading.lceq ==>
            Classify(b).breached
  {
  }

  /** 81.2 dB at Wednesday 02:00 breaches, 79.9 dB does not, and 90.0 dB on
      Sunday at 11:00 is exactly the limit and does not. */
  lemma BreachExamples(a: Allocated)
    ensures a.reading.timestamp == Timestamp(AFriday - 2, TimeOf(2, 0, 0, 0)) ==>
      (a.reading.lceq == 81.2 ==> Classify(a).breached) &&
      (a.reading.lceq == 79.9 ==> !Classify(a).breached)
    ensures a.reading.timestamp == Timestamp(AFriday + 2, TimeOf(11, 0, 0, 0)) && a.reading.lceq == 90.0 ==>
      !Classify(a).breached
  {
  }
}
