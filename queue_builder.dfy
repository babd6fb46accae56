/** The request queue of `Dext3rDownloader` (lib/download_manager.py): the
    timeline is cut into sections of at most `max_days`, each selected series'
    availability window is clipped to every section it meets, units already
    sent under a valid task are dropped when resuming, and the queue is sorted
    heaviest first. Dataframes are sequences of records and joins are filters. */
module QueueBuilder {
  import opened Units
  import opened Stack
  import opened Write

  // ---------------------------------------------------------------------
  // Timeline sections
  // ---------------------------------------------------------------------

  /** `pl.date_range(from_date, to_date, max_days days)`: the dates
      `from, from + step, ...` up to and including `to`. */
  function CutDates(from: Date, to: Date, step: int): seq<Date>
    requires step > 0
    decreases if from <= to then to - from + 1 else 0
  {
    if from > to then [] else [from] + CutDates(from + step, to, step)
  }

  lemma {:induction false} CutDatesShape(from: Date, to: Date, step: int)
    requires step > 0
    ensures var c := CutDates(from, to, step);
      (c == [] <==> from > to)
      && (c != [] ==> c[0] == from && c[|c| - 1] <= to < c[|c| - 1] + step)
      && (forall i :: 0 <= i < |c| ==> from <= c[i] <= to)
      && (forall i :: 0 <= i < |c| - 1 ==> c[i + 1] == c[i] + step)
    decreases if from <= to then to - from + 1 else 0
  {
    if from <= to {
      CutDatesShape(from + step, to, step);
      var c := CutDates(from, to, step);
      var rest := CutDates(from + step, to, step);
      assert c == [from] + rest;
      assert forall i :: 1 <= i < |c| ==> c[i] == rest[i - 1];
    }
  }

  /** Consecutive pairs of a list of cut dates (`from = cuts[:-1]`, `to = cuts[1:]`). */
  function Windows(cuts: seq<Date>): (r: seq<(Date, Date)>)
    requires |cuts| > 0
    ensures |r| == |cuts| - 1
    ensures forall i :: 0 <= i < |r| ==> r[i] == (cuts[i], cuts[i + 1])
  {
    seq(|cuts| - 1, i requires 0 <= i < |cuts| - 1 => (cuts[i], cuts[i + 1]))
  }

  predicate Forward(w: (Date, Date))
  {
    w.0 < w.1
  }

  /** A timeline section: its row index and its closed date range. */
  datatype Section = Section(index: int, from: Date, to: Date)

  /** The `time_parts` table: windows over the cut dates with `to_date`
      appended, those with `from < to` kept and numbered from 0. */
  function Sections(fromDate: Date, toDate: Date, maxDays: int): seq<Section>
    requires maxDays > 0
  {
    Numbered(Filter(Windows(CutDates(fromDate, toDate, maxDays) + [toDate]), Forward))
  }

  /** The windows as sections numbered from 0. */
  function Numbered(kept: seq<(Date, Date)>): seq<Section>
  {
    seq(|kept|, k requires 0 <= k < |kept| => Section(k, kept[k].0, kept[k].1))
  }

  /** Numbering keeps the shape of the windows. */
  lemma NumberedShape(kept: seq<(Date, Date)>, fromDate: Date, toDate: Date, maxDays: int)
    requires kept == [] <==> fromDate >= toDate
    requires forall k :: 0 <= k < |kept| ==>
      fromDate <= kept[k].0 < kept[k].1 <= toDate && kept[k].1 - kept[k].0 <= maxDays
    requires forall k :: 0 <= k < |kept| - 1 ==> kept[k].1 == kept[k + 1].0
    requires kept != [] ==> kept[0].0 == fromDate && kept[|kept| - 1].1 == toDate
    ensures var r := Numbered(kept);
      (r == [] <==> fromDate >= toDate)
      && (forall k :: 0 <= k < |r| ==>
            r[k].index == k && fromDate <= r[k].from < r[k].to <= toDate && r[k].to - r[k].from <= maxDays)
      && (forall k :: 0 <= k < |r| - 1 ==> r[k].to == r[k + 1].from)
      && (r != [] ==> r[0].from == fromDate && r[|r| - 1].to == toDate)
  {
  }

  lemma WindowsAppend(cuts: seq<Date>, to: Date)
    requires |cuts| > 0
    ensures Windows(cuts + [to]) == Windows(cuts) + [(cuts[|cuts| - 1], to)]
  {
    var n := |cuts|;
    assert forall i :: 0 <= i < n ==> (cuts + [to])[i] == cuts[i];
  }

  /** Cut dates one step apart give windows that all survive the filter. */
  lemma SteppedWindowsForward(cuts: seq<Date>, step: int)
    requires |cuts| > 0 && step > 0
    requires forall i :: 0 <= i < |cuts| - 1 ==> cuts[i + 1] == cuts[i] + step
    ensures Filter(Windows(cuts), Forward) == Windows(cuts)
  {
    var ws := Windows(cuts);
    assert forall i :: 0 <= i < |ws| ==> Forward(ws[i]);
    FilterAll(ws, Forward);
  }

  lemma FilterSingle<T(!new)>(x: T, p: T -> bool)
    ensures Filter([x], p) == if p(x) then [x] else []
  {
    assert [x][1..] == [];
  }

  /** The windows that survive the filter: every window between two cut dates
      is one step long, and the last one (up to `to_date`) is kept only when
      it is not empty. */
  lemma KeptWindows(fromDate: Date, toDate: Date, maxDays: int)
    requires maxDays > 0 && fromDate <= toDate
    ensures var c := CutDates(fromDate, toDate, maxDays);
      c != []
      && Filter(Windows(c + [toDate]), Forward)
         == Windows(c) + (if c[|c| - 1] < toDate then [(c[|c| - 1], toDate)] else [])
  {
    CutDatesShape(fromDate, toDate, maxDays);
    var c := CutDates(fromDate, toDate, maxDays);
    var last := (c[|c| - 1], toDate);
    WindowsAppend(c, toDate);
    FilterAppend(Windows(c), [last], Forward);
    SteppedWindowsForward(c, maxDays);
    FilterSingle(last, Forward);
  }

  /** Windows over cut dates one step apart, followed by the last window up
      to `to` when it is not empty, follow on from one another, are each
      non-empty and at most one step long, and run from the first cut to `to`. */
  lemma SteppedChain(c: seq<Date>, from: Date, to: Date, step: int)
    requires step > 0 && c != [] && c[0] == from && c[|c| - 1] <= to < c[|c| - 1] + step
    requires forall i :: 0 <= i < |c| ==> from <= c[i] <= to
    requires forall i :: 0 <= i < |c| - 1 ==> c[i + 1] == c[i] + step
    ensures var kept := Windows(c) + (if c[|c| - 1] < to then [(c[|c| - 1], to)] else []);
      (kept == [] <==> from == to)
      && (forall k :: 0 <= k < |kept| ==> from <= kept[k].0 < kept[k].1 <= to && kept[k].1 - kept[k].0 <= step)
      && (forall k :: 0 <= k < |kept| - 1 ==> kept[k].1 == kept[k + 1].0)
      && (kept != [] ==> kept[0].0 == from && kept[|kept| - 1].1 == to)
  {
    var n := |c|;
    var ws := Windows(c);
    if c[n - 1] < to {
      var kept := ws + [(c[n - 1], to)];
      assert forall k :: 0 <= k < n - 1 ==> kept[k] == ws[k];
    } else if n > 1 {
      assert ws[n - 2].1 == c[n - 1];
    }
  }

  /** The kept windows as pairs: consecutive, each non-empty and at most one
      step long, running from `from_date` to `to_date`. */
  lemma KeptShape(fromDate: Date, toDate: Date, maxDays: int)
    requires maxDays > 0 && fromDate <= toDate
    ensures var kept := Filter(Windows(CutDates(fromDate, toDate, maxDays) + [toDate]), Forward);
      (kept == [] <==> fromDate == toDate)
      && (forall k :: 0 <= k < |kept| ==>
            fromDate <= kept[k].0 < kept[k].1 <= toDate && kept[k].1 - kept[k].0 <= maxDays)
      && (forall k :: 0 <= k < |kept| - 1 ==> kept[k].1 == kept[k + 1].0)
      && (kept != [] ==> kept[0].0 == fromDate && kept[|kept| - 1].1 == toDate)
  {
    CutDatesShape(fromDate, toDate, maxDays);
    KeptWindows(fromDate, toDate, maxDays);
    SteppedChain(CutDates(fromDate, toDate, maxDays), fromDate, toDate, maxDays);
  }

  /** The sections are numbered 0, 1, 2, ...; each is a non-empty range of at
      most `max_days` days inside `[from_date, to_date]`; each ends on the day
      the next one starts (closed ranges, so that day lies in both); together
      they run from `from_date` to `to_date`. There are none exactly when
      `from_date >= to_date`, so a single-day period yields no section. */
  lemma SectionsShape(fromDate: Date, toDate: Date, maxDays: int)
    requires maxDays > 0
    ensures var r := Sections(fromDate, toDate, maxDays);
      (r == [] <==> fromDate >= toDate)
      && (forall k :: 0 <= k < |r| ==>
            r[k].index == k && fromDate <= r[k].from < r[k].to <= toDate && r[k].to - r[k].from <= maxDays)
      && (forall k :: 0 <= k < |r| - 1 ==> r[k].to == r[k + 1].from)
      && (r != [] ==> r[0].from == fromDate && r[|r| - 1].to == toDate)
  {
    var c := CutDates(fromDate, toDate, maxDays);
    var kept := Filter(Windows(c + [toDate]), Forward);
    if fromDate > toDate {
      CutDatesShape(fromDate, toDate, maxDays);
      assert Windows(c + [toDate]) == [];
    } else {
      KeptShape(fromDate, toDate, maxDays);
    }
    NumberedShape(kept, fromDate, toDate, maxDays);
  }

  /** Sections that follow on from one another cover every day from the
      first one's start to the last one's end. */
  lemma {:induction false} ChainCovers(r: seq<Section>, d: Date)
    requires r != [] && r[0].from <= d <= r[|r| - 1].to
    requires forall k :: 0 <= k < |r| - 1 ==> r[k].to == r[k + 1].from
    ensures exists k :: 0 <= k < |r| && r[k].from <= d <= r[k].to
  {
    if d > r[0].to {
      ChainCovers(r[1..], d);
      var k :| 0 <= k < |r[1..]| && r[1..][k].from <= d <= r[1..][k].to;
      assert r[k + 1] == r[1..][k];
    }
  }

  /** Every day of `[from_date, to_date]` lies in some section when the
      period spans more than one day. */
  lemma SectionsCover(fromDate: Date, toDate: Date, maxDays: int, d: Date)
    requires maxDays > 0 && fromDate < toDate && fromDate <= d <= toDate
    ensures var r := Sections(fromDate, toDate, maxDays);
      exists k :: 0 <= k < |r| && r[k].from <= d <= r[k].to
  {
    SectionsShape(fromDate, toDate, maxDays);
    ChainCovers(Sections(fromDate, toDate, maxDays), d);
  }

  // ---------------------------------------------------------------------
  // The initial queue: `init_request_queue`
  // ---------------------------------------------------------------------

  /** One row of the series catalogue. */
  datatype Series = Series(
    name: string,
    id: string,
    v: string,
    variable: string,
    aggCode: int,
    aggPeriod: int,
    begin: Date,
    end: Date)

  /** The catalogue filter and the semi-join against the cross product of the
      requested variables and aggregation codes with the requested span. A
      single variable or code given as a bare string is a one-element list. */
  predicate Selected(s: Series, variables: seq<string>, aggCodes: seq<int>, aggSpan: int, fromDate: Date, toDate: Date)
  {
    s.end >= fromDate && s.begin <= toDate
    && s.variable in variables && s.aggCode in aggCodes && s.aggPeriod == aggSpan
  }

  /** The closed-range overlap filter between a series and a section. */
  predicate Overlaps(s: Series, sec: Section)
  {
    s.begin <= sec.to && s.end >= sec.from
  }

  /** The unit for a series in a section: its window clipped to the section,
      and the number of points `((to - from + 1 day) in seconds) // agg_period`. */
  function Clip(s: Series, sec: Section): WorkUnit
    requires s.aggPeriod > 0
  {
    var from := Max(s.begin, sec.from);
    var to := Min(s.end, sec.to);
    WorkUnit(s.name, s.id, s.v, from, to, (to - from + 1) * SecondsPerDay / s.aggPeriod, sec.index, s.aggPeriod)
  }

  /** The rows of the cross join for one series, overlap-filtered and clipped. */
  function SeriesUnits(s: Series, secs: seq<Section>): seq<WorkUnit>
    requires s.aggPeriod > 0
  {
    if secs == [] then []
    else (if Overlaps(s, secs[0]) then [Clip(s, secs[0])] else []) + SeriesUnits(s, secs[1..])
  }

  /** The cross join of the selected series with the sections (series-major),
      overlap-filtered and clipped. */
  function CrossUnits(series: seq<Series>, secs: seq<Section>): seq<WorkUnit>
    requires forall i :: 0 <= i < |series| ==> series[i].aggPeriod > 0
  {
    if series == [] then [] else SeriesUnits(series[0], secs) + CrossUnits(series[1..], secs)
  }

  /** `init_request_queue`, with the series catalogue given as `meta`. */
  function InitRequestQueue(meta: seq<Series>, variables: seq<string>, aggCodes: seq<int>, aggSpan: int,
                            fromDate: Date, toDate: Date, maxDays: int): seq<WorkUnit>
    requires aggSpan > 0 && maxDays > 0
  {
    var selected := Filter(meta, s => Selected(s, variables, aggCodes, aggSpan, fromDate, toDate));
    CrossUnits(selected, Sections(fromDate, toDate, maxDays))
  }

  lemma {:induction false} SeriesUnitsMembers(s: Series, secs: seq<Section>, u: WorkUnit)
    requires s.aggPeriod > 0
    ensures u in SeriesUnits(s, secs) <==> exists k :: 0 <= k < |secs| && Overlaps(s, secs[k]) && u == Clip(s, secs[k])
  {
    if secs != [] {
      SeriesUnitsMembers(s, secs[1..], u);
      if u in SeriesUnits(s, secs[1..]) {
        var k :| 0 <= k < |secs[1..]| && Overlaps(s, secs[1..][k]) && u == Clip(s, secs[1..][k]);
        assert secs[k + 1] == secs[1..][k];
      }
      if exists k :: 0 <= k < |secs| && Overlaps(s, secs[k]) && u == Clip(s, secs[k]) {
        var k :| 0 <= k < |secs| && Overlaps(s, secs[k]) && u == Clip(s, secs[k]);
        if k > 0 {
          assert secs[1..][k - 1] == secs[k];
        }
      }
    }
  }

  lemma {:induction false} CrossUnitsMembers(series: seq<Series>, secs: seq<Section>, u: WorkUnit)
    requires forall i :: 0 <= i < |series| ==> series[i].aggPeriod > 0
    ensures u in CrossUnits(series, secs) <==>
      exists s, k :: s in series && 0 <= k < |secs| && Overlaps(s, secs[k]) && u == Clip(s, secs[k])
  {
    if series != [] {
      var head, tail := series[0], series[1..];
      assert series == [head] + tail;
      CrossUnitsMembers(tail, secs, u);
      SeriesUnitsMembers(head, secs, u);
      assert CrossUnits(series, secs) == SeriesUnits(head, secs) + CrossUnits(tail, secs);
      if u in SeriesUnits(head, secs) {
        var k :| 0 <= k < |secs| && Overlaps(head, secs[k]) && u == Clip(head, secs[k]);
        assert head in series;
      } else if u in CrossUnits(tail, secs) {
        var s, k :| s in tail && 0 <= k < |secs| && Overlaps(s, secs[k]) && u == Clip(s, secs[k]);
        assert s in series;
      }
      if exists s, k :: s in series && 0 <= k < |secs| && Overlaps(s, secs[k]) && u == Clip(s, secs[k]) {
        var s, k :| s in series && 0 <= k < |secs| && Overlaps(s, secs[k]) && u == Clip(s, secs[k]);
        if s != head {
          assert s in tail;
        }
      }
    }
  }

  /** A unit is in the initial queue exactly when some selected series
      overlaps some section and the unit is that series clipped to it. */
  lemma InitRequestQueueMembers(meta: seq<Series>, variables: seq<string>, aggCodes: seq<int>, aggSpan: int,
                                fromDate: Date, toDate: Date, maxDays: int, u: WorkUnit)
    requires aggSpan > 0 && maxDays > 0
    ensures var secs := Sections(fromDate, toDate, maxDays);
      u in InitRequestQueue(meta, variables, aggCodes, aggSpan, fromDate, toDate, maxDays) <==>
      exists s, k :: s in meta && Selected(s, variables, aggCodes, aggSpan, fromDate, toDate)
                     && 0 <= k < |secs| && Overlaps(s, secs[k]) && u == Clip(s, secs[k])
  {
    var selected := Filter(meta, s => Selected(s, variables, aggCodes, aggSpan, fromDate, toDate));
    CrossUnitsMembers(selected, Sections(fromDate, toDate, maxDays), u);
  }

  /** A clipped unit lies inside its section and inside the series' window,
      is not empty, and its `count` is the size estimate of the unit alone. */
  lemma ClipShape(s: Series, sec: Section)
    requires s.aggPeriod > 0 && s.begin <= s.end && sec.from <= sec.to && Overlaps(s, sec)
    ensures var u := Clip(s, sec);
      sec.from <= u.from <= u.to <= sec.to && s.begin <= u.from && u.to <= s.end
      && u.section == sec.index && u.aggPeriod == s.aggPeriod && Counted(u)
  {
    TotElementsSingleton(Clip(s, sec));
  }

  /** Every unit of the initial queue (from a catalogue whose windows are not
      reversed) lies in the section it is tagged with, inside
      `[from_date, to_date]`, carries the requested span, and has the count
      the packer's size estimate gives it. */
  lemma InitRequestQueueUnits(meta: seq<Series>, variables: seq<string>, aggCodes: seq<int>, aggSpan: int,
                              fromDate: Date, toDate: Date, maxDays: int, u: WorkUnit)
    requires aggSpan > 0 && maxDays > 0
    requires forall i :: 0 <= i < |meta| ==> meta[i].begin <= meta[i].end
    requires u in InitRequestQueue(meta, variables, aggCodes, aggSpan, fromDate, toDate, maxDays)
    ensures var secs := Sections(fromDate, toDate, maxDays);
      0 <= u.section < |secs| && secs[u.section].from <= u.from <= u.to <= secs[u.section].to
      && fromDate <= u.from && u.to <= toDate && u.aggPeriod == aggSpan && Counted(u)
  {
    var secs := Sections(fromDate, toDate, maxDays);
    InitRequestQueueMembers(meta, variables, aggCodes, aggSpan, fromDate, toDate, maxDays, u);
    SectionsShape(fromDate, toDate, maxDays);
    var s, k :| s in meta && Selected(s, variables, aggCodes, aggSpan, fromDate, toDate)
                && 0 <= k < |secs| && Overlaps(s, secs[k]) && u == Clip(s, secs[k]);
    ClipShape(s, secs[k]);
  }

  // ---------------------------------------------------------------------
  // Resuming: `read_invalid_tasks` and the anti-joins of `make_request_queue`
  // ---------------------------------------------------------------------

  predicate IsHexDigit(c: char)
  {
    '0' <= c <= '9' || 'a' <= c <= 'f'
  }

  /** The character allowed at offset `k` of a match: a dash at the four
      separators, a lower-case hexadecimal digit elsewhere. */
  predicate UuidChar(k: int, c: char)
  {
    if k == 8 || k == 13 || k == 18 || k == 23 then c == '-' else IsHexDigit(c)
  }

  /** `w` is matched by `[a-f0-9]{8}-[a-f0-9]{4}-[a-f0-9]{4}-[a-f0-9]{4}-[a-f0-9]{12}`. */
  predicate IsUuid(w: string)
  {
    |w| == 36 && forall k :: 0 <= k < |w| ==> UuidChar(k, w[k])
  }

  /** The pattern matches the 36 characters of `s` starting at `p`. */
  predicate UuidAt(s: string, p: nat)
  {
    p + 36 <= |s| && IsUuid(s[p..p + 36])
  }

  /** Where `findall` finds its matches from `p` on: the pattern has a fixed
      length, so a match at `p` resumes the scan after it and a miss moves on
      by one character. The matches are in increasing, non-overlapping order. */
  function UuidPositions(s: string, p: nat): (r: seq<nat>)
    requires p <= |s|
    ensures forall i :: 0 <= i < |r| ==> p <= r[i] && UuidAt(s, r[i])
    ensures forall i :: 0 <= i < |r| - 1 ==> r[i] + 36 <= r[i + 1]
    decreases |s| - p
  {
    if p + 36 > |s| then []
    else if UuidAt(s, p) then [p] + UuidPositions(s, p + 36)
    else UuidPositions(s, p + 1)
  }

  /** The scan misses no match: every position where the pattern matches lies
      within one of the reported matches. */
  lemma {:induction false} UuidPositionsComplete(s: string, p: nat, q: nat)
    requires p <= q && UuidAt(s, q)
    ensures exists i :: 0 <= i < |UuidPositions(s, p)| && UuidPositions(s, p)[i] <= q < UuidPositions(s, p)[i] + 36
    decreases |s| - p
  {
    var r := UuidPositions(s, p);
    if UuidAt(s, p) {
      assert r[0] == p;
      if q >= p + 36 {
        var rest := UuidPositions(s, p + 36);
        UuidPositionsComplete(s, p + 36, q);
        assert r == [p] + rest;
        var i :| 0 <= i < |rest| && rest[i] <= q < rest[i] + 36;
        assert r[i + 1] == rest[i];
      }
    } else {
      assert q != p;
      assert r == UuidPositions(s, p + 1);
      UuidPositionsComplete(s, p + 1, q);
    }
  }

  /** `task_regex.findall(content)`. */
  function FindUuids(content: string): (r: seq<string>)
  {
    var ps := UuidPositions(content, 0);
    seq(|ps|, i requires 0 <= i < |ps| => content[ps[i]..ps[i] + 36])
  }

  /** Each task id found has the UUID shape and occurs in the text, in order
      and without overlap; every UUID-shaped substring of the text is one of
      them or overlaps one of them; a text without any gives nothing. */
  lemma FindUuidsSpec(content: string)
    ensures var r := FindUuids(content); var ps := UuidPositions(content, 0);
      |r| == |ps|
      && (forall i :: 0 <= i < |r| ==> IsUuid(r[i]) && r[i] == content[ps[i]..ps[i] + 36])
      && (forall q :: UuidAt(content, q) ==> exists i :: 0 <= i < |ps| && ps[i] <= q < ps[i] + 36)
      && (r == [] <==> forall q :: !UuidAt(content, q))
  {
    var ps := UuidPositions(content, 0);
    forall q | UuidAt(content, q)
      ensures exists i :: 0 <= i < |ps| && ps[i] <= q < ps[i] + 36
    {
      UuidPositionsComplete(content, 0, q);
    }
    if ps != [] {
      assert UuidAt(content, ps[0]);
    }
  }

  /** `read_invalid_tasks`: a missing file lists no task. */
  function ReadInvalidTasks(file: Option<string>): (r: seq<string>)
    ensures file.None? ==> r == []
    ensures file.Some? ==> r == FindUuids(file.value)
  {
    match file
    case None => []
    case Some(content) => FindUuids(content)
  }

  /** The invalid task ids: none for a missing file; otherwise each is a
      UUID that occurs in the text, and there are none exactly when the
      text holds no UUID. */
  lemma ReadInvalidTasksSpec(file: Option<string>)
    ensures file.None? ==> ReadInvalidTasks(file) == []
    ensures file.Some? ==> var r := ReadInvalidTasks(file);
      (forall i :: 0 <= i < |r| ==>
         IsUuid(r[i]) && exists q: nat :: UuidAt(file.value, q) && file.value[q..q + 36] == r[i])
      && (r == [] <==> forall q: nat :: !UuidAt(file.value, q))
  {
    if file.Some? {
      var content := file.value;
      FindUuidsSpec(content);
      var r, ps := FindUuids(content), UuidPositions(content, 0);
      forall i | 0 <= i < |r|
        ensures exists q: nat :: UuidAt(content, q) && content[q..q + 36] == r[i]
      {
        assert UuidAt(content, ps[i]);
      }
    }
  }

  /** A unit was already requested: some sent row whose task is not flagged
      invalid has its station id, variable and timeline section. */
  predicate AlreadySent(u: WorkUnit, sent: seq<Row>, invalid: seq<string>)
  {
    exists i :: 0 <= i < |sent| && sent[i].taskId !in invalid
      && sent[i].unit.id == u.id && sent[i].unit.v == u.v && sent[i].unit.section == u.section
  }

  /** The two anti-joins: the sent rows minus the invalid tasks, then the queue
      minus the units matching one of those rows on `(id, v, timeline_section)`. */
  function Unsent(queue: seq<WorkUnit>, sent: seq<Row>, invalid: seq<string>): seq<WorkUnit>
  {
    var toRemove := Filter(sent, (r: Row) => r.taskId !in invalid);
    Filter(queue, (u: WorkUnit) => !Matches(u, toRemove))
  }

  /** Some row is about the same station, variable and section as `u`. */
  predicate Matches(u: WorkUnit, rows: seq<Row>)
  {
    exists i :: 0 <= i < |rows| && rows[i].unit.id == u.id && rows[i].unit.v == u.v && rows[i].unit.section == u.section
  }

  lemma MatchesValid(u: WorkUnit, sent: seq<Row>, invalid: seq<string>)
    ensures Matches(u, Filter(sent, (r: Row) => r.taskId !in invalid)) <==> AlreadySent(u, sent, invalid)
  {
    var toRemove := Filter(sent, (r: Row) => r.taskId !in invalid);
    if AlreadySent(u, sent, invalid) {
      var i :| 0 <= i < |sent| && sent[i].taskId !in invalid
        && sent[i].unit.id == u.id && sent[i].unit.v == u.v && sent[i].unit.section == u.section;
      assert sent[i] in toRemove;
      var j :| 0 <= j < |toRemove| && toRemove[j] == sent[i];
    }
    if Matches(u, toRemove) {
      var j :| 0 <= j < |toRemove| && toRemove[j].unit.id == u.id && toRemove[j].unit.v == u.v
               && toRemove[j].unit.section == u.section;
      assert toRemove[j] in sent;
      var i :| 0 <= i < |sent| && sent[i] == toRemove[j];
    }
  }

  /** Resuming keeps, in order, exactly the units not already sent under a
      valid task. */
  lemma UnsentSpec(queue: seq<WorkUnit>, sent: seq<Row>, invalid: seq<string>)
    ensures var r := Unsent(queue, sent, invalid);
      Subsequence(r, queue)
      && forall u :: u in r <==> u in queue && !AlreadySent(u, sent, invalid)
  {
    var toRemove := Filter(sent, (r: Row) => r.taskId !in invalid);
    FilterIsSubsequence(queue, (u: WorkUnit) => !Matches(u, toRemove));
    forall u
      ensures Matches(u, toRemove) <==> AlreadySent(u, sent, invalid)
    {
      MatchesValid(u, sent, invalid);
    }
  }

  // ---------------------------------------------------------------------
  // Sorting and the whole of `make_request_queue`
  // ---------------------------------------------------------------------

  /** Descending by `count`, ties descending by `timeline_section`. */
  predicate Precedes(a: WorkUnit, b: WorkUnit)
  {
    a.count > b.count || (a.count == b.count && a.section >= b.section)
  }

  predicate SortedDesc(q: seq<WorkUnit>)
  {
    forall i, j :: 0 <= i < j < |q| ==> Precedes(q[i], q[j])
  }

  function Insert(u: WorkUnit, q: seq<WorkUnit>): seq<WorkUnit>
  {
    if q == [] then [u]
    else if Precedes(u, q[0]) then [u] + q
    else [q[0]] + Insert(u, q[1..])
  }

  lemma {:induction false} InsertPermutes(u: WorkUnit, q: seq<WorkUnit>)
    ensures multiset(Insert(u, q)) == multiset(q) + multiset{u}
  {
    if q != [] && !Precedes(u, q[0]) {
      InsertPermutes(u, q[1..]);
      assert q == [q[0]] + q[1..];
    }
  }

  lemma {:induction false} InsertSorted(u: WorkUnit, q: seq<WorkUnit>)
    requires SortedDesc(q)
    ensures SortedDesc(Insert(u, q))
  {
    if q != [] && !Precedes(u, q[0]) {
      InsertSorted(u, q[1..]);
      InsertPermutes(u, q[1..]);
      var r := Insert(u, q[1..]);
      forall j | 0 <= j < |r|
        ensures Precedes(q[0], r[j])
      {
        assert r[j] in multiset(r);
        if r[j] != u {
          assert r[j] in q[1..];
        }
      }
    }
  }

  /** `queue.sort("count", "timeline_section", descending=True)`. The order
      of units equal on both keys is not specified by the source; this
      definition keeps one of the admissible orders. */
  function SortQueue(q: seq<WorkUnit>): seq<WorkUnit>
  {
    if q == [] then [] else Insert(q[0], SortQueue(q[1..]))
  }

  lemma {:induction false} SortQueueSpec(q: seq<WorkUnit>)
    ensures SortedDesc(SortQueue(q)) && multiset(SortQueue(q)) == multiset(q)
  {
    if q != [] {
      SortQueueSpec(q[1..]);
      InsertSorted(q[0], SortQueue(q[1..]));
      InsertPermutes(q[0], SortQueue(q[1..]));
      assert q == [q[0]] + q[1..];
    }
  }

  /** `make_request_queue`: the files of the workspace are given as their
      contents, `None` when missing. */
  function MakeRequestQueue(meta: seq<Series>, variables: seq<string>, aggCodes: seq<int>, aggSpan: int,
                            fromDate: Date, toDate: Date, maxDays: int, resume: bool,
                            sentFile: Option<seq<Row>>, invalidFile: Option<string>): seq<WorkUnit>
    requires aggSpan > 0 && maxDays > 0
  {
    var queue := InitRequestQueue(meta, variables, aggCodes, aggSpan, fromDate, toDate, maxDays);
    var kept := if resume then Unsent(queue, StoredRows(sentFile), ReadInvalidTasks(invalidFile)) else queue;
    SortQueue(kept)
  }

  /** The final queue is sorted heaviest first and holds each unit of the
      initial queue as often as it occurs there, except, when resuming, the
      units already sent under a task that is not flagged invalid. */
  lemma MakeRequestQueueSpec(meta: seq<Series>, variables: seq<string>, aggCodes: seq<int>, aggSpan: int,
                             fromDate: Date, toDate: Date, maxDays: int, resume: bool,
                             sentFile: Option<seq<Row>>, invalidFile: Option<string>)
    requires aggSpan > 0 && maxDays > 0
    ensures var r := MakeRequestQueue(meta, variables, aggCodes, aggSpan, fromDate, toDate, maxDays, resume, sentFile, invalidFile);
      var queue := InitRequestQueue(meta, variables, aggCodes, aggSpan, fromDate, toDate, maxDays);
      SortedDesc(r)
      && (!resume ==> multiset(r) == multiset(queue))
      && (resume ==> multiset(r) == multiset(Unsent(queue, StoredRows(sentFile), ReadInvalidTasks(invalidFile))))
      && forall u :: u in r <==>
           u in queue && !(resume && AlreadySent(u, StoredRows(sentFile), ReadInvalidTasks(invalidFile)))
  {
    var queue := InitRequestQueue(meta, variables, aggCodes, aggSpan, fromDate, toDate, maxDays);
    var sent := StoredRows(sentFile);
    var invalid := ReadInvalidTasks(invalidFile);
    var kept := if resume then Unsent(queue, sent, invalid) else queue;
    SortQueueSpec(kept);
    UnsentSpec(queue, sent, invalid);
    forall u
      ensures u in SortQueue(kept) <==> u in kept
    {
      assert u in SortQueue(kept) <==> u in multiset(SortQueue(kept));
    }
  }

  /** Every unit of the queue carries the requested span, which is positive,
      so the packer's size estimate is defined on it. */
  lemma MakeRequestQueuePeriods(meta: seq<Series>, variables: seq<string>, aggCodes: seq<int>, aggSpan: int,
                                fromDate: Date, toDate: Date, maxDays: int, resume: bool,
                                sentFile: Option<seq<Row>>, invalidFile: Option<string>)
    requires aggSpan > 0 && maxDays > 0
    ensures forall u :: u in MakeRequestQueue(meta, variables, aggCodes, aggSpan, fromDate, toDate, maxDays, resume, sentFile, invalidFile) ==>
      u.aggPeriod == aggSpan
    ensures PositivePeriods(MakeRequestQueue(meta, variables, aggCodes, aggSpan, fromDate, toDate, maxDays, resume, sentFile, invalidFile))
  {
    var r := MakeRequestQueue(meta, variables, aggCodes, aggSpan, fromDate, toDate, maxDays, resume, sentFile, invalidFile);
    var secs := Sections(fromDate, toDate, maxDays);
    MakeRequestQueueSpec(meta, variables, aggCodes, aggSpan, fromDate, toDate, maxDays, resume, sentFile, invalidFile);
    forall u | u in r
      ensures u.aggPeriod == aggSpan
    {
      InitRequestQueueMembers(meta, variables, aggCodes, aggSpan, fromDate, toDate, maxDays, u);
      var s, k :| s in meta && Selected(s, variables, aggCodes, aggSpan, fromDate, toDate)
                  && 0 <= k < |secs| && Overlaps(s, secs[k]) && u == Clip(s, secs[k]);
    }
    assert forall i :: 0 <= i < |r| ==> r[i] in r;
  }
}
