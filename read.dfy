/** Reading back what the service returned (lib/read.py): locating the tables
    of a result file among its lines, the two consistency checks on a parsed
    table, and flattening the nested map of past requests into rows. */
module Read {
  import opened Units
  import opened Requests

  // ---------------------------------------------------------------------
  // Tables of a result file: `_next_table` and `table_specs`
  // ---------------------------------------------------------------------

  /** First index at or after `i` holding a non-blank line (`|lines|` or `i`
      itself when there is none). */
  function SkipBlank(lines: seq<string>, i: nat): (k: nat)
    ensures i <= k && (k <= |lines| || k == i)
    ensures forall j :: i <= j < k ==> lines[j] == ""
    ensures k < |lines| ==> lines[k] != ""
    decreases if i < |lines| then |lines| - i else 0
  {
    if i < |lines| && lines[i] == "" then SkipBlank(lines, i + 1) else i
  }

  /** First index at or after `i` holding a blank line, or `|lines|`. */
  function RunEnd(lines: seq<string>, i: nat): (k: nat)
    requires i <= |lines|
    ensures i <= k <= |lines|
    ensures forall j :: i <= j < k ==> lines[j] != ""
    ensures k == |lines| || lines[k] == ""
    decreases |lines| - i
  {
    if i < |lines| && lines[i] != "" then RunEnd(lines, i + 1) else i
  }

  /** What `_next_table(lines, start)` returns: the first non-blank line at
      or after `start` and the length of the run of non-blank lines there.
      Running past the last line raises IndexError. */
  function NextTableOf(lines: seq<string>, start: nat): (r: Result<(nat, nat)>)
    ensures r.Err? <==> forall k :: start <= k < |lines| ==> lines[k] == ""
    ensures r.Err? ==> r.error == IndexError
    ensures r.Ok? ==>
      (start <= r.value.0 < |lines| && lines[r.value.0] != ""
       && (forall k :: start <= k < r.value.0 ==> lines[k] == "")
       && r.value.1 >= 1 && r.value.0 + r.value.1 <= |lines|
       && (forall k :: r.value.0 <= k < r.value.0 + r.value.1 ==> lines[k] != "")
       && (r.value.0 + r.value.1 == |lines| || lines[r.value.0 + r.value.1] == ""))
  {
    var s := SkipBlank(lines, start);
    if s >= |lines| then Err(IndexError) else Ok((s, RunEnd(lines, s) - s))
  }

  /** `_next_table`: two scanning loops. */
  method NextTable(lines: seq<string>, start: nat) returns (r: Result<(nat, nat)>)
    ensures r == NextTableOf(lines, start)
  {
    var s := start;
    while s < |lines| && lines[s] == ""
      invariant start <= s && (s <= |lines| || s == start)
      invariant SkipBlank(lines, s) == SkipBlank(lines, start)
      decreases |lines| - s
    {
      s := s + 1;
    }
    if s >= |lines| {
      // `lines[start]` past the end
      return Err(IndexError);
    }
    var counter := 0;
    while s + counter < |lines| && lines[s + counter] != ""
      invariant s + counter <= |lines|
      invariant RunEnd(lines, s + counter) == RunEnd(lines, s)
      decreases |lines| - s - counter
    {
      counter := counter + 1;
    }
    return Ok((s, counter));
  }

  /** Prefixes already found tables to the outcome of the rest of the scan. */
  function AppendTables(tabs: seq<(nat, nat)>, rest: Result<seq<(nat, nat)>>): Result<seq<(nat, nat)>>
  {
    match rest
    case Err(e) => Err(e)
    case Ok(ts) => Ok(tabs + ts)
  }

  /** What `table_specs` computes when its first search starts at `start`:
      a table, then, while a line follows the blank line after it, the next
      table searched from there. */
  function TablesFrom(lines: seq<string>, start: nat): Result<seq<(nat, nat)>>
    decreases if start < |lines| then |lines| - start else 0
  {
    match NextTableOf(lines, start)
    case Err(e) => Err(e)
    case Ok(t) =>
      if t.0 + t.1 + 1 < |lines| then AppendTables([t], TablesFrom(lines, t.0 + t.1 + 1))
      else Ok([t])
  }

  /** What remains of the scan once `tabs` are found: the outcome of
      searching from the line after the blank that ends the last table, or
      nothing when no line follows it. */
  function Resume(lines: seq<string>, tabs: seq<(nat, nat)>): Result<seq<(nat, nat)>>
    requires tabs != []
  {
    var next := tabs[|tabs| - 1].0 + tabs[|tabs| - 1].1 + 1;
    if next < |lines| then AppendTables(tabs, TablesFrom(lines, next)) else Ok(tabs)
  }

  lemma ResumeStart(lines: seq<string>)
    requires NextTableOf(lines, 1).Ok?
    ensures TablesFrom(lines, 1) == Resume(lines, [NextTableOf(lines, 1).value])
  {
  }

  lemma ResumeStep(lines: seq<string>, tabs: seq<(nat, nat)>, next: nat)
    requires tabs != [] && next == tabs[|tabs| - 1].0 + tabs[|tabs| - 1].1 + 1 < |lines|
    requires NextTableOf(lines, next).Ok?
    ensures Resume(lines, tabs) == Resume(lines, tabs + [NextTableOf(lines, next).value])
  {
    var t := NextTableOf(lines, next).value;
    assert tabs + [t] + [] == tabs + [t];
    assert forall ts :: tabs + ([t] + ts) == tabs + [t] + ts;
  }

  /** `table_specs`: the search starts at line 1, after the title line. */
  method TableSpecs(lines: seq<string>) returns (r: Result<seq<(nat, nat)>>)
    ensures r == TablesFrom(lines, 1)
  {
    var first := NextTable(lines, 1);
    if first.Err? {
      return Err(first.error);
    }
    ResumeStart(lines);
    var tabs: seq<(nat, nat)> := [first.value];
    while tabs[|tabs| - 1].0 + tabs[|tabs| - 1].1 + 1 < |lines|
      invariant tabs != [] && TablesFrom(lines, 1) == Resume(lines, tabs)
      decreases |lines| - (tabs[|tabs| - 1].0 + tabs[|tabs| - 1].1)
    {
      var next := tabs[|tabs| - 1].0 + tabs[|tabs| - 1].1 + 1;
      var t := NextTable(lines, next);
      if t.Err? {
        return Err(t.error);
      }
      ResumeStep(lines, tabs, next);
      tabs := tabs + [t.value];
    }
    return Ok(tabs);
  }

  /** The file ends on a non-blank line, or on a single blank line after one. */
  predicate EndsCleanly(lines: seq<string>)
  {
    |lines| >= 1 && (lines[|lines| - 1] != "" || (|lines| >= 2 && lines[|lines| - 2] != ""))
  }

  /** `t` is the table `_next_table(lines, start)` finds. */
  predicate FirstTable(lines: seq<string>, start: nat, t: (nat, nat))
  {
    start <= t.0 && t.1 >= 1 && t.0 + t.1 <= |lines|
    && (forall k :: start <= k < t.0 ==> lines[k] == "")
    && (forall k :: t.0 <= k < t.0 + t.1 ==> lines[k] != "")
    && (t.0 + t.1 == |lines| || lines[t.0 + t.1] == "")
  }

  /** The scan succeeds exactly when a non-blank line follows `start` and the
      file does not end on two blank lines: after the last table, a search
      that starts on a trailing blank line runs off the end and raises. */
  predicate Succeeds(lines: seq<string>, start: nat)
  {
    (exists k :: start <= k < |lines| && lines[k] != "") && EndsCleanly(lines)
  }

  lemma {:induction false} TablesFromSucceeds(lines: seq<string>, start: nat)
    ensures TablesFrom(lines, start).Ok? <==> Succeeds(lines, start)
    decreases if start < |lines| then |lines| - start else 0
  {
    var n := NextTableOf(lines, start);
    if n.Ok? {
      var t := n.value;
      assert FirstTable(lines, start, t);
      if t.0 + t.1 + 1 < |lines| {
        TablesFromSucceeds(lines, t.0 + t.1 + 1);
        SucceedsStep(lines, start, t);
      } else {
        SucceedsLast(lines, start, t);
      }
    } else {
      SucceedsNone(lines, start);
    }
  }

  lemma SucceedsNone(lines: seq<string>, start: nat)
    requires forall k :: start <= k < |lines| ==> lines[k] == ""
    ensures !Succeeds(lines, start)
  {
  }

  /** After a table followed by a blank and another line, the condition is
      the same for the rest of the file. */
  lemma SucceedsStep(lines: seq<string>, start: nat, t: (nat, nat))
    requires FirstTable(lines, start, t) && t.0 + t.1 + 1 < |lines|
    ensures Succeeds(lines, start) <==> Succeeds(lines, t.0 + t.1 + 1)
  {
    var e := t.0 + t.1;
    assert lines[t.0] != "";
    if EndsCleanly(lines) {
      if lines[|lines| - 1] != "" {
        assert |lines| - 1 >= e + 1;
      } else {
        assert lines[|lines| - 2] != "" && lines[e] == "";
      }
    }
  }

  /** A table that reaches the end of the file, or its last line but one,
      is the last. */
  lemma SucceedsLast(lines: seq<string>, start: nat, t: (nat, nat))
    requires FirstTable(lines, start, t) && t.0 + t.1 + 1 >= |lines|
    ensures Succeeds(lines, start)
  {
    var e := t.0 + t.1;
    assert lines[e - 1] != "";
  }

  predicate InTable(t: (nat, nat), k: int)
  {
    t.0 <= k < t.0 + t.1
  }

  /** The tables found from `start` are non-empty runs inside the file, in
      increasing order with at least one line between them, and the lines
      they cover from `start` on are exactly the non-blank ones. */
  predicate Partition(lines: seq<string>, start: nat, tabs: seq<(nat, nat)>)
  {
    tabs != []
    && (forall j :: 0 <= j < |tabs| ==> start <= tabs[j].0 && tabs[j].1 >= 1 && tabs[j].0 + tabs[j].1 <= |lines|)
    && (forall j :: 0 <= j < |tabs| - 1 ==> tabs[j].0 + tabs[j].1 < tabs[j + 1].0)
    && (forall k :: start <= k < |lines| ==>
          (lines[k] != "" <==> exists j :: 0 <= j < |tabs| && InTable(tabs[j], k)))
  }

  lemma PartitionSingle(lines: seq<string>, start: nat, t: (nat, nat))
    requires FirstTable(lines, start, t) && t.0 + t.1 + 1 >= |lines|
    ensures Partition(lines, start, [t])
  {
    forall k | start <= k < |lines|
      ensures lines[k] != "" <==> exists j :: 0 <= j < |[t]| && InTable([t][j], k)
    {
      if InTable(t, k) {
        assert InTable([t][0], k);
      }
    }
  }

  /** Outside the first table, a line is covered by `[t] + rest` exactly
      when it is covered by `rest`. */
  lemma CoveredTail(t: (nat, nat), rest: seq<(nat, nat)>, k: int)
    requires !InTable(t, k)
    ensures (exists j :: 0 <= j < |[t] + rest| && InTable(([t] + rest)[j], k))
        <==> (exists j :: 0 <= j < |rest| && InTable(rest[j], k))
  {
    var tabs := [t] + rest;
    if exists j :: 0 <= j < |rest| && InTable(rest[j], k) {
      var j :| 0 <= j < |rest| && InTable(rest[j], k);
      assert tabs[j + 1] == rest[j];
    }
    if exists j :: 0 <= j < |tabs| && InTable(tabs[j], k) {
      var j :| 0 <= j < |tabs| && InTable(tabs[j], k);
      assert j > 0 && rest[j - 1] == tabs[j];
    }
  }

  lemma PartitionCons(lines: seq<string>, start: nat, t: (nat, nat), rest: seq<(nat, nat)>)
    requires FirstTable(lines, start, t) && t.0 + t.1 + 1 < |lines|
    requires Partition(lines, t.0 + t.1 + 1, rest)
    ensures Partition(lines, start, [t] + rest)
  {
    var tabs := [t] + rest;
    forall j | 0 <= j < |tabs| - 1
      ensures tabs[j].0 + tabs[j].1 < tabs[j + 1].0
    {
      if j > 0 { assert tabs[j] == rest[j - 1]; }
    }
    forall k | start <= k < |lines|
      ensures lines[k] != "" <==> exists j :: 0 <= j < |tabs| && InTable(tabs[j], k)
    {
      if InTable(t, k) {
        assert InTable(tabs[0], k);
      } else {
        CoveredTail(t, rest, k);
        if k < t.0 + t.1 + 1 {
          assert lines[k] == "";
          forall j | 0 <= j < |rest|
            ensures !InTable(rest[j], k)
          {
          }
        }
      }
    }
  }

  lemma {:induction false} TablesPartition(lines: seq<string>, start: nat)
    requires TablesFrom(lines, start).Ok?
    ensures Partition(lines, start, TablesFrom(lines, start).value)
    decreases if start < |lines| then |lines| - start else 0
  {
    var t := NextTableOf(lines, start).value;
    assert FirstTable(lines, start, t);
    var e := t.0 + t.1;
    if e + 1 < |lines| {
      TablesPartition(lines, e + 1);
      PartitionCons(lines, start, t, TablesFrom(lines, e + 1).value);
    } else {
      PartitionSingle(lines, start, t);
    }
  }

  // ---------------------------------------------------------------------
  // Consistency checks
  // ---------------------------------------------------------------------

  predicate AllDistinct(names: seq<string>)
  {
    forall i, j :: 0 <= i < j < |names| ==> names[i] != names[j]
  }

  /** `check_dext3r_meta` on the name column: `is_duplicated().any()`. */
  function CheckMeta(names: seq<string>): (ok: bool)
    ensures ok <==> AllDistinct(names)
  {
    if names == [] then true
    else
      assert forall i, j :: 1 <= i < j < |names| ==> names[1..][i - 1] == names[i] && names[1..][j - 1] == names[j];
      names[0] !in names[1..] && CheckMeta(names[1..])
  }

  /** A row of a parsed data table: the days of its `start` and `stop` stamps. */
  datatype Measurement = Measurement(start: Date, stop: Date)

  function MinStart(table: seq<Measurement>): Date
    requires table != []
  {
    if |table| == 1 then table[0].start else Min(table[0].start, MinStart(table[1..]))
  }

  function MaxStop(table: seq<Measurement>): Date
    requires table != []
  {
    if |table| == 1 then table[0].stop else Max(table[0].stop, MaxStop(table[1..]))
  }

  lemma {:induction false} MinStartBound(table: seq<Measurement>, d: Date)
    requires table != []
    ensures MinStart(table) > d <==> forall i :: 0 <= i < |table| ==> table[i].start > d
  {
    if |table| > 1 {
      MinStartBound(table[1..], d);
      assert forall i :: 1 <= i < |table| ==> table[i] == table[1..][i - 1];
    }
  }

  lemma {:induction false} MaxStopBound(table: seq<Measurement>, d: Date)
    requires table != []
    ensures MaxStop(table) < d <==> forall i :: 0 <= i < |table| ==> table[i].stop < d
  {
    if |table| > 1 {
      MaxStopBound(table[1..], d);
      assert forall i :: 1 <= i < |table| ==> table[i] == table[1..][i - 1];
    }
  }

  /** `check_task_period`. An unknown task passes. On an empty table `min()`
      gives None and `.date()` raises, which the `except` swallows: it passes. */
  function CheckTaskPeriod(task: string, table: seq<Measurement>, payloads: map<string, Payload>): bool
  {
    if task !in payloads then true
    else if table == [] then true
    else !(MinStart(table) > payloads[task].begin.day || MaxStop(table) < payloads[task].end.day)
  }

  /** The check fails exactly when the task has a payload, the table is not
      empty, and either every row starts after the payload's first day or
      every row stops before the payload's last day. */
  lemma CheckTaskPeriodSpec(task: string, table: seq<Measurement>, payloads: map<string, Payload>)
    ensures !CheckTaskPeriod(task, table, payloads) <==>
      task in payloads && table != []
      && ((forall i :: 0 <= i < |table| ==> table[i].start > payloads[task].begin.day)
          || (forall i :: 0 <= i < |table| ==> table[i].stop < payloads[task].end.day))
  {
    if task in payloads && table != [] {
      MinStartBound(table, payloads[task].begin.day);
      MaxStopBound(table, payloads[task].end.day);
    }
  }

  // ---------------------------------------------------------------------
  // Past requests: `read_existing_requests`
  // ---------------------------------------------------------------------

  predicate IsDigit(c: char)
  {
    '0' <= c <= '9'
  }

  predicate AllDigits(s: string)
  {
    forall i :: 0 <= i < |s| ==> IsDigit(s[i])
  }

  function DigitsValue(s: string): (n: nat)
    requires AllDigits(s)
  {
    if s == [] then 0 else DigitsValue(s[..|s| - 1]) * 10 + (s[|s| - 1] as int - '0' as int)
  }

  /** Python's `int(s)` on a decimal literal with an optional sign; anything
      else raises ValueError. */
  function ParseInt(s: string): Result<int>
  {
    if |s| >= 2 && s[0] == '-' && AllDigits(s[1..]) then Ok(-(DigitsValue(s[1..]) as int))
    else if |s| >= 2 && s[0] == '+' && AllDigits(s[1..]) then Ok(DigitsValue(s[1..]))
    else if |s| >= 1 && AllDigits(s) then Ok(DigitsValue(s))
    else Err(ValueError)
  }

  /** Decimal digits of a natural number (`str(n)`). */
  function NatDigits(n: nat): (s: string)
    ensures |s| >= 1 && AllDigits(s)
  {
    if n < 10 then [('0' as int + n) as char] else NatDigits(n / 10) + [('0' as int + n % 10) as char]
  }

  /** `str(n)` for an integer. */
  function ShowInt(n: int): string
  {
    if n < 0 then "-" + NatDigits(-n) else NatDigits(n)
  }

  lemma {:induction false} NatDigitsValue(n: nat)
    ensures DigitsValue(NatDigits(n)) == n
  {
    if n >= 10 {
      NatDigitsValue(n / 10);
      var s := NatDigits(n);
      assert s[..|s| - 1] == NatDigits(n / 10);
    }
  }

  /** `int(str(n)) == n`: a key written from an integer is read back as it. */
  lemma ParseShowInt(n: int)
    ensures ParseInt(ShowInt(n)) == Ok(n)
  {
    if n < 0 {
      NatDigitsValue(-n);
      assert ShowInt(n)[1..] == NatDigits(-n);
    } else {
      NatDigitsValue(n);
      assert ShowInt(n)[0] != '-' && ShowInt(n)[0] != '+';
    }
  }

  /** A task value: JSON null or a string. */
  predicate Truthy(task: Option<string>)
  {
    task.Some? && task.value != ""
  }

  /** The nested map `id -> agg_code -> part -> task`, as ordered lists of
      (key, value) pairs. */
  type PartMap = seq<(string, Option<string>)>
  type CodeMap = seq<(string, PartMap)>
  type RequestMap = seq<(string, CodeMap)>

  /** One leaf of the nested map with its three keys. */
  datatype Entry = Entry(id: string, code: string, part: string, task: Option<string>)

  /** One row of the returned table. */
  datatype RequestRow = RequestRow(id: string, aggCode: int, part: int, task: string)

  function PartEntries(id: string, code: string, parts: PartMap): seq<Entry>
  {
    if parts == [] then []
    else PartEntries(id, code, parts[..|parts| - 1]) + [Entry(id, code, parts[|parts| - 1].0, parts[|parts| - 1].1)]
  }

  function CodeEntries(id: string, codes: CodeMap): seq<Entry>
  {
    if codes == [] then []
    else CodeEntries(id, codes[..|codes| - 1]) + PartEntries(id, codes[|codes| - 1].0, codes[|codes| - 1].1)
  }

  /** The leaves in the order of the three nested loops. */
  function Entries(d: RequestMap): seq<Entry>
  {
    if d == [] then [] else Entries(d[..|d| - 1]) + CodeEntries(d[|d| - 1].0, d[|d| - 1].1)
  }

  /** The body of the innermost loop: a truthy task gives one row, its two
      keys converted with `int`. */
  function EntryRow(e: Entry): Result<seq<RequestRow>>
  {
    if !Truthy(e.task) then Ok([])
    else match ParseInt(e.code)
      case Err(err) => Err(err)
      case Ok(code) =>
        match ParseInt(e.part)
        case Err(err) => Err(err)
        case Ok(part) => Ok([RequestRow(e.id, code, part, e.task.value)])
  }

  /** The rows of a sequence of leaves; the first conversion that fails raises. */
  function RowsOf(es: seq<Entry>): (r: Result<seq<RequestRow>>)
    ensures r.Err? ==> r.error == ValueError
  {
    if es == [] then Ok([])
    else match RowsOf(es[..|es| - 1])
      case Err(err) => Err(err)
      case Ok(rows) =>
        match EntryRow(es[|es| - 1])
        case Err(err) => Err(err)
        case Ok(row) => Ok(rows + row)
  }

  /** What `read_existing_requests` returns; a missing file gives no rows. */
  function ExistingRequests(file: Option<RequestMap>): Result<seq<RequestRow>>
  {
    match file
    case None => Ok([])
    case Some(d) => RowsOf(Entries(d))
  }

  /** A failed conversion stops the whole flattening. */
  lemma {:induction false} RowsOfErrPersists(es: seq<Entry>, more: seq<Entry>)
    requires RowsOf(es).Err?
    ensures RowsOf(es + more).Err?
    decreases |more|
  {
    if more != [] {
      var init := more[..|more| - 1];
      RowsOfErrPersists(es, init);
      assert (es + more)[..|es + more| - 1] == es + init;
      assert RowsOf(es + init).Err?;
    } else {
      assert es + more == es;
    }
  }

  lemma RowsOfErrPrefix(es: seq<Entry>, all: seq<Entry>)
    requires es <= all && RowsOf(es).Err?
    ensures RowsOf(all) == Err(ValueError)
  {
    RowsOfErrPersists(es, all[|es|..]);
    assert es + all[|es|..] == all;
  }

  lemma {:induction false} PartEntriesPrefix(id: string, code: string, parts: PartMap, k: nat)
    requires k <= |parts|
    ensures PartEntries(id, code, parts[..k]) <= PartEntries(id, code, parts)
    decreases |parts| - k
  {
    if k < |parts| {
      PartEntriesPrefix(id, code, parts, k + 1);
      assert parts[..k + 1][..k] == parts[..k];
    } else {
      assert parts[..k] == parts;
    }
  }

  lemma {:induction false} CodeEntriesPrefix(id: string, codes: CodeMap, j: nat)
    requires j <= |codes|
    ensures CodeEntries(id, codes[..j]) <= CodeEntries(id, codes)
    decreases |codes| - j
  {
    if j < |codes| {
      CodeEntriesPrefix(id, codes, j + 1);
      assert codes[..j + 1][..j] == codes[..j];
    } else {
      assert codes[..j] == codes;
    }
  }

  lemma {:induction false} EntriesMapPrefix(d: RequestMap, i: nat)
    requires i <= |d|
    ensures Entries(d[..i]) <= Entries(d)
    decreases |d| - i
  {
    if i < |d| {
      EntriesMapPrefix(d, i + 1);
      assert d[..i + 1][..i] == d[..i];
    } else {
      assert d[..i] == d;
    }
  }

  /** The leaves visited up to and including the current one are a prefix of
      all the leaves. */
  lemma EntriesPrefix(d: RequestMap, i: nat, j: nat, k: nat)
    requires i < |d| && j < |d[i].1| && k < |d[i].1[j].1|
    ensures Visited(d, i, j, k + 1) <= Entries(d)
  {
    var id := d[i].0;
    var codes := d[i].1;
    var p := PartEntries(id, codes[j].0, codes[j].1[..k + 1]);
    PartEntriesPrefix(id, codes[j].0, codes[j].1, k + 1);
    CodePrefixStep(id, codes, j, p);
    MapPrefixStep(d, i, CodeEntries(id, codes[..j]) + p);
    assert Visited(d, i, j, k + 1) == Entries(d[..i]) + (CodeEntries(id, codes[..j]) + p);
  }

  /** Leaves of code `j` visited so far extend those of the codes before it
      to a prefix of all the leaves of the id. */
  lemma CodePrefixStep(id: string, codes: CodeMap, j: nat, p: seq<Entry>)
    requires j < |codes| && p <= PartEntries(id, codes[j].0, codes[j].1)
    ensures CodeEntries(id, codes[..j]) + p <= CodeEntries(id, codes)
  {
    var a := CodeEntries(id, codes[..j]);
    assert codes[..j + 1][..j] == codes[..j];
    assert CodeEntries(id, codes[..j + 1]) == a + PartEntries(id, codes[j].0, codes[j].1);
    PrefixAppend(a, p, PartEntries(id, codes[j].0, codes[j].1));
    CodeEntriesPrefix(id, codes, j + 1);
    PrefixTrans(a + p, CodeEntries(id, codes[..j + 1]), CodeEntries(id, codes));
  }

  /** Leaves of id `i` visited so far extend those of the ids before it to a
      prefix of all the leaves. */
  lemma MapPrefixStep(d: RequestMap, i: nat, c: seq<Entry>)
    requires i < |d| && c <= CodeEntries(d[i].0, d[i].1)
    ensures Entries(d[..i]) + c <= Entries(d)
  {
    var a := Entries(d[..i]);
    assert d[..i + 1][..i] == d[..i];
    assert Entries(d[..i + 1]) == a + CodeEntries(d[i].0, d[i].1);
    PrefixAppend(a, c, CodeEntries(d[i].0, d[i].1));
    EntriesMapPrefix(d, i + 1);
    PrefixTrans(a + c, Entries(d[..i + 1]), Entries(d));
  }

  lemma PrefixAppend<T>(a: seq<T>, c: seq<T>, full: seq<T>)
    requires c <= full
    ensures a + c <= a + full
  {
    assert (a + full)[..|a + c|] == a + c;
  }

  lemma PrefixTrans<T>(x: seq<T>, y: seq<T>, z: seq<T>)
    requires x <= y && y <= z
    ensures x <= z
  {
    assert z[..|x|] == y[..|x|];
  }

  /** The leaves visited before entry `j` of the codes of id `i`. */
  ghost function CodesVisited(d: RequestMap, i: nat, j: nat): seq<Entry>
    requires i < |d| && j <= |d[i].1|
  {
    Entries(d[..i]) + CodeEntries(d[i].0, d[i].1[..j])
  }

  /** The leaves visited before part `k` of code `j` of id `i`. */
  ghost function Visited(d: RequestMap, i: nat, j: nat, k: nat): seq<Entry>
    requires i < |d| && j < |d[i].1| && k <= |d[i].1[j].1|
  {
    CodesVisited(d, i, j) + PartEntries(d[i].0, d[i].1[j].0, d[i].1[j].1[..k])
  }

  function Leaf(d: RequestMap, i: nat, j: nat, k: nat): Entry
    requires i < |d| && j < |d[i].1| && k < |d[i].1[j].1|
  {
    Entry(d[i].0, d[i].1[j].0, d[i].1[j].1[k].0, d[i].1[j].1[k].1)
  }

  lemma CodesVisitedStart(d: RequestMap, i: nat)
    requires i < |d|
    ensures CodesVisited(d, i, 0) == Entries(d[..i])
  {
    assert d[i].1[..0] == [];
  }

  lemma CodesVisitedEnd(d: RequestMap, i: nat)
    requires i < |d|
    ensures CodesVisited(d, i, |d[i].1|) == Entries(d[..i + 1])
  {
    assert d[i].1[..|d[i].1|] == d[i].1;
    assert d[..i + 1][..i] == d[..i];
  }

  lemma VisitedStart(d: RequestMap, i: nat, j: nat)
    requires i < |d| && j < |d[i].1|
    ensures Visited(d, i, j, 0) == CodesVisited(d, i, j)
  {
    assert d[i].1[j].1[..0] == [];
  }

  lemma VisitedEnd(d: RequestMap, i: nat, j: nat)
    requires i < |d| && j < |d[i].1|
    ensures Visited(d, i, j, |d[i].1[j].1|) == CodesVisited(d, i, j + 1)
  {
    var codes := d[i].1;
    assert codes[j].1[..|codes[j].1|] == codes[j].1;
    assert codes[..j + 1][..j] == codes[..j];
    assert CodeEntries(d[i].0, codes[..j + 1]) == CodeEntries(d[i].0, codes[..j]) + PartEntries(d[i].0, codes[j].0, codes[j].1);
  }

  lemma VisitedStep(d: RequestMap, i: nat, j: nat, k: nat)
    requires i < |d| && j < |d[i].1| && k < |d[i].1[j].1|
    ensures Visited(d, i, j, k + 1) == Visited(d, i, j, k) + [Leaf(d, i, j, k)]
  {
    var parts := d[i].1[j].1;
    assert parts[..k + 1][..k] == parts[..k];
  }

  /** A leaf whose task is truthy: the leaves that give a row. */
  predicate HasTask(e: Entry)
  {
    Truthy(e.task)
  }

  /** The rows are the truthy leaves converted one by one, in the order of
      the loops and with duplicates kept: the `i`-th row is the row of the
      `i`-th leaf with a truthy task. */
  lemma {:induction false} RowsOfInOrder(es: seq<Entry>)
    ensures RowsOf(es).Ok? ==>
      var tasks := Filter(es, HasTask);
      |RowsOf(es).value| == |tasks|
      && forall i :: 0 <= i < |tasks| ==> EntryRow(tasks[i]) == Ok([RowsOf(es).value[i]])
  {
    if es != [] {
      var init, last := es[..|es| - 1], es[|es| - 1];
      assert es == init + [last];
      FilterAppend(init, [last], HasTask);
      assert [last][1..] == [];
      if RowsOf(init).Ok? {
        RowsOfInOrder(init);
        var rows, t := RowsOf(init).value, Filter(init, HasTask);
        RowsOfSnoc(init, last, rows);
        if RowsOf(es).Ok? && HasTask(last) {
          assert Filter(es, HasTask) == t + [last];
          assert RowsOf(es).value == rows + EntryRow(last).value;
          assert |EntryRow(last).value| == 1;
          forall i | 0 <= i < |t| + 1
            ensures EntryRow((t + [last])[i]) == Ok([RowsOf(es).value[i]])
          {
            if i < |t| {
              assert (t + [last])[i] == t[i];
            }
          }
        }
      }
    }
  }

  /** One more leaf: its row is appended, or its conversion error raised. */
  lemma RowsOfSnoc(es: seq<Entry>, e: Entry, rows: seq<RequestRow>)
    requires RowsOf(es) == Ok(rows)
    ensures RowsOf(es + [e]) == if EntryRow(e).Err? then Err(ValueError) else Ok(rows + EntryRow(e).value)
  {
    assert (es + [e])[..|es + [e]| - 1] == es;
  }

  /** `read_existing_requests`: three nested loops over the map. */
  method ReadExistingRequests(file: Option<RequestMap>) returns (r: Result<seq<RequestRow>>)
    ensures r == ExistingRequests(file)
  {
    if file.None? {
      return Ok([]);
    }
    var d := file.value;
    var parts: seq<RequestRow> := [];
    for i := 0 to |d|
      invariant RowsOf(Entries(d[..i])) == Ok(parts)
    {
      var sid := d[i].0;
      CodesVisitedStart(d, i);
      for j := 0 to |d[i].1|
        invariant RowsOf(CodesVisited(d, i, j)) == Ok(parts)
      {
        var aggCode := d[i].1[j].0;
        VisitedStart(d, i, j);
        for k := 0 to |d[i].1[j].1|
          invariant RowsOf(Visited(d, i, j, k)) == Ok(parts)
        {
          var part := d[i].1[j].1[k].0;
          var task := d[i].1[j].1[k].1;
          VisitedStep(d, i, j, k);
          RowsOfSnoc(Visited(d, i, j, k), Leaf(d, i, j, k), parts);
          if Truthy(task) {
            var code := ParseInt(aggCode);
            if code.Err? {
              EntriesPrefix(d, i, j, k);
              RowsOfErrPrefix(Visited(d, i, j, k + 1), Entries(d));
              return Err(code.error);
            }
            var partNo := ParseInt(part);
            if partNo.Err? {
              EntriesPrefix(d, i, j, k);
              RowsOfErrPrefix(Visited(d, i, j, k + 1), Entries(d));
              return Err(partNo.error);
            }
            assert EntryRow(Leaf(d, i, j, k)) == Ok([RequestRow(sid, code.value, partNo.value, task.value)]);
            parts := parts + [RequestRow(sid, code.value, partNo.value, task.value)];
          } else {
            assert parts + EntryRow(Leaf(d, i, j, k)).value == parts;
          }
        }
        VisitedEnd(d, i, j);
      }
      CodesVisitedEnd(d, i);
    }
    assert d[..|d|] == d;
    return Ok(parts);
  }

  /** A row is returned exactly for each leaf with a truthy task, with its
      keys converted; the flattening fails exactly when such a leaf has a key
      that is not a decimal integer. */
  lemma {:induction false} RowsOfSpec(es: seq<Entry>)
    ensures RowsOf(es).Err? <==>
      exists i :: 0 <= i < |es| && Truthy(es[i].task) && (ParseInt(es[i].code).Err? || ParseInt(es[i].part).Err?)
    ensures RowsOf(es).Ok? ==>
      forall row :: row in RowsOf(es).value <==>
        exists i :: 0 <= i < |es| && Truthy(es[i].task)
          && row == RequestRow(es[i].id, ParseInt(es[i].code).value, ParseInt(es[i].part).value, es[i].task.value)
  {
    if es != [] {
      var init := es[..|es| - 1];
      var last := es[|es| - 1];
      RowsOfSpec(init);
      assert forall i :: 0 <= i < |init| ==> es[i] == init[i];
    }
  }
}
