/** The greedy batch packer (lib/stack.py): it takes units off the size-sorted
    request queue and groups them into one request whose estimated size stays
    under the line ceiling. */
module Stack {
  import opened Units

  // ---------------------------------------------------------------------
  // Station names: Python's `name.lower().strip()`
  // ---------------------------------------------------------------------

  /** Characters for which Python's `str.isspace()` holds. */
  predicate IsSpace(c: char)
  {
    ('\t' <= c <= '\r') || ('\U{1C}' <= c <= ' ') || c == '\U{85}' || c == '\U{A0}'
    || c == '\U{1680}' || ('\U{2000}' <= c <= '\U{200A}') || c == '\U{2028}' || c == '\U{2029}'
    || c == '\U{202F}' || c == '\U{205F}' || c == '\U{3000}'
  }

  /** Lower-casing of the Latin capitals (ASCII and Latin-1); the rest is unchanged. */
  function LowerChar(c: char): char
  {
    if ('A' <= c <= 'Z') || ('\U{C0}' <= c <= '\U{DE}' && c != '\U{D7}') then (c as int + 32) as char else c
  }

  function Lower(s: string): string
  {
    seq(|s|, i requires 0 <= i < |s| => LowerChar(s[i]))
  }

  /** Index of the first non-space character at or after `i`. */
  function SpanStart(s: string, i: nat): (a: nat)
    requires i <= |s|
    ensures i <= a <= |s|
    decreases |s| - i
  {
    if i < |s| && IsSpace(s[i]) then SpanStart(s, i + 1) else i
  }

  /** End of `s[lo..j]` once trailing spaces are dropped. */
  function SpanEnd(s: string, lo: nat, j: nat): (b: nat)
    requires lo <= j <= |s|
    ensures lo <= b <= j
    decreases j
  {
    if lo < j && IsSpace(s[j - 1]) then SpanEnd(s, lo, j - 1) else j
  }

  /** Python's `str.strip()` with no argument. */
  function Strip(s: string): string
  {
    var a := SpanStart(s, 0);
    s[a..SpanEnd(s, a, |s|)]
  }

  /** The key two station names are compared by: `name.lower().strip()`. */
  function Normalize(name: string): string
  {
    Strip(Lower(name))
  }

  /** `station_name_in`: scans `stack` for a member with the same normalised name. */
  function StationNameIn(station: WorkUnit, stack: seq<WorkUnit>): bool
  {
    if stack == [] then false
    else if Normalize(station.name) == Normalize(stack[0].name) then true
    else StationNameIn(station, stack[1..])
  }

  /** The scan finds a match exactly when some member's normalised name equals
      the station's. */
  lemma {:induction false} StationNameInSpec(station: WorkUnit, stack: seq<WorkUnit>)
    ensures StationNameIn(station, stack) <==>
      exists i :: 0 <= i < |stack| && Normalize(stack[i].name) == Normalize(station.name)
  {
    if stack != [] {
      StationNameInSpec(station, stack[1..]);
      assert forall i :: 1 <= i < |stack| ==> stack[i] == stack[1..][i - 1];
      if !StationNameIn(station, stack) {
        forall i | 0 <= i < |stack|
          ensures Normalize(stack[i].name) != Normalize(station.name)
        {
          if i > 0 { assert stack[i] == stack[1..][i - 1]; }
        }
      }
    }
  }

  // ---------------------------------------------------------------------
  // Size estimate: `tot_elements`
  // ---------------------------------------------------------------------

  /** Estimated number of lines of a request for `units`: the seconds from the
      earliest `from` to the day after the latest `to`, times the number of
      units, floor-divided by the finest period (Python's `//` agrees with
      Dafny's `/` because the divisor is positive). */
  function TotElements(units: seq<WorkUnit>): int
    requires PositivePeriods(units)
  {
    if |units| == 0 then 0
    else
      assert MinPeriod(units) > 0 by { Extremes(units); }
      (MaxTo(units) - MinFrom(units) + 1) * SecondsPerDay * |units| / MinPeriod(units)
  }

  /** Every unit's window is non-empty. */
  predicate WellFormed(units: seq<WorkUnit>)
  {
    forall i :: 0 <= i < |units| ==> units[i].from <= units[i].to && units[i].aggPeriod > 0
  }

  lemma MulMono(a: int, b: int, c: int, d: int)
    requires 0 <= a <= b && 0 <= c <= d
    ensures a * c <= b * d
  {
    assert a * c <= b * c;
    assert b * c <= b * d;
  }

  lemma DivMonoNumerator(x: int, y: int, d: int)
    requires 0 <= x <= y && d > 0
    ensures x / d <= y / d
  {
    if x / d > y / d {
      assert d * (x / d) >= d * (y / d + 1) by { MulMono(y / d + 1, x / d, d, d); }
      assert false;
    }
  }

  lemma DivAntitone(x: int, m: int, p: int)
    requires x >= 0 && 0 < m <= p
    ensures x / p <= x / m
  {
    var q := x / p;
    assert q >= 0;
    assert q * m <= q * p by { MulMono(q, q, m, p); }
    if q > x / m {
      assert q * m >= (x / m + 1) * m by { MulMono(x / m + 1, q, m, m); }
      assert false;
    }
  }

  /** The sizing formula grows with the span and the number of units and
      shrinks with the period. */
  lemma EstimateMono(span0: int, n0: int, p0: int, span: int, n: int, p: int)
    requires 0 <= span0 <= span && 0 <= n0 <= n && 0 < p <= p0
    ensures span0 * SecondsPerDay * n0 / p0 <= span * SecondsPerDay * n / p
  {
    var x0 := span0 * SecondsPerDay * n0;
    var x := span * SecondsPerDay * n;
    MulMono(span0, span, SecondsPerDay, SecondsPerDay);
    MulMono(span0 * SecondsPerDay, span * SecondsPerDay, n0, n);
    DivMonoNumerator(x0, x, p0);
    DivAntitone(x, p, p0);
  }

  /** The size of a singleton is the unit's own line count formula. */
  lemma TotElementsSingleton(u: WorkUnit)
    requires u.aggPeriod > 0
    ensures TotElements([u]) == (u.to - u.from + 1) * SecondsPerDay / u.aggPeriod
  {
    Extremes([u]);
    assert (u.to - u.from + 1) * SecondsPerDay * 1 == (u.to - u.from + 1) * SecondsPerDay;
  }

  /** The estimate of a group is at least that of any one of its units alone. */
  lemma TotElementsCoversUnit(t: seq<WorkUnit>, k: nat)
    requires WellFormed(t) && k < |t|
    ensures PositivePeriods(t) && PositivePeriods([t[k]])
    ensures TotElements([t[k]]) <= TotElements(t)
  {
    var u := t[k];
    Extremes(t);
    Extremes([u]);
    EstimateMono(u.to - u.from + 1, 1, u.aggPeriod, MaxTo(t) - MinFrom(t) + 1, |t|, MinPeriod(t));
  }

  /** Adding a unit to a group never makes the estimate smaller. */
  lemma TotElementsGrows(s: seq<WorkUnit>, u: WorkUnit)
    requires WellFormed(s) && u.from <= u.to && u.aggPeriod > 0
    ensures PositivePeriods(s) && PositivePeriods(s + [u])
    ensures TotElements(s) <= TotElements(s + [u])
  {
    var t := s + [u];
    assert t[|s|] == u;
    assert forall i :: 0 <= i < |s| ==> t[i] == s[i];
    if |s| > 0 {
      ExtremesSnoc(s, u);
      EstimateMono(MaxTo(s) - MinFrom(s) + 1, |s|, MinPeriod(s), MaxTo(t) - MinFrom(t) + 1, |t|, MinPeriod(t));
    }
  }

  /** Appending a unit widens the window and can only lower the period. */
  lemma ExtremesSnoc(s: seq<WorkUnit>, u: WorkUnit)
    requires |s| > 0 && WellFormed(s) && u.aggPeriod > 0
    ensures MinFrom(s + [u]) <= MinFrom(s) <= MaxTo(s) <= MaxTo(s + [u])
    ensures 0 < MinPeriod(s + [u]) <= MinPeriod(s)
  {
    var t := s + [u];
    assert forall i :: 0 <= i < |s| ==> t[i] == s[i];
    Extremes(t);
    Extremes(s);
    var a :| 0 <= a < |s| && MinFrom(s) == s[a].from;
    var b :| 0 <= b < |t| && MinPeriod(t) == t[b].aggPeriod;
    assert t[a] == s[a];
  }

  // ---------------------------------------------------------------------
  // The first-fit choice: `find_biggest`
  // ---------------------------------------------------------------------

  /** A seed candidate: its own `count` is within the ceiling. */
  predicate Fits(u: WorkUnit, maxSize: int)
  {
    u.count <= maxSize
  }

  /** A candidate that may join the partial batch: same timeline section,
      aggregation period and variable as the batch's last member, a station
      name not yet in the batch, and a recomputed total within the ceiling.
      The conjunction short-circuits as in the source, so the size is only
      computed once the periods are known to agree. */
  predicate Extends(slice: seq<WorkUnit>, s: WorkUnit, maxSize: int)
    requires |slice| > 0 && PositivePeriods(slice)
  {
    var last := slice[|slice| - 1];
    s.section == last.section && s.aggPeriod == last.aggPeriod && s.v == last.v
    && !StationNameIn(s, slice)
    && TotElements(slice + [s]) <= maxSize
  }

  /** First index at or after `from` whose unit fits on its own. */
  function FirstFitting(queue: seq<WorkUnit>, maxSize: int, from: nat): (r: Option<nat>)
    requires from <= |queue|
    ensures r.Some? ==> (from <= r.value < |queue| && Fits(queue[r.value], maxSize)
                         && forall j :: from <= j < r.value ==> !Fits(queue[j], maxSize))
    ensures r.None? ==> forall j :: from <= j < |queue| ==> !Fits(queue[j], maxSize)
    decreases |queue| - from
  {
    if from == |queue| then None
    else if Fits(queue[from], maxSize) then Some(from)
    else FirstFitting(queue, maxSize, from + 1)
  }

  /** First index at or after `from` whose unit may join `slice`. */
  function FirstExtension(slice: seq<WorkUnit>, queue: seq<WorkUnit>, maxSize: int, from: nat): (r: Option<nat>)
    requires |slice| > 0 && PositivePeriods(slice) && from <= |queue|
    ensures r.Some? ==> (from <= r.value < |queue| && Extends(slice, queue[r.value], maxSize)
                         && forall j :: from <= j < r.value ==> !Extends(slice, queue[j], maxSize))
    ensures r.None? ==> forall j :: from <= j < |queue| ==> !Extends(slice, queue[j], maxSize)
    decreases |queue| - from
  {
    if from == |queue| then None
    else if Extends(slice, queue[from], maxSize) then Some(from)
    else FirstExtension(slice, queue, maxSize, from + 1)
  }

  /** What `find_biggest` returns. With an empty slice it seeds with the first
      unit that fits; when none fits (or the queue is empty) it falls through
      to `new_slice[-1]`, which raises IndexError. With a non-empty slice it is
      the first unit that may join it, or None. */
  function Choose(slice: seq<WorkUnit>, queue: seq<WorkUnit>, maxSize: int): (r: Result<Option<nat>>)
    requires PositivePeriods(slice)
    ensures r.Err? <==> |slice| == 0 && forall j :: 0 <= j < |queue| ==> !Fits(queue[j], maxSize)
    ensures r.Err? ==> r.error == IndexError
    ensures |slice| == 0 && r.Ok? ==>
      (r.value.Some? && r.value.value < |queue| && Fits(queue[r.value.value], maxSize)
       && forall j :: 0 <= j < r.value.value ==> !Fits(queue[j], maxSize))
    ensures |slice| > 0 && r.Ok? && r.value.Some? ==>
      (r.value.value < |queue| && Extends(slice, queue[r.value.value], maxSize)
       && forall j :: 0 <= j < r.value.value ==> !Extends(slice, queue[j], maxSize))
    ensures |slice| > 0 && r.Ok? && r.value.None? ==> forall j :: 0 <= j < |queue| ==> !Extends(slice, queue[j], maxSize)
  {
    if |slice| == 0 && |queue| > 0 then
      match FirstFitting(queue, maxSize, 0)
      case Some(i) => Ok(Some(i))
      case None => Err(IndexError)
    else if |slice| == 0 then Err(IndexError)
    else Ok(FirstExtension(slice, queue, maxSize, 0))
  }

  /** `find_biggest`: the two first-fit scans of the source, each an early-return loop. */
  method FindBiggest(slice: seq<WorkUnit>, queue: seq<WorkUnit>, maxSize: int) returns (r: Result<Option<nat>>)
    requires PositivePeriods(slice)
    ensures r == Choose(slice, queue, maxSize)
  {
    if |slice| == 0 && |queue| > 0 {
      for i := 0 to |queue|
        invariant forall j :: 0 <= j < i ==> !Fits(queue[j], maxSize)
      {
        if queue[i].count <= maxSize {
          return Ok(Some(i));
        }
      }
    }
    if |slice| == 0 {
      // `new_slice[-1]` on an empty list
      return Err(IndexError);
    }
    var last := slice[|slice| - 1];
    for i := 0 to |queue|
      invariant forall j :: 0 <= j < i ==> !Extends(slice, queue[j], maxSize)
    {
      var s := queue[i];
      if s.section == last.section && s.aggPeriod == last.aggPeriod && s.v == last.v
        && !StationNameIn(s, slice)
        && TotElements(slice + [s]) <= maxSize
      {
        return Ok(Some(i));
      }
    }
    return Ok(None);
  }

  // ---------------------------------------------------------------------
  // One batch: `pop_biggest_slice`
  // ---------------------------------------------------------------------

  /** The batch invariant: non-empty; one timeline section, aggregation period
      and variable; pairwise distinct normalised station names; a singleton
      fits on its own `count`, a larger batch on its recomputed total. */
  predicate Batch(slice: seq<WorkUnit>, maxSize: int)
  {
    |slice| > 0 && PositivePeriods(slice)
    && (forall j :: 0 <= j < |slice| ==>
          slice[j].section == slice[0].section && slice[j].aggPeriod == slice[0].aggPeriod && slice[j].v == slice[0].v)
    && (forall i, j :: 0 <= i < j < |slice| ==> Normalize(slice[i].name) != Normalize(slice[j].name))
    && (|slice| == 1 ==> slice[0].count <= maxSize)
    && (|slice| >= 2 ==> TotElements(slice) <= maxSize)
  }

  lemma BatchExtends(slice: seq<WorkUnit>, s: WorkUnit, maxSize: int)
    requires Batch(slice, maxSize) && Extends(slice, s, maxSize)
    ensures Batch(slice + [s], maxSize)
  {
    var t := slice + [s];
    assert forall i :: 0 <= i < |slice| ==> t[i] == slice[i];
    assert t[|slice|] == s;
    DistinctNamesSnoc(slice, s);
  }

  /** A unit whose name is not in the batch keeps the names distinct. */
  lemma DistinctNamesSnoc(slice: seq<WorkUnit>, s: WorkUnit)
    requires forall i, j :: 0 <= i < j < |slice| ==> Normalize(slice[i].name) != Normalize(slice[j].name)
    requires !StationNameIn(s, slice)
    ensures var t := slice + [s];
      forall i, j :: 0 <= i < j < |t| ==> Normalize(t[i].name) != Normalize(t[j].name)
  {
    StationNameInSpec(s, slice);
    var t := slice + [s];
    assert forall i :: 0 <= i < |slice| ==> t[i] == slice[i];
  }

  /** The loop of `pop_biggest_slice` once the slice is seeded: keep moving the
      first unit that may join from the queue to the slice. Returns the final
      slice and the remaining queue. */
  function Grow(slice: seq<WorkUnit>, queue: seq<WorkUnit>, maxSize: int): (r: (seq<WorkUnit>, seq<WorkUnit>))
    requires |slice| > 0 && PositivePeriods(slice)
    ensures |r.0| > 0 && PositivePeriods(r.0)
    decreases |queue|
  {
    match FirstExtension(slice, queue, maxSize, 0)
    case None => (slice, queue)
    case Some(i) =>
      if |queue| > 0 then
        assert (slice + [queue[i]])[|slice|] == queue[i];
        Grow(slice + [queue[i]], queue[..i] + queue[i + 1..], maxSize)
      else (slice, queue)
  }

  /** Growing moves units from the queue to the end of the slice: nothing is
      lost or duplicated, the old slice is a prefix of the new one, and the
      remaining queue keeps its order. */
  lemma {:induction false} GrowPermutes(slice: seq<WorkUnit>, queue: seq<WorkUnit>, maxSize: int)
    requires |slice| > 0 && PositivePeriods(slice)
    ensures var r := Grow(slice, queue, maxSize);
      multiset(r.0) + multiset(r.1) == multiset(slice) + multiset(queue)
      && |slice| <= |r.0| && r.0[..|slice|] == slice
      && Subsequence(r.1, queue)
    decreases |queue|
  {
    match FirstExtension(slice, queue, maxSize, 0)
    case None =>
      SubsequenceRefl(queue);
    case Some(i) =>
      if |queue| > 0 {
        var rest := queue[..i] + queue[i + 1..];
        var slice' := slice + [queue[i]];
        assert slice'[|slice|] == queue[i];
        GrowPermutes(slice', rest, maxSize);
        var r := Grow(slice', rest, maxSize);
        RemoveAtMultiset(queue, i);
        RemoveAtIsSubsequence(queue, i);
        SubsequenceTrans(r.1, rest, queue);
        assert r.0[..|slice|] == r.0[..|slice'|][..|slice|];
      } else {
        SubsequenceRefl(queue);
      }
  }

  /** When growing stops, no remaining unit may join the slice. */
  lemma {:induction false} GrowIsMaximal(slice: seq<WorkUnit>, queue: seq<WorkUnit>, maxSize: int)
    requires |slice| > 0 && PositivePeriods(slice)
    ensures var r := Grow(slice, queue, maxSize);
      forall j :: 0 <= j < |r.1| ==> !Extends(r.0, r.1[j], maxSize)
    decreases |queue|
  {
    match FirstExtension(slice, queue, maxSize, 0)
    case None =>
    case Some(i) =>
      var slice' := slice + [queue[i]];
      var rest := queue[..i] + queue[i + 1..];
      assert slice'[|slice|] == queue[i];
      GrowIsMaximal(slice', rest, maxSize);
      assert Grow(slice, queue, maxSize) == Grow(slice', rest, maxSize);
  }

  /** Growing a legal batch yields a legal batch. */
  lemma {:induction false} GrowKeepsBatch(slice: seq<WorkUnit>, queue: seq<WorkUnit>, maxSize: int)
    requires Batch(slice, maxSize)
    ensures Batch(Grow(slice, queue, maxSize).0, maxSize)
    decreases |queue|
  {
    match FirstExtension(slice, queue, maxSize, 0)
    case None =>
    case Some(i) =>
      BatchExtends(slice, queue[i], maxSize);
      GrowKeepsBatch(slice + [queue[i]], queue[..i] + queue[i + 1..], maxSize);
  }

  /** One step of the loop: when a unit may join, growing continues from the
      extended slice and the shortened queue. */
  lemma GrowStep(slice: seq<WorkUnit>, queue: seq<WorkUnit>, maxSize: int, i: nat)
    requires |slice| > 0 && PositivePeriods(slice)
    requires FirstExtension(slice, queue, maxSize, 0) == Some(i)
    ensures PositivePeriods(slice + [queue[i]])
    ensures Grow(slice, queue, maxSize) == Grow(slice + [queue[i]], queue[..i] + queue[i + 1..], maxSize)
  {
    assert (slice + [queue[i]])[|slice|] == queue[i];
  }

  /** `pop_biggest_slice` as a value: the seed choice may raise; otherwise
      the seeded slice is grown and returned with the remaining queue. */
  function Pack(queue: seq<WorkUnit>, maxSize: int): Result<(seq<WorkUnit>, seq<WorkUnit>)>
    requires PositivePeriods(queue)
  {
    match Choose([], queue, maxSize)
    case Err(e) => Err(e)
    case Ok(None) => Ok(([], queue))
    case Ok(Some(i)) =>
      if |queue| > 0 then Ok(Grow([queue[i]], queue[..i] + queue[i + 1..], maxSize))
      else Ok(([], queue))
  }

  /** When the seed choice succeeds, packing grows the one-unit slice made of
      the seed over the queue without it. */
  lemma PackSeeded(queue: seq<WorkUnit>, maxSize: int, i: nat)
    requires PositivePeriods(queue)
    requires Choose([], queue, maxSize) == Ok(Some(i))
    ensures i < |queue| && PositivePeriods([queue[i]])
    ensures Pack(queue, maxSize) == Ok(Grow([queue[i]], queue[..i] + queue[i + 1..], maxSize))
  {
  }

  /** `pop_biggest_slice` raises (IndexError) exactly when no unit of the queue
      fits on its own. */
  lemma PackRaises(queue: seq<WorkUnit>, maxSize: int)
    requires PositivePeriods(queue)
    ensures Pack(queue, maxSize).Err? <==> forall j :: 0 <= j < |queue| ==> !Fits(queue[j], maxSize)
    ensures Pack(queue, maxSize).Err? ==> Pack(queue, maxSize).error == IndexError
  {
  }

  /** A returned slice is a legal batch seeded with the first unit that fits,
      and no unit left in the queue could have joined it. */
  lemma PackBatch(queue: seq<WorkUnit>, maxSize: int)
    requires PositivePeriods(queue) && Pack(queue, maxSize).Ok?
    ensures var (slice, rest) := Pack(queue, maxSize).value;
      Batch(slice, maxSize)
      && (exists k :: 0 <= k < |queue| && slice[0] == queue[k] && Fits(queue[k], maxSize)
                      && forall j :: 0 <= j < k ==> !Fits(queue[j], maxSize))
      && forall j :: 0 <= j < |rest| ==> !Extends(slice, rest[j], maxSize)
  {
    var i := Choose([], queue, maxSize).value.value;
    PackSeeded(queue, maxSize, i);
    var rest := queue[..i] + queue[i + 1..];
    var seed := [queue[i]];
    assert Batch(seed, maxSize);
    GrowPermutes(seed, rest, maxSize);
    GrowIsMaximal(seed, rest, maxSize);
    GrowKeepsBatch(seed, rest, maxSize);
    var r := Grow(seed, rest, maxSize);
    assert r.0[0] == r.0[..1][0] == queue[i];
  }

  /** The returned slice and the remaining queue are a permutation of the
      input; the remaining queue is strictly shorter, keeps its order and its
      positive periods. */
  lemma PackPermutes(queue: seq<WorkUnit>, maxSize: int)
    requires PositivePeriods(queue) && Pack(queue, maxSize).Ok?
    ensures var (slice, rest) := Pack(queue, maxSize).value;
      multiset(slice) + multiset(rest) == multiset(queue)
      && |rest| < |queue|
      && Subsequence(rest, queue)
      && PositivePeriods(rest)
  {
    var i := Choose([], queue, maxSize).value.value;
    PackSeeded(queue, maxSize, i);
    var rest := queue[..i] + queue[i + 1..];
    var seed := [queue[i]];
    GrowPermutes(seed, rest, maxSize);
    var r := Grow(seed, rest, maxSize);
    RemoveAtMultiset(queue, i);
    RemoveAtIsSubsequence(queue, i);
    SubsequenceTrans(r.1, rest, queue);
    assert multiset(r.0) + multiset(r.1) == multiset(queue);
    assert |r.0| + |r.1| == |queue| by {
      assert |multiset(r.0) + multiset(r.1)| == |multiset(queue)|;
    }
    forall j | 0 <= j < |r.1|
      ensures r.1[j].aggPeriod > 0
    {
      assert r.1[j] in multiset(r.1);
      assert r.1[j] in multiset(queue);
    }
  }

  /** What the queue builder guarantees of each unit: a non-empty window, a
      positive period and a `count` computed by the sizing formula. */
  predicate Counted(u: WorkUnit)
  {
    u.from <= u.to && u.aggPeriod > 0 && u.count == TotElements([u])
  }

  /** A counted unit that may join a batch of well-formed units fits on its own. */
  lemma ExtensionFits(slice: seq<WorkUnit>, s: WorkUnit, maxSize: int)
    requires |slice| > 0 && WellFormed(slice) && Counted(s) && Extends(slice, s, maxSize)
    ensures Fits(s, maxSize)
  {
    var t := slice + [s];
    assert t[|slice|] == s;
    assert forall j :: 0 <= j < |slice| ==> t[j] == slice[j];
    TotElementsCoversUnit(t, |slice|);
  }

  /** Moving the chosen unit keeps the hypotheses of `GrowKeepsFitting`. */
  lemma FittingStep(slice: seq<WorkUnit>, queue: seq<WorkUnit>, maxSize: int, i: nat)
    requires |slice| > 0 && WellFormed(slice)
    requires forall j :: 0 <= j < |queue| ==> Counted(queue[j])
    requires forall j :: 0 <= j < |slice| ==> Fits(slice[j], maxSize)
    requires i < |queue| && Extends(slice, queue[i], maxSize)
    ensures var slice', rest := slice + [queue[i]], queue[..i] + queue[i + 1..];
      WellFormed(slice')
      && (forall j :: 0 <= j < |rest| ==> Counted(rest[j]))
      && (forall j :: 0 <= j < |slice'| ==> Fits(slice'[j], maxSize))
  {
    var s := queue[i];
    var rest := queue[..i] + queue[i + 1..];
    var slice' := slice + [s];
    assert forall j :: 0 <= j < |rest| ==> rest[j] in queue;
    assert forall j :: 0 <= j < |slice| ==> slice'[j] == slice[j];
    assert slice'[|slice|] == s;
    ExtensionFits(slice, s, maxSize);
  }

  /** With counts computed from the windows, every unit of a grown slice fits
      on its own. */
  lemma {:induction false} GrowKeepsFitting(slice: seq<WorkUnit>, queue: seq<WorkUnit>, maxSize: int)
    requires |slice| > 0 && WellFormed(slice)
    requires forall j :: 0 <= j < |queue| ==> Counted(queue[j])
    requires forall j :: 0 <= j < |slice| ==> Fits(slice[j], maxSize)
    ensures var r := Grow(slice, queue, maxSize); forall j :: 0 <= j < |r.0| ==> Fits(r.0[j], maxSize)
    decreases |queue|
  {
    match FirstExtension(slice, queue, maxSize, 0)
    case None =>
    case Some(i) =>
      FittingStep(slice, queue, maxSize, i);
      GrowStep(slice, queue, maxSize, i);
      GrowKeepsFitting(slice + [queue[i]], queue[..i] + queue[i + 1..], maxSize);
  }

  /** A unit whose own count exceeds the ceiling is never packed: with counts
      computed from the windows (as the queue builder does), every unit of a
      returned batch fits on its own. Such a unit is therefore left in the
      queue until no other unit remains, and then the seed choice raises. */
  lemma PackedUnitsFit(queue: seq<WorkUnit>, maxSize: int)
    requires forall j :: 0 <= j < |queue| ==> Counted(queue[j])
    ensures PositivePeriods(queue)
    ensures Pack(queue, maxSize).Ok? ==>
      var slice := Pack(queue, maxSize).value.0; forall j :: 0 <= j < |slice| ==> Fits(slice[j], maxSize)
  {
    assert PositivePeriods(queue);
    var c := Choose([], queue, maxSize);
    if c.Ok? {
      var i := c.value.value;
      PackSeeded(queue, maxSize, i);
      var rest := queue[..i] + queue[i + 1..];
      assert forall j :: 0 <= j < |rest| ==> rest[j] in queue;
      GrowKeepsFitting([queue[i]], rest, maxSize);
    }
  }

  /** The Python list the queue lives in; `pop_biggest_slice` mutates it. */
  class WorkQueue {
    var items: seq<WorkUnit>

    constructor (items: seq<WorkUnit>)
      ensures this.items == items
    {
      this.items := items;
    }

    /** `list.pop(i)` */
    method Pop(i: nat) returns (x: WorkUnit)
      requires i < |items|
      modifies this
      ensures x == old(items)[i] && items == old(items)[..i] + old(items)[i + 1..]
    {
      x := items[i];
      items := items[..i] + items[i + 1..];
    }
  }

  /** The state of `pop_biggest_slice` between iterations, relative to the
      queue `q0` it was called with: before the seed is popped the queue is
      untouched and `toAdd` is the seed choice; afterwards packing `q0` is
      growing `stations` over the current queue and `toAdd` is the next unit
      that may join. */
  ghost predicate PopState(q0: seq<WorkUnit>, stations: seq<WorkUnit>, items: seq<WorkUnit>, toAdd: Option<nat>, maxSize: int)
  {
    PositivePeriods(q0) && PositivePeriods(items) && PositivePeriods(stations)
    && (toAdd.Some? ==> toAdd.value < |items|)
    && (stations == [] ==> items == q0 && Choose([], q0, maxSize) == Ok(toAdd))
    && (stations != [] ==>
          Pack(q0, maxSize) == Ok(Grow(stations, items, maxSize))
          && toAdd == FirstExtension(stations, items, maxSize, 0))
  }

  /** Popping the chosen unit moves it to the end of the slice; packing the
      original queue is then growing the longer slice over the shorter queue. */
  lemma PopStateStep(q0: seq<WorkUnit>, stations: seq<WorkUnit>, items: seq<WorkUnit>, i: nat, maxSize: int)
    requires PopState(q0, stations, items, Some(i), maxSize)
    ensures var rest := items[..i] + items[i + 1..];
      PositivePeriods(rest) && PositivePeriods(stations + [items[i]])
      && Pack(q0, maxSize) == Ok(Grow(stations + [items[i]], rest, maxSize))
  {
    RemovePositive(items, i);
    if stations == [] {
      PackSeeded(q0, maxSize, i);
      assert stations + [items[i]] == [q0[i]];
    } else {
      GrowStep(stations, items, maxSize, i);
    }
  }

  lemma RemovePositive(items: seq<WorkUnit>, i: nat)
    requires PositivePeriods(items) && i < |items|
    ensures PositivePeriods(items[..i] + items[i + 1..])
  {
    var rest := items[..i] + items[i + 1..];
    assert forall j :: 0 <= j < |rest| ==> rest[j] in items;
  }

  /** When the loop stops, the slice built so far is the packed batch. */
  lemma PopStateExit(q0: seq<WorkUnit>, stations: seq<WorkUnit>, items: seq<WorkUnit>, toAdd: Option<nat>, maxSize: int)
    requires PopState(q0, stations, items, toAdd, maxSize)
    requires toAdd.None? || |items| == 0
    ensures Pack(q0, maxSize) == Ok((stations, items))
  {
  }

  /** `pop_biggest_slice`: pops units off `queue` in place into the returned
      slice. The seed `find_biggest` may raise, leaving the queue untouched. */
  method PopBiggestSlice(queue: WorkQueue, maxSize: int) returns (r: Result<seq<WorkUnit>>)
    requires PositivePeriods(queue.items)
    modifies queue
    ensures var p := Pack(old(queue.items), maxSize);
      (p.Err? ==> r == Err(p.error) && queue.items == old(queue.items))
      && (p.Ok? ==> r == Ok(p.value.0) && queue.items == p.value.1)
  {
    ghost var q0 := queue.items;
    var stations: seq<WorkUnit> := [];
    var found := FindBiggest(stations, queue.items, maxSize);
    if found.Err? {
      return Err(found.error);
    }
    var toAdd := found.value;
    while toAdd.Some? && |queue.items| > 0
      invariant PopState(q0, stations, queue.items, toAdd, maxSize)
      decreases |queue.items|
    {
      var i := toAdd.value;
      PopStateStep(q0, stations, queue.items, i, maxSize);
      var x := queue.Pop(i);
      stations := stations + [x];
      found := FindBiggest(stations, queue.items, maxSize);
      toAdd := found.value;
    }
    PopStateExit(q0, stations, queue.items, toAdd, maxSize);
    return Ok(stations);
  }
}
