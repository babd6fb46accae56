/** Shared vocabulary of the downloader: the work unit handed from the queue
    builder to the packer and the submission loop, the row of the resume log,
    Python's exceptions as an error value, and a few sequence helpers. */
module Units {

  /** The Python exceptions the modelled code can raise. */
  datatype Error = IndexError | ValueError

  datatype Option<T> = None | Some(value: T)

  datatype Result<T> = Ok(value: T) | Err(error: Error)

  /** The Python-level outcome of a call that returns nothing. */
  datatype Outcome = Pass | Fail(error: Error)

  /** A calendar date is a day number; consecutive days differ by one. */
  type Date = int

  const SecondsPerDay: int := 86400

  /** One row of the request queue (a dict with the keys name, id, v, from,
      to, count, timeline_section, agg_period). */
  datatype WorkUnit = WorkUnit(
    name: string,
    id: string,
    v: string,
    from: Date,
    to: Date,
    count: int,
    section: int,
    aggPeriod: int)

  /** One row of the sent-requests log: the work unit's fields plus task_id. */
  datatype Row = Row(unit: WorkUnit, taskId: string)

  /** Every aggregation period is a positive number of seconds, so that the
      floor division of the sizing formula is defined. */
  predicate PositivePeriods(units: seq<WorkUnit>)
  {
    forall i :: 0 <= i < |units| ==> units[i].aggPeriod > 0
  }

  function Min(a: int, b: int): int { if a <= b then a else b }

  function Max(a: int, b: int): int { if a >= b then a else b }

  /** `a` is obtained from `b` by deleting elements, keeping the order. */
  predicate Subsequence<T(==)>(a: seq<T>, b: seq<T>)
    decreases |b|
  {
    a == [] || (b != [] && ((a[0] == b[0] && Subsequence(a[1..], b[1..])) || Subsequence(a, b[1..])))
  }

  lemma {:induction false} SubsequenceRefl<T>(a: seq<T>)
    ensures Subsequence(a, a)
    decreases |a|
  {
    if a != [] {
      SubsequenceRefl(a[1..]);
    }
  }

  /** Removing one element (Python's `list.pop(i)`) leaves a subsequence. */
  lemma {:induction false} RemoveAtIsSubsequence<T>(q: seq<T>, i: nat)
    requires i < |q|
    ensures Subsequence(q[..i] + q[i + 1..], q)
    decreases i
  {
    if i == 0 {
      assert q[..i] + q[i + 1..] == q[1..];
      SubsequenceRefl(q[1..]);
    } else {
      var rest := q[1..];
      RemoveAtIsSubsequence(rest, i - 1);
      assert (q[..i] + q[i + 1..])[1..] == rest[..i - 1] + rest[i..];
    }
  }

  lemma {:induction false} SubsequenceTrans<T>(a: seq<T>, b: seq<T>, c: seq<T>)
    requires Subsequence(a, b) && Subsequence(b, c)
    ensures Subsequence(a, c)
    decreases |c|
  {
    if a != [] {
      if b[0] == c[0] && Subsequence(b[1..], c[1..]) {
        if a[0] == b[0] && Subsequence(a[1..], b[1..]) {
          SubsequenceTrans(a[1..], b[1..], c[1..]);
        } else {
          SubsequenceTrans(a, b[1..], c[1..]);
        }
      } else {
        SubsequenceTrans(a, b, c[1..]);
      }
    }
  }

  /** A prefix one longer is the shorter prefix and the next element. */
  lemma TakeSnoc<T>(s: seq<T>, n: nat)
    requires n < |s|
    ensures s[..n + 1] == s[..n] + [s[n]]
  {
  }

  /** A suffix that starts with `x` followed by `t`. */
  lemma DropCons<T>(s: seq<T>, n: nat, x: T, t: seq<T>)
    requires n <= |s| && s[n..] == [x] + t
    ensures n < |s| && s[n] == x && s[n + 1..] == t
  {
    assert s[n..][0] == s[n];
    assert s[n + 1..] == s[n..][1..];
  }

  /** An empty suffix: the prefix is the whole sequence. */
  lemma TakeAll<T>(s: seq<T>, n: nat)
    requires n <= |s| && s[n..] == []
    ensures n == |s| && s[..n] == s
  {
    assert |s[n..]| == |s| - n;
  }

  /** The empty prefix and the whole suffix. */
  lemma TakeNone<T>(s: seq<T>)
    ensures s[..0] == [] && s[0..] == s
  {
  }

  /** Removing the element at `i` splits off exactly that element. */
  lemma RemoveAtMultiset<T>(q: seq<T>, i: nat)
    requires i < |q|
    ensures multiset(q) == multiset(q[..i] + q[i + 1..]) + multiset{q[i]}
  {
    assert q == q[..i] + [q[i]] + q[i + 1..];
  }

  /** The elements of `s` satisfying `p`, in order (a dataframe filter or a
      semi/anti join against a fixed table). */
  function Filter<T(!new)>(s: seq<T>, p: T -> bool): (r: seq<T>)
    ensures |r| <= |s|
    ensures forall x :: x in r <==> x in s && p(x)
    ensures forall i :: 0 <= i < |r| ==> p(r[i])
  {
    if s == [] then [] else (if p(s[0]) then [s[0]] else []) + Filter(s[1..], p)
  }

  lemma {:induction false} FilterIsSubsequence<T(!new)>(s: seq<T>, p: T -> bool)
    ensures Subsequence(Filter(s, p), s)
  {
    if s != [] {
      FilterIsSubsequence(s[1..], p);
      var r := Filter(s, p);
      if p(s[0]) {
        assert r[0] == s[0] && r[1..] == Filter(s[1..], p);
      } else {
        assert r == Filter(s[1..], p);
      }
    }
  }

  lemma {:induction false} FilterAppend<T(!new)>(a: seq<T>, b: seq<T>, p: T -> bool)
    ensures Filter(a + b, p) == Filter(a, p) + Filter(b, p)
  {
    if a != [] {
      FilterAppend(a[1..], b, p);
      assert (a + b)[1..] == a[1..] + b;
    } else {
      assert a + b == b;
    }
  }

  lemma {:induction false} FilterAll<T(!new)>(s: seq<T>, p: T -> bool)
    requires forall i :: 0 <= i < |s| ==> p(s[i])
    ensures Filter(s, p) == s
  {
    if s != [] {
      FilterAll(s[1..], p);
    }
  }

  /** Earliest `from` date of a non-empty group (Python's `min(s["from"] for s in ...)`). */
  function MinFrom(units: seq<WorkUnit>): Date
    requires |units| > 0
  {
    if |units| == 1 then units[0].from else Min(units[0].from, MinFrom(units[1..]))
  }

  /** Latest `to` date of a non-empty group. */
  function MaxTo(units: seq<WorkUnit>): Date
    requires |units| > 0
  {
    if |units| == 1 then units[0].to else Max(units[0].to, MaxTo(units[1..]))
  }

  /** Finest aggregation period of a non-empty group. */
  function MinPeriod(units: seq<WorkUnit>): int
    requires |units| > 0
  {
    if |units| == 1 then units[0].aggPeriod else Min(units[0].aggPeriod, MinPeriod(units[1..]))
  }

  /** The three folds are attained by some member and bound every member. */
  lemma {:induction false} Extremes(units: seq<WorkUnit>)
    requires |units| > 0
    ensures forall i :: 0 <= i < |units| ==>
      MinFrom(units) <= units[i].from && units[i].to <= MaxTo(units) && MinPeriod(units) <= units[i].aggPeriod
    ensures exists i :: 0 <= i < |units| && MinFrom(units) == units[i].from
    ensures exists i :: 0 <= i < |units| && MaxTo(units) == units[i].to
    ensures exists i :: 0 <= i < |units| && MinPeriod(units) == units[i].aggPeriod
  {
    if |units| > 1 {
      var rest := units[1..];
      Extremes(rest);
      assert forall i :: 1 <= i < |units| ==> units[i] == rest[i - 1];
      var a :| 0 <= a < |rest| && MinFrom(rest) == rest[a].from;
      var b :| 0 <= b < |rest| && MaxTo(rest) == rest[b].to;
      var c :| 0 <= c < |rest| && MinPeriod(rest) == rest[c].aggPeriod;
      var i := if MinFrom(units) == units[0].from then 0 else a + 1;
      var j := if MaxTo(units) == units[0].to then 0 else b + 1;
      var k := if MinPeriod(units) == units[0].aggPeriod then 0 else c + 1;
      assert MinFrom(units) == units[i].from;
      assert MaxTo(units) == units[j].to;
      assert MinPeriod(units) == units[k].aggPeriod;
    }
  }
}
