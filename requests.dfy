/** The query of one batch (lib/requests.py, `slice_payload`): the time window
    enclosing every unit of the batch, the variable(s) and the station ids. */
module Requests {
  import opened Units
  import opened Stack

  /** A timestamp with zero minutes and seconds: a day and an hour. The text
      form `%Y-%m-%dT%H:%M:%SZ` is not modelled. */
  datatype DateTime = DateTime(day: Date, hour: int)

  predicate Before(a: DateTime, b: DateTime)
  {
    a.day < b.day || (a.day == b.day && a.hour < b.hour)
  }

  /** The `variable` field: a bare string when the batch has one variable,
      otherwise the list of its distinct variables. */
  datatype VariableField = One(v: string) | Several(vs: seq<string>)

  /** The query dict; `requestTime` is the key the resume log adds. */
  datatype Payload = Payload(
    email: string,
    begin: DateTime,
    end: DateTime,
    variable: VariableField,
    station: seq<string>,
    fmt: string,
    requestTime: Option<string>)

  predicate NoDuplicates<T(==)>(s: seq<T>)
  {
    forall i, j :: 0 <= i < j < |s| ==> s[i] != s[j]
  }

  /** The variable of each unit, in batch order. */
  function Values(slice: seq<WorkUnit>): (r: seq<string>)
    ensures |r| == |slice| && forall i :: 0 <= i < |slice| ==> r[i] == slice[i].v
  {
    seq(|slice|, i requires 0 <= i < |slice| => slice[i].v)
  }

  /** `list(set(vs))`. Python lists the set in hash order; this definition
      lists each value once, at its first occurrence. */
  function Distinct(vs: seq<string>): (r: seq<string>)
    ensures NoDuplicates(r)
    ensures forall x :: x in r <==> x in vs
    ensures |r| <= |vs|
  {
    if vs == [] then []
    else
      var init := vs[..|vs| - 1];
      assert vs == init + [vs[|vs| - 1]];
      var rest := Distinct(init);
      if vs[|vs| - 1] in rest then rest else rest + [vs[|vs| - 1]]
  }

  /** `slice_payload`. `min` over an empty batch raises ValueError. */
  function SlicePayload(slice: seq<WorkUnit>, email: string): Result<Payload>
  {
    if slice == [] then Err(ValueError)
    else
      var variables := Distinct(Values(slice));
      Ok(Payload(
        email,
        DateTime(MinFrom(slice) - 1, 23),
        DateTime(MaxTo(slice) + 1, 0),
        if |variables| == 1 then One(variables[0]) else Several(variables),
        seq(|slice|, i requires 0 <= i < |slice| => slice[i].id),
        "csv",
        None))
  }

  /** The payload of a non-empty batch: the email unchanged; the window opens
      at 23:00 on the day before the earliest `from` and closes at 00:00 on
      the day after the latest `to`, so it is tight: some unit starts the
      day after it opens and some unit ends the day before it closes; one
      station id per unit, in batch order; format "csv". An empty batch
      raises. */
  lemma SlicePayloadSpec(slice: seq<WorkUnit>, email: string)
    ensures SlicePayload(slice, email).Err? <==> slice == []
    ensures SlicePayload(slice, email).Err? ==> SlicePayload(slice, email).error == ValueError
    ensures SlicePayload(slice, email).Ok? ==>
      var p := SlicePayload(slice, email).value;
      p.email == email && p.fmt == "csv" && p.requestTime == None
      && p.begin == DateTime(MinFrom(slice) - 1, 23) && p.end == DateTime(MaxTo(slice) + 1, 0)
      && |p.station| == |slice| && (forall i :: 0 <= i < |slice| ==> p.station[i] == slice[i].id)
      && (exists i :: 0 <= i < |slice| && slice[i].from == p.begin.day + 1)
      && (exists i :: 0 <= i < |slice| && slice[i].to == p.end.day - 1)
  {
    if slice != [] {
      Extremes(slice);
    }
  }

  /** The window strictly encloses every unit's days, and so, when some unit
      has `from <= to`, it opens strictly before it closes. */
  lemma WindowEnclosesUnits(slice: seq<WorkUnit>, email: string)
    requires slice != []
    ensures var p := SlicePayload(slice, email).value;
      (forall i :: 0 <= i < |slice| ==> p.begin.day < slice[i].from && slice[i].to < p.end.day)
      && ((exists i :: 0 <= i < |slice| && slice[i].from <= slice[i].to) ==> Before(p.begin, p.end))
  {
    Extremes(slice);
  }

  /** The variable field is a bare string exactly when all units share one
      variable; otherwise it lists every variable of the batch once. */
  lemma VariableFieldSpec(slice: seq<WorkUnit>, email: string)
    requires slice != []
    ensures var p := SlicePayload(slice, email).value;
      (p.variable.One? <==> forall i :: 0 <= i < |slice| ==> slice[i].v == slice[0].v)
      && (p.variable.One? ==> p.variable.v == slice[0].v)
      && (p.variable.Several? ==>
            |p.variable.vs| >= 2 && NoDuplicates(p.variable.vs)
            && forall x :: x in p.variable.vs <==> x in Values(slice))
  {
    var vs := Distinct(Values(slice));
    assert slice[0].v in Values(slice);
    if |vs| == 1 {
      forall i | 0 <= i < |slice|
        ensures slice[i].v == slice[0].v
      {
        assert slice[i].v in Values(slice);
      }
    } else {
      assert |vs| >= 2;
      var j :| 0 <= j < |vs| && vs[j] != vs[0];
      assert vs[0] in Values(slice) && vs[j] in Values(slice);
      var a :| 0 <= a < |slice| && Values(slice)[a] == vs[0];
      var b :| 0 <= b < |slice| && Values(slice)[b] == vs[j];
      assert slice[a].v != slice[b].v;
    }
  }

  /** A batch made by the packer has a single variable. */
  lemma BatchHasOneVariable(slice: seq<WorkUnit>, maxSize: int, email: string)
    requires Batch(slice, maxSize)
    ensures SlicePayload(slice, email).Ok? && SlicePayload(slice, email).value.variable == One(slice[0].v)
  {
    VariableFieldSpec(slice, email);
  }
}
