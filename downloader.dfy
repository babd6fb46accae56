/** The submission loop of `Dext3rDownloader.download`
    (lib/download_manager.py): batches are popped off the sorted queue, each
    is tried up to `max_tries` times against the service, accepted batches
    are logged in the workspace, and the pause between attempts adapts to
    the replies. The HTTP call is an oracle `respond(k)` giving the outcome
    of the `k`-th attempt, the clock an oracle `clock(k)` giving the text of
    the time of the `k`-th attempt; the pause is recorded, not slept. */
module Downloader {
  import opened Units
  import opened Stack
  import opened QueueBuilder
  import opened Requests
  import opened Write

  /** The ceiling of the adaptive pause, in seconds. */
  const PauseCap: int := 210

  /** What an attempt of `request_slice` ends with. `Raised`: the request
      itself raised. `Reply(status, body)`: for status 200, `body` is the
      `task` field of the JSON reply, `None` when reading it raises; for any
      other status, `body` is `None` when looking up `detail` or `details`
      in the reply raises (the reply is not JSON; its JSON is null, a number
      or a boolean, which `in` cannot search; or it is a string or a list
      holding one of the two keys, which cannot be indexed by it) and
      `Some` of anything otherwise. A raise is caught like any other. */
  datatype Response = Raised | Reply(status: int, body: Option<string>)

  /** One attempt: the batch it belongs to, the retry counter `c` when it
      started, the email address used (`None` when indexing the list of
      addresses raised) and the reply (`None` when no request was made). */
  datatype Attempt = Attempt(batch: nat, tryIndex: nat, email: Option<string>, reply: Option<Response>)

  /** The service accepted the batch and returned a task id. */
  predicate Accepted(a: Attempt)
  {
    a.reply.Some? && a.reply.value.Reply? && a.reply.value.status == 200 && a.reply.value.body.Some?
  }

  function TaskOf(a: Attempt): string
    requires Accepted(a)
  {
    a.reply.value.body.value
  }

  /** The service answered with an error status and a JSON body. */
  predicate Refused(a: Attempt)
  {
    a.reply.Some? && a.reply.value.Reply? && a.reply.value.status != 200 && a.reply.value.body.Some?
  }

  /** A refusal with status 403 forces the retry counter to `max_tries`. */
  predicate Forbidden(a: Attempt)
  {
    Refused(a) && a.reply.value.status == 403
  }

  /** The pause after an attempt: 20 seconds shorter after a batch accepted
      at its first attempt (with no lower bound), 10 seconds longer but at
      most `PauseCap` after a refusal, unchanged otherwise. */
  function PauseAfter(p: int, a: Attempt): int
  {
    if Accepted(a) then (if a.tryIndex == 0 then p - 20 else p)
    else if Refused(a) then Min(p + 10, PauseCap)
    else p
  }

  function LastPause(p0: int, pauses: seq<int>): int
  {
    if pauses == [] then p0 else pauses[|pauses| - 1]
  }

  /** The pauses slept after each attempt, starting from `p0`. */
  function Pauses(p0: int, attempts: seq<Attempt>): (r: seq<int>)
    ensures |r| == |attempts|
  {
    if attempts == [] then []
    else
      var prev := Pauses(p0, attempts[..|attempts| - 1]);
      prev + [PauseAfter(LastPause(p0, prev), attempts[|attempts| - 1])]
  }

  /** An initial pause within the cap keeps every pause within it. */
  lemma {:induction false} PauseCapped(p0: int, attempts: seq<Attempt>)
    requires p0 <= PauseCap
    ensures forall k :: 0 <= k < |attempts| ==> Pauses(p0, attempts)[k] <= PauseCap
  {
    if attempts != [] {
      var prev := Pauses(p0, attempts[..|attempts| - 1]);
      PauseCapped(p0, attempts[..|attempts| - 1]);
      assert LastPause(p0, prev) <= PauseCap;
    }
  }

  /** Batches accepted at their first attempt shorten the pause by 20
      seconds each, without a lower bound. */
  lemma {:induction false} AcceptedStreak(p0: int, attempts: seq<Attempt>)
    requires forall k :: 0 <= k < |attempts| ==> Accepted(attempts[k]) && attempts[k].tryIndex == 0
    ensures forall k :: 0 <= k < |attempts| ==> Pauses(p0, attempts)[k] == p0 - 20 * (k + 1)
  {
    if attempts != [] {
      var init := attempts[..|attempts| - 1];
      AcceptedStreak(p0, init);
      assert forall k :: 0 <= k < |init| ==> Pauses(p0, attempts)[k] == Pauses(p0, init)[k];
    }
  }

  /** With the default pause of 120 seconds, seven batches accepted at
      their first attempt bring the pause to -20, which `sleep` rejects. */
  lemma DefaultPauseGoesNegative(task: string)
    ensures var streak := seq(7, i requires 0 <= i => Attempt(i, 0, Some(task), Some(Reply(200, Some(task)))));
      Pauses(120, streak)[6] == -20
  {
    var streak := seq(7, i requires 0 <= i => Attempt(i, 0, Some(task), Some(Reply(200, Some(task)))));
    AcceptedStreak(120, streak);
  }

  /** The attempt `b` that follows `a`: the first try of the next batch once
      `a` ended its batch (accepted, forbidden, or the last allowed try),
      else the next try of the same batch. */
  predicate Follows(a: Attempt, b: Attempt, maxTries: int)
  {
    if Accepted(a) || Forbidden(a) || a.tryIndex + 1 >= maxTries then b.batch == a.batch + 1 && b.tryIndex == 0
    else b.batch == a.batch && b.tryIndex == a.tryIndex + 1
  }

  /** The retry discipline: no batch gets more than `maxTries` attempts,
      the batches are tried in order, each from counter 0, and an
      acceptance or a 403 ends one. */
  predicate Retries(attempts: seq<Attempt>, maxTries: int)
  {
    (forall k :: 0 <= k < |attempts| ==> attempts[k].tryIndex < maxTries)
    && (|attempts| > 0 ==> attempts[0].tryIndex == 0 && attempts[0].batch == 0)
    && (forall k :: 0 <= k < |attempts| - 1 ==> Follows(attempts[k], attempts[k + 1], maxTries))
  }

  /** `Retries`, built up one attempt at a time as the loop makes them. */
  predicate RetryChain(attempts: seq<Attempt>, maxTries: int)
    decreases |attempts|
  {
    attempts == []
    || (var init, a := attempts[..|attempts| - 1], attempts[|attempts| - 1];
        RetryChain(init, maxTries) && a.tryIndex < maxTries
        && (if init == [] then a.tryIndex == 0 && a.batch == 0 else Follows(init[|init| - 1], a, maxTries)))
  }

  lemma {:induction false} RetryChainRetries(attempts: seq<Attempt>, maxTries: int)
    requires RetryChain(attempts, maxTries)
    ensures Retries(attempts, maxTries)
  {
    if attempts != [] {
      var init := attempts[..|attempts| - 1];
      RetryChainRetries(init, maxTries);
      assert forall k :: 0 <= k < |init| ==> attempts[k] == init[k];
    }
  }

  /** Every attempt belongs to one of the first `nBatches` batches, used the
      first address and got the reply the oracle gives for its position. */
  predicate Addressed(attempts: seq<Attempt>, nBatches: nat, emails: seq<string>, respond: nat -> Response)
    decreases |attempts|
  {
    attempts == []
    || (var init, a := attempts[..|attempts| - 1], attempts[|attempts| - 1];
        Addressed(init, nBatches, emails, respond)
        && a.batch < nBatches && a.email == EmailUsed(emails) && a.reply == ReplyOf(emails, respond(|init|)))
  }

  lemma {:induction false} AddressedGrows(attempts: seq<Attempt>, nBatches: nat, emails: seq<string>, respond: nat -> Response)
    requires Addressed(attempts, nBatches, emails, respond)
    ensures Addressed(attempts, nBatches + 1, emails, respond)
  {
    if attempts != [] {
      AddressedGrows(attempts[..|attempts| - 1], nBatches, emails, respond);
    }
  }

  lemma {:induction false} AddressedAll(attempts: seq<Attempt>, nBatches: nat, emails: seq<string>, respond: nat -> Response)
    requires Addressed(attempts, nBatches, emails, respond)
    ensures forall k :: 0 <= k < |attempts| ==>
      attempts[k].batch < nBatches && attempts[k].email == EmailUsed(emails)
      && attempts[k].reply == ReplyOf(emails, respond(k))
  {
    if attempts != [] {
      var init := attempts[..|attempts| - 1];
      AddressedAll(init, nBatches, emails, respond);
      assert forall k :: 0 <= k < |init| ==> attempts[k] == init[k];
    }
  }

  /** Every batch respects the line budget. */
  predicate Batches(batches: seq<seq<WorkUnit>>, maxLines: int)
    decreases |batches|
  {
    batches == [] || (Batches(batches[..|batches| - 1], maxLines) && Batch(batches[|batches| - 1], maxLines))
  }

  lemma {:induction false} BatchesAll(batches: seq<seq<WorkUnit>>, maxLines: int)
    requires Batches(batches, maxLines)
    ensures forall i :: 0 <= i < |batches| ==> Batch(batches[i], maxLines)
  {
    if batches != [] {
      var init := batches[..|batches| - 1];
      BatchesAll(init, maxLines);
      assert forall i :: 0 <= i < |init| ==> batches[i] == init[i];
    }
  }

  /** No pause is negative. */
  predicate NonNegative(pauses: seq<int>)
    decreases |pauses|
  {
    pauses == [] || (NonNegative(pauses[..|pauses| - 1]) && pauses[|pauses| - 1] >= 0)
  }

  lemma {:induction false} NonNegativeAll(pauses: seq<int>)
    requires NonNegative(pauses)
    ensures forall k :: 0 <= k < |pauses| ==> pauses[k] >= 0
  {
    if pauses != [] {
      var init := pauses[..|pauses| - 1];
      NonNegativeAll(init);
      assert forall k :: 0 <= k < |init| ==> pauses[k] == init[k];
    }
  }

  /** The task ids of the accepted attempts. */
  function Tasks(attempts: seq<Attempt>): set<string>
    decreases |attempts|
  {
    if attempts == [] then {}
    else
      var a := attempts[|attempts| - 1];
      Tasks(attempts[..|attempts| - 1]) + (if Accepted(a) then {TaskOf(a)} else {})
  }

  lemma {:induction false} TasksAll(attempts: seq<Attempt>)
    ensures forall k :: 0 <= k < |attempts| && Accepted(attempts[k]) ==> TaskOf(attempts[k]) in Tasks(attempts)
  {
    if attempts != [] {
      var init := attempts[..|attempts| - 1];
      TasksAll(init);
      assert forall k :: 0 <= k < |init| ==> attempts[k] == init[k];
    }
  }

  /** The last attempt so far ended its batch. */
  predicate Closed(attempts: seq<Attempt>, maxTries: int)
  {
    attempts == []
    || (var a := attempts[|attempts| - 1]; Accepted(a) || Forbidden(a) || a.tryIndex + 1 >= maxTries)
  }

  /** Each of the first `nBatches` batches got an attempt so far: the last
      attempt belongs to the last batch, and no attempt is made at all when
      `max_tries` allows none. */
  predicate Covered(attempts: seq<Attempt>, nBatches: int, maxTries: int)
  {
    if maxTries <= 0 then attempts == []
    else if attempts == [] then nBatches == 0
    else attempts[|attempts| - 1].batch == nBatches - 1
  }

  /** Some attempt belongs to batch `i`. */
  predicate HasAttempt(attempts: seq<Attempt>, i: int)
  {
    exists k :: 0 <= k < |attempts| && attempts[k].batch == i
  }

  /** With at least one try allowed, every popped batch was sent at least
      once. */
  lemma {:induction false} EveryBatchTried(attempts: seq<Attempt>, nBatches: int, maxTries: int)
    requires RetryChain(attempts, maxTries) && Covered(attempts, nBatches, maxTries) && maxTries > 0
    ensures forall i :: 0 <= i < nBatches ==> HasAttempt(attempts, i)
    decreases |attempts|
  {
    if attempts != [] {
      var init, a := attempts[..|attempts| - 1], attempts[|attempts| - 1];
      assert a.batch == nBatches - 1;
      if init == [] {
        assert a.batch == 0;
      } else {
        var prev := init[|init| - 1];
        assert Follows(prev, a, maxTries);
        if a.batch == prev.batch {
          EveryBatchTried(init, nBatches, maxTries);
        } else {
          assert prev.batch == nBatches - 2;
          EveryBatchTried(init, nBatches - 1, maxTries);
        }
      }
      forall i | 0 <= i < nBatches
        ensures HasAttempt(attempts, i)
      {
        if i == nBatches - 1 {
          assert attempts[|attempts| - 1].batch == i;
        } else {
          assert HasAttempt(init, i);
          var k :| 0 <= k < |init| && init[k].batch == i;
          assert attempts[k] == init[k];
        }
      }
    }
  }

  /** The address every attempt uses: the list is indexed at 0. */
  function EmailUsed(emails: seq<string>): Option<string>
  {
    if |emails| > 0 then Some(emails[0]) else None
  }

  /** The reply of an attempt: indexing an empty list of addresses raises
      before any request is made. */
  function ReplyOf(emails: seq<string>, r: Response): Option<Response>
  {
    if |emails| > 0 then Some(r) else None
  }

  /** The units of the batches, in order. */
  function Concat(batches: seq<seq<WorkUnit>>): seq<WorkUnit>
  {
    if batches == [] then [] else Concat(batches[..|batches| - 1]) + batches[|batches| - 1]
  }

  /** The rows the accepted attempts append to the requests file. */
  function Logged(attempts: seq<Attempt>, batches: seq<seq<WorkUnit>>): seq<Row>
  {
    if attempts == [] then []
    else
      var a := attempts[|attempts| - 1];
      Logged(attempts[..|attempts| - 1], batches)
      + (if Accepted(a) && a.batch < |batches| then Tagged(batches[a.batch], TaskOf(a)) else [])
  }

  lemma {:induction false} LoggedExtend(attempts: seq<Attempt>, batches: seq<seq<WorkUnit>>, b: seq<WorkUnit>)
    requires forall k :: 0 <= k < |attempts| ==> attempts[k].batch < |batches|
    ensures Logged(attempts, batches + [b]) == Logged(attempts, batches)
  {
    if attempts != [] {
      var init := attempts[..|attempts| - 1];
      assert forall k :: 0 <= k < |init| ==> init[k] == attempts[k];
      LoggedExtend(init, batches, b);
    }
  }

  /** What holds of a run so far, whatever its stage. */
  ghost predicate History(p0: int, maxTries: int, maxLines: int, emails: seq<string>, respond: nat -> Response,
                          attempts: seq<Attempt>, pauses: seq<int>, batches: seq<seq<WorkUnit>>)
  {
    pauses == Pauses(p0, attempts)
    && RetryChain(attempts, maxTries)
    && Addressed(attempts, |batches|, emails, respond)
    && Batches(batches, maxLines)
  }

  /** A new batch popped: nothing about the attempts changes. */
  lemma HistoryNewBatch(p0: int, maxTries: int, maxLines: int, emails: seq<string>, respond: nat -> Response,
                        attempts: seq<Attempt>, pauses: seq<int>, batches: seq<seq<WorkUnit>>, b: seq<WorkUnit>)
    requires History(p0, maxTries, maxLines, emails, respond, attempts, pauses, batches)
    requires Batch(b, maxLines)
    ensures History(p0, maxTries, maxLines, emails, respond, attempts, pauses, batches + [b])
    ensures Logged(attempts, batches + [b]) == Logged(attempts, batches)
  {
    AddressedAll(attempts, |batches|, emails, respond);
    LoggedExtend(attempts, batches, b);
    AddressedGrows(attempts, |batches|, emails, respond);
    assert (batches + [b])[..|batches|] == batches;
  }

  /** One more attempt that follows the last one. */
  lemma HistoryStep(p0: int, maxTries: int, maxLines: int, emails: seq<string>, respond: nat -> Response,
                    attempts: seq<Attempt>, pauses: seq<int>, batches: seq<seq<WorkUnit>>, a: Attempt)
    requires History(p0, maxTries, maxLines, emails, respond, attempts, pauses, batches)
    requires a.tryIndex < maxTries && a.batch < |batches|
    requires a.email == EmailUsed(emails) && a.reply == ReplyOf(emails, respond(|attempts|))
    requires attempts == [] ==> a.tryIndex == 0 && a.batch == 0
    requires attempts != [] ==> Follows(attempts[|attempts| - 1], a, maxTries)
    ensures History(p0, maxTries, maxLines, emails, respond, attempts + [a], pauses + [PauseAfter(LastPause(p0, pauses), a)], batches)
    ensures Logged(attempts + [a], batches) == Logged(attempts, batches) + (if Accepted(a) then Tagged(batches[a.batch], TaskOf(a)) else [])
  {
    PausesSnoc(p0, attempts, a);
    LoggedSnoc(attempts, batches, a);
    assert (attempts + [a])[..|attempts|] == attempts;
  }

  lemma PausesSnoc(p0: int, attempts: seq<Attempt>, a: Attempt)
    ensures Pauses(p0, attempts + [a]) == Pauses(p0, attempts) + [PauseAfter(LastPause(p0, Pauses(p0, attempts)), a)]
  {
    assert (attempts + [a])[..|attempts|] == attempts;
  }

  lemma LoggedSnoc(attempts: seq<Attempt>, batches: seq<seq<WorkUnit>>, a: Attempt)
    requires a.batch < |batches|
    ensures Logged(attempts + [a], batches) == Logged(attempts, batches) + (if Accepted(a) then Tagged(batches[a.batch], TaskOf(a)) else [])
  {
    assert (attempts + [a])[..|attempts|] == attempts;
  }

  /** The multiset of the units popped so far. */
  lemma ConcatSnoc(batches: seq<seq<WorkUnit>>, b: seq<WorkUnit>)
    ensures Concat(batches + [b]) == Concat(batches) + b
  {
    assert (batches + [b])[..|batches|] == batches;
  }

  /** `Concat` seen from the front. */
  lemma {:induction false} ConcatCons(b: seq<WorkUnit>, batches: seq<seq<WorkUnit>>)
    ensures Concat([b] + batches) == b + Concat(batches)
    decreases |batches|
  {
    if batches == [] {
      assert [b][..0] == [];
    } else {
      var init := batches[..|batches| - 1];
      ConcatCons(b, init);
      assert ([b] + batches)[..|batches|] == [b] + init;
    }
  }

  /** The batches `download` pops off the queue `q`, one `pop_biggest_slice`
      after the other, the queue left when it stops, and how it stops:
      `Pass` once the queue is empty, the error of `pop_biggest_slice` when
      no remaining unit fits a batch. */
  function Packs(q: seq<WorkUnit>, maxLines: int): (seq<seq<WorkUnit>>, seq<WorkUnit>, Outcome)
    requires PositivePeriods(q)
    decreases |q|
  {
    if q == [] then ([], [], Pass)
    else match Pack(q, maxLines)
      case Err(e) => ([], q, Fail(e))
      case Ok((slice, rest)) =>
        PackPermutes(q, maxLines);
        var (bs, left, stop) := Packs(rest, maxLines);
        ([slice] + bs, left, stop)
  }

  /** One pop: when `pop_biggest_slice` succeeds on a non-empty queue, the
      batches are its slice followed by those of the rest. */
  lemma PacksStep(q: seq<WorkUnit>, maxLines: int)
    requires PositivePeriods(q) && q != [] && Pack(q, maxLines).Ok?
    ensures var p := Pack(q, maxLines).value;
      PositivePeriods(p.1) && |p.1| < |q|
      && Packs(q, maxLines) == ([p.0] + Packs(p.1, maxLines).0, Packs(p.1, maxLines).1, Packs(p.1, maxLines).2)
  {
    PackPermutes(q, maxLines);
  }

  /** Popping the queue until it is empty or no unit fits: the run passes
      exactly when nothing is left; otherwise it stops on IndexError with a
      non-empty queue none of whose units fits a batch. Every popped batch
      is a legal batch, the batches and the rest hold the units of `q`,
      and the rest keeps the order of `q`. */
  lemma PacksSpec(q: seq<WorkUnit>, maxLines: int)
    requires PositivePeriods(q)
    ensures var r := Packs(q, maxLines);
      (r.2 == Pass <==> r.1 == [])
      && (r.2 != Pass ==>
            r.2 == Fail(IndexError) && PositivePeriods(r.1) && Pack(r.1, maxLines).Err?
            && forall j :: 0 <= j < |r.1| ==> !Fits(r.1[j], maxLines))
      && multiset(Concat(r.0)) + multiset(r.1) == multiset(q)
      && Subsequence(r.1, q)
      && forall i :: 0 <= i < |r.0| ==> Batch(r.0[i], maxLines)
  {
    PacksStop(q, maxLines);
    PacksKeep(q, maxLines);
    PacksBatches(q, maxLines);
  }

  /** How popping stops: on an empty queue, or on IndexError with a queue
      none of whose units fits. */
  lemma {:induction false} PacksStop(q: seq<WorkUnit>, maxLines: int)
    requires PositivePeriods(q)
    ensures var r := Packs(q, maxLines);
      (r.2 == Pass <==> r.1 == [])
      && (r.2 != Pass ==>
            r.2 == Fail(IndexError) && PositivePeriods(r.1) && Pack(r.1, maxLines).Err?
            && forall j :: 0 <= j < |r.1| ==> !Fits(r.1[j], maxLines))
    decreases |q|
  {
    if q == [] {
    } else if Pack(q, maxLines).Err? {
      PackRaises(q, maxLines);
    } else {
      PacksStep(q, maxLines);
      PacksStop(Pack(q, maxLines).value.1, maxLines);
    }
  }

  /** The popped batches and the rest hold the units of `q`, and the rest
      keeps their order. */
  lemma {:induction false} PacksKeep(q: seq<WorkUnit>, maxLines: int)
    requires PositivePeriods(q)
    ensures var r := Packs(q, maxLines);
      multiset(Concat(r.0)) + multiset(r.1) == multiset(q) && Subsequence(r.1, q)
    decreases |q|
  {
    if q == [] {
    } else if Pack(q, maxLines).Err? {
      SubsequenceRefl(q);
    } else {
      var p := Pack(q, maxLines).value;
      PacksStep(q, maxLines);
      PackPermutes(q, maxLines);
      PacksKeep(p.1, maxLines);
      var r := Packs(p.1, maxLines);
      ConcatCons(p.0, r.0);
      SubsequenceTrans(r.1, p.1, q);
    }
  }

  /** Every popped batch is a legal batch. */
  lemma {:induction false} PacksBatches(q: seq<WorkUnit>, maxLines: int)
    requires PositivePeriods(q)
    ensures var r := Packs(q, maxLines);
      forall i :: 0 <= i < |r.0| ==> Batch(r.0[i], maxLines)
    decreases |q|
  {
    if q != [] && Pack(q, maxLines).Ok? {
      var p := Pack(q, maxLines).value;
      PacksStep(q, maxLines);
      PackBatch(q, maxLines);
      PacksBatches(p.1, maxLines);
      var r := Packs(p.1, maxLines);
      assert forall i :: 0 < i < |r.0| + 1 ==> ([p.0] + r.0)[i] == r.0[i - 1];
    }
  }

  /** The log files hold what the run started with plus what the attempts
      so far logged. */
  predicate Logs(rows0: Option<seq<Row>>, payloads0: Option<map<string, Payload>>,
                 attempts: seq<Attempt>, batches: seq<seq<WorkUnit>>,
                 rows: Option<seq<Row>>, payloads: Option<map<string, Payload>>)
  {
    StoredRows(rows) == StoredRows(rows0) + Logged(attempts, batches)
    && StoredPayloads(payloads0).Keys <= StoredPayloads(payloads).Keys
    && Tasks(attempts) <= StoredPayloads(payloads).Keys
  }

  /** One attempt more, logged as `SendOnce` logs it. */
  lemma LogsStep(rows0: Option<seq<Row>>, payloads0: Option<map<string, Payload>>,
                 attempts: seq<Attempt>, batches: seq<seq<WorkUnit>>, a: Attempt,
                 rowsBefore: Option<seq<Row>>, payloadsBefore: Option<map<string, Payload>>,
                 rows: Option<seq<Row>>, payloads: Option<map<string, Payload>>)
    requires Logs(rows0, payloads0, attempts, batches, rowsBefore, payloadsBefore)
    requires a.batch < |batches|
    requires Accepted(a) ==>
      rows == Some(StoredRows(rowsBefore) + Tagged(batches[a.batch], TaskOf(a)))
      && StoredPayloads(payloadsBefore).Keys <= StoredPayloads(payloads).Keys
      && TaskOf(a) in StoredPayloads(payloads)
    requires !Accepted(a) ==> rows == rowsBefore && payloads == payloadsBefore
    ensures Logs(rows0, payloads0, attempts + [a], batches, rows, payloads)
  {
    assert (attempts + [a])[..|attempts|] == attempts;
  }

  /** `Dext3rDownloader`: the workspace files, the start date and the
      length of a section in days; `download` and the loops inside it. */
  class Dext3rDownloader {
    const workspace: Workspace
    const fromDate: Date
    const maxDays: int

    constructor (workspace: Workspace, fromDate: Date, maxDays: int)
      ensures this.workspace == workspace && this.fromDate == fromDate && this.maxDays == maxDays
    {
      this.workspace := workspace;
      this.fromDate := fromDate;
      this.maxDays := maxDays;
    }

    /** The body of the `try` block: one request for `slice`; on acceptance
        the batch and its payload are logged. The counter update `c += 1`
        and the pause are left to the caller. */
    method SendOnce(slice: seq<WorkUnit>, batchNo: nat, c: nat, emails: seq<string>, emailIndex: nat,
                    dynPause: int, maxTries: int, k: nat, respond: nat -> Response, clock: nat -> string)
      returns (a: Attempt, pauseAfter: int, sent: bool, nextEmail: nat, cAfter: int)
      requires slice != []
      modifies workspace
      ensures a == Attempt(batchNo, c, if emailIndex < |emails| then Some(emails[emailIndex]) else None,
                           if emailIndex < |emails| then Some(respond(k)) else None)
      ensures pauseAfter == PauseAfter(dynPause, a)
      ensures sent == Accepted(a)
      ensures cAfter == if Forbidden(a) then maxTries else c
      ensures nextEmail == if sent then (emailIndex + 1) % |emails| else emailIndex
      ensures sent ==> workspace.requestsFile == Some(StoredRows(old(workspace.requestsFile)) + Tagged(slice, TaskOf(a)))
      ensures sent ==>
        workspace.payloadsFile == Some(StoredPayloads(old(workspace.payloadsFile))[TaskOf(a) := SlicePayload(slice, emails[emailIndex]).value.(requestTime := Some(clock(k)))])
      ensures sent ==>
        TaskOf(a) in StoredPayloads(workspace.payloadsFile)
        && StoredPayloads(old(workspace.payloadsFile)).Keys <= StoredPayloads(workspace.payloadsFile).Keys
      ensures !sent ==> workspace.requestsFile == old(workspace.requestsFile) && workspace.payloadsFile == old(workspace.payloadsFile)
      ensures workspace.invalidTasksFile == old(workspace.invalidTasksFile)
    {
      pauseAfter, sent, nextEmail, cAfter := dynPause, false, emailIndex, c;
      if emailIndex >= |emails| {
        // `email[email_index]` raises IndexError, caught below the request
        a := Attempt(batchNo, c, None, None);
        return;
      }
      var email := emails[emailIndex];
      var payload := SlicePayload(slice, email).value;
      var response := respond(k);
      a := Attempt(batchNo, c, Some(email), Some(response));
      match response {
        case Raised =>
        case Reply(status, body) =>
          if status == 200 {
            if body.Some? {
              var task := body.value;
              var dict := new PayloadDict(payload);
              workspace.RegisterTask(task, slice, dict, clock(k));
              sent := true;
              nextEmail := (emailIndex + 1) % |emails|;
              if c == 0 {
                pauseAfter := dynPause - 20;
              }
            }
          } else if body.Some? {
            pauseAfter := Min(dynPause + 10, PauseCap);
            if status == 403 {
              cAfter := maxTries;
            }
          }
      }
    }

    /** The retry loop of one batch, the last of `batches`: attempts until
        one is accepted, a 403 arrives or `maxTries` attempts were made;
        `crashed` when a negative pause was slept. */
    method TryBatch(slice: seq<WorkUnit>, emails: seq<string>, pause: int, maxLines: int, maxTries: int,
                    respond: nat -> Response, clock: nat -> string,
                    attempts0: seq<Attempt>, pauses0: seq<int>, batches: seq<seq<WorkUnit>>,
                    ghost rows0: Option<seq<Row>>, ghost payloads0: Option<map<string, Payload>>)
      returns (attempts: seq<Attempt>, pauses: seq<int>, crashed: bool)
      requires slice != [] && batches != [] && batches[|batches| - 1] == slice
      requires History(pause, maxTries, maxLines, emails, respond, attempts0, pauses0, batches)
      requires Closed(attempts0, maxTries) && Covered(attempts0, |batches| - 1, maxTries)
      requires NonNegative(pauses0)
      requires Logs(rows0, payloads0, attempts0, batches, workspace.requestsFile, workspace.payloadsFile)
      modifies workspace
      ensures Tried(pause, maxTries, maxLines, emails, respond, attempts, pauses, batches,
                    rows0, payloads0, workspace.requestsFile, workspace.payloadsFile, crashed)
      ensures Appended(attempts0, pauses0, attempts, pauses, |batches| - 1, maxTries)
      ensures workspace.invalidTasksFile == old(workspace.invalidTasksFile)
    {
      attempts, pauses, crashed := attempts0, pauses0, false;
      var sent := false;
      var c := 0;
      var emailIndex := 0;
      var dynPause := LastPause(pause, pauses);
      TryLoopStart(pause, maxTries, maxLines, emails, respond, attempts0, pauses0, batches,
                   rows0, payloads0, workspace.requestsFile, workspace.payloadsFile);
      while !sent && c < maxTries
        invariant TryInv(pause, maxTries, maxLines, emails, respond, attempts0, pauses0, attempts, pauses, batches,
                         rows0, payloads0, workspace.requestsFile, workspace.payloadsFile, c, sent, emailIndex, dynPause)
        invariant workspace.invalidTasksFile == old(workspace.invalidTasksFile)
        decreases if c <= maxTries then maxTries - c else 0
      {
        var a, newPause, nowSent, nextEmail, cAfter := TryOnce(slice, emails, pause, maxLines, maxTries, respond, clock,
                                                               attempts0, pauses0, attempts, pauses, batches,
                                                               rows0, payloads0, c, emailIndex, dynPause);
        attempts := attempts + [a];
        pauses := pauses + [newPause];
        dynPause := newPause;
        sent := nowSent;
        emailIndex := nextEmail;
        c := cAfter + 1;
        if dynPause < 0 {
          // `sleep` of a negative length raises ValueError outside the `try`
          crashed := true;
          break;
        }
      }
      if !crashed {
        TryInvExit(pause, maxTries, maxLines, emails, respond, attempts0, pauses0, attempts, pauses, batches,
                   rows0, payloads0, workspace.requestsFile, workspace.payloadsFile, c, sent, emailIndex, dynPause);
      }
    }

    /** One turn of the retry loop of `TryBatch`: one attempt, and the loop
        state after it, or the crash when the pause it leads to is
        negative. */
    method TryOnce(slice: seq<WorkUnit>, emails: seq<string>, pause: int, maxLines: int, maxTries: int,
                   respond: nat -> Response, clock: nat -> string,
                   ghost attempts0: seq<Attempt>, ghost pauses0: seq<int>,
                   attempts: seq<Attempt>, pauses: seq<int>, batches: seq<seq<WorkUnit>>,
                   ghost rows0: Option<seq<Row>>, ghost payloads0: Option<map<string, Payload>>,
                   c: nat, emailIndex: nat, dynPause: int)
      returns (a: Attempt, newPause: int, nowSent: bool, nextEmail: nat, cAfter: int)
      requires slice != [] && batches != [] && batches[|batches| - 1] == slice
      requires TryInv(pause, maxTries, maxLines, emails, respond, attempts0, pauses0, attempts, pauses, batches,
                      rows0, payloads0, workspace.requestsFile, workspace.payloadsFile, c, false, emailIndex, dynPause)
      requires c < maxTries
      modifies workspace
      ensures c <= cAfter
      ensures newPause < 0 ==>
        Tried(pause, maxTries, maxLines, emails, respond, attempts + [a], pauses + [newPause], batches,
              rows0, payloads0, workspace.requestsFile, workspace.payloadsFile, true)
        && Appended(attempts0, pauses0, attempts + [a], pauses + [newPause], |batches| - 1, maxTries)
      ensures newPause >= 0 ==>
        TryInv(pause, maxTries, maxLines, emails, respond, attempts0, pauses0, attempts + [a], pauses + [newPause], batches,
               rows0, payloads0, workspace.requestsFile, workspace.payloadsFile, cAfter + 1, nowSent, nextEmail, newPause)
      ensures workspace.invalidTasksFile == old(workspace.invalidTasksFile)
    {
      ghost var rowsBefore, payloadsBefore := workspace.requestsFile, workspace.payloadsFile;
      a, newPause, nowSent, nextEmail, cAfter := SendOnce(slice, |batches| - 1, c, emails, emailIndex,
                                                          dynPause, maxTries, |attempts|, respond, clock);
      TryInvStep(pause, maxTries, maxLines, emails, respond, attempts0, pauses0, attempts, pauses, batches,
                 rows0, payloads0, rowsBefore, payloadsBefore, c, false, emailIndex, dynPause,
                 a, newPause, nowSent, nextEmail, cAfter, workspace.requestsFile, workspace.payloadsFile);
    }

    /** `download`. The queue is built from the workspace files; `meta` is
        the series catalogue. The outcome is `Fail(IndexError)` when a batch
        cannot be seeded and `Fail(ValueError)` when a negative pause is
        slept; `pauses` are the values passed to `sleep`, in order. */
    method Download(emails: seq<string>, variables: seq<string>, aggCodes: seq<int>, aggSpan: int, toDate: Date,
                    pause: int, maxLines: int, resume: bool, maxTries: int,
                    meta: seq<Series>, respond: nat -> Response, clock: nat -> string)
      returns (outcome: Outcome, batches: seq<seq<WorkUnit>>, attempts: seq<Attempt>, pauses: seq<int>)
      requires aggSpan > 0 && maxDays > 0
      modifies workspace
      ensures pauses == Pauses(pause, attempts)
      ensures Retries(attempts, maxTries)
      ensures forall k :: 0 <= k < |attempts| ==>
        attempts[k].batch < |batches| && attempts[k].email == EmailUsed(emails)
        && attempts[k].reply == ReplyOf(emails, respond(k))
      ensures forall i :: 0 <= i < |batches| ==> Batch(batches[i], maxLines)
      ensures outcome.Pass? ==>
        multiset(Concat(batches)) == multiset(MakeRequestQueue(meta, variables, aggCodes, aggSpan, fromDate, toDate, maxDays,
                                                               resume, old(workspace.requestsFile), old(workspace.invalidTasksFile)))
      ensures outcome.Fail? ==> outcome.error == IndexError || outcome.error == ValueError
      ensures outcome == Fail(ValueError) <==> |pauses| > 0 && pauses[|pauses| - 1] < 0
      ensures forall k :: 0 <= k < |pauses| - 1 ==> pauses[k] >= 0
      ensures StoredRows(workspace.requestsFile) == StoredRows(old(workspace.requestsFile)) + Logged(attempts, batches)
      ensures StoredPayloads(old(workspace.payloadsFile)).Keys <= StoredPayloads(workspace.payloadsFile).Keys
      ensures forall k :: 0 <= k < |attempts| && Accepted(attempts[k]) ==> TaskOf(attempts[k]) in StoredPayloads(workspace.payloadsFile)
      ensures workspace.invalidTasksFile == old(workspace.invalidTasksFile)
      ensures maxTries > 0 ==> forall i :: 0 <= i < |batches| ==> HasAttempt(attempts, i)
      ensures maxTries <= 0 ==> attempts == []
      ensures outcome != Fail(ValueError) ==> Closed(attempts, maxTries)
      ensures PositivePeriods(MakeRequestQueue(meta, variables, aggCodes, aggSpan, fromDate, toDate, maxDays, resume, old(workspace.requestsFile), old(workspace.invalidTasksFile)))
      ensures var packed := Packs(MakeRequestQueue(meta, variables, aggCodes, aggSpan, fromDate, toDate, maxDays, resume, old(workspace.requestsFile), old(workspace.invalidTasksFile)), maxLines);
        (outcome != Fail(ValueError) ==> batches == packed.0 && outcome == packed.2)
        && (outcome == Fail(ValueError) ==> batches != [] && batches <= packed.0)
        && (outcome == Fail(IndexError) ==> packed.1 != [] && forall j :: 0 <= j < |packed.1| ==> !Fits(packed.1[j], maxLines))
    {
      var q0 := MakeRequestQueue(meta, variables, aggCodes, aggSpan, fromDate, toDate, maxDays,
                                 resume, workspace.requestsFile, workspace.invalidTasksFile);
      MakeRequestQueuePeriods(meta, variables, aggCodes, aggSpan, fromDate, toDate, maxDays,
                              resume, workspace.requestsFile, workspace.invalidTasksFile);
      ghost var rows0, payloads0 := workspace.requestsFile, workspace.payloadsFile;
      outcome, batches, attempts, pauses := SubmitQueue(q0, emails, pause, maxLines, maxTries, respond, clock);
      DownloadExit(pause, maxTries, maxLines, emails, respond, attempts, pauses, batches,
                   rows0, payloads0, workspace.requestsFile, workspace.payloadsFile, outcome, q0);
      DownloadExitPacks(pause, maxTries, maxLines, emails, respond, attempts, pauses, batches,
                        rows0, payloads0, workspace.requestsFile, workspace.payloadsFile, outcome, q0);
      DownloadExitTried(pause, maxTries, maxLines, emails, respond, attempts, pauses, batches,
                        rows0, payloads0, workspace.requestsFile, workspace.payloadsFile, outcome, q0);
    }

    /** One turn of the loop of `download`: pop the next batch and run its
        retry loop. `stop` is the outcome when the run ends here (no unit
        fits, or a negative pause was slept); otherwise the loop state holds
        again over a shorter queue. */
    method SubmitNext(ghost q0: seq<WorkUnit>, queue: WorkQueue, emails: seq<string>, pause: int, maxLines: int,
                      maxTries: int, respond: nat -> Response, clock: nat -> string,
                      batches0: seq<seq<WorkUnit>>, attempts0: seq<Attempt>, pauses0: seq<int>,
                      ghost rows0: Option<seq<Row>>, ghost payloads0: Option<map<string, Payload>>)
      returns (stop: Option<Outcome>, batches: seq<seq<WorkUnit>>, attempts: seq<Attempt>, pauses: seq<int>)
      requires DownloadLoop(pause, maxTries, maxLines, emails, respond, attempts0, pauses0, batches0,
                            rows0, payloads0, workspace.requestsFile, workspace.payloadsFile, queue.items, q0)
      requires |queue.items| > 0
      modifies queue, workspace
      ensures stop.Some? ==>
        Run(pause, maxTries, maxLines, emails, respond, attempts, pauses, batches,
            rows0, payloads0, workspace.requestsFile, workspace.payloadsFile, stop.value, q0)
      ensures stop.None? ==>
        DownloadLoop(pause, maxTries, maxLines, emails, respond, attempts, pauses, batches,
                     rows0, payloads0, workspace.requestsFile, workspace.payloadsFile, queue.items, q0)
        && |queue.items| < |old(queue.items)|
      ensures workspace.invalidTasksFile == old(workspace.invalidTasksFile)
    {
      ghost var before := queue.items;
      var popped := PopNext(queue, maxLines, q0, batches0);
      if popped.Err? {
        RunRaised(pause, maxTries, maxLines, emails, respond, attempts0, pauses0, batches0,
                  rows0, payloads0, workspace.requestsFile, workspace.payloadsFile, before, q0);
        return Some(Fail(popped.error)), batches0, attempts0, pauses0;
      }
      var slice := popped.value;
      DownloadPop(pause, maxTries, maxLines, emails, respond, attempts0, pauses0, batches0,
                  rows0, payloads0, workspace.requestsFile, workspace.payloadsFile, before, q0, slice);
      batches := batches0 + [slice];
      var crashed;
      attempts, pauses, crashed := TryBatch(slice, emails, pause, maxLines, maxTries, respond, clock,
                                            attempts0, pauses0, batches, rows0, payloads0);
      DownloadTried(pause, maxTries, maxLines, emails, respond, attempts, pauses, batches,
                    rows0, payloads0, workspace.requestsFile, workspace.payloadsFile, queue.items, q0, crashed);
      stop := if crashed then Some(Fail(ValueError)) else None;
    }

    /** The loop of `download` over a built queue `q0`: pop the biggest
        slice, try it, until the queue is empty or the run fails. */
    method SubmitQueue(q0: seq<WorkUnit>, emails: seq<string>, pause: int, maxLines: int, maxTries: int,
                       respond: nat -> Response, clock: nat -> string)
      returns (outcome: Outcome, batches: seq<seq<WorkUnit>>, attempts: seq<Attempt>, pauses: seq<int>)
      requires PositivePeriods(q0)
      modifies workspace
      ensures Run(pause, maxTries, maxLines, emails, respond, attempts, pauses, batches,
                  old(workspace.requestsFile), old(workspace.payloadsFile), workspace.requestsFile, workspace.payloadsFile,
                  outcome, q0)
      ensures workspace.invalidTasksFile == old(workspace.invalidTasksFile)
    {
      ghost var rows0, payloads0 := workspace.requestsFile, workspace.payloadsFile;
      var queue := new WorkQueue(q0);
      outcome, batches, attempts, pauses := Pass, [], [], [];
      DownloadStart(pause, maxTries, maxLines, emails, respond, rows0, payloads0, q0);
      while |queue.items| > 0
        invariant DownloadLoop(pause, maxTries, maxLines, emails, respond, attempts, pauses, batches,
                               rows0, payloads0, workspace.requestsFile, workspace.payloadsFile, queue.items, q0)
        invariant workspace.invalidTasksFile == old(workspace.invalidTasksFile)
        decreases |queue.items|
      {
        var stop;
        stop, batches, attempts, pauses := SubmitNext(q0, queue, emails, pause, maxLines, maxTries, respond, clock,
                                                      batches, attempts, pauses, rows0, payloads0);
        if stop.Some? {
          return stop.value, batches, attempts, pauses;
        }
      }
      RunDone(pause, maxTries, maxLines, emails, respond, attempts, pauses, batches,
              rows0, payloads0, workspace.requestsFile, workspace.payloadsFile, queue.items, q0);
    }
  }

  /** `batches` are the first batches `download` pops off `q0`, and
      popping what is left of the queue, `items`, yields the other batches
      of `q0` and stops where popping `q0` stops. */
  ghost predicate Popped(q0: seq<WorkUnit>, maxLines: int, batches: seq<seq<WorkUnit>>, items: seq<WorkUnit>)
  {
    PositivePeriods(q0) && PositivePeriods(items)
    && |batches| <= |Packs(q0, maxLines).0| && batches == Packs(q0, maxLines).0[..|batches|]
    && Packs(items, maxLines).0 == Packs(q0, maxLines).0[|batches|..]
    && Packs(items, maxLines).1 == Packs(q0, maxLines).1
    && Packs(items, maxLines).2 == Packs(q0, maxLines).2
  }

  /** `batches` are all the batches popped off `q0` before IndexError. */
  ghost predicate Stopped(q0: seq<WorkUnit>, maxLines: int, batches: seq<seq<WorkUnit>>)
  {
    PositivePeriods(q0) && batches == Packs(q0, maxLines).0 && Packs(q0, maxLines).2 == Fail(IndexError)
  }

  /** `pop_biggest_slice` as `download` calls it, after `batches` were
      popped off `q0`: it pops the next batch of `Packs(q0)` and leaves a
      shorter queue, or raises IndexError exactly where that popping stops
      on a non-empty queue. */
  method PopNext(queue: WorkQueue, maxLines: int, ghost q0: seq<WorkUnit>, ghost batches: seq<seq<WorkUnit>>)
    returns (popped: Result<seq<WorkUnit>>)
    requires Popped(q0, maxLines, batches, queue.items) && queue.items != []
    modifies queue
    ensures popped.Ok? ==>
      Batch(popped.value, maxLines) && Popped(q0, maxLines, batches + [popped.value], queue.items)
      && |queue.items| < |old(queue.items)|
    ensures popped.Err? ==> popped.error == IndexError && Stopped(q0, maxLines, batches)
  {
    PoppedNext(q0, maxLines, batches, queue.items);
    popped := PopBiggestSlice(queue, maxLines);
  }

  /** Packing what is left after the popped batches yields the next batch
      of `Packs(q0)`, or fails exactly where `Packs(q0)` stops. */
  lemma PoppedNext(q0: seq<WorkUnit>, maxLines: int, batches: seq<seq<WorkUnit>>, items: seq<WorkUnit>)
    requires Popped(q0, maxLines, batches, items) && items != []
    ensures PositivePeriods(items)
    ensures Pack(items, maxLines).Err? ==> Pack(items, maxLines).error == IndexError && Stopped(q0, maxLines, batches)
    ensures Pack(items, maxLines).Ok? ==>
      var p := Pack(items, maxLines).value;
      Batch(p.0, maxLines) && Popped(q0, maxLines, batches + [p.0], p.1) && |p.1| < |items|
  {
    if Pack(items, maxLines).Ok? {
      PoppedGrows(q0, maxLines, batches, items);
    } else {
      PoppedStops(q0, maxLines, batches, items);
    }
  }

  lemma PoppedGrows(q0: seq<WorkUnit>, maxLines: int, batches: seq<seq<WorkUnit>>, items: seq<WorkUnit>)
    requires Popped(q0, maxLines, batches, items) && items != []
    requires PositivePeriods(items) && Pack(items, maxLines).Ok?
    ensures var p := Pack(items, maxLines).value;
      Batch(p.0, maxLines) && Popped(q0, maxLines, batches + [p.0], p.1) && |p.1| < |items|
  {
    var n := |batches|;
    var r := Packs(q0, maxLines);
    var p := Pack(items, maxLines).value;
    PacksStep(items, maxLines);
    DropCons(r.0, n, p.0, Packs(p.1, maxLines).0);
    TakeSnoc(r.0, n);
    PackBatch(items, maxLines);
    assert |batches + [p.0]| == n + 1;
  }

  lemma PoppedStops(q0: seq<WorkUnit>, maxLines: int, batches: seq<seq<WorkUnit>>, items: seq<WorkUnit>)
    requires Popped(q0, maxLines, batches, items) && items != []
    requires PositivePeriods(items) && Pack(items, maxLines).Err?
    ensures Pack(items, maxLines).error == IndexError && Stopped(q0, maxLines, batches)
  {
    PackRaises(items, maxLines);
    TakeAll(Packs(q0, maxLines).0, |batches|);
  }

  /** What a run of `download` over the queue `q0` leaves: the history of
      its attempts, the log of its accepted batches and its outcome. Unless
      a negative pause crashed it, the retry loop of its last batch ran to
      its end. */
  ghost predicate Run(p0: int, maxTries: int, maxLines: int, emails: seq<string>, respond: nat -> Response,
                      attempts: seq<Attempt>, pauses: seq<int>, batches: seq<seq<WorkUnit>>,
                      rows0: Option<seq<Row>>, payloads0: Option<map<string, Payload>>,
                      rows: Option<seq<Row>>, payloads: Option<map<string, Payload>>,
                      outcome: Outcome, q0: seq<WorkUnit>)
  {
    History(p0, maxTries, maxLines, emails, respond, attempts, pauses, batches)
    && Logs(rows0, payloads0, attempts, batches, rows, payloads)
    && (outcome.Pass? ==> multiset(Concat(batches)) == multiset(q0))
    && (outcome.Fail? ==> outcome.error == IndexError || outcome.error == ValueError)
    && (outcome == Fail(ValueError) <==> |pauses| > 0 && pauses[|pauses| - 1] < 0)
    && NonNegative(if outcome == Fail(ValueError) then pauses[..|pauses| - 1] else pauses)
    && Covered(attempts, |batches|, maxTries)
    && (outcome != Fail(ValueError) ==> Closed(attempts, maxTries))
    && PositivePeriods(q0)
    && (outcome != Fail(ValueError) ==> batches == Packs(q0, maxLines).0 && outcome == Packs(q0, maxLines).2)
    && (outcome == Fail(ValueError) ==> batches != [] && batches <= Packs(q0, maxLines).0)
  }

  /** No unit of the queue fits a batch: the run fails with IndexError. */
  lemma RunRaised(p0: int, maxTries: int, maxLines: int, emails: seq<string>, respond: nat -> Response,
                  attempts: seq<Attempt>, pauses: seq<int>, batches: seq<seq<WorkUnit>>,
                  rows0: Option<seq<Row>>, payloads0: Option<map<string, Payload>>,
                  rows: Option<seq<Row>>, payloads: Option<map<string, Payload>>,
                  items: seq<WorkUnit>, q0: seq<WorkUnit>)
    requires DownloadLoop(p0, maxTries, maxLines, emails, respond, attempts, pauses, batches,
                          rows0, payloads0, rows, payloads, items, q0)
    requires Stopped(q0, maxLines, batches)
    ensures Run(p0, maxTries, maxLines, emails, respond, attempts, pauses, batches,
                rows0, payloads0, rows, payloads, Fail(IndexError), q0)
  {
  }

  /** After the retry loop of the newest batch: either the run crashed on a
      negative pause, or the loop state holds again. */
  lemma DownloadTried(p0: int, maxTries: int, maxLines: int, emails: seq<string>, respond: nat -> Response,
                      attempts: seq<Attempt>, pauses: seq<int>, batches: seq<seq<WorkUnit>>,
                      rows0: Option<seq<Row>>, payloads0: Option<map<string, Payload>>,
                      rows: Option<seq<Row>>, payloads: Option<map<string, Payload>>,
                      items: seq<WorkUnit>, q0: seq<WorkUnit>, crashed: bool)
    requires Tried(p0, maxTries, maxLines, emails, respond, attempts, pauses, batches,
                   rows0, payloads0, rows, payloads, crashed)
    requires batches != [] && Popped(q0, maxLines, batches, items)
    ensures crashed ==>
      Run(p0, maxTries, maxLines, emails, respond, attempts, pauses, batches,
          rows0, payloads0, rows, payloads, Fail(ValueError), q0)
    ensures !crashed ==>
      DownloadLoop(p0, maxTries, maxLines, emails, respond, attempts, pauses, batches,
                   rows0, payloads0, rows, payloads, items, q0)
  {
  }

  /** The queue ran empty: every unit was submitted. */
  lemma RunDone(p0: int, maxTries: int, maxLines: int, emails: seq<string>, respond: nat -> Response,
                attempts: seq<Attempt>, pauses: seq<int>, batches: seq<seq<WorkUnit>>,
                rows0: Option<seq<Row>>, payloads0: Option<map<string, Payload>>,
                rows: Option<seq<Row>>, payloads: Option<map<string, Payload>>,
                items: seq<WorkUnit>, q0: seq<WorkUnit>)
    requires DownloadLoop(p0, maxTries, maxLines, emails, respond, attempts, pauses, batches,
                          rows0, payloads0, rows, payloads, items, q0)
    requires |items| == 0
    ensures Run(p0, maxTries, maxLines, emails, respond, attempts, pauses, batches,
                rows0, payloads0, rows, payloads, Pass, q0)
  {
    PacksKeep(q0, maxLines);
    TakeAll(Packs(q0, maxLines).0, |batches|);
  }

  /** The state of `Download` between batches: the units popped so far and
      those still queued are the units of the initial queue. */
  ghost predicate DownloadLoop(p0: int, maxTries: int, maxLines: int, emails: seq<string>, respond: nat -> Response,
                               attempts: seq<Attempt>, pauses: seq<int>, batches: seq<seq<WorkUnit>>,
                               rows0: Option<seq<Row>>, payloads0: Option<map<string, Payload>>,
                               rows: Option<seq<Row>>, payloads: Option<map<string, Payload>>,
                               items: seq<WorkUnit>, q0: seq<WorkUnit>)
  {
    History(p0, maxTries, maxLines, emails, respond, attempts, pauses, batches)
    && Logs(rows0, payloads0, attempts, batches, rows, payloads)
    && Closed(attempts, maxTries)
    && NonNegative(pauses)
    && Covered(attempts, |batches|, maxTries)
    && Popped(q0, maxLines, batches, items)
  }

  /** Before the first batch nothing is popped, tried or logged. */
  lemma DownloadStart(p0: int, maxTries: int, maxLines: int, emails: seq<string>, respond: nat -> Response,
                      rows0: Option<seq<Row>>, payloads0: Option<map<string, Payload>>, q0: seq<WorkUnit>)
    requires PositivePeriods(q0)
    ensures DownloadLoop(p0, maxTries, maxLines, emails, respond, [], [], [], rows0, payloads0, rows0, payloads0, q0, q0)
  {
    TakeNone(Packs(q0, maxLines).0);
  }

  /** A batch popped off the queue: the loop state holds with the batch
      added and the rest of the queue, and its retry loop may start. */
  lemma DownloadPop(p0: int, maxTries: int, maxLines: int, emails: seq<string>, respond: nat -> Response,
                    attempts: seq<Attempt>, pauses: seq<int>, batches: seq<seq<WorkUnit>>,
                    rows0: Option<seq<Row>>, payloads0: Option<map<string, Payload>>,
                    rows: Option<seq<Row>>, payloads: Option<map<string, Payload>>,
                    items: seq<WorkUnit>, q0: seq<WorkUnit>, slice: seq<WorkUnit>)
    requires DownloadLoop(p0, maxTries, maxLines, emails, respond, attempts, pauses, batches,
                          rows0, payloads0, rows, payloads, items, q0)
    requires Batch(slice, maxLines)
    ensures var next := batches + [slice];
      History(p0, maxTries, maxLines, emails, respond, attempts, pauses, next)
      && Logs(rows0, payloads0, attempts, next, rows, payloads)
      && Closed(attempts, maxTries) && Covered(attempts, |next| - 1, maxTries)
      && NonNegative(pauses)
  {
    HistoryNewBatch(p0, maxTries, maxLines, emails, respond, attempts, pauses, batches, slice);
  }

  /** The facts `Download` promises follow from the run's history and log. */
  lemma DownloadExit(p0: int, maxTries: int, maxLines: int, emails: seq<string>, respond: nat -> Response,
                     attempts: seq<Attempt>, pauses: seq<int>, batches: seq<seq<WorkUnit>>,
                     rows0: Option<seq<Row>>, payloads0: Option<map<string, Payload>>,
                     rows: Option<seq<Row>>, payloads: Option<map<string, Payload>>,
                     outcome: Outcome, q0: seq<WorkUnit>)
    requires Run(p0, maxTries, maxLines, emails, respond, attempts, pauses, batches,
                 rows0, payloads0, rows, payloads, outcome, q0)
    ensures pauses == Pauses(p0, attempts)
    ensures Retries(attempts, maxTries)
    ensures forall k :: 0 <= k < |attempts| ==>
      attempts[k].batch < |batches| && attempts[k].email == EmailUsed(emails)
      && attempts[k].reply == ReplyOf(emails, respond(k))
    ensures forall i :: 0 <= i < |batches| ==> Batch(batches[i], maxLines)
    ensures StoredRows(rows) == StoredRows(rows0) + Logged(attempts, batches)
    ensures StoredPayloads(payloads0).Keys <= StoredPayloads(payloads).Keys
    ensures forall k :: 0 <= k < |attempts| && Accepted(attempts[k]) ==> TaskOf(attempts[k]) in StoredPayloads(payloads)
    ensures forall k :: 0 <= k < |pauses| - 1 ==> pauses[k] >= 0
  {
    RetryChainRetries(attempts, maxTries);
    AddressedAll(attempts, |batches|, emails, respond);
    BatchesAll(batches, maxLines);
    TasksAll(attempts);
    if outcome == Fail(ValueError) {
      NonNegativeAll(pauses[..|pauses| - 1]);
    } else {
      NonNegativeAll(pauses);
    }
  }

  /** The batches of a run are those popped off its queue, all of them
      when it did not crash, and it stops on IndexError on a queue none of
      whose units fits. */
  lemma DownloadExitPacks(p0: int, maxTries: int, maxLines: int, emails: seq<string>, respond: nat -> Response,
                     attempts: seq<Attempt>, pauses: seq<int>, batches: seq<seq<WorkUnit>>,
                     rows0: Option<seq<Row>>, payloads0: Option<map<string, Payload>>,
                     rows: Option<seq<Row>>, payloads: Option<map<string, Payload>>,
                     outcome: Outcome, q0: seq<WorkUnit>)
    requires Run(p0, maxTries, maxLines, emails, respond, attempts, pauses, batches,
                 rows0, payloads0, rows, payloads, outcome, q0)
    ensures PositivePeriods(q0)
    ensures outcome != Fail(ValueError) ==> batches == Packs(q0, maxLines).0 && outcome == Packs(q0, maxLines).2
    ensures outcome == Fail(ValueError) ==> batches != [] && batches <= Packs(q0, maxLines).0
    ensures outcome == Fail(IndexError) ==>
      var left := Packs(q0, maxLines).1;
      left != [] && forall j :: 0 <= j < |left| ==> !Fits(left[j], maxLines)
  {
    PacksSpec(q0, maxLines);
  }

  /** Every batch of a run was tried, unless no try is allowed at all. */
  lemma DownloadExitTried(p0: int, maxTries: int, maxLines: int, emails: seq<string>, respond: nat -> Response,
                     attempts: seq<Attempt>, pauses: seq<int>, batches: seq<seq<WorkUnit>>,
                     rows0: Option<seq<Row>>, payloads0: Option<map<string, Payload>>,
                     rows: Option<seq<Row>>, payloads: Option<map<string, Payload>>,
                     outcome: Outcome, q0: seq<WorkUnit>)
    requires Run(p0, maxTries, maxLines, emails, respond, attempts, pauses, batches,
                 rows0, payloads0, rows, payloads, outcome, q0)
    ensures maxTries > 0 ==> forall i :: 0 <= i < |batches| ==> HasAttempt(attempts, i)
    ensures maxTries <= 0 ==> attempts == []
  {
    if maxTries > 0 {
      EveryBatchTried(attempts, |batches|, maxTries);
    }
  }

  /** The state of the retry loop of the last of `nBatches` batches: before
      its first attempt the previous batch is closed; afterwards the last
      attempt belongs to it, `sent` says whether it was accepted, and `c`
      is one past its counter (or `max_tries + 1` after a 403). */
  predicate TryState(attempts: seq<Attempt>, c: int, sent: bool, nBatches: nat, maxTries: int)
  {
    0 <= c
    && (c == 0 ==> !sent && Closed(attempts, maxTries) && Covered(attempts, nBatches - 1, maxTries))
    && (c > 0 ==>
          attempts != [] && attempts[|attempts| - 1].batch == nBatches - 1
          && (sent <==> Accepted(attempts[|attempts| - 1]))
          && c == (if Forbidden(attempts[|attempts| - 1]) then maxTries + 1 else attempts[|attempts| - 1].tryIndex + 1))
  }

  /** The attempt made in the retry loop follows the previous one and keeps
      the loop state. */
  lemma TryFollows(attempts: seq<Attempt>, c: int, sent: bool, nBatches: nat, maxTries: int, a: Attempt)
    requires TryState(attempts, c, sent, nBatches, maxTries) && !sent && c < maxTries
    requires a.batch == nBatches - 1 && a.tryIndex == c
    ensures attempts == [] ==> a.tryIndex == 0 && a.batch == 0
    ensures attempts != [] ==> Follows(attempts[|attempts| - 1], a, maxTries)
    ensures TryState(attempts + [a], (if Forbidden(a) then maxTries else c) + 1, Accepted(a), nBatches, maxTries)
  {
  }

  /** What the retry loop of a batch leaves: the run's history and log,
      `crashed` exactly when the last pause is negative (all earlier ones
      are not), and otherwise the batch closed. */
  ghost predicate Tried(p0: int, maxTries: int, maxLines: int, emails: seq<string>, respond: nat -> Response,
                        attempts: seq<Attempt>, pauses: seq<int>, batches: seq<seq<WorkUnit>>,
                        rows0: Option<seq<Row>>, payloads0: Option<map<string, Payload>>,
                        rows: Option<seq<Row>>, payloads: Option<map<string, Payload>>, crashed: bool)
  {
    History(p0, maxTries, maxLines, emails, respond, attempts, pauses, batches)
    && Logs(rows0, payloads0, attempts, batches, rows, payloads)
    && (crashed <==> |pauses| > 0 && pauses[|pauses| - 1] < 0)
    && NonNegative(if crashed then pauses[..|pauses| - 1] else pauses)
    && (!crashed ==> Closed(attempts, maxTries))
    && Covered(attempts, |batches|, maxTries)
  }

  /** The retry loop of batch `batch` only appends: what it started with is
      kept, every new attempt belongs to the batch, and after the first
      attempt (`c > 0`) there is at least one. */
  predicate Extended(attempts0: seq<Attempt>, pauses0: seq<int>, attempts: seq<Attempt>, pauses: seq<int>,
                     batch: int, c: int)
  {
    |attempts0| <= |attempts| && attempts[..|attempts0|] == attempts0
    && |pauses0| <= |pauses| && pauses[..|pauses0|] == pauses0
    && (forall k :: |attempts0| <= k < |attempts| ==> attempts[k].batch == batch)
    && (c <= 0 ==> attempts == attempts0)
    && (c > 0 ==> |attempts| > |attempts0|)
  }

  lemma ExtendedStep(attempts0: seq<Attempt>, pauses0: seq<int>, attempts: seq<Attempt>, pauses: seq<int>,
                     batch: int, c: int, a: Attempt, p: int, c': int)
    requires Extended(attempts0, pauses0, attempts, pauses, batch, c)
    requires a.batch == batch && c' > 0
    ensures Extended(attempts0, pauses0, attempts + [a], pauses + [p], batch, c')
  {
    assert (attempts + [a])[..|attempts0|] == attempts[..|attempts0|];
    assert (pauses + [p])[..|pauses0|] == pauses[..|pauses0|];
  }

  /** What the retry loop of batch `batch` leaves: the attempts and pauses
      it started with, followed by attempts of the batch only, at least one
      when `max_tries` is positive. */
  predicate Appended(attempts0: seq<Attempt>, pauses0: seq<int>, attempts: seq<Attempt>, pauses: seq<int>,
                     batch: int, maxTries: int)
  {
    |attempts0| <= |attempts| && attempts[..|attempts0|] == attempts0
    && |pauses0| <= |pauses| && pauses[..|pauses0|] == pauses0
    && (forall k :: |attempts0| <= k < |attempts| ==> attempts[k].batch == batch)
    && (maxTries > 0 ==> |attempts| > |attempts0|)
  }

  /** Once the retry loop has run (or cannot run), it has appended. */
  lemma ExtendedAppended(attempts0: seq<Attempt>, pauses0: seq<int>, attempts: seq<Attempt>, pauses: seq<int>,
                         batch: int, c: int, maxTries: int)
    requires Extended(attempts0, pauses0, attempts, pauses, batch, c) && (c > 0 || maxTries <= 0)
    ensures Appended(attempts0, pauses0, attempts, pauses, batch, maxTries)
  {
  }

  /** The state of `TryBatch` between attempts. */
  ghost predicate TryLoop(p0: int, maxTries: int, maxLines: int, emails: seq<string>, respond: nat -> Response,
                          attempts: seq<Attempt>, pauses: seq<int>, batches: seq<seq<WorkUnit>>,
                          rows0: Option<seq<Row>>, payloads0: Option<map<string, Payload>>,
                          rows: Option<seq<Row>>, payloads: Option<map<string, Payload>>,
                          c: int, sent: bool, emailIndex: nat, dynPause: int)
  {
    History(p0, maxTries, maxLines, emails, respond, attempts, pauses, batches)
    && Logs(rows0, payloads0, attempts, batches, rows, payloads)
    && TryState(attempts, c, sent, |batches|, maxTries)
    && (!sent ==> emailIndex == 0)
    && dynPause == LastPause(p0, pauses)
    && NonNegative(pauses)
  }

  /** The retry loop starts from the closed history of the earlier batches,
      having appended nothing. */
  lemma TryLoopStart(p0: int, maxTries: int, maxLines: int, emails: seq<string>, respond: nat -> Response,
                     attempts0: seq<Attempt>, pauses0: seq<int>, batches: seq<seq<WorkUnit>>,
                     rows0: Option<seq<Row>>, payloads0: Option<map<string, Payload>>,
                     rows: Option<seq<Row>>, payloads: Option<map<string, Payload>>)
    requires History(p0, maxTries, maxLines, emails, respond, attempts0, pauses0, batches)
    requires Closed(attempts0, maxTries) && Covered(attempts0, |batches| - 1, maxTries)
    requires NonNegative(pauses0)
    requires Logs(rows0, payloads0, attempts0, batches, rows, payloads)
    ensures TryInv(p0, maxTries, maxLines, emails, respond, attempts0, pauses0, attempts0, pauses0, batches,
                   rows0, payloads0, rows, payloads, 0, false, 0, LastPause(p0, pauses0))
  {
    assert attempts0[..|attempts0|] == attempts0;
    assert pauses0[..|pauses0|] == pauses0;
  }

  /** The invariant of the retry loop of `TryBatch`: its state, and what
      it appended to the attempts and pauses it started with. */
  ghost predicate TryInv(p0: int, maxTries: int, maxLines: int, emails: seq<string>, respond: nat -> Response,
                         attempts0: seq<Attempt>, pauses0: seq<int>,
                         attempts: seq<Attempt>, pauses: seq<int>, batches: seq<seq<WorkUnit>>,
                         rows0: Option<seq<Row>>, payloads0: Option<map<string, Payload>>,
                         rows: Option<seq<Row>>, payloads: Option<map<string, Payload>>,
                         c: int, sent: bool, emailIndex: nat, dynPause: int)
  {
    TryLoop(p0, maxTries, maxLines, emails, respond, attempts, pauses, batches,
            rows0, payloads0, rows, payloads, c, sent, emailIndex, dynPause)
    && Extended(attempts0, pauses0, attempts, pauses, |batches| - 1, c)
  }

  lemma TryInvStep(p0: int, maxTries: int, maxLines: int, emails: seq<string>, respond: nat -> Response,
                   attempts0: seq<Attempt>, pauses0: seq<int>,
                   attempts: seq<Attempt>, pauses: seq<int>, batches: seq<seq<WorkUnit>>,
                   rows0: Option<seq<Row>>, payloads0: Option<map<string, Payload>>,
                   rowsBefore: Option<seq<Row>>, payloadsBefore: Option<map<string, Payload>>,
                   c: int, sent: bool, emailIndex: nat, dynPause: int,
                   a: Attempt, newPause: int, nowSent: bool, nextEmail: nat, cAfter: int,
                   rows: Option<seq<Row>>, payloads: Option<map<string, Payload>>)
    requires TryInv(p0, maxTries, maxLines, emails, respond, attempts0, pauses0, attempts, pauses, batches,
                    rows0, payloads0, rowsBefore, payloadsBefore, c, sent, emailIndex, dynPause)
    requires !sent && c < maxTries && batches != []
    requires a == Attempt(|batches| - 1, c, if emailIndex < |emails| then Some(emails[emailIndex]) else None,
                          if emailIndex < |emails| then Some(respond(|attempts|)) else None)
    requires newPause == PauseAfter(dynPause, a) && nowSent == Accepted(a)
    requires cAfter == if Forbidden(a) then maxTries else c
    requires nowSent || nextEmail == emailIndex
    requires nowSent ==> rows == Some(StoredRows(rowsBefore) + Tagged(batches[|batches| - 1], TaskOf(a)))
    requires nowSent ==> TaskOf(a) in StoredPayloads(payloads) && StoredPayloads(payloadsBefore).Keys <= StoredPayloads(payloads).Keys
    requires !nowSent ==> rows == rowsBefore && payloads == payloadsBefore
    ensures newPause < 0 ==>
      Tried(p0, maxTries, maxLines, emails, respond, attempts + [a], pauses + [newPause], batches,
            rows0, payloads0, rows, payloads, true)
      && Appended(attempts0, pauses0, attempts + [a], pauses + [newPause], |batches| - 1, maxTries)
    ensures newPause >= 0 ==>
      TryInv(p0, maxTries, maxLines, emails, respond, attempts0, pauses0, attempts + [a], pauses + [newPause], batches,
             rows0, payloads0, rows, payloads, cAfter + 1, nowSent, nextEmail, newPause)
  {
    TryLoopStep(p0, maxTries, maxLines, emails, respond, attempts, pauses, batches,
                rows0, payloads0, rowsBefore, payloadsBefore, c, sent, emailIndex, dynPause,
                a, newPause, nowSent, nextEmail, cAfter, rows, payloads);
    ExtendedStep(attempts0, pauses0, attempts, pauses, |batches| - 1, c, a, newPause, cAfter + 1);
    ExtendedAppended(attempts0, pauses0, attempts + [a], pauses + [newPause], |batches| - 1, cAfter + 1, maxTries);
  }

  lemma TryInvExit(p0: int, maxTries: int, maxLines: int, emails: seq<string>, respond: nat -> Response,
                   attempts0: seq<Attempt>, pauses0: seq<int>,
                   attempts: seq<Attempt>, pauses: seq<int>, batches: seq<seq<WorkUnit>>,
                   rows0: Option<seq<Row>>, payloads0: Option<map<string, Payload>>,
                   rows: Option<seq<Row>>, payloads: Option<map<string, Payload>>,
                   c: int, sent: bool, emailIndex: nat, dynPause: int)
    requires TryInv(p0, maxTries, maxLines, emails, respond, attempts0, pauses0, attempts, pauses, batches,
                    rows0, payloads0, rows, payloads, c, sent, emailIndex, dynPause)
    requires sent || c >= maxTries
    ensures Tried(p0, maxTries, maxLines, emails, respond, attempts, pauses, batches,
                  rows0, payloads0, rows, payloads, false)
    ensures Appended(attempts0, pauses0, attempts, pauses, |batches| - 1, maxTries)
  {
    TryLoopExit(p0, maxTries, maxLines, emails, respond, attempts, pauses, batches,
                rows0, payloads0, rows, payloads, c, sent, emailIndex, dynPause);
    ExtendedAppended(attempts0, pauses0, attempts, pauses, |batches| - 1, c, maxTries);
  }

  /** One attempt of the retry loop, with the effects `SendOnce` promises. */
  lemma TryLoopStep(p0: int, maxTries: int, maxLines: int, emails: seq<string>, respond: nat -> Response,
                    attempts: seq<Attempt>, pauses: seq<int>, batches: seq<seq<WorkUnit>>,
                    rows0: Option<seq<Row>>, payloads0: Option<map<string, Payload>>,
                    rowsBefore: Option<seq<Row>>, payloadsBefore: Option<map<string, Payload>>,
                    c: int, sent: bool, emailIndex: nat, dynPause: int,
                    a: Attempt, newPause: int, nowSent: bool, nextEmail: nat, cAfter: int,
                    rows: Option<seq<Row>>, payloads: Option<map<string, Payload>>)
    requires TryLoop(p0, maxTries, maxLines, emails, respond, attempts, pauses, batches,
                     rows0, payloads0, rowsBefore, payloadsBefore, c, sent, emailIndex, dynPause)
    requires !sent && c < maxTries && batches != []
    requires a == Attempt(|batches| - 1, c, if emailIndex < |emails| then Some(emails[emailIndex]) else None,
                          if emailIndex < |emails| then Some(respond(|attempts|)) else None)
    requires newPause == PauseAfter(dynPause, a) && nowSent == Accepted(a)
    requires cAfter == if Forbidden(a) then maxTries else c
    requires nowSent || nextEmail == emailIndex
    requires nowSent ==> rows == Some(StoredRows(rowsBefore) + Tagged(batches[|batches| - 1], TaskOf(a)))
    requires nowSent ==> TaskOf(a) in StoredPayloads(payloads) && StoredPayloads(payloadsBefore).Keys <= StoredPayloads(payloads).Keys
    requires !nowSent ==> rows == rowsBefore && payloads == payloadsBefore
    ensures newPause < 0 ==>
      Tried(p0, maxTries, maxLines, emails, respond, attempts + [a], pauses + [newPause], batches,
            rows0, payloads0, rows, payloads, true)
    ensures newPause >= 0 ==>
      TryLoop(p0, maxTries, maxLines, emails, respond, attempts + [a], pauses + [newPause], batches,
              rows0, payloads0, rows, payloads, cAfter + 1, nowSent, nextEmail, newPause)
  {
    TryFollows(attempts, c, sent, |batches|, maxTries, a);
    HistoryStep(p0, maxTries, maxLines, emails, respond, attempts, pauses, batches, a);
    LogsStep(rows0, payloads0, attempts, batches, a, rowsBefore, payloadsBefore, rows, payloads);
  }

  /** When the retry loop stops, the batch is closed and no pause was
      negative. */
  lemma TryLoopExit(p0: int, maxTries: int, maxLines: int, emails: seq<string>, respond: nat -> Response,
                    attempts: seq<Attempt>, pauses: seq<int>, batches: seq<seq<WorkUnit>>,
                    rows0: Option<seq<Row>>, payloads0: Option<map<string, Payload>>,
                    rows: Option<seq<Row>>, payloads: Option<map<string, Payload>>,
                    c: int, sent: bool, emailIndex: nat, dynPause: int)
    requires TryLoop(p0, maxTries, maxLines, emails, respond, attempts, pauses, batches,
                     rows0, payloads0, rows, payloads, c, sent, emailIndex, dynPause)
    requires sent || c >= maxTries
    ensures Tried(p0, maxTries, maxLines, emails, respond, attempts, pauses, batches,
                  rows0, payloads0, rows, payloads, false)
    ensures c > 0 || maxTries <= 0
  {
  }

  /** After a run, a resumed queue skips every unit of an accepted batch
      unless its task is flagged invalid, whatever rows the file held
      before the run. */
  lemma ResumeSkipsLogged(meta: seq<Series>, variables: seq<string>, aggCodes: seq<int>, aggSpan: int,
                          fromDate: Date, toDate: Date, maxDays: int,
                          requestsFile: Option<seq<Row>>, invalidFile: Option<string>,
                          rows0: seq<Row>, attempts: seq<Attempt>, batches: seq<seq<WorkUnit>>, k: nat, u: WorkUnit)
    requires aggSpan > 0 && maxDays > 0
    requires StoredRows(requestsFile) == rows0 + Logged(attempts, batches)
    requires k < |attempts| && Accepted(attempts[k]) && attempts[k].batch < |batches|
    requires u in batches[attempts[k].batch] && TaskOf(attempts[k]) !in ReadInvalidTasks(invalidFile)
    ensures u !in MakeRequestQueue(meta, variables, aggCodes, aggSpan, fromDate, toDate, maxDays, true, requestsFile, invalidFile)
  {
    LoggedContains(attempts, batches, k, u);
    var rows := StoredRows(requestsFile);
    var logged := Logged(attempts, batches);
    var j :| 0 <= j < |logged| && logged[j] == Row(u, TaskOf(attempts[k]));
    assert rows[|rows0| + j] == Row(u, TaskOf(attempts[k]));
    assert AlreadySent(u, rows, ReadInvalidTasks(invalidFile));
    MakeRequestQueueSpec(meta, variables, aggCodes, aggSpan, fromDate, toDate, maxDays, true, requestsFile, invalidFile);
  }

  /** An accepted attempt logs a row for each unit of its batch. */
  lemma {:induction false} LoggedContains(attempts: seq<Attempt>, batches: seq<seq<WorkUnit>>, k: nat, u: WorkUnit)
    requires k < |attempts| && Accepted(attempts[k]) && attempts[k].batch < |batches|
    requires u in batches[attempts[k].batch]
    ensures Row(u, TaskOf(attempts[k])) in Logged(attempts, batches)
  {
    var init := attempts[..|attempts| - 1];
    if k < |attempts| - 1 {
      assert init[k] == attempts[k];
      LoggedContains(init, batches, k, u);
    } else {
      var b := batches[attempts[k].batch];
      var j :| 0 <= j < |b| && b[j] == u;
      assert Tagged(b, TaskOf(attempts[k]))[j] == Row(u, TaskOf(attempts[k]));
    }
  }
}
