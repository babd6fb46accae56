/** The resume log (lib/write.py): the sent-requests table `requests.csv`,
    one row per station of each accepted batch tagged with the task id, and
    the payload map `payloads.json` keyed by task id. Files are in-memory
    values; `None` stands for a file that does not exist. */
module Write {
  import opened Units
  import opened Requests

  /** The two files the log writes. */
  datatype FileName = RequestsCsv | PayloadsJson

  /** The rows of the requests file; a missing file has none. */
  function StoredRows(file: Option<seq<Row>>): seq<Row>
  {
    if file.None? then [] else file.value
  }

  /** The map of the payloads file; a missing file is empty. */
  function StoredPayloads(file: Option<map<string, Payload>>): map<string, Payload>
  {
    if file.None? then map[] else file.value
  }

  /** The rows `register_task_content` appends: one per station, in order. */
  function Tagged(stations: seq<WorkUnit>, taskId: string): (r: seq<Row>)
  {
    seq(|stations|, i requires 0 <= i < |stations| => Row(stations[i], taskId))
  }

  /** The work units of a sequence of rows (dropping the task id column). */
  function Untag(rows: seq<Row>): (r: seq<WorkUnit>)
  {
    seq(|rows|, i requires 0 <= i < |rows| => rows[i].unit)
  }

  /** Tagging keeps every station and its order, and every row carries the
      task id. */
  lemma TaggedSpec(stations: seq<WorkUnit>, taskId: string)
    ensures Untag(Tagged(stations, taskId)) == stations
    ensures forall r :: r in Tagged(stations, taskId) ==> r.taskId == taskId && r.unit in stations
  {
  }

  lemma UntagAppend(a: seq<Row>, b: seq<Row>)
    ensures Untag(a + b) == Untag(a) + Untag(b)
  {
  }

  /** The Python list `register_request_task` appends to in place. */
  class RowList {
    var rows: seq<Row>

    constructor (rows: seq<Row>)
      ensures this.rows == rows
    {
      this.rows := rows;
    }

    /** `register_request_task`: `station | {"task_id": task_id}` appended. */
    method RegisterRequestTask(station: WorkUnit, taskId: string)
      modifies this
      ensures rows == old(rows) + [Row(station, taskId)]
    {
      rows := rows + [Row(station, taskId)];
    }
  }

  /** A payload dict handed over by the caller; `register_task_payload`
      stores this very dict and stamps it. */
  class PayloadDict {
    var fields: Payload

    constructor (fields: Payload)
      ensures this.fields == fields
    {
      this.fields := fields;
    }
  }

  /** The workspace directory: the two log files and the file of task ids
      flagged invalid, plus the order in which files were written. */
  class Workspace {
    var requestsFile: Option<seq<Row>>
    var payloadsFile: Option<map<string, Payload>>
    var invalidTasksFile: Option<string>
    var writes: seq<FileName>

    constructor (requestsFile: Option<seq<Row>>, payloadsFile: Option<map<string, Payload>>, invalidTasksFile: Option<string>)
      ensures this.requestsFile == requestsFile && this.payloadsFile == payloadsFile
      ensures this.invalidTasksFile == invalidTasksFile && writes == []
    {
      this.requestsFile := requestsFile;
      this.payloadsFile := payloadsFile;
      this.invalidTasksFile := invalidTasksFile;
      writes := [];
    }

    /** `register_task_content`: the existing rows (none when the file is
        missing) followed by one tagged row per station, written back. */
    method RegisterTaskContent(taskId: string, stations: seq<WorkUnit>)
      modifies this
      ensures requestsFile == Some(StoredRows(old(requestsFile)) + Tagged(stations, taskId))
      ensures payloadsFile == old(payloadsFile) && invalidTasksFile == old(invalidTasksFile)
      ensures writes == old(writes) + [RequestsCsv]
    {
      var data := new RowList(StoredRows(requestsFile));
      for i := 0 to |stations|
        invariant data.rows == StoredRows(old(requestsFile)) + Tagged(stations[..i], taskId)
        modifies data
      {
        data.RegisterRequestTask(stations[i], taskId);
        assert Tagged(stations[..i + 1], taskId) == Tagged(stations[..i], taskId) + [Row(stations[i], taskId)];
      }
      assert stations[..|stations|] == stations;
      requestsFile := Some(data.rows);
      writes := writes + [RequestsCsv];
    }

    /** `register_task_payload`: the caller's dict is stored under `taskId`,
        replacing any earlier entry, and stamped with `request_time` (the
        clock reading `now`), which the caller sees too. */
    method RegisterTaskPayload(taskId: string, payload: PayloadDict, now: string)
      modifies this, payload
      ensures payload.fields == old(payload.fields).(requestTime := Some(now))
      ensures payloadsFile == Some(StoredPayloads(old(payloadsFile))[taskId := payload.fields])
      ensures requestsFile == old(requestsFile) && invalidTasksFile == old(invalidTasksFile)
      ensures writes == old(writes) + [PayloadsJson]
    {
      var data := StoredPayloads(payloadsFile);
      payload.fields := payload.fields.(requestTime := Some(now));
      data := data[taskId := payload.fields];
      payloadsFile := Some(data);
      writes := writes + [PayloadsJson];
    }

    /** `register_task`: the rows first, then the payload. */
    method RegisterTask(taskId: string, stations: seq<WorkUnit>, payload: PayloadDict, now: string)
      modifies this, payload
      ensures requestsFile == Some(StoredRows(old(requestsFile)) + Tagged(stations, taskId))
      ensures payload.fields == old(payload.fields).(requestTime := Some(now))
      ensures payloadsFile == Some(StoredPayloads(old(payloadsFile))[taskId := payload.fields])
      ensures invalidTasksFile == old(invalidTasksFile)
      ensures writes == old(writes) + [RequestsCsv, PayloadsJson]
    {
      RegisterTaskContent(taskId, stations);
      RegisterTaskPayload(taskId, payload, now);
    }
  }

  /** Storing under `taskId` keeps every other entry and adds no other key. */
  lemma StorePayloadSpec(file: Option<map<string, Payload>>, taskId: string, p: Payload)
    ensures var m := StoredPayloads(file)[taskId := p];
      m.Keys == StoredPayloads(file).Keys + {taskId} && m[taskId] == p
      && (forall k :: k in StoredPayloads(file) && k != taskId ==> m[k] == StoredPayloads(file)[k])
  {
  }

  /** Logging a batch keeps the earlier rows as a prefix, and the rows after
      it are the batch's units, in order. */
  lemma ContentSpec(file: Option<seq<Row>>, stations: seq<WorkUnit>, taskId: string)
    ensures var rows := StoredRows(file) + Tagged(stations, taskId);
      rows[..|StoredRows(file)|] == StoredRows(file)
      && Untag(rows[|StoredRows(file)|..]) == stations
      && (forall i :: |StoredRows(file)| <= i < |rows| ==> rows[i].taskId == taskId)
  {
    var rows := StoredRows(file) + Tagged(stations, taskId);
    assert rows[|StoredRows(file)|..] == Tagged(stations, taskId);
    TaggedSpec(stations, taskId);
  }
}
