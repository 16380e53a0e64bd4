/** The run history (utils/history_db.py): a SQLite file with three tables,
    the sync state per configuration hash, the task runs, and the log lines
    of each run, plus the logging handler that writes a run's log lines. */
module History {
  import opened Base

  /** A `SyncState` row; `task_hash` is unique. */
  datatype SyncState = SyncState(id: nat, taskName: string, taskHash: string, lastSyncDate: Option<int>)

  /** A `TaskRun` row. */
  datatype TaskRun = TaskRun(id: nat, taskName: string, taskHash: string, lastSyncDate: Option<int>,
                             startedAt: int, finishedAt: Option<int>, status: string)

  /** A `TaskLog` row; `run` refers to a `TaskRun` id. */
  datatype TaskLog = TaskLog(id: nat, run: nat, createdAt: int, level: string, message: string)

  /** One element of what `get_logs` returns. */
  datatype LogLine = LogLine(createdAt: int, level: string, message: string)

  // ---------------------------------------------------------------------------
  // The sync-state table

  /** No two rows carry the same hash: the column's unique constraint. */
  ghost predicate UniqueHashes(states: seq<SyncState>) {
    forall i, j :: 0 <= i < j < |states| ==> states[i].taskHash != states[j].taskHash
  }

  /** The position of the row for hash `h`, if there is one. */
  function StateIndex(states: seq<SyncState>, h: string): (r: Option<nat>)
    ensures r.None? <==> forall i :: 0 <= i < |states| ==> states[i].taskHash != h
    ensures r.Some? ==> r.value < |states| && states[r.value].taskHash == h
  {
    if states == [] then None
    else if states[0].taskHash == h then Some(0)
    else match StateIndex(states[1..], h)
      case None => None
      case Some(i) => Some(i + 1)
  }

  /** `get_last_sync_date`: the row's date, None when there is no row. */
  function StoredDate(states: seq<SyncState>, h: string): Option<int> {
    match StateIndex(states, h)
    case None => None
    case Some(i) => states[i].lastSyncDate
  }

  /** `save_sync_date`: `INSERT … ON CONFLICT(task_hash) DO UPDATE`. The row
      with the hash takes the new name and date and keeps its id; without one
      a row with id `newId` is added. */
  function Upsert(states: seq<SyncState>, name: string, h: string, date: int, newId: nat): seq<SyncState> {
    if states == [] then [SyncState(newId, name, h, Some(date))]
    else if states[0].taskHash == h then [states[0].(taskName := name, lastSyncDate := Some(date))] + states[1..]
    else [states[0]] + Upsert(states[1..], name, h, date, newId)
  }

  /** After an upsert the hash reads back the saved date, and every other
      hash reads back what it did before. */
  lemma {:induction false} UpsertLookup(states: seq<SyncState>, name: string, h: string, date: int, newId: nat, x: string)
    ensures StoredDate(Upsert(states, name, h, date, newId), x)
         == if x == h then Some(date) else StoredDate(states, x)
  {
    if states != [] && states[0].taskHash != h {
      UpsertLookup(states[1..], name, h, date, newId, x);
      var r := Upsert(states, name, h, date, newId);
      assert r[1..] == Upsert(states[1..], name, h, date, newId);
    } else if states != [] {
      var r := Upsert(states, name, h, date, newId);
      assert r[1..] == states[1..];
    }
  }

  /** An upsert adds a row exactly when the hash had none, changes only the
      name and date of the row that had it, and keeps the hashes unique. */
  lemma {:induction false} UpsertShape(states: seq<SyncState>, name: string, h: string, date: int, newId: nat)
    ensures var r := Upsert(states, name, h, date, newId);
      && (StateIndex(states, h).None? ==> r == states + [SyncState(newId, name, h, Some(date))])
      && (StateIndex(states, h).Some? ==>
            (|r| == |states|
             && forall i :: 0 <= i < |states| ==>
                  r[i] == if i == StateIndex(states, h).value
                          then states[i].(taskName := name, lastSyncDate := Some(date)) else states[i]))
    ensures UniqueHashes(states) ==> UniqueHashes(Upsert(states, name, h, date, newId))
  {
    var r := Upsert(states, name, h, date, newId);
    if StateIndex(states, h).None? {
      UpsertAppends(states, name, h, date, newId);
    } else {
      UpsertReplaces(states, name, h, date, newId);
      assert forall i :: 0 <= i < |r| ==> r[i].taskHash == states[i].taskHash;
    }
  }

  lemma {:induction false} UpsertAppends(states: seq<SyncState>, name: string, h: string, date: int, newId: nat)
    requires StateIndex(states, h).None?
    ensures Upsert(states, name, h, date, newId) == states + [SyncState(newId, name, h, Some(date))]
  {
    if states != [] {
      UpsertAppends(states[1..], name, h, date, newId);
      assert states == [states[0]] + states[1..];
    }
  }

  lemma {:induction false} UpsertReplaces(states: seq<SyncState>, name: string, h: string, date: int, newId: nat)
    requires StateIndex(states, h).Some?
    ensures var r := Upsert(states, name, h, date, newId);
      |r| == |states|
      && forall i :: 0 <= i < |states| ==>
           r[i] == if i == StateIndex(states, h).value
                   then states[i].(taskName := name, lastSyncDate := Some(date)) else states[i]
  {
    if states[0].taskHash != h {
      UpsertReplaces(states[1..], name, h, date, newId);
      var r := Upsert(states, name, h, date, newId);
      assert r == [states[0]] + Upsert(states[1..], name, h, date, newId);
    }
  }

  // ---------------------------------------------------------------------------
  // The log table

  /** Ids grow along the table: the order of rows is the order of ids. */
  ghost predicate Ascending(logs: seq<TaskLog>) {
    forall i, j :: 0 <= i < j < |logs| ==> logs[i].id < logs[j].id
  }

  /** The rows of run `run`, in table order. */
  function OfRun(logs: seq<TaskLog>, run: nat): (r: seq<TaskLog>)
    ensures forall l :: l in r <==> l in logs && l.run == run
    ensures Ascending(logs) ==> Ascending(r)
  {
    if logs == [] then []
    else if logs[0].run == run then [logs[0]] + OfRun(logs[1..], run)
    else OfRun(logs[1..], run)
  }

  /** A row of the log table as `get_logs` presents it. */
  function Line(l: TaskLog): LogLine {
    LogLine(l.createdAt, l.level, l.message)
  }

  /** `get_logs`: the lines of run `run`, in ascending id order. */
  function RunLog(logs: seq<TaskLog>, run: nat): (r: seq<LogLine>)
    ensures |r| == |OfRun(logs, run)|
    ensures forall i :: 0 <= i < |r| ==> r[i] == Line(OfRun(logs, run)[i])
  {
    seq(|OfRun(logs, run)|, i requires 0 <= i < |OfRun(logs, run)| => Line(OfRun(logs, run)[i]))
  }

  /** A new row shows up at the end of its own run's lines and nowhere else. */
  lemma {:induction false} OfRunAppend(logs: seq<TaskLog>, l: TaskLog, run: nat)
    ensures OfRun(logs + [l], run) == OfRun(logs, run) + (if l.run == run then [l] else [])
  {
    if logs != [] {
      assert (logs + [l])[1..] == logs[1..] + [l];
      OfRunAppend(logs[1..], l, run);
    }
  }

  // ---------------------------------------------------------------------------
  // The database

  /** `TaskHistoryDB`. Ids are handed out as SQLite does for rowid keys in
      tables that are never deleted from: one more than the largest so far. */
  class TaskHistoryDB {
    var states: seq<SyncState>
    var runs: seq<TaskRun>
    var logs: seq<TaskLog>
    var nextStateId: nat
    var nextRunId: nat
    var nextLogId: nat

    ghost predicate Valid()
      reads this
    {
      && UniqueHashes(states)
      && (forall i :: 0 <= i < |runs| ==> runs[i].id < nextRunId)
      && (forall i, j :: 0 <= i < j < |runs| ==> runs[i].id < runs[j].id)
      && (forall i :: 0 <= i < |logs| ==> logs[i].id < nextLogId)
      && Ascending(logs)
    }

    /** Opening a new file: the three tables are created empty. */
    constructor ()
      ensures Valid()
      ensures states == [] && runs == [] && logs == []
    {
      states := [];
      runs := [];
      logs := [];
      nextStateId := 1;
      nextRunId := 1;
      nextLogId := 1;
    }

    /** `get_last_sync_date` */
    function GetLastSyncDate(h: string): Option<int>
      reads this
    {
      StoredDate(states, h)
    }

    /** `save_sync_date` */
    method SaveSyncDate(name: string, h: string, date: int)
      requires Valid()
      modifies this
      ensures Valid()
      ensures states == Upsert(old(states), name, h, date, old(nextStateId))
      ensures runs == old(runs) && logs == old(logs)
      ensures GetLastSyncDate(h) == Some(date)
      ensures forall x :: x != h ==> GetLastSyncDate(x) == old(GetLastSyncDate(x))
    {
      UpsertShape(states, name, h, date, nextStateId);
      forall x {
        UpsertLookup(states, name, h, date, nextStateId, x);
      }
      var i := 0;
      while i < |states|
        invariant 0 <= i <= |states|
        invariant forall j :: 0 <= j < i ==> states[j].taskHash != h
      {
        if states[i].taskHash == h {
          assert StateIndex(states, h) == Some(i) by {
            var k := StateIndex(states, h).value;
            assert k == i;
          }
          states := states[i := states[i].(taskName := name, lastSyncDate := Some(date))];
          return;
        }
        i := i + 1;
      }
      states := states + [SyncState(nextStateId, name, h, Some(date))];
      nextStateId := nextStateId + 1;
    }

    /** `start_run`: a new run in state "running", not finished, under an
        id no earlier run has. */
    method StartRun(name: string, h: string, lastSyncDate: Option<int>, startedAt: int) returns (id: nat)
      requires Valid()
      modifies this
      ensures Valid()
      ensures runs == old(runs) + [TaskRun(id, name, h, lastSyncDate, startedAt, None, "running")]
      ensures forall i :: 0 <= i < |old(runs)| ==> old(runs)[i].id != id
      ensures states == old(states) && logs == old(logs)
    {
      id := nextRunId;
      runs := runs + [TaskRun(id, name, h, lastSyncDate, startedAt, None, "running")];
      nextRunId := nextRunId + 1;
    }

    /** `finish_run`: the run with this id gets the status and finish time;
        nothing else changes. */
    method FinishRun(runId: nat, status: string, finishedAt: int)
      requires Valid()
      modifies this
      ensures Valid()
      ensures |runs| == |old(runs)|
      ensures forall i :: 0 <= i < |runs| ==>
        runs[i] == if old(runs)[i].id == runId then old(runs)[i].(finishedAt := Some(finishedAt), status := status)
                   else old(runs)[i]
      ensures states == old(states) && logs == old(logs)
    {
      var i := 0;
      while i < |runs|
        invariant 0 <= i <= |runs| && |runs| == |old(runs)|
        invariant forall j :: 0 <= j < i ==>
          runs[j] == if old(runs)[j].id == runId then old(runs)[j].(finishedAt := Some(finishedAt), status := status)
                     else old(runs)[j]
        invariant forall j :: i <= j < |runs| ==> runs[j] == old(runs)[j]
        invariant states == old(states) && logs == old(logs) && nextRunId == old(nextRunId)
        invariant nextLogId == old(nextLogId)
      {
        if runs[i].id == runId {
          runs := runs[i := runs[i].(finishedAt := Some(finishedAt), status := status)];
        }
        i := i + 1;
      }
    }

    /** `insert_log` */
    method InsertLog(runId: nat, level: string, message: string, createdAt: int)
      requires Valid()
      modifies this
      ensures Valid()
      ensures logs == old(logs) + [TaskLog(old(nextLogId), runId, createdAt, level, message)]
      ensures states == old(states) && runs == old(runs)
    {
      logs := logs + [TaskLog(nextLogId, runId, createdAt, level, message)];
      nextLogId := nextLogId + 1;
    }

    /** `get_logs`: a scan of the log table keeping the run's rows. */
    method GetLogs(runId: nat) returns (lines: seq<LogLine>)
      ensures lines == RunLog(logs, runId)
    {
      var rows := logs;
      lines := [];
      var i := 0;
      while i < |rows|
        invariant 0 <= i <= |rows|
        invariant lines == RunLog(rows[..i], runId)
      {
        RunLogStep(rows, i, runId);
        if rows[i].run == runId {
          lines := lines + [Line(rows[i])];
        }
        i := i + 1;
      }
      assert rows[..i] == rows;
    }
  }

  /** Inserting a log line adds it at the end of its run's `get_logs` and
      leaves every other run's lines as they were. */
  lemma {:induction false} InsertLogThenGetLogs(logs: seq<TaskLog>, l: TaskLog, run: nat)
    ensures RunLog(logs + [l], run) == RunLog(logs, run) + (if l.run == run then [Line(l)] else [])
  {
    OfRunAppend(logs, l, run);
  }

  lemma {:induction false} RunLogStep(logs: seq<TaskLog>, i: int, run: nat)
    requires 0 <= i < |logs|
    ensures RunLog(logs[..i + 1], run) == RunLog(logs[..i], run) + (if logs[i].run == run then [Line(logs[i])] else [])
  {
    assert logs[..i + 1] == logs[..i] + [logs[i]];
    InsertLogThenGetLogs(logs[..i], logs[i], run);
  }

  /** `SQLiteRunLogHandler`: writes the log records of one run. */
  class RunLogHandler {
    const db: TaskHistoryDB
    const runId: nat

    constructor (db: TaskHistoryDB, runId: nat)
      ensures this.db == db && this.runId == runId
    {
      this.db := db;
      this.runId := runId;
    }

    /** `emit`. `formatted` is the formatter's text, None when formatting
        raised, in which case the bare message is logged; `created` is the
        record's time. When `insertFails` the write raises and the failure
        is swallowed: the method never fails and the tables stay as they
        were. */
    method Emit(level: string, formatted: Option<string>, bare: string, created: int, insertFails: bool)
      requires db.Valid()
      modifies db
      ensures db.Valid()
      ensures db.states == old(db.states) && db.runs == old(db.runs)
      ensures insertFails ==> db.logs == old(db.logs)
      ensures !insertFails ==>
        db.logs == old(db.logs) + [TaskLog(old(db.nextLogId), runId, created, level, formatted.GetOr(bare))]
    {
      var message := formatted.GetOr(bare);
      if !insertFails {
        db.InsertLog(runId, level, message, created);
      }
    }
  }
}
