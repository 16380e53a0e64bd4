/** The write paths of a sync task (sync/task.py): running a statement under
    commit/rollback, reading rows back, updating and inserting a database row
    from a Frappe document (with the optional manual id allocator), and the
    requests that carry a database row to Frappe. */
module DbWrites {
  import opened Base
  import opened Text
  import opened DbApi
  import opened SyncTask
  import opened SqlText

  /** A statement as the driver receives it: text plus positional parameters. */
  datatype Statement = Statement(sql: string, params: seq<Value>)

  /** A database connection as a task drives it. Statements that ran since
      the last commit or rollback are pending; a commit makes them durable, a
      rollback discards them. Every cursor the task opens is counted. */
  class Connection {
    var committed: seq<Statement>
    var pending: seq<Statement>
    var cursorsOpened: nat

    constructor ()
      ensures committed == [] && pending == [] && cursorsOpened == 0
    {
      committed := [];
      pending := [];
      cursorsOpened := 0;
    }

    method OpenCursor()
      modifies this
      ensures cursorsOpened == old(cursorsOpened) + 1
      ensures committed == old(committed) && pending == old(pending)
    {
      cursorsOpened := cursorsOpened + 1;
    }

    /** `cursor.execute` of a statement that succeeds. */
    method Execute(st: Statement)
      modifies this
      ensures pending == old(pending) + [st]
      ensures committed == old(committed) && cursorsOpened == old(cursorsOpened)
    {
      pending := pending + [st];
    }

    method Commit()
      modifies this
      ensures committed == old(committed) + old(pending) && pending == []
      ensures cursorsOpened == old(cursorsOpened)
    {
      committed := committed + pending;
      pending := [];
    }

    method Rollback()
      modifies this
      ensures committed == old(committed) && pending == []
      ensures cursorsOpened == old(cursorsOpened)
    {
      pending := [];
    }
  }

  /** `execute_query`. `fails` says whether the driver raises on this
      statement. In dry run nothing is touched; otherwise one cursor is opened
      and the statement is committed, or everything pending is rolled back. */
  method ExecuteQuery(t: Task, conn: Connection, st: Statement, fails: bool)
    modifies conn
    ensures t.dryRun ==> conn.committed == old(conn.committed) && conn.pending == old(conn.pending)
                         && conn.cursorsOpened == old(conn.cursorsOpened)
    ensures !t.dryRun ==> conn.cursorsOpened == old(conn.cursorsOpened) + 1 && conn.pending == []
    ensures !t.dryRun && !fails ==> conn.committed == old(conn.committed) + old(conn.pending) + [st]
    ensures !t.dryRun && fails ==> conn.committed == old(conn.committed)
  {
    if t.dryRun {
      return;
    }
    conn.OpenCursor();
    if fails {
      conn.Rollback();
    } else {
      conn.Execute(st);
      conn.Commit();
    }
  }

  /** `_execute_select_query`. `result` is what the driver returns, None when
      it raises; a failure rolls back and yields no rows. */
  method ExecuteSelect(conn: Connection, st: Statement, result: Option<seq<Record>>) returns (rows: seq<Record>)
    modifies conn
    ensures rows == if result.Some? then result.value else []
    ensures conn.cursorsOpened == old(conn.cursorsOpened) + 1
    ensures conn.committed == old(conn.committed)
    ensures result.Some? ==> conn.pending == old(conn.pending)
    ensures result.None? ==> conn.pending == []
  {
    conn.OpenCursor();
    if result.None? {
      conn.Rollback();
      return [];
    }
    rows := result.value;
  }

  /** The row a read-back returns: the first one, or None when there is none. */
  function FirstRow(rows: seq<Record>): (r: Option<Record>)
    ensures r.None? <==> rows == []
    ensures r.Some? ==> r.value == rows[0]
  {
    if rows == [] then None else Some(rows[0])
  }

  // ---------------------------------------------------------------------------
  // Updating a database row

  /** The UPDATE `update_db_record` sends for a document: the non-key fields,
      translated, as SET; the key fields, translated, as WHERE. */
  function UpdateStatement(t: Task, data: Record, keys: Record): Statement {
    var dbData := ToDb(t, data);
    var dbKeys := ToDb(t, keys);
    Statement(UpdateSql(t.config.tableName, t.dialect, Keys(dbData), Keys(dbKeys)), Values(dbData) + Values(dbKeys))
  }

  /** The UPDATE binds one parameter per placeholder: the SET values first,
      then the key values. */
  lemma {:induction false} UpdateStatementLinesUp(t: Task, data: Record, keys: Record, iso: int -> string)
    requires '?' !in t.config.tableName && NoMarkIn(Keys(ToDb(t, data))) && NoMarkIn(Keys(ToDb(t, keys)))
    ensures var st := UpdateStatement(t, data, keys);
      && Count(st.sql, '?') == |st.params|
      && Substitute(st.sql, FormatParams(st.params, iso))
         == "UPDATE " + t.config.tableName
            + " SET " + Join(Bound(EscAll(t.dialect, Keys(ToDb(t, data))), FormatParams(Values(ToDb(t, data)), iso)), ", ")
            + " WHERE " + Join(Bound(EscAll(t.dialect, Keys(ToDb(t, keys))), FormatParams(Values(ToDb(t, keys)), iso)), " AND ")
  {
    var dbData := ToDb(t, data);
    var dbKeys := ToDb(t, keys);
    var fs := FormatParams(Values(dbData), iso);
    var fk := FormatParams(Values(dbKeys), iso);
    assert FormatParams(Values(dbData) + Values(dbKeys), iso) == fs + fk;
    UpdateParamsLineUp(t.config.tableName, t.dialect, Keys(dbData), Keys(dbKeys), fs, fk);
  }

  /** `update_db_record`: translate data and keys separately, run the UPDATE,
      then read the row back by its key values. */
  method UpdateDbRecord(t: Task, conn: Connection, frappeRec: Record, fails: bool, readBack: Option<seq<Record>>)
    returns (r: Option<Record>)
    modifies conn
    ensures var (data, keys) := (PartUpTo(frappeRec, t.config.keyFields, false, |frappeRec|),
                                 PartUpTo(frappeRec, t.config.keyFields, true, |frappeRec|));
      var st := UpdateStatement(t, data, keys);
      && (!t.dryRun && !fails ==> conn.committed == old(conn.committed) + old(conn.pending) + [st])
      && (t.dryRun || fails ==> conn.committed == old(conn.committed))
    ensures r == FirstRow(if readBack.Some? then readBack.value else [])
    ensures old(conn.pending) == [] ==> conn.pending == []
  {
    var data, keys := SplitFrappeInDataAndKeys(t.config.keyFields, frappeRec);
    var dbData := MapFrappeToDb(t, data);
    var dbKeys := MapFrappeToDb(t, keys);
    var sql := UpdateSql(t.config.tableName, t.dialect, Keys(dbData), Keys(dbKeys));
    ExecuteQuery(t, conn, Statement(sql, Values(dbData) + Values(dbKeys)), fails);
    var selectSql := SelectWhereSql(t.config.tableName, t.dialect, Keys(dbKeys));
    var rows := ExecuteSelect(conn, Statement(selectSql, Values(dbKeys)), readBack);
    if |rows| == 0 {
      return None;
    }
    return Some(rows[0]);
  }

  // ---------------------------------------------------------------------------
  // Inserting a database row

  /** The largest id in the table below the ceiling (any id when there is no
      ceiling), or None when there is none: `MAX(id) ... WHERE id < ceiling`. */
  function MaxBelow(ids: seq<int>, ceiling: Option<int>): (r: Option<int>)
    ensures r.Some? ==> r.value in ids && (ceiling.None? || r.value < ceiling.value)
    ensures forall i :: 0 <= i < |ids| && (ceiling.None? || ids[i] < ceiling.value) ==> r.Some? && ids[i] <= r.value
  {
    if ids == [] then None
    else
      var rest := MaxBelow(ids[1..], ceiling);
      if ceiling.Some? && ids[0] >= ceiling.value then rest
      else if rest.Some? && rest.value >= ids[0] then rest
      else Some(ids[0])
  }

  /** `ISNULL(MAX(id), 0) + 1`: one more than the largest id below the
      ceiling, and 1 when there is none. */
  function NextId(ids: seq<int>, ceiling: Option<int>): (r: int)
    ensures forall i :: 0 <= i < |ids| && (ceiling.None? || ids[i] < ceiling.value) ==> ids[i] < r
    ensures (exists i :: 0 <= i < |ids| && (ceiling.None? || ids[i] < ceiling.value)) ==>
      r - 1 in ids && (ceiling.None? || r - 1 < ceiling.value)
    ensures (forall i :: 0 <= i < |ids| ==> ceiling.Some? && ids[i] >= ceiling.value) ==> r == 1
  {
    match MaxBelow(ids, ceiling)
    case None => 1
    case Some(m) => m + 1
  }

  /** The INSERT for a translated row. */
  function InsertStatement(t: Task, dbData: Record): Statement {
    Statement(InsertSql(t.config.tableName, t.dialect, Keys(dbData)), Values(dbData))
  }

  /** What the manual-id path writes: the translated row with the id field
      set to the allocated id; or None when the allocation is refused. `ids`
      is the id column the allocation SELECT reads, None when that SELECT
      raises. The allocation is refused when the SELECT raises, when no
      ceiling is configured (comparing with None raises), or when the id
      would reach the ceiling. */
  function ManualRow(t: Task, rec: Record, ids: Option<seq<int>>): (r: Option<Record>)
    ensures r.Some? <==> (ids.Some? && t.config.db.manualIdSequenceMax.Some?
      && NextId(ids.value, t.config.db.manualIdSequenceMax) < t.config.db.manualIdSequenceMax.value)
    ensures r.Some? ==> (Get(r.value, t.config.db.idField) == Some(VInt(NextId(ids.value, t.config.db.manualIdSequenceMax)))
      && forall i :: 0 <= i < |ids.value| && ids.value[i] < t.config.db.manualIdSequenceMax.value ==>
           ids.value[i] < NextId(ids.value, t.config.db.manualIdSequenceMax))
    ensures r.Some? ==> forall x :: x != t.config.db.idField ==> Get(r.value, x) == Get(ToDb(t, rec), x)
  {
    var ceiling := t.config.db.manualIdSequenceMax;
    if ids.None? then None
    else
      var next := NextId(ids.value, ceiling);
      if ceiling.None? || next >= ceiling.value then None
      else Some(Put(ToDb(t, rec), t.config.db.idField, VInt(next)))
  }

  /** `insert_frappe_record_to_db`. `ids` is the table's id column as the
      manual allocator's SELECT reads it (None when that SELECT raises),
      `fails` whether the INSERT raises, `readBack`
      what the read-back SELECT returns (None when it raises). */
  method InsertFrappeRecordToDb(t: Task, conn: Connection, frappeRec: Record, ids: Option<seq<int>>,
                                fails: bool, readBack: Option<seq<Record>>)
    returns (r: Option<Record>)
    modifies conn
    ensures !t.config.createNew ==> (r.None? && conn.committed == old(conn.committed)
      && conn.pending == old(conn.pending) && conn.cursorsOpened == old(conn.cursorsOpened))
    ensures t.dryRun ==> conn.committed == old(conn.committed)
    ensures t.config.createNew && t.config.db.manualIdSequence && ManualRow(t, frappeRec, ids).None? ==>
      (r.None? && conn.committed == old(conn.committed) && conn.pending == [])
    ensures t.config.createNew && !t.dryRun && !fails ==>
      var written := if t.config.db.manualIdSequence then ManualRow(t, frappeRec, ids) else Some(ToDb(t, frappeRec));
      written.Some? ==> conn.committed == old(conn.committed) + old(conn.pending) + [InsertStatement(t, written.value)]
    ensures t.config.createNew && !t.dryRun && fails ==> conn.committed == old(conn.committed)
    ensures t.config.createNew && t.config.db.manualIdSequence && !t.dryRun && fails ==> r.None?
    ensures (t.config.createNew && (!t.config.db.manualIdSequence || (ManualRow(t, frappeRec, ids).Some? && (t.dryRun || !fails))))
      ==> r == FirstRow(if readBack.Some? then readBack.value else [])
    ensures old(conn.pending) == [] ==> conn.pending == []
  {
    if !t.config.createNew {
      return None;
    }
    var dbData := MapFrappeToDb(t, frappeRec);
    if t.config.db.manualIdSequence {
      conn.OpenCursor();
      if ids.None? {
        conn.Rollback();
        return None;
      }
      var ceiling := t.config.db.manualIdSequenceMax;
      var nextNr := NextId(ids.value, ceiling);
      if ceiling.None? || nextNr >= ceiling.value {
        conn.Rollback();
        return None;
      }
      dbData := Put(dbData, t.config.db.idField, VInt(nextNr));
      var st := InsertStatement(t, dbData);
      if !t.dryRun {
        if fails {
          conn.Rollback();
          return None;
        }
        conn.Execute(st);
        conn.Commit();
      }
    } else {
      ExecuteQuery(t, conn, InsertStatement(t, dbData), fails);
    }
    var selectSql := SelectWhereSql(t.config.tableName, t.dialect, Keys(dbData));
    var rows := ExecuteSelect(conn, Statement(selectSql, Values(dbData)), readBack);
    if |rows| == 0 {
      return None;
    }
    return Some(rows[0]);
  }

  // ---------------------------------------------------------------------------
  // Requests to Frappe

  /** A write request to the document API. */
  datatype FrappeCall =
    | InsertDoc(docType: string, data: Record)
    | UpdateDoc(docType: string, name: Value, data: Record)

  /** `insert_db_record_to_frappe`: the translated row, when `create_new` is set. */
  function InsertDbRecordToFrappe(t: Task, dbRec: Record): (r: Option<FrappeCall>)
    ensures r.Some? <==> t.config.createNew
    ensures r.Some? ==> r.value == InsertDoc(t.config.docType, FromDb(t, dbRec))
  {
    if t.config.createNew then Some(InsertDoc(t.config.docType, FromDb(t, dbRec))) else None
  }

  /** `update_frappe_record`: the translated row without its key fields,
      addressed to the named document. */
  function UpdateFrappeRecord(t: Task, dbRec: Record, name: Value): (r: FrappeCall)
    ensures r.UpdateDoc? && r.name == name
    ensures forall x :: Get(r.data, x) == if x in t.config.keyFields then None else Get(FromDb(t, dbRec), x)
  {
    var rec := FromDb(t, dbRec);
    FromDbDistinct(t, dbRec, |t.config.mapping|);
    forall x {
      SplitPartition(t.config.keyFields, rec, x);
    }
    UpdateDoc(t.config.docType, name, PartUpTo(rec, t.config.keyFields, false, |rec|))
  }
}
