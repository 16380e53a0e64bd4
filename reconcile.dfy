/** The two one-way reconciliation loops: Frappe documents into database rows
    (sync/frappe_to_db.py) and database rows into Frappe documents
    (sync/db_to_frappe.py), with the fetch steps they start from. Lookups
    against the other side are oracles; each loop returns the log of what it
    issued. */
module Reconcile {
  import opened Base
  import opened Text
  import opened DbApi
  import opened SyncTask
  import opened SqlText
  import opened DbWrites

  // ---------------------------------------------------------------------------
  // Fetching Frappe documents

  /** `_cast_frappe_record` as a value: datetime fields first, then int fields. */
  function Casted(t: Task, rec: Record, iso: string -> Option<int>, toInt: string -> Option<int>): Record {
    var dt := t.config.frappe.datetimeFields;
    var it := t.config.frappe.intFields;
    CastFields(CastFields(rec, dt, Parser(iso, true), |dt|), it, Parser(toInt, false), |it|)
  }

  /** Every document of a response, cast, in response order. */
  function CastAll(t: Task, recs: seq<Record>, iso: string -> Option<int>, toInt: string -> Option<int>): (r: seq<Record>)
    ensures |r| == |recs|
    ensures forall i :: 0 <= i < |recs| ==> r[i] == Casted(t, recs[i], iso, toInt)
  {
    if recs == [] then []
    else CastAll(t, recs[..|recs| - 1], iso, toInt) + [Casted(t, recs[|recs| - 1], iso, toInt)]
  }

  /** The filter text `["field", "op", "value"]` of a Frappe list request. */
  function FilterText(field: string, op: string, value: string): string {
    "[\"" + field + "\", \"" + op + "\", \"" + value + "\"]"
  }

  /** The filters of `get_frappe_records`: none without a checkpoint, else
      the modified field at or after the checkpoint moved into Frappe's time
      zone. `isoText` renders a timestamp as ISO 8601. */
  function FrappeRecordFilters(t: Task, since: Option<int>, isoText: int -> string): (r: seq<string>)
    ensures since.None? <==> r == []
    ensures since.Some? ==> r == [FilterText(t.config.frappe.modifiedField, ">=", isoText(since.value + t.frappeTz))]
  {
    match since
    case None => []
    case Some(s) => [FilterText(t.config.frappe.modifiedField, ">=", isoText(s + t.frappeTz))]
  }

  /** `get_frappe_records`: the filters it requests with, and the documents
      of the response (`fetched`), each cast, in response order. */
  method GetFrappeRecords(t: Task, since: Option<int>, fetched: seq<Record>,
                          isoText: int -> string, iso: string -> Option<int>, toInt: string -> Option<int>)
    returns (filters: seq<string>, records: seq<Record>)
    ensures filters == FrappeRecordFilters(t, since, isoText)
    ensures records == CastAll(t, fetched, iso, toInt)
  {
    filters := [];
    if since.Some? {
      filters := filters + [FilterText(t.config.frappe.modifiedField, ">=", isoText(since.value + t.frappeTz))];
    }
    records := CastEach(t, fetched, iso, toInt);
  }

  /** The filter of `get_frappe_records_by_ids`: `name` among the ids,
      written as JSON by `dumps`. */
  function ByIdsFilters(ids: seq<Value>, dumps: seq<Value> -> string): (r: seq<string>)
    ensures |r| == 1 && r[0] == "[\"name\", \"in\", " + dumps(ids) + "]"
  {
    ["[\"name\", \"in\", " + dumps(ids) + "]"]
  }

  /** `get_frappe_records_by_ids`: one request filtered by the ids, and the
      documents of its response (`fetched`), each cast, in response order. */
  method GetFrappeRecordsByIds(t: Task, ids: seq<Value>, fetched: seq<Record>, dumps: seq<Value> -> string,
                               iso: string -> Option<int>, toInt: string -> Option<int>)
    returns (filters: seq<string>, records: seq<Record>)
    ensures filters == ByIdsFilters(ids, dumps)
    ensures records == CastAll(t, fetched, iso, toInt)
  {
    filters := ["[\"name\", \"in\", " + dumps(ids) + "]"];
    records := CastEach(t, fetched, iso, toInt);
  }

  /** The loop both fetches run over the response: each document cast in turn. */
  method CastEach(t: Task, fetched: seq<Record>, iso: string -> Option<int>, toInt: string -> Option<int>)
    returns (records: seq<Record>)
    ensures records == CastAll(t, fetched, iso, toInt)
  {
    records := [];
    var i := 0;
    while i < |fetched|
      invariant 0 <= i <= |fetched|
      invariant records == CastAll(t, fetched[..i], iso, toInt)
    {
      var r := CastFrappeRecord(t, fetched[i], iso, toInt);
      assert fetched[..i + 1][..i] == fetched[..i];
      records := records + [r];
      i := i + 1;
    }
    assert fetched[..|fetched|] == fetched;
  }

  // ---------------------------------------------------------------------------
  // Frappe to database

  /** What the loop issues against the database, in order. */
  datatype DbOp =
    | Checked(st: Statement)
    | Updated(rec: Record)
    | Inserted(rec: Record)

  /** What the database answers for one document: the count of the existence
      check (None when it raises), the id column the manual allocator reads
      (None when its SELECT raises),
      whether the write raises, and the rows the read-back returns (None
      when it raises). */
  datatype Outcome = Outcome(count: Option<int>, ids: Option<seq<int>>, fails: bool, readBack: Option<seq<Record>>)

  /** The existence check of a document: COUNT(*) over its key fields, named
      as in Frappe, with their values in the document's order. */
  function CountStatement(t: Task, rec: Record): Statement {
    var keys := PartUpTo(rec, t.config.keyFields, true, |rec|);
    Statement(CountSql(t.config.tableName, Keys(keys)), Values(keys))
  }

  /** `exists`: the check ran and counted a row; a failed check reads as absent. */
  predicate Exists(count: Option<int>) {
    count.Some? && count.value > 0
  }

  /** What the loop logs for one document: its existence check, then the
      path taken. */
  function DocumentOps(t: Task, rec: Record, o: Outcome): seq<DbOp> {
    [Checked(CountStatement(t, rec)), if Exists(o.count) then Updated(rec) else Inserted(rec)]
  }

  /** The statement one document's step commits outside a dry run: the
      UPDATE of its row when the check counted one, otherwise the INSERT of
      the translated row (with its manual id) when `create_new` is set and an
      id could be allocated; nothing when the write raises. */
  function DocumentWrite(t: Task, rec: Record, o: Outcome): (r: Option<Statement>)
    ensures r.Some? ==> !o.fails
    ensures Exists(o.count) && !o.fails ==>
      r == Some(UpdateStatement(t, PartUpTo(rec, t.config.keyFields, false, |rec|),
                                   PartUpTo(rec, t.config.keyFields, true, |rec|)))
    ensures !Exists(o.count) && !t.config.createNew ==> r.None?
    ensures !Exists(o.count) && t.config.createNew && !o.fails ==>
      r == (var w := if t.config.db.manualIdSequence then ManualRow(t, rec, o.ids) else Some(ToDb(t, rec));
            if w.Some? then Some(InsertStatement(t, w.value)) else None)
  {
    if o.fails then None
    else if Exists(o.count) then
      Some(UpdateStatement(t, PartUpTo(rec, t.config.keyFields, false, |rec|), PartUpTo(rec, t.config.keyFields, true, |rec|)))
    else if !t.config.createNew then None
    else if t.config.db.manualIdSequence then
      match ManualRow(t, rec, o.ids)
      case None => None
      case Some(w) => Some(InsertStatement(t, w))
    else Some(InsertStatement(t, ToDb(t, rec)))
  }

  /** The statements the first `n` documents commit outside a dry run, in order. */
  function CommittedBy(t: Task, recs: seq<Record>, outcomes: seq<Outcome>, n: nat): seq<Statement>
    requires n <= |recs| && n <= |outcomes|
  {
    if n == 0 then []
    else CommittedBy(t, recs, outcomes, n - 1)
         + match DocumentWrite(t, recs[n - 1], outcomes[n - 1]) case None => [] case Some(st) => [st]
  }

  /** Every statement the loop commits is the write of one document: an
      UPDATE only for a document whose check counted a row, an INSERT only
      for one whose check did not (or raised). */
  lemma {:induction false} CommittedFrom(t: Task, recs: seq<Record>, outcomes: seq<Outcome>, n: nat, st: Statement)
    requires n <= |recs| && n <= |outcomes| && st in CommittedBy(t, recs, outcomes, n)
    ensures exists i :: 0 <= i < n && DocumentWrite(t, recs[i], outcomes[i]) == Some(st)
  {
    if st in CommittedBy(t, recs, outcomes, n - 1) {
      CommittedFrom(t, recs, outcomes, n - 1, st);
    } else {
      assert DocumentWrite(t, recs[n - 1], outcomes[n - 1]) == Some(st);
    }
  }

  /** The log of the loop over the first `n` documents. */
  function FrappeToDbOps(t: Task, recs: seq<Record>, outcomes: seq<Outcome>, n: nat): (ops: seq<DbOp>)
    requires n <= |recs| && n <= |outcomes|
    ensures |ops| == 2 * n
  {
    if n == 0 then [] else FrappeToDbOps(t, recs, outcomes, n - 1) + DocumentOps(t, recs[n - 1], outcomes[n - 1])
  }

  /** Every document is handled exactly once, in fetch order: its existence
      check, then an update when the check counted a row and an insert
      otherwise (also when the check raised). */
  lemma {:induction false} FrappeToDbOpsAt(t: Task, recs: seq<Record>, outcomes: seq<Outcome>, n: nat, i: int)
    requires n <= |recs| && n <= |outcomes| && 0 <= i < n
    ensures FrappeToDbOps(t, recs, outcomes, n)[2 * i] == Checked(CountStatement(t, recs[i]))
    ensures FrappeToDbOps(t, recs, outcomes, n)[2 * i + 1]
         == if Exists(outcomes[i].count) then Updated(recs[i]) else Inserted(recs[i])
  {
    if i < n - 1 {
      FrappeToDbOpsAt(t, recs, outcomes, n - 1, i);
    }
  }

  /** The existence check binds one value per placeholder: the key fields
      present in the document, named as in Frappe, each with its value. */
  lemma {:induction false} CountStatementLinesUp(t: Task, rec: Record, iso: int -> string)
    requires '?' !in t.config.tableName
    requires forall i :: 0 <= i < |t.config.keyFields| ==> '?' !in t.config.keyFields[i]
    ensures var st := CountStatement(t, rec);
      var keys := PartUpTo(rec, t.config.keyFields, true, |rec|);
      && Count(st.sql, '?') == |st.params|
      && Substitute(st.sql, FormatParams(st.params, iso))
         == "SELECT COUNT(*) FROM " + t.config.tableName + " WHERE "
            + Join(Bound(Keys(keys), FormatParams(Values(keys), iso)), " AND ")
  {
    var keys := PartUpTo(rec, t.config.keyFields, true, |rec|);
    PartKeysAreKeyFields(rec, t.config.keyFields, |rec|);
    CountSqlLineUp(t.config.tableName, Keys(keys), FormatParams(Values(keys), iso));
  }

  /** Every name in the keys part is a key field. */
  lemma {:induction false} PartKeysAreKeyFields(rec: Record, keyFields: seq<string>, n: nat)
    requires n <= |rec|
    ensures forall j :: 0 <= j < |PartUpTo(rec, keyFields, true, n)| ==> PartUpTo(rec, keyFields, true, n)[j].0 in keyFields
  {
    if n > 0 {
      PartKeysAreKeyFields(rec, keyFields, n - 1);
      var acc := PartUpTo(rec, keyFields, true, n - 1);
      if rec[n - 1].0 in keyFields {
        var r := Put(acc, rec[n - 1].0, rec[n - 1].1);
        forall j | 0 <= j < |r|
          ensures r[j].0 in keyFields
        {
          PutKeyAt(acc, rec[n - 1].0, rec[n - 1].1, j);
        }
      }
    }
  }

  /** A name in `Put(d, k, v)` is `k` or a name of `d`. */
  lemma {:induction false} PutKeyAt<K(!new), V>(d: Dict<K, V>, k: K, v: V, j: int)
    requires 0 <= j < |Put(d, k, v)|
    ensures Put(d, k, v)[j].0 == k || (j < |d| && Put(d, k, v)[j].0 == d[j].0)
  {
    if d != [] && d[0].0 != k && j > 0 {
      PutKeyAt(d[1..], k, v, j - 1);
    }
  }

  /** The body of the loop for one document: the existence check on a
      fresh cursor, whose failure reads as absent, then the update or insert
      path. */
  method ReconcileDocument(t: Task, conn: Connection, rec: Record, o: Outcome) returns (step: seq<DbOp>)
    modifies conn
    ensures step == DocumentOps(t, rec, o)
    ensures t.dryRun ==> conn.committed == old(conn.committed)
    ensures !t.dryRun && !o.fails && Exists(o.count) ==>
      conn.committed == old(conn.committed) + old(conn.pending)
        + [UpdateStatement(t, PartUpTo(rec, t.config.keyFields, false, |rec|), PartUpTo(rec, t.config.keyFields, true, |rec|))]
    ensures !t.dryRun && !o.fails && !Exists(o.count) && t.config.createNew ==>
      var w := if t.config.db.manualIdSequence then ManualRow(t, rec, o.ids) else Some(ToDb(t, rec));
      w.Some? ==> conn.committed == old(conn.committed) + old(conn.pending) + [InsertStatement(t, w.value)]
    ensures o.fails || (!Exists(o.count) && !t.config.createNew) ==> conn.committed == old(conn.committed)
    ensures !t.dryRun ==>
      conn.committed == old(conn.committed) + (match DocumentWrite(t, rec, o) case None => [] case Some(st) => old(conn.pending) + [st])
    ensures old(conn.pending) == [] ==> conn.pending == []
  {
    var data, keys := SplitFrappeInDataAndKeys(t.config.keyFields, rec);
    var selectSql := CountSql(t.config.tableName, Keys(keys));
    var found := false;
    conn.OpenCursor();
    if o.count.Some? {
      found := o.count.value > 0;
    }
    if found {
      var written := UpdateDbRecord(t, conn, rec, o.fails, o.readBack);
      step := [Checked(Statement(selectSql, Values(keys))), Updated(rec)];
    } else {
      var written := InsertFrappeRecordToDb(t, conn, rec, o.ids, o.fails, o.readBack);
      step := [Checked(Statement(selectSql, Values(keys))), Inserted(rec)];
    }
  }

  /** The loop of `FrappeToDbSyncTask.sync`: each document, in order. */
  method ReconcileAll(t: Task, conn: Connection, records: seq<Record>, outcomes: seq<Outcome>) returns (ops: seq<DbOp>)
    requires |outcomes| == |records|
    modifies conn
    ensures ops == FrappeToDbOps(t, records, outcomes, |records|)
    ensures t.dryRun ==> conn.committed == old(conn.committed)
    ensures !t.dryRun && old(conn.pending) == [] ==>
      conn.committed == old(conn.committed) + CommittedBy(t, records, outcomes, |records|)
    ensures old(conn.pending) == [] ==> conn.pending == []
  {
    ops := [];
    for i := 0 to |records|
      invariant ops == FrappeToDbOps(t, records, outcomes, i)
      invariant t.dryRun ==> conn.committed == old(conn.committed)
      invariant !t.dryRun && old(conn.pending) == [] ==>
        conn.committed == old(conn.committed) + CommittedBy(t, records, outcomes, i)
      invariant old(conn.pending) == [] ==> conn.pending == []
    {
      var step := ReconcileDocument(t, conn, records[i], outcomes[i]);
      ops := ops + step;
    }
  }

  /** `FrappeToDbSyncTask.sync`: fetch and cast the documents changed since
      the checkpoint, then reconcile each one, in order. */
  method SyncFrappeToDb(t: Task, conn: Connection, since: Option<int>, fetched: seq<Record>, outcomes: seq<Outcome>,
                        isoText: int -> string, iso: string -> Option<int>, toInt: string -> Option<int>)
    returns (filters: seq<string>, ops: seq<DbOp>)
    requires |outcomes| == |fetched|
    modifies conn
    ensures filters == FrappeRecordFilters(t, since, isoText)
    ensures ops == FrappeToDbOps(t, CastAll(t, fetched, iso, toInt), outcomes, |fetched|)
    ensures t.dryRun ==> conn.committed == old(conn.committed)
    ensures !t.dryRun && old(conn.pending) == [] ==>
      conn.committed == old(conn.committed) + CommittedBy(t, CastAll(t, fetched, iso, toInt), outcomes, |fetched|)
  {
    var records;
    filters, records := GetFrappeRecords(t, since, fetched, isoText, iso, toInt);
    ops := ReconcileAll(t, conn, records, outcomes);
  }

  // ---------------------------------------------------------------------------
  // Database to Frappe

  /** The filters of one key field: `["field", "=", "value"]`, where `str`
      renders a value as Python's `str` does. */
  function KeyFilter(field: string, v: Value, str: Value -> string): string {
    FilterText(field, "=", str(v))
  }

  /** The filters for the first `n` key fields: one per key field present in
      the translated record, in key-field order. */
  function FiltersUpTo(keyFields: seq<string>, data: Record, str: Value -> string, n: nat): (r: seq<string>)
    requires n <= |keyFields|
    ensures |r| <= n
  {
    if n == 0 then []
    else
      var prev := FiltersUpTo(keyFields, data, str, n - 1);
      var f := keyFields[n - 1];
      match Get(data, f)
      case None => prev
      case Some(v) => prev + [KeyFilter(f, v, str)]
  }

  /** A key field present in the record has its filter, and every filter is
      that of a present key field; so there are no filters exactly when no
      key field is present. */
  lemma {:induction false} FiltersPresent(keyFields: seq<string>, data: Record, str: Value -> string, n: nat)
    requires n <= |keyFields|
    ensures forall i :: 0 <= i < n && Get(data, keyFields[i]).Some? ==>
      KeyFilter(keyFields[i], Get(data, keyFields[i]).value, str) in FiltersUpTo(keyFields, data, str, n)
    ensures forall g :: g in FiltersUpTo(keyFields, data, str, n) ==>
      exists i :: 0 <= i < n && Get(data, keyFields[i]).Some? && g == KeyFilter(keyFields[i], Get(data, keyFields[i]).value, str)
    ensures FiltersUpTo(keyFields, data, str, n) == [] <==> forall i :: 0 <= i < n ==> Get(data, keyFields[i]).None?
  {
    if n > 0 {
      FiltersPresent(keyFields, data, str, n - 1);
      var prev := FiltersUpTo(keyFields, data, str, n - 1);
      var f := keyFields[n - 1];
      if Get(data, f).Some? {
        var g := KeyFilter(f, Get(data, f).value, str);
        assert FiltersUpTo(keyFields, data, str, n) == prev + [g];
        assert g in FiltersUpTo(keyFields, data, str, n);
      }
    }
  }

  /** `get_filters_from_data`. */
  method GetFiltersFromData(t: Task, data: Record, str: Value -> string) returns (filters: seq<string>)
    ensures filters == FiltersUpTo(t.config.keyFields, data, str, |t.config.keyFields|)
  {
    filters := [];
    var i := 0;
    while i < |t.config.keyFields|
      invariant 0 <= i <= |t.config.keyFields|
      invariant filters == FiltersUpTo(t.config.keyFields, data, str, i)
    {
      var keyField := t.config.keyFields[i];
      var v := Get(data, keyField);
      if v.Some? {
        filters := filters + [KeyFilter(keyField, v.value, str)];
      }
      i := i + 1;
    }
  }

  /** What the loop issues against Frappe: a lookup with filters, or a write. */
  datatype ApiOp =
    | Find(docType: string, filters: seq<string>)
    | Call(call: FrappeCall)

  /** The insert path: one insert request when `create_new` is set, else nothing. */
  function InsertOps(t: Task, raw: Record): (r: seq<ApiOp>)
    ensures |r| <= 1
    ensures forall op :: op in r ==> op == Call(InsertDoc(t.config.docType, FromDb(t, raw)))
  {
    match InsertDbRecordToFrappe(t, raw)
    case None => []
    case Some(c) => [Call(c)]
  }

  /** An update of each named document with the row, in order. */
  function UpdateCalls(t: Task, raw: Record, names: seq<Value>): (r: seq<ApiOp>)
    ensures |r| == |names|
    ensures forall j :: 0 <= j < |names| ==> r[j] == Call(UpdateFrappeRecord(t, raw, names[j]))
  {
    seq(|names|, j requires 0 <= j < |names| => Call(UpdateFrappeRecord(t, raw, names[j])))
  }

  /** What the loop issues for the `i`-th database row. `lookup(i, filters)`
      answers that row's lookup with the names of the matching documents
      (none when the request fails); the row index lets Frappe answer
      differently as the run's own writes land, so a row with the key of an
      earlier row that was inserted can find that insert. */
  function RowOps(t: Task, i: nat, raw: Record, lookup: (nat, seq<string>) -> seq<Value>, str: Value -> string): (ops: seq<ApiOp>)
  {
    var data := FromDb(t, raw);
    var filters := FiltersUpTo(t.config.keyFields, data, str, |t.config.keyFields|);
    if filters == [] then InsertOps(t, raw)
    else
      var names := lookup(i, filters);
      [Find(t.config.docType, filters)]
        + if names == [] then InsertOps(t, raw)
          else if t.config.processAll then UpdateCalls(t, raw, names)
          else [Call(UpdateFrappeRecord(t, raw, names[0]))]
  }

  /** For one row, a lookup is issued first, with the filters of the
      translated row, exactly when there are filters; every other request
      is a write. */
  lemma {:induction false} RowOpsLookup(t: Task, i: nat, raw: Record, lookup: (nat, seq<string>) -> seq<Value>, str: Value -> string)
    ensures var filters := FiltersUpTo(t.config.keyFields, FromDb(t, raw), str, |t.config.keyFields|);
      var ops := RowOps(t, i, raw, lookup, str);
      && ((|ops| > 0 && ops[0].Find?) <==> filters != [])
      && (filters != [] ==> ops[0] == Find(t.config.docType, filters))
      && (forall k :: 0 < k < |ops| ==> ops[k].Call?)
  {
    var filters := FiltersUpTo(t.config.keyFields, FromDb(t, raw), str, |t.config.keyFields|);
    var ops := RowOps(t, i, raw, lookup, str);
    if filters == [] {
      assert ops == InsertOps(t, raw);
    }
  }

  /** An insert is requested for a row only when it has no filter or its
      lookup matched nothing. */
  lemma {:induction false} RowOpsInsertOnlyUnmatched(t: Task, i: nat, raw: Record, lookup: (nat, seq<string>) -> seq<Value>, str: Value -> string)
    ensures var filters := FiltersUpTo(t.config.keyFields, FromDb(t, raw), str, |t.config.keyFields|);
      var ops := RowOps(t, i, raw, lookup, str);
      forall k :: 0 <= k < |ops| && ops[k].Call? && ops[k].call.InsertDoc? ==> filters == [] || lookup(i, filters) == []
  {
    var filters := FiltersUpTo(t.config.keyFields, FromDb(t, raw), str, |t.config.keyFields|);
    var ops := RowOps(t, i, raw, lookup, str);
    if filters != [] && lookup(i, filters) != [] {
      var names := lookup(i, filters);
      RowOpsCases(t, i, raw, lookup, str);
      forall k | 0 <= k < |ops| && ops[k].Call?
        ensures ops[k].call.UpdateDoc?
      {
        if t.config.processAll {
          assert ops[1 + (k - 1)] == Call(UpdateFrappeRecord(t, raw, names[k - 1]));
        }
      }
    }
  }

  /** The four paths of a row: without filters only the insert path, no
      lookup; with filters a lookup first, then the insert path when nothing
      matched, an update of every match by name from the raw row under
      `process_all`, and of the first match only otherwise. */
  lemma {:induction false} RowOpsCases(t: Task, i: nat, raw: Record, lookup: (nat, seq<string>) -> seq<Value>, str: Value -> string)
    ensures var filters := FiltersUpTo(t.config.keyFields, FromDb(t, raw), str, |t.config.keyFields|);
      var ops := RowOps(t, i, raw, lookup, str);
      var names := lookup(i, filters);
      && (filters == [] ==> ops == InsertOps(t, raw))
      && (filters != [] && names == [] ==> ops == [Find(t.config.docType, filters)] + InsertOps(t, raw))
      && (filters != [] && names != [] && t.config.processAll ==>
            |ops| == 1 + |names| && ops[0] == Find(t.config.docType, filters)
            && forall j :: 0 <= j < |names| ==> ops[1 + j] == Call(UpdateFrappeRecord(t, raw, names[j])))
      && (filters != [] && names != [] && !t.config.processAll ==>
            ops == [Find(t.config.docType, filters), Call(UpdateFrappeRecord(t, raw, names[0]))])
  {
    var filters := FiltersUpTo(t.config.keyFields, FromDb(t, raw), str, |t.config.keyFields|);
    var ops := RowOps(t, i, raw, lookup, str);
    var names := lookup(i, filters);
    if filters == [] {
      assert ops == InsertOps(t, raw);
    } else if names == [] {
      assert ops == [Find(t.config.docType, filters)] + InsertOps(t, raw);
    } else if t.config.processAll {
      assert ops == [Find(t.config.docType, filters)] + UpdateCalls(t, raw, names);
    } else {
      assert ops == [Find(t.config.docType, filters)] + [Call(UpdateFrappeRecord(t, raw, names[0]))];
    }
  }

  /** The requests issued for the first `n` rows, `each` giving a row's own
      from its index and the row. */
  function Issued(rows: seq<Record>, each: (nat, Record) -> seq<ApiOp>, n: nat): seq<ApiOp>
    requires n <= |rows|
  {
    if n == 0 then [] else Issued(rows, each, n - 1) + each(n - 1, rows[n - 1])
  }

  /** Every request in the concatenation comes from one of the rows. */
  lemma {:induction false} IssuedFromRows(rows: seq<Record>, each: (nat, Record) -> seq<ApiOp>, n: nat, op: ApiOp)
    requires n <= |rows| && op in Issued(rows, each, n)
    ensures exists i :: 0 <= i < n && op in each(i, rows[i])
  {
    if op in Issued(rows, each, n - 1) {
      IssuedFromRows(rows, each, n - 1, op);
    }
  }

  /** The log of the loop over the first `n` rows. */
  function DbToFrappeOps(t: Task, rows: seq<Record>, lookup: (nat, seq<string>) -> seq<Value>, str: Value -> string, n: nat): seq<ApiOp>
    requires n <= |rows|
  {
    Issued(rows, (i: nat, raw: Record) => RowOps(t, i, raw, lookup, str), n)
  }

  /** Whatever the loop issues was issued for one of the rows: each insert
      request carries a row that had no filter or no match, and each update
      request carries a row whose lookup matched that name. */
  lemma {:induction false} DbToFrappeOpsFromRows(t: Task, rows: seq<Record>, lookup: (nat, seq<string>) -> seq<Value>,
                                                 str: Value -> string, n: nat, op: ApiOp)
    requires n <= |rows| && op in DbToFrappeOps(t, rows, lookup, str, n)
    ensures exists i :: 0 <= i < n && op in RowOps(t, i, rows[i], lookup, str)
  {
    var each := (i: nat, raw: Record) => RowOps(t, i, raw, lookup, str);
    IssuedFromRows(rows, each, n, op);
    var i :| 0 <= i < n && op in each(i, rows[i]);
    assert each(i, rows[i]) == RowOps(t, i, rows[i], lookup, str);
  }

  /** Two rows with the same key in one run: when the first row's lookup
      finds nothing and the second's finds the document the first inserted,
      the loop inserts once and then updates that document. */
  lemma {:induction false} InsertThenUpdate(t: Task, raw: Record, lookup: (nat, seq<string>) -> seq<Value>,
                                            str: Value -> string, name: Value)
    requires t.config.createNew
    requires var filters := FiltersUpTo(t.config.keyFields, FromDb(t, raw), str, |t.config.keyFields|);
      filters != [] && lookup(0, filters) == [] && lookup(1, filters) == [name]
    ensures var filters := FiltersUpTo(t.config.keyFields, FromDb(t, raw), str, |t.config.keyFields|);
      DbToFrappeOps(t, [raw, raw], lookup, str, 2)
        == [Find(t.config.docType, filters), Call(InsertDoc(t.config.docType, FromDb(t, raw))),
            Find(t.config.docType, filters), Call(UpdateFrappeRecord(t, raw, name))]
  {
    var filters := FiltersUpTo(t.config.keyFields, FromDb(t, raw), str, |t.config.keyFields|);
    RowOpsCases(t, 0, raw, lookup, str);
    RowOpsCases(t, 1, raw, lookup, str);
    assert InsertOps(t, raw) == [Call(InsertDoc(t.config.docType, FromDb(t, raw)))];
    var rows := [raw, raw];
    assert DbToFrappeOps(t, rows, lookup, str, 0) == [];
    assert DbToFrappeOps(t, rows, lookup, str, 1) == [] + RowOps(t, 0, raw, lookup, str);
    assert DbToFrappeOps(t, rows, lookup, str, 2)
        == DbToFrappeOps(t, rows, lookup, str, 1) + RowOps(t, 1, raw, lookup, str);
  }

  /** `get_db_records`: the SELECT built for the checkpoint, run on the
      connection; None where the source raises before any cursor is opened.
      The SELECT opens one cursor, commits nothing, and a failing driver
      rolls back what was pending. */
  method GetDbRecords(t: Task, conn: Connection, since: Option<int>, result: Option<seq<Record>>)
    returns (rows: Option<seq<Record>>)
    modifies conn
    ensures rows.None? <==> DbRecordsQuery(t, since).None?
    ensures rows.Some? ==> rows.value == if result.Some? then result.value else []    ensures conn.committed == old(conn.committed)
    ensures DbRecordsQuery(t, since).None? ==> conn.pending == old(conn.pending) && conn.cursorsOpened == old(conn.cursorsOpened)
    ensures DbRecordsQuery(t, since).Some? ==> conn.cursorsOpened == old(conn.cursorsOpened) + 1
    ensures DbRecordsQuery(t, since).Some? ==> conn.pending == if result.Some? then old(conn.pending) else []
  {
    var q := DbRecordsQuery(t, since);
    if q.None? {
      return None;
    }
    var got := ExecuteSelect(conn, Statement(q.value.0, q.value.1), result);
    return Some(got);
  }

  /** One turn of `DbToFrappeSyncTask.sync`: translate the row, build its
      filters, then look up and update, or insert. */
  method HandleRow(t: Task, i: nat, raw: Record, lookup: (nat, seq<string>) -> seq<Value>, str: Value -> string)
    returns (ops: seq<ApiOp>)
    ensures ops == RowOps(t, i, raw, lookup, str)
  {
    var data := MapDbToFrappe(t, raw);
    var filters := GetFiltersFromData(t, data, str);
    if filters == [] {
      return InsertOps(t, raw);
    }
    ops := [Find(t.config.docType, filters)];
    var names := lookup(i, filters);
    if names == [] {
      return ops + InsertOps(t, raw);
    }
    if !t.config.processAll {
      return ops + [Call(UpdateFrappeRecord(t, raw, names[0]))];
    }
    var calls := UpdateEach(t, raw, names);
    ops := ops + calls;
  }

  /** The `process_all` loop over the matching documents. */
  method UpdateEach(t: Task, raw: Record, names: seq<Value>) returns (calls: seq<ApiOp>)
    ensures calls == UpdateCalls(t, raw, names)
  {
    calls := [];
    var j := 0;
    while j < |names|
      invariant 0 <= j <= |names|
      invariant calls == UpdateCalls(t, raw, names[..j])
    {
      calls := calls + [Call(UpdateFrappeRecord(t, raw, names[j]))];
      assert names[..j + 1] == names[..j] + [names[j]];
      j := j + 1;
    }
    assert names[..j] == names;
  }

  /** The loop of `DbToFrappeSyncTask.sync`: each row, in query order. */
  method HandleRows(t: Task, rows: seq<Record>, lookup: (nat, seq<string>) -> seq<Value>, str: Value -> string)
    returns (log: seq<ApiOp>)
    ensures log == DbToFrappeOps(t, rows, lookup, str, |rows|)
  {
    log := [];
    for i := 0 to |rows|
      invariant log == DbToFrappeOps(t, rows, lookup, str, i)
    {
      var rowOps := HandleRow(t, i, rows[i], lookup, str);
      log := log + rowOps;
    }
  }

  /** `DbToFrappeSyncTask.sync`: fetch the rows changed since the checkpoint,
      then for each, in order, look its document up by the key fields of the
      translated row and update or insert. */
  method SyncDbToFrappe(t: Task, conn: Connection, since: Option<int>, result: Option<seq<Record>>,
                        lookup: (nat, seq<string>) -> seq<Value>, str: Value -> string)
    returns (ops: Option<seq<ApiOp>>)
    modifies conn
    ensures ops.None? <==> DbRecordsQuery(t, since).None?
    ensures ops.Some? ==> ops.value == DbToFrappeOps(t, if result.Some? then result.value else [], lookup, str,
                                                      if result.Some? then |result.value| else 0)    ensures conn.committed == old(conn.committed)
    ensures DbRecordsQuery(t, since).None? ==> conn.pending == old(conn.pending) && conn.cursorsOpened == old(conn.cursorsOpened)
    ensures DbRecordsQuery(t, since).Some? ==> conn.cursorsOpened == old(conn.cursorsOpened) + 1
    ensures DbRecordsQuery(t, since).Some? ==> conn.pending == if result.Some? then old(conn.pending) else []
  {
    var fetched := GetDbRecords(t, conn, since, result);
    if fetched.None? {
      return None;
    }
    var log := HandleRows(t, fetched.value, lookup, str);
    return Some(log);
  }
}
