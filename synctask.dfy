/** The record translator of a sync task (sync/task.py): renaming fields
    through `mapping`, substituting enumerated values, harmonising the
    modified timestamp between the two time zones, splitting a document into
    data and key fields, casting wire strings, and building key tuples and
    key-to-record indexes. */
module SyncTask {
  import opened Base
  import opened DbApi

  /** The Frappe-side settings a task reads. */
  datatype FrappeSide = FrappeSide(modifiedField: string, datetimeFields: seq<string>, intFields: seq<string>)

  /** The database-side settings a task reads. `fallbackModifiedField` and
      `manualIdSequenceMax` are Python `None` when absent. */
  datatype DbSide = DbSide(
    modifiedField: string,
    fallbackModifiedField: Option<string>,
    idField: string,
    manualIdSequence: bool,
    manualIdSequenceMax: Option<int>)

  /** The configuration fields sync/task.py reads. `mapping` goes from Frappe
      field to database column; `valueMapping` from Frappe field to pairs
      (document value, database value), in the order they were written. */
  datatype TaskConfig = TaskConfig(
    dbName: string,
    docType: string,
    tableName: string,
    mapping: Dict<string, string>,
    valueMapping: Dict<string, Dict<Value, Value>>,
    strictValueMapping: bool,
    keyFields: seq<string>,
    createNew: bool,
    processAll: bool,
    query: Option<string>,
    queryWithTimestamp: Option<string>,
    frappe: FrappeSide,
    db: DbSide)

  /** A sync task: its configuration, the dry-run switch, the dialect of its
      database, and the two time-zone offsets (minutes east of UTC). */
  datatype Task = Task(name: string, config: TaskConfig, dryRun: bool, dialect: Dialect, frappeTz: int, dbTz: int)

  /** `mapping` has no column twice. */
  ghost predicate DistinctColumns(m: Dict<string, string>) {
    forall i, j :: 0 <= i < j < |m| ==> m[i].1 != m[j].1
  }

  // ---------------------------------------------------------------------------
  // Value substitution

  /** The document value of the first pair whose database value is `v`. */
  function KeyOfValue(vm: Dict<Value, Value>, v: Value): (r: Option<Value>)
    ensures r.Some? ==> (r.value, v) in vm
    ensures r.None? ==> forall i :: 0 <= i < |vm| ==> vm[i].1 != v
  {
    if vm == [] then None
    else if vm[0].1 == v then Some(vm[0].0)
    else KeyOfValue(vm[1..], v)
  }

  lemma {:induction false} KeyOfValueFirst(vm: Dict<Value, Value>, v: Value, j: int)
    requires 0 <= j < |vm| && vm[j].1 == v
    requires forall k :: 0 <= k < j ==> vm[k].1 != v
    ensures KeyOfValue(vm, v) == Some(vm[j].0)
  {
    if j > 0 {
      KeyOfValueFirst(vm[1..], v, j - 1);
    }
  }

  /** The forward lookup loop: the database value of the first pair whose
      document value equals `v`. */
  method LookupByDocValue(vm: Dict<Value, Value>, v: Value) returns (found: bool, mapped: Value)
    ensures found <==> Get(vm, v).Some?
    ensures found ==> mapped == Get(vm, v).value
    ensures !found ==> mapped == v
  {
    mapped := v;
    found := false;
    var j := 0;
    while j < |vm|
      invariant 0 <= j <= |vm|
      invariant forall k :: 0 <= k < j ==> vm[k].0 != v
    {
      if vm[j].0 == v {
        GetFirst(vm, v, j);
        mapped := vm[j].1;
        found := true;
        return;
      }
      j := j + 1;
    }
  }

  /** The reverse lookup loop: the document value of the first pair whose
      database value equals `v`. */
  method LookupByDbValue(vm: Dict<Value, Value>, v: Value) returns (found: bool, mapped: Value)
    ensures found <==> KeyOfValue(vm, v).Some?
    ensures found ==> mapped == KeyOfValue(vm, v).value
    ensures !found ==> mapped == v
  {
    mapped := v;
    found := false;
    var j := 0;
    while j < |vm|
      invariant 0 <= j <= |vm|
      invariant forall k :: 0 <= k < j ==> vm[k].1 != v
    {
      if vm[j].1 == v {
        KeyOfValueFirst(vm, v, j);
        mapped := vm[j].0;
        found := true;
        return;
      }
      j := j + 1;
    }
  }

  // ---------------------------------------------------------------------------
  // Frappe -> database

  /** The time-zone harmonisation: only the configured modified field, going
      to the configured modified column, holding a timestamp, is moved from
      Frappe's offset to the database's. */
  function Harmonize(t: Task, field: string, column: string, v: Value): Value {
    if field == t.config.frappe.modifiedField && column == t.config.db.modifiedField && v.VDateTime?
    then VDateTime(v.t - t.frappeTz + t.dbTz)
    else v
  }

  /** What the mapping entry `field -> column` writes into the database
      record, or None when it writes nothing. */
  function ForwardValue(t: Task, field: string, column: string, rec: Record): (r: Option<Value>)
    ensures r.Some? ==> Get(rec, field).Some? && Get(rec, field).value != VNone
  {
    match Get(rec, field)
    case None => None
    case Some(raw) =>
      if raw == VNone then None
      else
        var v := Harmonize(t, field, column, raw);
        match Get(t.config.valueMapping, field)
        case None => Some(v)
        case Some(vm) =>
          match Get(vm, v)
          case Some(dbv) => Some(dbv)
          case None => if t.config.strictValueMapping then None else Some(v)
  }

  /** The database record after the first `n` mapping entries. */
  function ToDbUpTo(t: Task, rec: Record, n: nat): Record
    requires n <= |t.config.mapping|
  {
    if n == 0 then []
    else
      var acc := ToDbUpTo(t, rec, n - 1);
      var (field, column) := t.config.mapping[n - 1];
      match ForwardValue(t, field, column, rec)
      case None => acc
      case Some(v) => Put(acc, column, v)
  }

  /** `map_frappe_to_db` as a value. */
  function ToDb(t: Task, rec: Record): Record {
    ToDbUpTo(t, rec, |t.config.mapping|)
  }

  /** `map_frappe_to_db`. */
  method MapFrappeToDb(t: Task, rec: Record) returns (dbData: Record)
    ensures dbData == ToDb(t, rec)
  {
    var m := t.config.mapping;
    dbData := [];
    var i := 0;
    while i < |m|
      invariant 0 <= i <= |m|
      invariant dbData == ToDbUpTo(t, rec, i)
    {
      var (field, column) := m[i];
      var value := MapForward(t, field, column, rec);
      if value.Some? {
        dbData := Put(dbData, column, value.value);
      }
      assert dbData == ToDbUpTo(t, rec, i + 1);
      i := i + 1;
    }
  }

  /** The body of `map_frappe_to_db`'s loop for one mapping entry: the value
      written under `column`, or None when the entry writes nothing. */
  method MapForward(t: Task, field: string, column: string, rec: Record) returns (r: Option<Value>)
    ensures r == ForwardValue(t, field, column, rec)
  {
    var present := Get(rec, field);
    if present.None? || present.value == VNone {
      return None;
    }
    var value := present.value;
    if field == t.config.frappe.modifiedField && column == t.config.db.modifiedField && value.VDateTime? {
      value := VDateTime(value.t - t.frappeTz + t.dbTz);
    }
    var vm := Get(t.config.valueMapping, field);
    if vm.Some? {
      var found, mapped := LookupByDocValue(vm.value, value);
      if !found && t.config.strictValueMapping {
        return None;
      }
      value := mapped;
    }
    return Some(value);
  }

  /** A column is in the translated record exactly when some mapping entry
      for that column writes a value. */
  lemma {:induction false} ToDbUpToColumns(t: Task, rec: Record, n: nat, c: string)
    requires n <= |t.config.mapping|
    ensures Has(ToDbUpTo(t, rec, n), c) <==>
      exists i :: 0 <= i < n && t.config.mapping[i].1 == c && ForwardValue(t, t.config.mapping[i].0, c, rec).Some?
  {
    if n > 0 {
      ToDbUpToColumns(t, rec, n - 1, c);
      var (field, column) := t.config.mapping[n - 1];
      if column == c && ForwardValue(t, field, c, rec).Some? {
        assert Has(ToDbUpTo(t, rec, n), c);
      } else {
        assert Has(ToDbUpTo(t, rec, n), c) == Has(ToDbUpTo(t, rec, n - 1), c);
      }
    }
  }

  /** The columns of `map_frappe_to_db`'s result: a column appears exactly
      when a mapping entry for it names a Frappe field that is present, not
      None, and not dropped by strict value mapping; unmapped fields never
      appear. */
  lemma {:induction false} ToDbColumns(t: Task, rec: Record, c: string)
    ensures Has(ToDb(t, rec), c) <==>
      exists i :: 0 <= i < |t.config.mapping| && t.config.mapping[i].1 == c
        && ForwardValue(t, t.config.mapping[i].0, c, rec).Some?
  {
    ToDbUpToColumns(t, rec, |t.config.mapping|, c);
  }

  lemma {:induction false} ToDbUpToValue(t: Task, rec: Record, n: nat, i: int)
    requires n <= |t.config.mapping| && 0 <= i < |t.config.mapping|
    requires DistinctColumns(t.config.mapping)
    ensures Get(ToDbUpTo(t, rec, n), t.config.mapping[i].1)
         == if i < n then ForwardValue(t, t.config.mapping[i].0, t.config.mapping[i].1, rec) else None
  {
    if n > 0 {
      ToDbUpToValue(t, rec, n - 1, i);
      var (field, column) := t.config.mapping[n - 1];
      var acc := ToDbUpTo(t, rec, n - 1);
      var c := t.config.mapping[i].1;
      if i != n - 1 {
        assert c != column;
      }
      match ForwardValue(t, field, column, rec) {
        case None =>
          assert ToDbUpTo(t, rec, n) == acc;
        case Some(v) =>
          assert ToDbUpTo(t, rec, n) == Put(acc, column, v);
      }
    }
  }

  /** With no column mapped twice, the value under an entry's column is the
      one that entry computes. */
  lemma {:induction false} ToDbValue(t: Task, rec: Record, i: int)
    requires 0 <= i < |t.config.mapping|
    requires DistinctColumns(t.config.mapping)
    ensures Get(ToDb(t, rec), t.config.mapping[i].1) == ForwardValue(t, t.config.mapping[i].0, t.config.mapping[i].1, rec)
  {
    ToDbUpToValue(t, rec, |t.config.mapping|, i);
  }

  lemma {:induction false} ToDbUpToLastWins(t: Task, rec: Record, n: nat, i: int)
    requires n <= |t.config.mapping| && 0 <= i < n
    requires ForwardValue(t, t.config.mapping[i].0, t.config.mapping[i].1, rec).Some?
    requires forall j :: i < j < n && t.config.mapping[j].1 == t.config.mapping[i].1 ==>
      ForwardValue(t, t.config.mapping[j].0, t.config.mapping[j].1, rec).None?
    ensures Get(ToDbUpTo(t, rec, n), t.config.mapping[i].1) == ForwardValue(t, t.config.mapping[i].0, t.config.mapping[i].1, rec)
  {
    var (field, column) := t.config.mapping[n - 1];
    if i < n - 1 {
      ToDbUpToLastWins(t, rec, n - 1, i);
      match ForwardValue(t, field, column, rec) {
        case None =>
          assert ToDbUpTo(t, rec, n) == ToDbUpTo(t, rec, n - 1);
        case Some(v) =>
          assert column != t.config.mapping[i].1;
          assert ToDbUpTo(t, rec, n) == Put(ToDbUpTo(t, rec, n - 1), column, v);
      }
    }
  }

  /** When several fields map to one column, the column holds the value of
      the last of their entries that writes one, as repeated assignment to
      `db_data[column]` leaves it. */
  lemma {:induction false} ToDbLastWins(t: Task, rec: Record, i: int)
    requires 0 <= i < |t.config.mapping|
    requires ForwardValue(t, t.config.mapping[i].0, t.config.mapping[i].1, rec).Some?
    requires forall j :: i < j < |t.config.mapping| && t.config.mapping[j].1 == t.config.mapping[i].1 ==>
      ForwardValue(t, t.config.mapping[j].0, t.config.mapping[j].1, rec).None?
    ensures Get(ToDb(t, rec), t.config.mapping[i].1) == ForwardValue(t, t.config.mapping[i].0, t.config.mapping[i].1, rec)
  {
    ToDbUpToLastWins(t, rec, |t.config.mapping|, i);
  }

  /** The first pair whose document value matches wins. */
  lemma {:induction false} ForwardFirstMatchWins(t: Task, field: string, column: string, rec: Record, vm: Dict<Value, Value>, j: int)
    requires Get(t.config.valueMapping, field) == Some(vm)
    requires Get(rec, field).Some? && Get(rec, field).value != VNone
    requires 0 <= j < |vm| && vm[j].0 == Harmonize(t, field, column, Get(rec, field).value)
    requires forall k :: 0 <= k < j ==> vm[k].0 != vm[j].0
    ensures ForwardValue(t, field, column, rec) == Some(vm[j].1)
  {
    GetFirst(vm, vm[j].0, j);
  }

  /** A value no pair matches is dropped in strict mode and passed through
      otherwise. */
  lemma {:induction false} ForwardUnmatched(t: Task, field: string, column: string, rec: Record, vm: Dict<Value, Value>)
    requires Get(t.config.valueMapping, field) == Some(vm)
    requires Get(rec, field).Some? && Get(rec, field).value != VNone
    requires forall k :: 0 <= k < |vm| ==> vm[k].0 != Harmonize(t, field, column, Get(rec, field).value)
    ensures ForwardValue(t, field, column, rec)
         == if t.config.strictValueMapping then None else Some(Harmonize(t, field, column, Get(rec, field).value))
  {
  }

  // ---------------------------------------------------------------------------
  // Database -> Frappe

  /** What the mapping entry `field -> column` writes into the Frappe
      document, or None when it writes nothing. No time-zone shift is applied
      in this direction. */
  function BackwardValue(t: Task, field: string, column: string, rec: Record): (r: Option<Value>)
    ensures r.Some? ==> Get(rec, column).Some? && Get(rec, column).value != VNone
  {
    match Get(rec, column)
    case None => None
    case Some(raw) =>
      if raw == VNone then None
      else
        match Get(t.config.valueMapping, field)
        case None => Some(raw)
        case Some(vm) =>
          match KeyOfValue(vm, raw)
          case Some(fv) => Some(fv)
          case None => if t.config.strictValueMapping then None else Some(raw)
  }

  function FromDbUpTo(t: Task, rec: Record, n: nat): Record
    requires n <= |t.config.mapping|
  {
    if n == 0 then []
    else
      var acc := FromDbUpTo(t, rec, n - 1);
      var (field, column) := t.config.mapping[n - 1];
      match BackwardValue(t, field, column, rec)
      case None => acc
      case Some(v) => Put(acc, field, v)
  }

  /** The translated document never repeats a field: each one is set by
      assignment. */
  lemma {:induction false} FromDbDistinct(t: Task, rec: Record, n: nat)
    requires n <= |t.config.mapping|
    ensures DistinctKeys(FromDbUpTo(t, rec, n))
  {
    if n > 0 {
      FromDbDistinct(t, rec, n - 1);
      var (field, column) := t.config.mapping[n - 1];
      match BackwardValue(t, field, column, rec)
      case None =>
      case Some(v) => PutDistinct(FromDbUpTo(t, rec, n - 1), field, v);
    }
  }

  /** `map_db_to_frappe` as a value. */
  function FromDb(t: Task, rec: Record): Record {
    FromDbUpTo(t, rec, |t.config.mapping|)
  }

  /** `map_db_to_frappe`. */
  method MapDbToFrappe(t: Task, rec: Record) returns (frappeData: Record)
    ensures frappeData == FromDb(t, rec)
  {
    var m := t.config.mapping;
    frappeData := [];
    var i := 0;
    while i < |m|
      invariant 0 <= i <= |m|
      invariant frappeData == FromDbUpTo(t, rec, i)
    {
      var (field, column) := m[i];
      var value := MapBackward(t, field, column, rec);
      if value.Some? {
        frappeData := Put(frappeData, field, value.value);
      }
      assert frappeData == FromDbUpTo(t, rec, i + 1);
      i := i + 1;
    }
  }

  /** The body of `map_db_to_frappe`'s loop for one mapping entry. */
  method MapBackward(t: Task, field: string, column: string, rec: Record) returns (r: Option<Value>)
    ensures r == BackwardValue(t, field, column, rec)
  {
    var present := Get(rec, column);
    if present.None? || present.value == VNone {
      return None;
    }
    var value := present.value;
    var vm := Get(t.config.valueMapping, field);
    if vm.Some? {
      var found, mapped := LookupByDbValue(vm.value, value);
      if !found && t.config.strictValueMapping {
        return None;
      }
      value := mapped;
    }
    return Some(value);
  }

  lemma {:induction false} FromDbUpToValue(t: Task, rec: Record, n: nat, i: int)
    requires n <= |t.config.mapping| && 0 <= i < |t.config.mapping|
    requires DistinctKeys(t.config.mapping)
    ensures Get(FromDbUpTo(t, rec, n), t.config.mapping[i].0)
         == if i < n then BackwardValue(t, t.config.mapping[i].0, t.config.mapping[i].1, rec) else None
  {
    if n > 0 {
      FromDbUpToValue(t, rec, n - 1, i);
      var (field, column) := t.config.mapping[n - 1];
      var acc := FromDbUpTo(t, rec, n - 1);
      var f := t.config.mapping[i].0;
      if i != n - 1 {
        assert f != field;
      }
      match BackwardValue(t, field, column, rec) {
        case None =>
          assert FromDbUpTo(t, rec, n) == acc;
        case Some(v) =>
          assert FromDbUpTo(t, rec, n) == Put(acc, field, v);
      }
    }
  }

  /** The value under a mapped field is the one its entry computes. */
  lemma {:induction false} FromDbValue(t: Task, rec: Record, i: int)
    requires 0 <= i < |t.config.mapping|
    requires DistinctKeys(t.config.mapping)
    ensures Get(FromDb(t, rec), t.config.mapping[i].0) == BackwardValue(t, t.config.mapping[i].0, t.config.mapping[i].1, rec)
  {
    FromDbUpToValue(t, rec, |t.config.mapping|, i);
  }

  /** Translating a document to the database and back restores every mapped,
      non-None field without value substitution, except that the modified
      timestamp comes back moved by `-frappeTz + dbTz`: the reverse direction
      does not undo the shift. */
  lemma {:induction false} RoundTrip(t: Task, rec: Record, i: int)
    requires 0 <= i < |t.config.mapping|
    requires DistinctKeys(t.config.mapping) && DistinctColumns(t.config.mapping)
    requires Get(t.config.valueMapping, t.config.mapping[i].0).None?
    ensures Get(FromDb(t, ToDb(t, rec)), t.config.mapping[i].0)
         == match Get(rec, t.config.mapping[i].0)
            case None => None
            case Some(v) => if v == VNone then None else Some(Harmonize(t, t.config.mapping[i].0, t.config.mapping[i].1, v))
  {
    FromDbValue(t, ToDb(t, rec), i);
    ToDbValue(t, rec, i);
  }

  // ---------------------------------------------------------------------------
  // Splitting a document into data and key fields

  /** The entries of `rec`, in order, whose name is (`wantKeys`) or is not a
      key field, inserted as the loop does. */
  function PartUpTo(rec: Record, keyFields: seq<string>, wantKeys: bool, n: nat): Record
    requires n <= |rec|
  {
    if n == 0 then []
    else
      var acc := PartUpTo(rec, keyFields, wantKeys, n - 1);
      if (rec[n - 1].0 in keyFields) == wantKeys then Put(acc, rec[n - 1].0, rec[n - 1].1) else acc
  }

  /** `split_frappe_in_data_and_keys`. */
  method SplitFrappeInDataAndKeys(keyFields: seq<string>, rec: Record) returns (data: Record, keys: Record)
    ensures data == PartUpTo(rec, keyFields, false, |rec|)
    ensures keys == PartUpTo(rec, keyFields, true, |rec|)
  {
    data, keys := [], [];
    var i := 0;
    while i < |rec|
      invariant 0 <= i <= |rec|
      invariant data == PartUpTo(rec, keyFields, false, i)
      invariant keys == PartUpTo(rec, keyFields, true, i)
    {
      var (k, v) := rec[i];
      if k in keyFields {
        keys := Put(keys, k, v);
      } else {
        data := Put(data, k, v);
      }
      i := i + 1;
    }
  }

  lemma {:induction false} GetSnoc<K, V>(d: Dict<K, V>, k: K, v: V, x: K)
    ensures Get(d + [(k, v)], x) == if Has(d, x) then Get(d, x) else if k == x then Some(v) else None
  {
    if d != [] {
      assert (d + [(k, v)])[1..] == d[1..] + [(k, v)];
      GetSnoc(d[1..], k, v, x);
    }
  }

  lemma {:induction false} PartUpToGet(rec: Record, keyFields: seq<string>, wantKeys: bool, n: nat, x: string)
    requires n <= |rec| && DistinctKeys(rec)
    ensures Get(PartUpTo(rec, keyFields, wantKeys, n), x)
         == if (x in keyFields) == wantKeys then Get(rec[..n], x) else None
  {
    if n > 0 {
      PartUpToGet(rec, keyFields, wantKeys, n - 1, x);
      assert rec[..n] == rec[..n - 1] + [rec[n - 1]];
      GetSnoc(rec[..n - 1], rec[n - 1].0, rec[n - 1].1, x);
    }
  }

  /** The keys part holds exactly the key fields of the document and the data
      part exactly the others, each with its value: the parts are disjoint
      and together make up the document. */
  lemma {:induction false} SplitPartition(keyFields: seq<string>, rec: Record, x: string)
    requires DistinctKeys(rec)
    ensures Get(PartUpTo(rec, keyFields, true, |rec|), x) == if x in keyFields then Get(rec, x) else None
    ensures Get(PartUpTo(rec, keyFields, false, |rec|), x) == if x in keyFields then None else Get(rec, x)
  {
    assert rec[..|rec|] == rec;
    PartUpToGet(rec, keyFields, true, |rec|, x);
    PartUpToGet(rec, keyFields, false, |rec|, x);
  }

  // ---------------------------------------------------------------------------
  // Casting wire strings

  /** A parser for one kind of field: `datetime.fromisoformat` (giving a
      timestamp) or `int` (giving an integer); it fails with None. */
  datatype Parser = Parser(parse: string -> Option<int>, asDateTime: bool)

  /** What one listed field's value becomes: a non-string stays, the empty
      string becomes None, a parseable string becomes the typed value, an
      unparseable one stays. */
  function CastValue(v: Value, p: Parser): (r: Value)
    ensures !v.VStr? ==> r == v
    ensures v.VStr? && v.s == "" ==> r == VNone
    ensures v.VStr? && v.s != "" && p.parse(v.s).None? ==> r == v
    ensures v.VStr? && v.s != "" && p.parse(v.s).Some? ==> !r.VStr? && r != VNone
  {
    if v.VStr? then
      if v.s == "" then VNone
      else match p.parse(v.s)
        case Some(i) => if p.asDateTime then VDateTime(i) else VInt(i)
        case None => v
    else v
  }

  /** One step of a casting loop. */
  function CastField(rec: Record, field: string, p: Parser): Record {
    match Get(rec, field)
    case Some(v) =>
      if v.VStr? && (v.s == "" || p.parse(v.s).Some?) then Put(rec, field, CastValue(v, p)) else rec
    case None => rec
  }

  function CastFields(rec: Record, fields: seq<string>, p: Parser, n: nat): Record
    requires n <= |fields|
  {
    if n == 0 then rec else CastField(CastFields(rec, fields, p, n - 1), fields[n - 1], p)
  }

  function OptCast(o: Option<Value>, p: Parser): Option<Value> {
    match o
    case Some(v) => Some(CastValue(v, p))
    case None => None
  }

  lemma {:induction false} CastFieldsGet(rec: Record, fields: seq<string>, p: Parser, n: nat, x: string)
    requires n <= |fields|
    ensures Get(CastFields(rec, fields, p, n), x) == if x in fields[..n] then OptCast(Get(rec, x), p) else Get(rec, x)
  {
    if n > 0 {
      CastFieldsGet(rec, fields, p, n - 1, x);
      assert fields[..n] == fields[..n - 1] + [fields[n - 1]];
    }
  }

  lemma {:induction false} CastFieldsKeys(rec: Record, fields: seq<string>, p: Parser, n: nat)
    requires n <= |fields|
    ensures Keys(CastFields(rec, fields, p, n)) == Keys(rec)
  {
    if n > 0 {
      CastFieldsKeys(rec, fields, p, n - 1);
      var prev := CastFields(rec, fields, p, n - 1);
      var f := fields[n - 1];
      if Get(prev, f).Some? {
        PutPresent(prev, f, CastValue(Get(prev, f).value, p));
      }
      assert Keys(CastFields(rec, fields, p, n)) == Keys(prev);
    }
  }

  /** One of the two loops of `_cast_frappe_record`: every listed field
      holding a string is cast with `p`. */
  method CastLoop(rec: Record, fields: seq<string>, p: Parser) returns (r: Record)
    ensures r == CastFields(rec, fields, p, |fields|)
  {
    r := rec;
    var i := 0;
    while i < |fields|
      invariant 0 <= i <= |fields|
      invariant r == CastFields(rec, fields, p, i)
    {
      r := CastOne(r, fields[i], p);
      assert r == CastFields(rec, fields, p, i + 1);
      i := i + 1;
    }
  }

  /** The body of a casting loop, for one field. */
  method CastOne(rec: Record, field: string, p: Parser) returns (r: Record)
    ensures r == CastField(rec, field, p)
  {
    r := rec;
    var cur := Get(rec, field);
    if cur.Some? && cur.value.VStr? {
      if cur.value.s == "" {
        r := Put(rec, field, VNone);
      } else {
        var parsed := p.parse(cur.value.s);
        if parsed.Some? {
          r := Put(rec, field, if p.asDateTime then VDateTime(parsed.value) else VInt(parsed.value));
        }
      }
    }
  }

  /** `_cast_frappe_record`, as the dictionary it leaves behind: every listed
      datetime field, then every listed int field, that holds a string. */
  method CastFrappeRecord(t: Task, rec: Record, iso: string -> Option<int>, toInt: string -> Option<int>) returns (r: Record)
    ensures var dt := t.config.frappe.datetimeFields;
      var it := t.config.frappe.intFields;
      r == CastFields(CastFields(rec, dt, Parser(iso, true), |dt|), it, Parser(toInt, false), |it|)
  {
    r := CastLoop(rec, t.config.frappe.datetimeFields, Parser(iso, true));
    r := CastLoop(r, t.config.frappe.intFields, Parser(toInt, false));
  }

  /** Casting keeps every field where it was and changes only listed fields
      holding strings: a field's value is first cast as a datetime if it is a
      datetime field and then as an int if it is an int field. */
  lemma {:induction false} CastSpec(t: Task, rec: Record, iso: string -> Option<int>, toInt: string -> Option<int>, x: string)
    ensures var dt := t.config.frappe.datetimeFields;
      var it := t.config.frappe.intFields;
      var r := CastFields(CastFields(rec, dt, Parser(iso, true), |dt|), it, Parser(toInt, false), |it|);
      var afterDt := if x in dt then OptCast(Get(rec, x), Parser(iso, true)) else Get(rec, x);
      && Keys(r) == Keys(rec)
      && Get(r, x) == if x in it then OptCast(afterDt, Parser(toInt, false)) else afterDt
  {
    var dt := t.config.frappe.datetimeFields;
    var it := t.config.frappe.intFields;
    assert dt[..|dt|] == dt;
    assert it[..|it|] == it;
    CastFieldsGet(rec, dt, Parser(iso, true), |dt|, x);
    CastFieldsGet(CastFields(rec, dt, Parser(iso, true), |dt|), it, Parser(toInt, false), |it|, x);
    CastFieldsKeys(rec, dt, Parser(iso, true), |dt|);
    CastFieldsKeys(CastFields(rec, dt, Parser(iso, true), |dt|), it, Parser(toInt, false), |it|);
  }

  // ---------------------------------------------------------------------------
  // Keys and indexes

  /** `extract_key_from_frappe`: one entry per key field, None when absent. */
  function FrappeKey(keyFields: seq<string>, rec: Record): (key: seq<Value>)
    ensures |key| == |keyFields|
    ensures forall i :: 0 <= i < |keyFields| ==> key[i] == Get(rec, keyFields[i]).GetOr(VNone)
  {
    seq(|keyFields|, i requires 0 <= i < |keyFields| => Get(rec, keyFields[i]).GetOr(VNone))
  }

  /** Every key field has a mapping entry (the configuration validator
      demands it; `mapping[field]` raises otherwise). */
  predicate KeyFieldsMapped(cfg: TaskConfig) {
    forall i :: 0 <= i < |cfg.keyFields| ==> Has(cfg.mapping, cfg.keyFields[i])
  }

  /** The key of a database row: each key field read under its mapped column. */
  function DbKey(cfg: TaskConfig, rec: Record): (key: seq<Value>)
    requires KeyFieldsMapped(cfg)
    ensures |key| == |cfg.keyFields|
  {
    seq(|cfg.keyFields|, i requires 0 <= i < |cfg.keyFields| =>
      Get(rec, Get(cfg.mapping, cfg.keyFields[i]).value).GetOr(VNone))
  }

  /** `extract_key_from_db`. */
  method ExtractKeyFromDb(cfg: TaskConfig, rec: Record) returns (key: seq<Value>)
    requires KeyFieldsMapped(cfg)
    ensures key == DbKey(cfg, rec)
  {
    key := [];
    var i := 0;
    while i < |cfg.keyFields|
      invariant 0 <= i <= |cfg.keyFields|
      invariant key == DbKey(cfg, rec)[..i]
    {
      var column := Get(cfg.mapping, cfg.keyFields[i]).value;
      key := key + [Get(rec, column).GetOr(VNone)];
      i := i + 1;
    }
  }

  /** A key field that is mapped plainly: no value substitution, and not the
      timestamp pair that is shifted. */
  predicate PlainKeyField(t: Task, i: int)
    requires KeyFieldsMapped(t.config) && 0 <= i < |t.config.keyFields|
  {
    var f := t.config.keyFields[i];
    Get(t.config.valueMapping, f).None?
    && !(f == t.config.frappe.modifiedField && Get(t.config.mapping, f).value == t.config.db.modifiedField)
  }

  lemma {:induction false} IndexOfKey(m: Dict<string, string>, f: string) returns (j: int)
    requires Has(m, f)
    ensures 0 <= j < |m| && m[j].0 == f && m[j].1 == Get(m, f).value
  {
    if m[0].0 == f {
      j := 0;
    } else {
      var j' := IndexOfKey(m[1..], f);
      j := j' + 1;
    }
  }

  /** A document translated to the database keeps its key: the database key
      of the translated row is the document's key. */
  lemma {:induction false} KeyAgreementToDb(t: Task, rec: Record)
    requires KeyFieldsMapped(t.config)
    requires DistinctColumns(t.config.mapping)
    requires forall i :: 0 <= i < |t.config.keyFields| ==> PlainKeyField(t, i)
    ensures DbKey(t.config, ToDb(t, rec)) == FrappeKey(t.config.keyFields, rec)
  {
    var a := DbKey(t.config, ToDb(t, rec));
    var b := FrappeKey(t.config.keyFields, rec);
    forall i | 0 <= i < |t.config.keyFields|
      ensures a[i] == b[i]
    {
      assert PlainKeyField(t, i);
      var j := IndexOfKey(t.config.mapping, t.config.keyFields[i]);
      ToDbValue(t, rec, j);
    }
  }

  /** A database row translated to a document keeps its key. */
  lemma {:induction false} KeyAgreementFromDb(t: Task, rec: Record)
    requires KeyFieldsMapped(t.config)
    requires DistinctKeys(t.config.mapping)
    requires forall i :: 0 <= i < |t.config.keyFields| ==> Get(t.config.valueMapping, t.config.keyFields[i]).None?
    ensures FrappeKey(t.config.keyFields, FromDb(t, rec)) == DbKey(t.config, rec)
  {
    var a := FrappeKey(t.config.keyFields, FromDb(t, rec));
    var b := DbKey(t.config, rec);
    forall i | 0 <= i < |t.config.keyFields|
      ensures a[i] == b[i]
    {
      var j := IndexOfKey(t.config.mapping, t.config.keyFields[i]);
      FromDbValue(t, rec, j);
    }
  }

  /** The key-to-record dictionary after the first `n` records: each record
      stored under its key, a later record replacing an earlier one. */
  function IndexUpTo(keys: seq<seq<Value>>, recs: seq<Record>, n: nat): Dict<seq<Value>, Record>
    requires |keys| == |recs| && n <= |recs|
  {
    if n == 0 then [] else Put(IndexUpTo(keys, recs, n - 1), keys[n - 1], recs[n - 1])
  }

  lemma {:induction false} IndexUpToHas(keys: seq<seq<Value>>, recs: seq<Record>, n: nat, k: seq<Value>)
    requires |keys| == |recs| && n <= |recs|
    ensures Has(IndexUpTo(keys, recs, n), k) <==> k in keys[..n]
  {
    if n > 0 {
      IndexUpToHas(keys, recs, n - 1, k);
      assert keys[..n] == keys[..n - 1] + [keys[n - 1]];
      assert IndexUpTo(keys, recs, n) == Put(IndexUpTo(keys, recs, n - 1), keys[n - 1], recs[n - 1]);
    }
  }

  lemma {:induction false} IndexUpToLast(keys: seq<seq<Value>>, recs: seq<Record>, n: nat, i: int)
    requires |keys| == |recs| && 0 <= i < n <= |recs|
    requires forall j :: i < j < n ==> keys[j] != keys[i]
    ensures Get(IndexUpTo(keys, recs, n), keys[i]) == Some(recs[i])
  {
    if i < n - 1 {
      IndexUpToLast(keys, recs, n - 1, i);
      assert keys[n - 1] != keys[i];
    }
  }

  /** Keys of every record, as `extract_key_from_frappe` computes them. */
  function FrappeKeys(keyFields: seq<string>, recs: seq<Record>): (ks: seq<seq<Value>>)
    ensures |ks| == |recs|
    ensures forall i :: 0 <= i < |recs| ==> ks[i] == FrappeKey(keyFields, recs[i])
  {
    seq(|recs|, i requires 0 <= i < |recs| => FrappeKey(keyFields, recs[i]))
  }

  function DbKeys(cfg: TaskConfig, recs: seq<Record>): (ks: seq<seq<Value>>)
    requires KeyFieldsMapped(cfg)
    ensures |ks| == |recs|
    ensures forall i :: 0 <= i < |recs| ==> ks[i] == DbKey(cfg, recs[i])
  {
    seq(|recs|, i requires 0 <= i < |recs| => DbKey(cfg, recs[i]))
  }

  /** `get_frappe_key_record_dict`. */
  method GetFrappeKeyRecordDict(cfg: TaskConfig, recs: seq<Record>) returns (d: Dict<seq<Value>, Record>)
    ensures d == IndexUpTo(FrappeKeys(cfg.keyFields, recs), recs, |recs|)
  {
    var keys := FrappeKeys(cfg.keyFields, recs);
    d := [];
    var i := 0;
    while i < |recs|
      invariant 0 <= i <= |recs|
      invariant d == IndexUpTo(keys, recs, i)
    {
      var key := FrappeKey(cfg.keyFields, recs[i]);
      assert IndexUpTo(keys, recs, i + 1) == Put(IndexUpTo(keys, recs, i), key, recs[i]);
      d := Put(d, key, recs[i]);
      i := i + 1;
    }
  }

  /** `get_db_key_record_dict`. */
  method GetDbKeyRecordDict(cfg: TaskConfig, recs: seq<Record>) returns (d: Dict<seq<Value>, Record>)
    requires KeyFieldsMapped(cfg)
    ensures d == IndexUpTo(DbKeys(cfg, recs), recs, |recs|)
  {
    var keys := DbKeys(cfg, recs);
    d := [];
    var i := 0;
    while i < |recs|
      invariant 0 <= i <= |recs|
      invariant d == IndexUpTo(keys, recs, i)
    {
      var key := ExtractKeyFromDb(cfg, recs[i]);
      d := Put(d, key, recs[i]);
      assert d == IndexUpTo(keys, recs, i + 1);
      i := i + 1;
    }
  }

  /** The index holds a key exactly when some record has it, and under it the
      last record with that key. */
  lemma {:induction false} IndexLastWins(keys: seq<seq<Value>>, recs: seq<Record>, i: int)
    requires |keys| == |recs| && 0 <= i < |recs|
    requires forall j :: i < j < |recs| ==> keys[j] != keys[i]
    ensures Get(IndexUpTo(keys, recs, |recs|), keys[i]) == Some(recs[i])
  {
    IndexUpToLast(keys, recs, |recs|, i);
  }

  lemma {:induction false} IndexHas(keys: seq<seq<Value>>, recs: seq<Record>, k: seq<Value>)
    requires |keys| == |recs|
    ensures Has(IndexUpTo(keys, recs, |recs|), k) <==> k in keys
  {
    IndexUpToHas(keys, recs, |recs|, k);
    assert keys[..|recs|] == keys;
  }

  // ---------------------------------------------------------------------------
  // Worked cases

  /** A task over table "table" keyed by "modified", with the given mapping,
      value mapping, strictness, int fields and time-zone offsets. */
  function ExampleTask(mapping: Dict<string, string>, vm: Dict<string, Dict<Value, Value>>, strict: bool,
                       intFields: seq<string>, frappeTz: int, dbTz: int): Task
  {
    Task("dummy",
      TaskConfig("db", "DocType", "table", mapping, vm, strict, ["modified"], true, true, None, None,
        FrappeSide("modified", ["modified"], intFields), DbSide("updated_at", None, "name", false, None)),
      false, Mssql, frappeTz, dbTz)
  }

  /** 12:00 in Frappe at UTC+2 is written as 11:00 to a database at UTC+1. */
  lemma {:induction false} ShiftToDbExample()
    ensures ToDb(ExampleTask([("modified", "updated_at")], [], false, [], 120, 60), [("modified", VDateTime(720))])
         == [("updated_at", VDateTime(660))]
  {
  }

  /** The reverse direction leaves 12:00 at 12:00 (no shift to 13:00). */
  lemma {:induction false} NoShiftFromDbExample()
    ensures FromDb(ExampleTask([("modified", "updated_at")], [], false, [], 120, 60), [("updated_at", VDateTime(720))])
         == [("modified", VDateTime(720))]
  {
  }

  /** Strict value mapping drops a value it has no pair for, in both directions. */
  lemma {:induction false} StrictDropsUnknownExample()
    ensures var t := ExampleTask([("modified", "updated_at"), ("status", "status_db")],
                                 [("status", [(VStr("open"), VInt(1))])], true, [], 0, 0);
      && ToDb(t, [("modified", VDateTime(0)), ("status", VStr("closed"))]) == [("updated_at", VDateTime(0))]
      && FromDb(t, [("updated_at", VDateTime(0)), ("status_db", VInt(2))]) == [("modified", VDateTime(0))]
  {
    var t := ExampleTask([("modified", "updated_at"), ("status", "status_db")],
                         [("status", [(VStr("open"), VInt(1))])], true, [], 0, 0);
    StrictDropsToDb(t);
    StrictDropsFromDb(t);
  }

  lemma {:induction false} StrictDropsToDb(t: Task)
    requires t == ExampleTask([("modified", "updated_at"), ("status", "status_db")],
                              [("status", [(VStr("open"), VInt(1))])], true, [], 0, 0)
    ensures ToDb(t, [("modified", VDateTime(0)), ("status", VStr("closed"))]) == [("updated_at", VDateTime(0))]
  {
    var rec := [("modified", VDateTime(0)), ("status", VStr("closed"))];
    assert ToDbUpTo(t, rec, 1) == [("updated_at", VDateTime(0))];
    assert Get(rec, "status") == Some(VStr("closed"));
    assert Get([(VStr("open"), VInt(1))], VStr("closed")).None?;
    assert ForwardValue(t, "status", "status_db", rec).None?;
  }

  lemma {:induction false} StrictDropsFromDb(t: Task)
    requires t == ExampleTask([("modified", "updated_at"), ("status", "status_db")],
                              [("status", [(VStr("open"), VInt(1))])], true, [], 0, 0)
    ensures FromDb(t, [("updated_at", VDateTime(0)), ("status_db", VInt(2))]) == [("modified", VDateTime(0))]
  {
    var rec := [("updated_at", VDateTime(0)), ("status_db", VInt(2))];
    assert FromDbUpTo(t, rec, 1) == [("modified", VDateTime(0))];
    assert Get(rec, "status_db") == Some(VInt(2));
    assert KeyOfValue([(VStr("open"), VInt(1))], VInt(2)).None?;
    assert BackwardValue(t, "status", "status_db", rec).None?;
  }

  /** The reverse lookup maps database value 1 back to "open". */
  lemma {:induction false} ReverseValueMappingExample()
    ensures var t := ExampleTask([("modified", "updated_at"), ("status", "status_db")],
                                 [("status", [(VStr("open"), VInt(1))])], false, [], 0, 0);
      FromDb(t, [("updated_at", VDateTime(0)), ("status_db", VInt(1))])
        == [("modified", VDateTime(0)), ("status", VStr("open"))]
  {
    var t := ExampleTask([("modified", "updated_at"), ("status", "status_db")],
                         [("status", [(VStr("open"), VInt(1))])], false, [], 0, 0);
    var rec := [("updated_at", VDateTime(0)), ("status_db", VInt(1))];
    assert FromDbUpTo(t, rec, 1) == [("modified", VDateTime(0))];
    assert Get(rec, "status_db") == Some(VInt(1));
    assert Get(t.config.valueMapping, "status") == Some([(VStr("open"), VInt(1))]);
    assert KeyOfValue([(VStr("open"), VInt(1))], VInt(1)) == Some(VStr("open"));
    assert BackwardValue(t, "status", "status_db", rec) == Some(VStr("open"));
    assert FromDbUpTo(t, rec, 2) == Put([("modified", VDateTime(0))], "status", VStr("open"));
    assert Put([("modified", VDateTime(0))], "status", VStr("open")) == [("modified", VDateTime(0)), ("status", VStr("open"))];
  }

  /** A datetime field and an int field holding strings are parsed; an
      unlisted field is left alone. */
  lemma {:induction false} CastExample(iso: string -> Option<int>, toInt: string -> Option<int>)
    requires iso("2024-01-01T10:00:00") == Some(600) && toInt("5") == Some(5)
    ensures var t := ExampleTask([("modified", "updated_at"), ("count", "cnt_db")], [], false, ["count"], 0, 0);
      var rec := [("modified", VStr("2024-01-01T10:00:00")), ("count", VStr("5")), ("other", VStr("keep"))];
      CastFields(CastFields(rec, ["modified"], Parser(iso, true), 1), ["count"], Parser(toInt, false), 1)
        == [("modified", VDateTime(600)), ("count", VInt(5)), ("other", VStr("keep"))]
  {
    var rec := [("modified", VStr("2024-01-01T10:00:00")), ("count", VStr("5")), ("other", VStr("keep"))];
    var mid := [("modified", VDateTime(600)), ("count", VStr("5")), ("other", VStr("keep"))];
    CastModifiedExample(rec, iso);
    assert CastFields(rec, ["modified"], Parser(iso, true), 1) == mid;
    CastCountExample(mid, toInt);
  }

  lemma {:induction false} CastModifiedExample(rec: Record, iso: string -> Option<int>)
    requires iso("2024-01-01T10:00:00") == Some(600)
    requires rec == [("modified", VStr("2024-01-01T10:00:00")), ("count", VStr("5")), ("other", VStr("keep"))]
    ensures CastFields(rec, ["modified"], Parser(iso, true), 1)
         == [("modified", VDateTime(600)), ("count", VStr("5")), ("other", VStr("keep"))]
  {
    assert Get(rec, "modified") == Some(VStr("2024-01-01T10:00:00"));
    assert CastFields(rec, ["modified"], Parser(iso, true), 1) == CastField(rec, "modified", Parser(iso, true));
  }

  lemma {:induction false} CastCountExample(mid: Record, toInt: string -> Option<int>)
    requires toInt("5") == Some(5)
    requires mid == [("modified", VDateTime(600)), ("count", VStr("5")), ("other", VStr("keep"))]
    ensures CastFields(mid, ["count"], Parser(toInt, false), 1)
         == [("modified", VDateTime(600)), ("count", VInt(5)), ("other", VStr("keep"))]
  {
    assert Get(mid, "count") == Some(VStr("5"));
    assert CastFields(mid, ["count"], Parser(toInt, false), 1) == CastField(mid, "count", Parser(toInt, false));
    assert CastValue(VStr("5"), Parser(toInt, false)) == VInt(5);
    assert Put(mid, "count", VInt(5)) == [("modified", VDateTime(600)), ("count", VInt(5)), ("other", VStr("keep"))];
  }
}
