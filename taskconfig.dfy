/** Task configuration as config.py validates it (its validators, defaults
    and the post-init step of the Frappe section), and the older loader of
    sync_task.py that normalises `key_fields`. */
module Settings {
  import opened Base

  datatype Direction = Bidirectional | DbToFrappe | FrappeToDb

  /** The Frappe section as written; `datetimeFields` is None when omitted. */
  datatype FrappeInput = FrappeInput(modifiedField: string, datetimeFields: Option<seq<string>>)

  /** The database section as written. */
  datatype DbInput = DbInput(modifiedField: string, fallbackModifiedField: Option<string>)

  /** A task entry as written; an optional setting is None when omitted. */
  datatype TaskInput = TaskInput(
    direction: Direction,
    mapping: Dict<string, string>,
    keyFields: seq<string>,
    frappe: Option<FrappeInput>,
    db: Option<DbInput>,
    name: Option<string>,
    tableName: Option<string>,
    query: Option<string>,
    queryWithTimestamp: Option<string>,
    createNew: Option<bool>,
    useLastSyncDate: Option<bool>,
    processAll: Option<bool>,
    delete: Option<bool>)

  /** The Frappe section after construction. */
  datatype FrappeSection = FrappeSection(modifiedField: string, idField: string, datetimeFields: seq<string>)

  /** A validated task with every default filled in. `processAll` is only
      a setting of db_to_frappe tasks and `delete` only of bidirectional
      ones; elsewhere they are None. */
  datatype TaskSettings = TaskSettings(
    direction: Direction,
    mapping: Dict<string, string>,
    keyFields: seq<string>,
    frappe: Option<FrappeSection>,
    db: Option<DbInput>,
    name: string,
    tableName: Option<string>,
    query: Option<string>,
    queryWithTimestamp: Option<string>,
    createNew: bool,
    useLastSyncDate: bool,
    processAll: Option<bool>,
    delete: Option<bool>)

  /** Why a task entry is rejected, in the order the checks run. */
  datatype ConfigError =
    | TableNameRequired
    | SectionsRequired
    | KeyFieldsNotMapped(missing: seq<string>)
    | FrappeSectionRequired
    | DbSectionRequired
    | QueryWithTimestampRequired
    | TableOrQueryRequired

  datatype Result<T> = Ok(value: T) | Err(error: ConfigError)

  /** The key fields without a mapping entry, in key-field order. */
  function MissingKeys(keyFields: seq<string>, mapping: Dict<string, string>): (r: seq<string>)
    ensures forall k :: k in r <==> k in keyFields && !Has(mapping, k)
    ensures r == [] <==> forall i :: 0 <= i < |keyFields| ==> Has(mapping, keyFields[i])
  {
    if keyFields == [] then []
    else (if Has(mapping, keyFields[0]) then [] else [keyFields[0]]) + MissingKeys(keyFields[1..], mapping)
  }

  /** `TaskFrappeBase.model_post_init` on a section: the modified field is
      appended to the datetime fields unless it is already one. */
  function PostInit(f: FrappeInput): (r: FrappeSection)
    ensures f.modifiedField in r.datetimeFields
    ensures var given := f.datetimeFields.GetOr([]);
      r.datetimeFields == if f.modifiedField in given then given else given + [f.modifiedField]
  {
    var given := f.datetimeFields.GetOr([]);
    FrappeSection(f.modifiedField, "name", if f.modifiedField in given then given else given + [f.modifiedField])
  }

  function DefaultName(d: Direction): string {
    match d
    case Bidirectional => "Bidirectional Sync"
    case DbToFrappe => "DB -> Frappe"
    case FrappeToDb => "Frappe -> DB"
  }

  /** Constructing a task from its entry: the field types first (a table
      name for frappe_to_db and bidirectional tasks, both sections for
      bidirectional ones), then the key-field check, the checkpoint
      requirements, and for db_to_frappe the table-or-query check. */
  function Validate(x: TaskInput): (r: Result<TaskSettings>)
    ensures r.Ok? ==> (r.value.name == x.name.GetOr(DefaultName(x.direction))
      && r.value.createNew == x.createNew.GetOr(true)
      && r.value.useLastSyncDate == x.useLastSyncDate.GetOr(true)
      && r.value.processAll == (if x.direction == DbToFrappe then Some(x.processAll.GetOr(true)) else None)
      && r.value.delete == (if x.direction == Bidirectional then Some(x.delete.GetOr(true)) else None)
      && r.value.keyFields == x.keyFields && r.value.mapping == x.mapping
      && r.value.frappe == (match x.frappe case None => None case Some(f) => Some(PostInit(f))))
  {
    if x.direction != DbToFrappe && x.tableName.None? then Err(TableNameRequired)
    else if x.direction == Bidirectional && (x.frappe.None? || x.db.None?) then Err(SectionsRequired)
    else if MissingKeys(x.keyFields, x.mapping) != [] then Err(KeyFieldsNotMapped(MissingKeys(x.keyFields, x.mapping)))
    else if x.useLastSyncDate.GetOr(true) && x.frappe.None? then Err(FrappeSectionRequired)
    else if x.useLastSyncDate.GetOr(true) && x.db.None? then Err(DbSectionRequired)
    else if x.useLastSyncDate.GetOr(true) && x.query.Some? && x.queryWithTimestamp.None? then Err(QueryWithTimestampRequired)
    else if x.direction == DbToFrappe && x.tableName.None? && x.query.None? then Err(TableOrQueryRequired)
    else
      Ok(TaskSettings(
        x.direction, x.mapping, x.keyFields,
        match x.frappe case None => None case Some(f) => Some(PostInit(f)),
        x.db, x.name.GetOr(DefaultName(x.direction)), x.tableName, x.query, x.queryWithTimestamp,
        x.createNew.GetOr(true), x.useLastSyncDate.GetOr(true),
        if x.direction == DbToFrappe then Some(x.processAll.GetOr(true)) else None,
        if x.direction == Bidirectional then Some(x.delete.GetOr(true)) else None))
  }

  /** An accepted task has every key field in its mapping; with checkpoints
      in use it has both sections and, if it has a custom query, the
      timestamped variant; a db_to_frappe task has a table or a query, and
      the others a table. */
  lemma {:induction false} AcceptedTask(x: TaskInput)
    requires Validate(x).Ok?
    ensures forall i :: 0 <= i < |x.keyFields| ==> Has(x.mapping, x.keyFields[i])
    ensures x.useLastSyncDate.GetOr(true) ==> x.frappe.Some? && x.db.Some? && (x.query.Some? ==> x.queryWithTimestamp.Some?)
    ensures x.direction == DbToFrappe ==> x.tableName.Some? || x.query.Some?
    ensures x.direction != DbToFrappe ==> x.tableName.Some?
  {
  }

  /** A key field missing from the mapping rejects the entry, naming every
      missing key field in order (once the field types are right). */
  lemma {:induction false} UnmappedKeyRejected(x: TaskInput, i: int)
    requires 0 <= i < |x.keyFields| && !Has(x.mapping, x.keyFields[i])
    requires x.direction != DbToFrappe ==> x.tableName.Some?
    requires x.direction == Bidirectional ==> x.frappe.Some? && x.db.Some?
    ensures Validate(x) == Err(KeyFieldsNotMapped(MissingKeys(x.keyFields, x.mapping)))
  {
    assert x.keyFields[i] in MissingKeys(x.keyFields, x.mapping);
  }

  /** With checkpoints switched off, the sections and the timestamped query
      are not demanded: such an entry is accepted exactly when its types,
      key fields and table-or-query requirement are satisfied. */
  lemma {:induction false} NoCheckpointNoSectionChecks(x: TaskInput)
    requires x.useLastSyncDate == Some(false)
    ensures Validate(x).Ok? <==>
      && (x.direction != DbToFrappe ==> x.tableName.Some?)
      && (x.direction == Bidirectional ==> x.frappe.Some? && x.db.Some?)
      && (forall i :: 0 <= i < |x.keyFields| ==> Has(x.mapping, x.keyFields[i]))
      && (x.direction == DbToFrappe ==> x.tableName.Some? || x.query.Some?)
  {
  }

  /** The Frappe section of a task, whose post-init step extends its
      datetime fields in place. */
  class FrappeSectionObject {
    var modifiedField: string
    var datetimeFields: seq<string>

    constructor (modifiedField: string, datetimeFields: seq<string>)
      ensures this.modifiedField == modifiedField && this.datetimeFields == datetimeFields
    {
      this.modifiedField := modifiedField;
      this.datetimeFields := datetimeFields;
    }

    /** `model_post_init` */
    method ModelPostInit()
      modifies this
      ensures modifiedField == old(modifiedField)
      ensures datetimeFields == PostInit(FrappeInput(modifiedField, Some(old(datetimeFields)))).datetimeFields
    {
      if modifiedField !in datetimeFields {
        datetimeFields := datetimeFields + [modifiedField];
      }
    }
  }

  /** The number of times `x` occurs in `s`. */
  function Occurrences(s: seq<string>, x: string): (n: nat)
    ensures n == 0 <==> x !in s
  {
    if s == [] then 0 else (if s[0] == x then 1 else 0) + Occurrences(s[1..], x)
  }

  lemma {:induction false} OccurrencesAppend(s: seq<string>, x: string, y: string)
    ensures Occurrences(s + [y], x) == Occurrences(s, x) + if y == x then 1 else 0
  {
    if s != [] {
      assert (s + [y])[1..] == s[1..] + [y];
      OccurrencesAppend(s[1..], x, y);
    }
  }

  /** Post-init puts the modified field among the datetime fields without
      ever duplicating it: it then occurs once if it was absent and as
      often as before otherwise, and no other field changes count. */
  lemma {:induction false} PostInitNoDuplicate(f: FrappeInput, x: string)
    ensures var given := f.datetimeFields.GetOr([]);
      Occurrences(PostInit(f).datetimeFields, x)
        == if x == f.modifiedField && f.modifiedField !in given then 1 else Occurrences(given, x)
  {
    var given := f.datetimeFields.GetOr([]);
    if f.modifiedField !in given {
      OccurrencesAppend(given, x, f.modifiedField);
    }
  }

  // ---------------------------------------------------------------------------
  // The older loader (sync_task.py)

  /** `key_fields` as it comes out of the YAML: absent or null, a string, a
      list of strings, or any other value (with its truthiness). */
  datatype KeyFieldsInput = KMissing | KStr(s: string) | KList(items: seq<string>) | KOther(truthy: bool)

  /** Python truthiness of the setting. */
  predicate KeyFieldsTruthy(k: KeyFieldsInput) {
    match k
    case KMissing => false
    case KStr(s) => s != ""
    case KList(items) => items != []
    case KOther(b) => b
  }

  /** `key_fields` normalised to a list: a string becomes a one-element
      list, a list stays, a falsy value becomes the empty list, and any
      other truthy value is rejected (None). */
  function NormalizeKeyFields(k: KeyFieldsInput): (r: Option<seq<string>>)
    ensures r.None? <==> KeyFieldsTruthy(k) && k.KOther?
    ensures !KeyFieldsTruthy(k) ==> r == Some([])
    ensures k.KStr? && k.s != "" ==> r == Some([k.s])
    ensures k.KList? ==> r == Some(k.items)
  {
    if !KeyFieldsTruthy(k) then Some([])
    else match k
      case KStr(s) => Some([s])
      case KList(items) => Some(items)
      case _ => None
  }

  /** A task entry as the older loader reads it; None when the key is absent. */
  datatype LegacyInput = LegacyInput(
    name: Option<string>,
    endpoint: Option<string>,
    mapping: Option<Dict<string, string>>,
    dbName: Option<string>,
    direction: Option<string>,
    keyFields: KeyFieldsInput,
    processAll: Option<bool>,
    createNew: Option<bool>,
    query: Option<string>,
    tableName: Option<string>)

  /** The settings an older task object holds after `load_config`. */
  class LegacyTask {
    var name: Option<string>
    var endpoint: Option<string>
    var mapping: Option<Dict<string, string>>
    var dbName: Option<string>
    var direction: string
    var keyFields: seq<string>
    var processAll: bool
    var createNew: bool
    var query: Option<string>
    var tableName: Option<string>

    constructor ()
      ensures keyFields == [] && !processAll && !createNew
    {
      name, endpoint, mapping, dbName := None, None, None, None;
      direction, keyFields, processAll, createNew := "db_to_frappe", [], false, false;
      query, tableName := None, None;
    }

    /** The plain settings `load_config` copies, with their defaults. */
    method CopySettings(x: LegacyInput)
      modifies this
      ensures keyFields == old(keyFields)
      ensures name == x.name && endpoint == x.endpoint && mapping == x.mapping && dbName == x.dbName
      ensures direction == x.direction.GetOr("db_to_frappe")
      ensures processAll == x.processAll.GetOr(false) && createNew == x.createNew.GetOr(false)
      ensures query == x.query && tableName == x.tableName
    {
      name := x.name;
      endpoint := x.endpoint;
      mapping := x.mapping;
      dbName := x.dbName;
      direction := x.direction.GetOr("db_to_frappe");
      processAll := x.processAll.GetOr(false);
      createNew := x.createNew.GetOr(false);
      query := x.query;
      tableName := x.tableName;
    }

    /** `load_config`: copies the entry with the defaults direction
        "db_to_frappe", process_all False and create_new False, and
        normalises `key_fields`; `ok` is false where the source raises. */
    method LoadConfig(x: LegacyInput) returns (ok: bool)
      modifies this
      ensures ok <==> NormalizeKeyFields(x.keyFields).Some?
      ensures ok ==> keyFields == NormalizeKeyFields(x.keyFields).value
      ensures name == x.name && endpoint == x.endpoint && mapping == x.mapping && dbName == x.dbName
      ensures direction == x.direction.GetOr("db_to_frappe")
      ensures processAll == x.processAll.GetOr(false) && createNew == x.createNew.GetOr(false)
      ensures query == x.query && tableName == x.tableName
    {
      CopySettings(x);
      if KeyFieldsTruthy(x.keyFields) {
        if x.keyFields.KStr? {
          keyFields := [x.keyFields.s];
        } else if x.keyFields.KList? {
          keyFields := x.keyFields.items;
        } else {
          return false;
        }
      } else {
        keyFields := [];
      }
      return true;
    }
  }
}
