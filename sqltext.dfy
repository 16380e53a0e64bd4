/** The SQL text a sync task sends (sync/task.py, sync/frappe_to_db.py):
    every statement is assembled from escaped identifiers and `?`
    placeholders, and the parameters travel separately, in placeholder order. */
module SqlText {
  import opened Base
  import opened Text
  import opened DbApi
  import opened SyncTask

  /** `self.esc_db_col` applied to every name. */
  function EscAll(d: Dialect, names: seq<string>): (r: seq<string>)
    ensures |r| == |names|
    ensures forall i :: 0 <= i < |names| ==> r[i] == EscapeIdentifier(d, names[i])
  {
    seq(|names|, i requires 0 <= i < |names| => EscapeIdentifier(d, names[i]))
  }

  /** `[f"{n} = ?" for n in names]` */
  function Assign(names: seq<string>): (r: seq<string>)
    ensures |r| == |names|
  {
    seq(|names|, i requires 0 <= i < |names| => names[i] + " = ?")
  }

  /** The assignments once their placeholders are filled in. */
  function Bound(names: seq<string>, vals: seq<string>): (r: seq<string>)
    requires |names| == |vals|
    ensures |r| == |names|
  {
    seq(|names|, i requires 0 <= i < |names| => names[i] + " = " + vals[i])
  }

  /** `["?"] * n` */
  function Marks(n: nat): (r: seq<string>)
    ensures |r| == n
  {
    seq(n, _ => "?")
  }

  predicate NoMarkIn(names: seq<string>) {
    forall i :: 0 <= i < |names| ==> '?' !in names[i]
  }

  // ---------------------------------------------------------------------------
  // Facts about placeholder substitution

  lemma {:induction false} SubstituteNoMarks(a: string, ps: seq<string>)
    requires '?' !in a
    ensures Substitute(a, ps) == a
  {
    if a != [] {
      SubstituteNoMarks(a[1..], ps);
    }
  }

  lemma {:induction false} SubstituteAppend(a: string, b: string, ps: seq<string>)
    requires Count(a, '?') <= |ps|
    ensures Substitute(a + b, ps) == Substitute(a, ps) + Substitute(b, ps[Count(a, '?')..])
  {
    if a == [] {
      assert a + b == b;
    } else {
      assert (a + b)[0] == a[0] && (a + b)[1..] == a[1..] + b;
      if a[0] == '?' {
        SubstituteAppend(a[1..], b, ps[1..]);
        assert ps[1..][Count(a[1..], '?')..] == ps[Count(a, '?')..];
      } else {
        SubstituteAppend(a[1..], b, ps);
      }
    }
  }

  /** A mark-free prefix is copied through. */
  lemma {:induction false} Prefix(a: string, b: string, ps: seq<string>)
    requires '?' !in a
    ensures Count(a + b, '?') == Count(b, '?')
    ensures Substitute(a + b, ps) == a + Substitute(b, ps)
  {
    CountAbsent(a, '?');
    CountAppend(a, b, '?');
    SubstituteAppend(a, b, ps);
    SubstituteNoMarks(a, ps);
    assert ps[0..] == ps;
  }

  /** A mark-free suffix is copied through once the marks before it are filled. */
  lemma {:induction false} Suffix(b: string, c: string, ps: seq<string>)
    requires '?' !in c && Count(b, '?') <= |ps|
    ensures Count(b + c, '?') == Count(b, '?')
    ensures Substitute(b + c, ps) == Substitute(b, ps) + c
  {
    CountAbsent(c, '?');
    CountAppend(b, c, '?');
    SubstituteAppend(b, c, ps);
    SubstituteNoMarks(c, ps[Count(b, '?')..]);
  }

  /** Escaping never brings in a `?`. */
  lemma {:induction false} EscapeNoMark(d: Dialect, name: string)
    requires '?' !in name
    ensures '?' !in EscapeIdentifier(d, name)
  {
    if !Safe(d, name) {
      DoubleAbsent(name, CloseQuote(d), '?');
    }
  }

  lemma {:induction false} EscAllNoMark(d: Dialect, names: seq<string>)
    requires NoMarkIn(names)
    ensures NoMarkIn(EscAll(d, names))
  {
    forall i | 0 <= i < |names|
      ensures '?' !in EscAll(d, names)[i]
    {
      EscapeNoMark(d, names[i]);
    }
  }

  lemma {:induction false} AssignOne(name: string, ps: seq<string>)
    requires '?' !in name && |ps| >= 1
    ensures Count(name + " = ?", '?') == 1
    ensures Substitute(name + " = ?", ps) == name + " = " + ps[0]
  {
    CountAbsent(name + " = ", '?');
    CountAppend(name + " = ", "?", '?');
    assert name + " = ?" == (name + " = ") + "?";
    SubstituteAppend(name + " = ", "?", ps);
    SubstituteNoMarks(name + " = ", ps);
  }

  /** A list of `name = ?` assignments has one placeholder per name, and
      filling it binds the i-th value to the i-th name. */
  lemma {:induction false} AssignLineUp(names: seq<string>, vals: seq<string>, sep: string)
    requires |names| == |vals| && NoMarkIn(names) && '?' !in sep
    ensures Count(Join(Assign(names), sep), '?') == |names|
    ensures Substitute(Join(Assign(names), sep), vals) == Join(Bound(names, vals), sep)
  {
    if |names| == 1 {
      AssignOne(names[0], vals);
    } else if |names| > 1 {
      var head := names[0] + " = ?";
      var tail := Join(Assign(names[1..]), sep);
      assert Assign(names)[1..] == Assign(names[1..]);
      assert Bound(names, vals)[1..] == Bound(names[1..], vals[1..]);
      assert Join(Assign(names), sep) == head + (sep + tail);
      AssignOne(names[0], vals);
      AssignLineUp(names[1..], vals[1..], sep);
      CountAbsent(sep, '?');
      CountAppend(sep, tail, '?');
      CountAppend(head, sep + tail, '?');
      SubstituteAppend(head, sep + tail, vals);
      SubstituteAppend(sep, tail, vals[1..]);
      SubstituteNoMarks(sep, vals[1..]);
      assert vals[1..][0..] == vals[1..];
    }
  }

  /** `", ".join(["?"] * n)` has n placeholders, filled in order. */
  lemma {:induction false} MarksLineUp(vals: seq<string>, sep: string)
    requires '?' !in sep
    ensures Count(Join(Marks(|vals|), sep), '?') == |vals|
    ensures Substitute(Join(Marks(|vals|), sep), vals) == Join(vals, sep)
  {
    if |vals| == 1 {
      assert Substitute("?", vals) == vals[0] + Substitute("", vals[1..]);
    } else if |vals| > 1 {
      var tail := Join(Marks(|vals| - 1), sep);
      assert Marks(|vals|)[1..] == Marks(|vals| - 1);
      assert Join(Marks(|vals|), sep) == "?" + (sep + tail);
      MarksLineUp(vals[1..], sep);
      CountAbsent(sep, '?');
      CountAppend(sep, tail, '?');
      CountAppend("?", sep + tail, '?');
      SubstituteAppend("?", sep + tail, vals);
      SubstituteAppend(sep, tail, vals[1..]);
      SubstituteNoMarks(sep, vals[1..]);
      assert Substitute("?", vals) == vals[0] + Substitute("", vals[1..]);
      assert vals[1..][0..] == vals[1..];
    }
  }

  // ---------------------------------------------------------------------------
  // UPDATE

  /** The statement `update_db_record` sends. */
  function UpdateSql(table: string, d: Dialect, setCols: seq<string>, keyCols: seq<string>): string {
    "UPDATE " + table + " SET " + Join(Assign(EscAll(d, setCols)), ", ")
      + " WHERE " + Join(Assign(EscAll(d, keyCols)), " AND ")
  }

  /** A statement whose only marks lie in its middle part: the marks are
      those of the middle, and filling them leaves both ends as they are. */
  lemma {:induction false} Sandwich(head: string, mid: string, tail: string, ps: seq<string>)
    requires '?' !in head && '?' !in tail && Count(mid, '?') <= |ps|
    ensures Count(head + mid + tail, '?') == Count(mid, '?')
    ensures Substitute(head + mid + tail, ps) == head + Substitute(mid, ps) + tail
  {
    assert head + mid + tail == head + (mid + tail);
    Suffix(mid, tail, ps);
    Prefix(head, mid + tail, ps);
  }

  /** The UPDATE has one placeholder per SET column and per key column, and
      the parameter list `data values + key values` binds the SET values to
      the SET columns and the key values to the WHERE columns, in order. */
  lemma {:induction false} UpdateParamsLineUp(table: string, d: Dialect, setCols: seq<string>, keyCols: seq<string>,
                           setVals: seq<string>, keyVals: seq<string>)
    requires '?' !in table && NoMarkIn(setCols) && NoMarkIn(keyCols)
    requires |setVals| == |setCols| && |keyVals| == |keyCols|
    ensures Count(UpdateSql(table, d, setCols, keyCols), '?') == |setCols| + |keyCols|
    ensures Substitute(UpdateSql(table, d, setCols, keyCols), setVals + keyVals)
         == "UPDATE " + table + " SET " + Join(Bound(EscAll(d, setCols), setVals), ", ")
            + " WHERE " + Join(Bound(EscAll(d, keyCols), keyVals), " AND ")
  {
    var p1 := "UPDATE " + table + " SET ";
    var p2 := Join(Assign(EscAll(d, setCols)), ", ");
    var p4 := Join(Assign(EscAll(d, keyCols)), " AND ");
    EscAllNoMark(d, setCols);
    AssignLineUp(EscAll(d, setCols), setVals, ", ");
    EscAllNoMark(d, keyCols);
    AssignLineUp(EscAll(d, keyCols), keyVals, " AND ");
    UpdateTextClean(table);
    UpdateHalves(p1, p2, p4, setVals, keyVals);
  }

  /** The two halves of the UPDATE are filled independently. */
  lemma {:induction false} UpdateHalves(p1: string, p2: string, p4: string, setVals: seq<string>, keyVals: seq<string>)
    requires '?' !in p1
    requires Count(p2, '?') == |setVals| && Count(p4, '?') == |keyVals|
    ensures Count(p1 + p2 + " WHERE " + p4, '?') == |setVals| + |keyVals|
    ensures Substitute(p1 + p2 + " WHERE " + p4, setVals + keyVals)
         == p1 + Substitute(p2, setVals) + " WHERE " + Substitute(p4, keyVals)
  {
    var ps := setVals + keyVals;
    var x := p1 + p2 + " WHERE ";
    Sandwich(p1, p2, " WHERE ", ps);
    CountAppend(x, p4, '?');
    SubstituteAppend(x, p4, ps);
    assert ps[|setVals|..] == keyVals;
    assert ps[..|setVals|] == setVals;
    SubstituteIgnoresSurplus(p2, ps, |setVals|);
  }

  lemma {:induction false} UpdateTextClean(table: string)
    requires '?' !in table
    ensures '?' !in "UPDATE " + table + " SET " && '?' !in " WHERE "
  {
  }

  // ---------------------------------------------------------------------------
  // INSERT and the SELECT after a write

  /** The statement `insert_frappe_record_to_db` sends. */
  function InsertSql(table: string, d: Dialect, cols: seq<string>): string {
    "INSERT INTO " + table + " (" + Join(EscAll(d, cols), ", ") + ") VALUES ("
      + Join(Marks(|cols|), ", ") + ");"
  }

  /** The INSERT has one placeholder per column, and the values land in the
      VALUES list in column order. */
  lemma {:induction false} InsertParamsLineUp(table: string, d: Dialect, cols: seq<string>, vals: seq<string>)
    requires '?' !in table && NoMarkIn(cols) && |vals| == |cols|
    ensures Count(InsertSql(table, d, cols), '?') == |cols|
    ensures Substitute(InsertSql(table, d, cols), vals)
         == "INSERT INTO " + table + " (" + Join(EscAll(d, cols), ", ") + ") VALUES (" + Join(vals, ", ") + ");"
  {
    EscAllNoMark(d, cols);
    JoinNoMark(EscAll(d, cols), ", ");
    InsertTextClean(table, Join(EscAll(d, cols), ", "));
    ValuesLineUp("INSERT INTO " + table + " (" + Join(EscAll(d, cols), ", ") + ") VALUES (", vals);
  }

  /** A mark-free head followed by `?, ..., ?);`: the values fill the list
      in order. */
  lemma {:induction false} ValuesLineUp(head: string, vals: seq<string>)
    requires '?' !in head
    ensures Count(head + Join(Marks(|vals|), ", ") + ");", '?') == |vals|
    ensures Substitute(head + Join(Marks(|vals|), ", ") + ");", vals) == head + Join(vals, ", ") + ");"
  {
    MarksLineUp(vals, ", ");
    Sandwich(head, Join(Marks(|vals|), ", "), ");", vals);
  }

  lemma {:induction false} InsertTextClean(table: string, cols: string)
    requires '?' !in table && '?' !in cols
    ensures '?' !in "INSERT INTO " + table + " (" + cols + ") VALUES (" && '?' !in ");"
  {
  }

  lemma {:induction false} JoinNoMark(parts: seq<string>, sep: string)
    requires NoMarkIn(parts) && '?' !in sep
    ensures '?' !in Join(parts, sep)
  {
    if |parts| > 1 {
      JoinNoMark(parts[1..], sep);
    }
  }

  /** The read-back `SELECT * FROM t WHERE c1 = ? AND ...` after a write. */
  function SelectWhereSql(table: string, d: Dialect, cols: seq<string>): string {
    "SELECT * FROM " + table + " WHERE " + Join(Assign(EscAll(d, cols)), " AND ")
  }

  /** The read-back has one placeholder per column, bound in column order. */
  lemma {:induction false} SelectWhereLineUp(table: string, d: Dialect, cols: seq<string>, vals: seq<string>)
    requires '?' !in table && NoMarkIn(cols) && |vals| == |cols|
    ensures Count(SelectWhereSql(table, d, cols), '?') == |cols|
    ensures Substitute(SelectWhereSql(table, d, cols), vals)
         == "SELECT * FROM " + table + " WHERE " + Join(Bound(EscAll(d, cols), vals), " AND ")
  {
    EscAllNoMark(d, cols);
    SelectWhereHeadClean(table);
    WhereLineUp("SELECT * FROM " + table + " WHERE ", EscAll(d, cols), vals);
  }

  /** A mark-free head followed by `n1 = ? AND n2 = ? ...`: one placeholder
      per name, bound in name order. */
  lemma {:induction false} WhereLineUp(head: string, names: seq<string>, vals: seq<string>)
    requires '?' !in head && NoMarkIn(names) && |vals| == |names|
    ensures Count(head + Join(Assign(names), " AND "), '?') == |names|
    ensures Substitute(head + Join(Assign(names), " AND "), vals) == head + Join(Bound(names, vals), " AND ")
  {
    AssignLineUp(names, vals, " AND ");
    Prefix(head, Join(Assign(names), " AND "), vals);
  }

  lemma {:induction false} SelectWhereHeadClean(table: string)
    requires '?' !in table
    ensures '?' !in "SELECT * FROM " + table + " WHERE "
  {
  }

  /** The existence check of the Frappe-to-database loop. The key names go
      into the text as they are: neither escaped nor translated through
      `mapping`. */
  function CountSql(table: string, keyNames: seq<string>): string {
    "SELECT COUNT(*) FROM " + table + " WHERE " + Join(Assign(keyNames), " AND ")
  }

  /** The existence check has one placeholder per key, bound in key order. */
  lemma {:induction false} CountSqlLineUp(table: string, keyNames: seq<string>, vals: seq<string>)
    requires '?' !in table && NoMarkIn(keyNames) && |vals| == |keyNames|
    ensures Count(CountSql(table, keyNames), '?') == |keyNames|
    ensures Substitute(CountSql(table, keyNames), vals)
         == "SELECT COUNT(*) FROM " + table + " WHERE " + Join(Bound(keyNames, vals), " AND ")
  {
    CountSqlHeadClean(table);
    WhereLineUp("SELECT COUNT(*) FROM " + table + " WHERE ", keyNames, vals);
  }

  lemma {:induction false} CountSqlHeadClean(table: string)
    requires '?' !in table
    ensures '?' !in "SELECT COUNT(*) FROM " + table + " WHERE "
  {
  }

  /** The manual-id query: the next id below the ceiling; the lock hint is
      added only outside dry run. */
  function NextIdSql(idField: string, table: string, ceiling: Option<int>, dryRun: bool): string {
    "SELECT ISNULL(MAX(" + idField + "), 0) + 1 FROM " + table
      + (match ceiling case None => "" case Some(c) => " WHERE " + idField + " < " + IntToString(c))
      + (if dryRun then "" else " WITH (TABLOCKX, HOLDLOCK)")
      + ";"
  }

  // ---------------------------------------------------------------------------
  // The SELECTs that fetch database rows

  /** Python truthiness of an optional string: present and non-empty. */
  predicate Truthy(s: Option<string>) {
    s.Some? && s.value != ""
  }

  /** `[x] * n` */
  function Repeat(x: Value, n: nat): (r: seq<Value>)
    ensures |r| == n && forall i :: 0 <= i < n ==> r[i] == x
  {
    seq(n, _ => x)
  }

  /** `get_db_records`: the statement and its parameters, or None where the
      source raises (a custom query with a checkpoint but without
      `query_with_timestamp`). `since` is the checkpoint in UTC. */
  function DbRecordsQuery(t: Task, since: Option<int>): (r: Option<(string, seq<Value>)>)
    ensures r.None? <==> since.Some? && Truthy(t.config.query) && t.config.queryWithTimestamp.None?
    ensures since.None? ==> r.Some? && r.value.1 == []
    ensures r.Some? && since.Some? ==> forall i :: 0 <= i < |r.value.1| ==> r.value.1[i] == VDateTime(since.value + t.dbTz)
    ensures since.Some? && !Truthy(t.config.query) ==>
      |r.value.1| == if Truthy(t.config.db.fallbackModifiedField) then 2 else 1
    // the statement text: the custom query, the timestamped query, or the table's SELECT
    ensures since.None? ==>
      r.value.0 == if Truthy(t.config.query) then t.config.query.value else "SELECT * FROM " + t.config.tableName
    ensures since.Some? && Truthy(t.config.query) && r.Some? ==>
      r.value.0 == t.config.queryWithTimestamp.value && |r.value.1| == Count(r.value.0, '?')
    ensures since.Some? && !Truthy(t.config.query) ==>
      r.value.0 == "SELECT * FROM " + t.config.tableName
                   + " WHERE " + EscapeIdentifier(t.dialect, t.config.db.modifiedField) + " >= ?"
                   + if Truthy(t.config.db.fallbackModifiedField)
                     then " OR " + EscapeIdentifier(t.dialect, t.config.db.fallbackModifiedField.value) + " >= ?"
                     else ""
  {
    var cfg := t.config;
    var base := "SELECT * FROM " + cfg.tableName;
    if since.None? then
      if Truthy(cfg.query) then Some((cfg.query.value, [])) else Some((base, []))
    else
      var d := VDateTime(since.value + t.dbTz);
      if Truthy(cfg.query) then
        match cfg.queryWithTimestamp
        case None => None
        case Some(q) => Some((q, Repeat(d, Count(q, '?'))))
      else
        var one := base + " WHERE " + EscapeIdentifier(t.dialect, cfg.db.modifiedField) + " >= ?";
        if Truthy(cfg.db.fallbackModifiedField)
        then Some((one + " OR " + EscapeIdentifier(t.dialect, cfg.db.fallbackModifiedField.value) + " >= ?", [d, d]))
        else Some((one, [d]))
  }

  lemma {:induction false} CountMarkSuffix(a: string, name: string, mid: string)
    requires '?' !in a && '?' !in name && '?' !in mid
    ensures Count(a + mid + name + " >= ?", '?') == 1
  {
    CountAbsent(a + mid + name + " >= ", '?');
    assert a + mid + name + " >= ?" == (a + mid + name + " >= ") + "?";
    CountAppend(a + mid + name + " >= ", "?", '?');
  }

  /** The SELECT binds exactly as many parameters as it has placeholders,
      provided no name it is built from contains `?` and a custom query
      without checkpoint has none either. */
  lemma {:induction false} DbRecordsPlaceholders(t: Task, since: Option<int>)
    requires '?' !in t.config.tableName && '?' !in t.config.db.modifiedField
    requires t.config.db.fallbackModifiedField.Some? ==> '?' !in t.config.db.fallbackModifiedField.value
    requires since.None? && Truthy(t.config.query) ==> '?' !in t.config.query.value
    ensures var r := DbRecordsQuery(t, since);
      r.Some? ==> Count(r.value.0, '?') == |r.value.1|
  {
    var cfg := t.config;
    var base := "SELECT * FROM " + cfg.tableName;
    if since.None? {
      if Truthy(cfg.query) {
        CountAbsent(cfg.query.value, '?');
      } else {
        CountAbsent(base, '?');
      }
    } else if !Truthy(cfg.query) {
      var mf := EscapeIdentifier(t.dialect, cfg.db.modifiedField);
      EscapeNoMark(t.dialect, cfg.db.modifiedField);
      CountMarkSuffix(base, mf, " WHERE ");
      if Truthy(cfg.db.fallbackModifiedField) {
        var fb := EscapeIdentifier(t.dialect, cfg.db.fallbackModifiedField.value);
        EscapeNoMark(t.dialect, cfg.db.fallbackModifiedField.value);
        CountMarkSuffixes(base + " WHERE " + mf + " >= ?", fb);
      }
    }
  }

  lemma {:induction false} CountMarkSuffixes(one: string, name: string)
    requires Count(one, '?') == 1 && '?' !in name
    ensures Count(one + " OR " + name + " >= ?", '?') == 2
  {
    var mid := " OR " + name + " >= ";
    CountAbsent(mid, '?');
    assert one + " OR " + name + " >= ?" == one + (mid + "?");
    CountAppend(mid, "?", '?');
    CountAppend(one, mid + "?", '?');
  }

  /** `q[:-1] if q.endswith(";") else q` after stripping. */
  function TrimStatement(q: string): (r: string)
    ensures |r| <= |q|
    ensures EndsWith(Strip(q), ';') ==> r + ";" == Strip(q)
    ensures !EndsWith(Strip(q), ';') ==> r == Strip(q)
  {
    var s := Strip(q);
    if EndsWith(s, ';') then s[..|s| - 1] else s
  }

  /** `get_db_records_by_ids`: the table (or the trimmed custom query)
      restricted to `id IN (?, ..., ?)`, joined with AND when the text already
      has a WHERE. The ids themselves are the parameters. */
  function DbRecordsByIdsSql(t: Task, n: nat): (sql: string)
    ensures var base := if Truthy(t.config.query) then TrimStatement(t.config.query.value) else "SELECT * FROM " + t.config.tableName;
      var sel := EscapeIdentifier(t.dialect, t.config.db.idField) + " IN (" + Join(Marks(n), ", ") + ")";
      sql == base + (if Contains(base, "WHERE") then " AND " else " WHERE ") + sel
  {
    var base := if Truthy(t.config.query) then TrimStatement(t.config.query.value) else "SELECT * FROM " + t.config.tableName;
    var sel := EscapeIdentifier(t.dialect, t.config.db.idField) + " IN (" + Join(Marks(n), ", ") + ")";
    if Contains(base, "WHERE") then base + " AND " + sel else base + " WHERE " + sel
  }

  /** The id selector adds exactly one placeholder per id to those of the base text. */
  lemma {:induction false} ByIdsPlaceholders(t: Task, n: nat)
    requires '?' !in t.config.db.idField
    ensures var base := if Truthy(t.config.query) then TrimStatement(t.config.query.value) else "SELECT * FROM " + t.config.tableName;
      Count(DbRecordsByIdsSql(t, n), '?') == Count(base, '?') + n
  {
    var base := if Truthy(t.config.query) then TrimStatement(t.config.query.value) else "SELECT * FROM " + t.config.tableName;
    var col := EscapeIdentifier(t.dialect, t.config.db.idField);
    var marks := Join(Marks(n), ", ");
    var glue := if Contains(base, "WHERE") then " AND " else " WHERE ";
    assert Count(marks, '?') == n by {
      MarksLineUp(seq(n, _ => ""), ", ");
      assert Marks(|seq(n, _ => "")|) == Marks(n);
    }
    EscapeNoMark(t.dialect, t.config.db.idField);
    ByIdsTextClean(glue, col);
    CountAbsent(glue, '?');
    CountAbsent(col + " IN (", '?');
    CountAbsent(")", '?');
    CountAppend(col + " IN (", marks, '?');
    CountAppend(col + " IN (" + marks, ")", '?');
    CountAppend(base, glue, '?');
    CountAppend(base + glue, col + " IN (" + marks + ")", '?');
  }

  lemma {:induction false} ByIdsTextClean(glue: string, col: string)
    requires glue == " AND " || glue == " WHERE "
    requires '?' !in col
    ensures '?' !in glue && '?' !in col + " IN (" && '?' !in ")"
  {
  }
}
