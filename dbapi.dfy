/** The dialect helpers of the relational connector (api/database.py):
    identifier escaping for MSSQL and Firebird, the query formatter used for
    logging, and the lookups of a connection and of an escaper by database name. */
module DbApi {
  import opened Base
  import opened Text

  datatype Dialect = Mssql | Firebird

  /** What the task configuration says about one database; only its dialect
      matters here (host, credentials and the like are driver plumbing). */
  datatype DbConfig = DbConfig(dialect: Dialect)

  // ---------------------------------------------------------------------------
  // Identifier escaping

  predicate IdentStart(c: char) {
    ('A' <= c <= 'Z') || ('a' <= c <= 'z') || c == '_'
  }

  /** `[A-Za-z0-9_@#$]` for MSSQL, `[A-Za-z0-9_]` for Firebird. */
  predicate IdentChar(d: Dialect, c: char) {
    IdentStart(c) || ('0' <= c <= '9') || (d == Mssql && (c == '@' || c == '#' || c == '$'))
  }

  /** The whole of `s` is one identifier token. */
  predicate Identifier(d: Dialect, s: string) {
    |s| >= 1 && IdentStart(s[0]) && forall i :: 1 <= i < |s| ==> IdentChar(d, s[i])
  }

  /** Python's `re.match(r"^...$", s)`: `$` matches at the very end and also
      just before a single final newline. */
  predicate RegexMatches(d: Dialect, s: string) {
    Identifier(d, s) || (|s| >= 2 && s[|s| - 1] == '\n' && Identifier(d, s[..|s| - 1]))
  }

  const MssqlReserved: set<string> := {
    "ADD", "ALTER", "AND", "AS", "BEGIN", "BETWEEN", "BY", "CREATE", "DELETE", "DROP",
    "EXEC", "FROM", "GROUP", "HAVING", "INSERT", "INTO", "JOIN", "LIKE", "NOT", "NULL",
    "OR", "ORDER", "SELECT", "SET", "TABLE", "UPDATE", "WHERE"
  }

  const FirebirdReserved: set<string> := {
    "ADD", "ALTER", "AND", "AS", "AVG", "BETWEEN", "BY", "CHECK", "CREATE", "DELETE",
    "DISTINCT", "FROM", "GROUP", "HAVING", "INSERT", "INTO", "JOIN", "LIKE", "NOT", "NULL",
    "OR", "ORDER", "SELECT", "SUM", "UPDATE", "WHERE"
  }

  function Reserved(d: Dialect): set<string> {
    match d
    case Mssql => MssqlReserved
    case Firebird => FirebirdReserved
  }

  /** `[ ... ]` for MSSQL, `" ... "` for Firebird. */
  function OpenQuote(d: Dialect): char {
    match d
    case Mssql => '['
    case Firebird => '"'
  }

  function CloseQuote(d: Dialect): char {
    match d
    case Mssql => ']'
    case Firebird => '"'
  }

  /** A name that may stand in SQL as it is: it matches the identifier pattern
      and, upper-cased, is not a reserved word. */
  predicate Safe(d: Dialect, name: string) {
    RegexMatches(d, name) && Upper(name) !in Reserved(d)
  }

  /** `escape_identifier_mssql` / `escape_identifier_firebird`. */
  function EscapeIdentifier(d: Dialect, name: string): string {
    if Safe(d, name) then name else Quote(name, OpenQuote(d), CloseQuote(d))
  }

  /** Reads an escaped identifier back: a quoted one loses its delimiters and
      its doubled closing quotes, a bare one is the name itself. */
  function UnescapeIdentifier(d: Dialect, s: string): string {
    Unquote(s, OpenQuote(d), CloseQuote(d))
  }

  /** The escaper leaves a name as it is exactly when the name is safe. */
  lemma {:induction false} EscapeUnchangedIffSafe(d: Dialect, name: string)
    ensures EscapeIdentifier(d, name) == name <==> Safe(d, name)
  {
    if !Safe(d, name) {
      assert |EscapeIdentifier(d, name)| >= |name| + 2;
    }
  }

  /** Escaping loses nothing: reading the result back gives the name. */
  lemma {:induction false} EscapeRoundTrip(d: Dialect, name: string)
    ensures UnescapeIdentifier(d, EscapeIdentifier(d, name)) == name
  {
    if Safe(d, name) {
      assert |name| >= 1 && IdentStart(name[0]);
    } else {
      UnquoteQuote(name, OpenQuote(d), CloseQuote(d));
    }
  }

  /** Two different names never escape to the same SQL text. */
  lemma {:induction false} EscapeInjective(d: Dialect, a: string, b: string)
    requires EscapeIdentifier(d, a) == EscapeIdentifier(d, b)
    ensures a == b
  {
    EscapeRoundTrip(d, a);
    EscapeRoundTrip(d, b);
  }

  /** Because `$` also matches before a final newline, a name ending in one
      newline is taken as safe and goes into SQL unquoted. */
  lemma {:induction false} TrailingNewlinePassesUnquoted()
    ensures EscapeIdentifier(Mssql, "abc\n") == "abc\n"
    ensures EscapeIdentifier(Firebird, "abc\n") == "abc\n"
  {
    AbcNewlineSafe(Mssql);
    AbcNewlineSafe(Firebird);
  }

  lemma {:induction false} AbcNewlineSafe(d: Dialect)
    ensures Safe(d, "abc\n")
  {
    assert Identifier(d, "abc\n"[..3]);
    UpperAbcNewline();
    assert "ABC\n" !in Reserved(d);
  }

  lemma {:induction false} UpperAbcNewline()
    ensures Upper("abc\n") == "ABC\n"
  {
  }

  /** The reserved-word check ignores case. */
  lemma {:induction false} ReservedWordQuoted()
    ensures EscapeIdentifier(Mssql, "As") == "[As]"
  {
    assert Upper("As") == "AS";
    assert "AS" in MssqlReserved;
    assert Double("As", ']') == "As";
  }

  /** A closing bracket inside a name is doubled. */
  lemma {:induction false} ClosingBracketDoubled()
    ensures EscapeIdentifier(Mssql, "a]b") == "[a]]b]"
  {
    assert !IdentChar(Mssql, "a]b"[1]);
    assert Double("a]b", ']') == "a]]b";
  }

  /** `$` is an identifier character for MSSQL but not for Firebird. */
  lemma {:induction false} DollarOnlyMssql()
    ensures EscapeIdentifier(Mssql, "t$") == "t$"
    ensures EscapeIdentifier(Firebird, "t$") == "\"t$\""
  {
    DollarMssqlSafe();
    assert !IdentChar(Firebird, "t$"[1]);
    assert Double("t$", '"') == "t$";
  }

  lemma {:induction false} DollarMssqlSafe()
    ensures Safe(Mssql, "t$")
  {
    assert Upper("t$") == "T$";
  }

  // ---------------------------------------------------------------------------
  // Query formatting for the log

  /** `format_param`: strings single-quoted with inner quotes doubled, numbers
      (Python's `bool` is an `int`) as `str()`, timestamps as quoted ISO text,
      `None` as NULL. `iso` is `datetime.isoformat`. */
  function FormatParam(v: Value, iso: int -> string): (r: string)
    ensures v.VStr? ==> Unquote(r, '\'', '\'') == v.s
    ensures v.VStr? ==> |r| == |v.s| + Count(v.s, '\'') + 2 && r[0] == '\'' && r[|r| - 1] == '\''
    ensures v.VNone? ==> r == "NULL"
  {
    match v
    case VStr(s) => UnquoteQuote(s, '\'', '\''); Quote(s, '\'', '\'')
    case VInt(i) => IntToString(i)
    case VBool(b) => if b then "True" else "False"
    case VDateTime(t) => "'" + iso(t) + "'"
    case VNone => "NULL"
  }

  /** The other parameter kinds read back too: an integer is its decimal
      digits (after a minus sign when negative), a boolean Python's `True` or
      `False`, and a timestamp its ISO text between single quotes. */
  lemma {:induction false} FormatParamReadsBack(v: Value, iso: int -> string)
    ensures v.VInt? && v.i >= 0 ==> var r := FormatParam(v, iso);
      (forall k :: 0 <= k < |r| ==> '0' <= r[k] <= '9') && DigitsValue(r) == v.i
    ensures v.VInt? && v.i < 0 ==> var r := FormatParam(v, iso);
      |r| >= 2 && r[0] == '-' && (forall k :: 1 <= k < |r| ==> '0' <= r[k] <= '9') && DigitsValue(r[1..]) == -v.i
    ensures v.VBool? ==> FormatParam(v, iso) == if v.b then "True" else "False"
    ensures v.VDateTime? ==> var r := FormatParam(v, iso);
      |r| >= 2 && r[0] == '\'' && r[|r| - 1] == '\'' && r[1..|r| - 1] == iso(v.t)
  {
    match v
    case VInt(i) =>
      if i >= 0 {
        assert FormatParam(v, iso) == NatToString(i);
        NatToStringRoundTrip(i);
      } else {
        var r := FormatParam(v, iso);
        assert r == "-" + NatToString(-i);
        assert r[1..] == NatToString(-i);
        NatToStringRoundTrip(-i);
      }
    case VDateTime(t) =>
      var r := FormatParam(v, iso);
      assert r == "'" + iso(t) + "'";
      assert r[1..|r| - 1] == iso(t);
    case _ =>
  }

  function FormatParams(params: seq<Value>, iso: int -> string): (fs: seq<string>)
    ensures |fs| == |params|
    ensures forall i :: 0 <= i < |params| ==> fs[i] == FormatParam(params[i], iso)
  {
    seq(|params|, i requires 0 <= i < |params| => FormatParam(params[i], iso))
  }

  /** What the formatting loop builds: part 0, param 0, part 1, param 1, ...,
      with a part's parameter left out once the parameters run out. */
  function Interleave(parts: seq<string>, ps: seq<string>): string {
    if parts == [] then ""
    else parts[0] + (if ps == [] then "" else ps[0]) + Interleave(parts[1..], if ps == [] then [] else ps[1..])
  }

  /** Reference reading of a formatted query: each `?` in turn is replaced by
      the next parameter, or dropped when there is none left. */
  function Substitute(q: string, ps: seq<string>): string {
    if q == [] then ""
    else if q[0] == '?' then (if ps == [] then "" else ps[0]) + Substitute(q[1..], if ps == [] then [] else ps[1..])
    else [q[0]] + Substitute(q[1..], ps)
  }

  lemma {:induction false} InterleaveSnoc(p: seq<string>, x: string, ps: seq<string>)
    ensures Interleave(p + [x], ps) == Interleave(p, ps) + x + (if |p| < |ps| then ps[|p|] else "")
  {
    if p == [] {
      assert Interleave([x], ps) == x + (if ps == [] then "" else ps[0]) + Interleave([], []);
    } else {
      assert (p + [x])[1..] == p[1..] + [x];
      InterleaveSnoc(p[1..], x, if ps == [] then [] else ps[1..]);
    }
  }

  /** One turn of the formatting loop appends part `i` and, while there is
      one, parameter `i`. */
  lemma {:induction false} InterleaveStep(parts: seq<string>, ps: seq<string>, i: int)
    requires 0 <= i < |parts|
    ensures Interleave(parts[..i + 1], ps) == Interleave(parts[..i], ps) + parts[i] + (if i < |ps| then ps[i] else "")
  {
    InterleaveSnoc(parts[..i], parts[i], ps);
    assert parts[..i + 1] == parts[..i] + [parts[i]];
  }

  /** Splitting on `?` and interleaving is the same as substituting `?` by
      `?`, plus one parameter more appended at the end when there is one. */
  lemma {:induction false} InterleaveSplit(q: string, ps: seq<string>)
    ensures Interleave(SplitOn(q, '?'), ps)
         == Substitute(q, ps) + (if Count(q, '?') < |ps| then ps[Count(q, '?')] else "")
  {
    if q != [] {
      if q[0] == '?' {
        InterleaveSplit(q[1..], if ps == [] then [] else ps[1..]);
        InterleaveSplitMark(q, ps);
      } else {
        InterleaveSplit(q[1..], ps);
        InterleaveSplitPlain(q, ps);
      }
    }
  }

  /** The step of `InterleaveSplit` for a text that starts with `?`: the
      first part is empty and the first parameter follows it. */
  lemma {:induction false} InterleaveSplitMark(q: string, ps: seq<string>)
    requires q != [] && q[0] == '?'
    requires var tl := if ps == [] then [] else ps[1..];
      Interleave(SplitOn(q[1..], '?'), tl)
        == Substitute(q[1..], tl) + (if Count(q[1..], '?') < |tl| then tl[Count(q[1..], '?')] else "")
    ensures Interleave(SplitOn(q, '?'), ps)
         == Substitute(q, ps) + (if Count(q, '?') < |ps| then ps[Count(q, '?')] else "")
  {
    var tl := if ps == [] then [] else ps[1..];
    var rest := SplitOn(q[1..], '?');
    var p0 := if ps == [] then "" else ps[0];
    var parts := SplitOn(q, '?');
    assert parts == [""] + rest;
    assert parts[0] == "" && parts[1..] == rest;
    assert Count(q, '?') == Count(q[1..], '?') + 1;
    assert Interleave(parts, ps) == parts[0] + p0 + Interleave(parts[1..], tl);
    assert parts[0] + p0 == p0;
    assert Substitute(q, ps) == p0 + Substitute(q[1..], tl);
    var e := if Count(q[1..], '?') < |tl| then tl[Count(q[1..], '?')] else "";
    assert e == if Count(q, '?') < |ps| then ps[Count(q, '?')] else "";
    Assoc(p0, Substitute(q[1..], tl), e);
  }

  /** The step of `InterleaveSplit` for a text that starts with another
      character: that character joins the first part. */
  lemma {:induction false} InterleaveSplitPlain(q: string, ps: seq<string>)
    requires q != [] && q[0] != '?'
    requires Interleave(SplitOn(q[1..], '?'), ps)
          == Substitute(q[1..], ps) + (if Count(q[1..], '?') < |ps| then ps[Count(q[1..], '?')] else "")
    ensures Interleave(SplitOn(q, '?'), ps)
         == Substitute(q, ps) + (if Count(q, '?') < |ps| then ps[Count(q, '?')] else "")
  {
    var tl := if ps == [] then [] else ps[1..];
    var rest := SplitOn(q[1..], '?');
    var p0 := if ps == [] then "" else ps[0];
    var parts := SplitOn(q, '?');
    assert parts == [[q[0]] + rest[0]] + rest[1..];
    assert parts[0] == [q[0]] + rest[0] && parts[1..] == rest[1..];
    assert Count(q, '?') == Count(q[1..], '?');
    var extra := if Count(q, '?') < |ps| then ps[Count(q, '?')] else "";
    assert Interleave(rest, ps) == rest[0] + p0 + Interleave(rest[1..], tl);
    assert Interleave(parts, ps) == parts[0] + p0 + Interleave(parts[1..], tl);
    assert Substitute(q, ps) == [q[0]] + Substitute(q[1..], ps);
    ConsAssoc([q[0]], rest[0], p0, Interleave(rest[1..], tl), Substitute(q[1..], ps), extra);
  }

  lemma {:induction false} Assoc(a: string, b: string, c: string)
    ensures a + (b + c) == (a + b) + c
  {
  }

  lemma {:induction false} ConsAssoc(a: string, r: string, p: string, x: string, s: string, e: string)
    requires r + p + x == s + e
    ensures (a + r) + p + x == (a + s) + e
  {
    assert (a + r) + p + x == a + (r + p + x);
    assert (a + s) + e == a + (s + e);
  }

  /** `format_query`: the query as the log shows it. Every `?` is replaced by
      the next formatted parameter (dropped when there is none left), and a
      parameter beyond the last `?` is appended once at the end; any further
      parameters are ignored. */
  method FormatQuery(query: string, params: seq<Value>, iso: int -> string) returns (full: string)
    ensures var fs := FormatParams(params, iso);
      full == Substitute(query, fs) + (if Count(query, '?') < |fs| then fs[Count(query, '?')] else "")
  {
    var formatted := FormatParams(params, iso);
    var parts := SplitOn(query, '?');
    full := "";
    var i := 0;
    while i < |parts|
      invariant 0 <= i <= |parts|
      invariant full == Interleave(parts[..i], formatted)
    {
      InterleaveStep(parts, formatted, i);
      full := full + parts[i];
      if i < |formatted| {
        full := full + formatted[i];
      }
      i := i + 1;
    }
    assert parts[..i] == parts;
    InterleaveSplit(query, formatted);
  }

  /** Without parameters every `?` simply disappears from the logged text. */
  lemma {:induction false} FormatQueryWithoutParams(q: string)
    ensures Substitute(q, []) == Remove(q, '?')
  {
    if q != [] {
      FormatQueryWithoutParams(q[1..]);
    }
  }

  /** Parameters past the first `count("?") + 1` never reach the text. */
  lemma {:induction false} SubstituteIgnoresSurplus(q: string, ps: seq<string>, n: nat)
    requires Count(q, '?') <= n <= |ps|
    ensures Substitute(q, ps) == Substitute(q, ps[..n])
  {
    if q != [] {
      if q[0] == '?' {
        assert ps[..n][1..] == ps[1..][..n - 1];
        SubstituteIgnoresSurplus(q[1..], ps[1..], n - 1);
      } else {
        SubstituteIgnoresSurplus(q[1..], ps, n);
      }
    }
  }

  /** With exactly one parameter per `?`, the parameters appear in order and
      nothing is appended. */
  lemma {:induction false} FormatQueryExample(iso: int -> string)
    ensures Substitute("?,?", FormatParams([VStr("x'y"), VNone], iso)) == "'x''y',NULL"
  {
    var fs := FormatParams([VStr("x'y"), VNone], iso);
    QuoteExample();
    assert fs == ["'x''y'", "NULL"];
    SubstituteTwo("'x''y'", "NULL");
  }

  lemma {:induction false} QuoteExample()
    ensures Quote("x'y", '\'', '\'') == "'x''y'"
  {
    assert Double("y", '\'') == "y";
    assert Double("'y", '\'') == "''y";
    assert Double("x'y", '\'') == "x''y";
  }

  lemma {:induction false} SubstituteTwo(a: string, b: string)
    ensures Substitute("?,?", [a, b]) == a + "," + b
  {
    assert Substitute("?", [b]) == b + Substitute("", []);
    assert Substitute(",?", [b]) == "," + b;
  }

  // ---------------------------------------------------------------------------
  // Lookups by database name

  /** `get_escape_identifier_fn`: the dialect of the configured database of
      that name; None when the name is not configured. */
  method GetEscapeIdentifierFn(configs: Dict<string, DbConfig>, dbName: string) returns (r: Option<Dialect>)
    ensures r.None? <==> !Has(configs, dbName)
    ensures r.Some? ==> Get(configs, dbName) == Some(DbConfig(r.value))
  {
    if |configs| == 0 {
      return None;
    }
    var i := 0;
    while i < |configs|
      invariant 0 <= i <= |configs|
      invariant forall j :: 0 <= j < i ==> configs[j].0 != dbName
    {
      if configs[i].0 == dbName {
        GetFirst(configs, dbName, i);
        match configs[i].1.dialect
        case Firebird => return Some(Firebird);
        case Mssql => return Some(Mssql);
      }
      i := i + 1;
    }
    return None;
  }

  /** `get_connection`: the open connection of that name; None when there is none. */
  function GetConnection<C>(connections: Dict<string, C>, dbName: string): (r: Option<C>)
    ensures r.None? <==> forall i :: 0 <= i < |connections| ==> connections[i].0 != dbName
    ensures r.Some? ==> (dbName, r.value) in connections
  {
    Get(connections, dbName)
  }
}

/** The earlier connector (database.py), which keeps one map of connections
    per database type. Its `format_query` is the same code as the one in
    api/database.py and is modelled by `DbApi.FormatQuery`. */
module LegacyDb {
  import opened Base

  /** `DatabaseConnection.get_connection(db_type, db_name)`. */
  function GetConnection<C>(firebird: Dict<string, C>, mssql: Dict<string, C>, dbType: string, dbName: string): (r: Option<C>)
    ensures r.Some? ==>
      ((dbType == "firebird" && (dbName, r.value) in firebird) || (dbType == "mssql" && (dbName, r.value) in mssql))
    ensures r.None? <==>
      ((dbType == "firebird" ==> !Has(firebird, dbName)) && (dbType == "mssql" ==> !Has(mssql, dbName)))
  {
    if dbType == "firebird" then Get(firebird, dbName)
    else if dbType == "mssql" then Get(mssql, dbName)
    else None
  }
}
