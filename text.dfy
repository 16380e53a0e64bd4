/** The string operations of Python's `str` that the synchronizer relies on:
    counting, splitting and joining on a separator, doubling a quote
    character, ASCII upper-casing, stripping whitespace, decimal rendering,
    and the code-point order of names. */
module Text {
  import opened Base

  /** `s.count(c)` for a one-character needle. */
  function Count(s: string, c: char): (n: nat)
    ensures n <= |s|
  {
    if s == [] then 0 else (if s[0] == c then 1 else 0) + Count(s[1..], c)
  }

  lemma {:induction false} CountAppend(a: string, b: string, c: char)
    ensures Count(a + b, c) == Count(a, c) + Count(b, c)
  {
    if a != [] {
      assert (a + b)[0] == a[0] && (a + b)[1..] == a[1..] + b;
      CountAppend(a[1..], b, c);
    } else {
      assert a + b == b;
    }
  }

  lemma {:induction false} CountAbsent(s: string, c: char)
    requires c !in s
    ensures Count(s, c) == 0
  {
    if s != [] {
      CountAbsent(s[1..], c);
    }
  }

  /** Every occurrence of `c` taken out of `s`. */
  function Remove(s: string, c: char): (r: string)
    ensures c !in r
    ensures |r| + Count(s, c) == |s|
  {
    if s == [] then [] else (if s[0] == c then [] else [s[0]]) + Remove(s[1..], c)
  }

  /** `sep.join(parts)` */
  function Join(parts: seq<string>, sep: string): string {
    if |parts| == 0 then ""
    else if |parts| == 1 then parts[0]
    else parts[0] + sep + Join(parts[1..], sep)
  }

  /** `"".join(parts)` */
  function Concat(parts: seq<string>): string {
    if parts == [] then "" else parts[0] + Concat(parts[1..])
  }

  /** `s.split(c)` for a one-character separator: always one part more than
      there are separators, and no part contains the separator. */
  function SplitOn(s: string, c: char): (parts: seq<string>)
    ensures |parts| == Count(s, c) + 1
    ensures forall i :: 0 <= i < |parts| ==> c !in parts[i]
  {
    if s == [] then [""]
    else
      var rest := SplitOn(s[1..], c);
      if s[0] == c then [""] + rest
      else [[s[0]] + rest[0]] + rest[1..]
  }

  /** Joining the parts of a split with the separator gives back the text. */
  lemma {:induction false} JoinSplit(s: string, c: char)
    ensures Join(SplitOn(s, c), [c]) == s
  {
    if s != [] {
      JoinSplit(s[1..], c);
      var rest := SplitOn(s[1..], c);
      if s[0] != c && |rest| > 1 {
        assert Join(rest, [c]) == rest[0] + [c] + Join(rest[1..], [c]);
      }
    }
  }

  /** `s.replace(q, q + q)` for a one-character `q`. */
  function Double(s: string, q: char): (r: string)
    ensures |r| == |s| + Count(s, q)
  {
    if s == [] then []
    else (if s[0] == q then [q, q] else [s[0]]) + Double(s[1..], q)
  }

  /** Doubling `q` brings in no character that was not there. */
  lemma {:induction false} DoubleAbsent(s: string, q: char, c: char)
    requires c !in s && c != q
    ensures c !in Double(s, q)
  {
    if s != [] {
      DoubleAbsent(s[1..], q, c);
    }
  }

  /** Collapses every doubled `q` back to a single one. */
  function Undouble(s: string, q: char): string
    decreases |s|
  {
    if s == [] then []
    else if |s| >= 2 && s[0] == q && s[1] == q then [q] + Undouble(s[2..], q)
    else [s[0]] + Undouble(s[1..], q)
  }

  /** Undoubling inverts doubling. */
  lemma {:induction false} UndoubleDouble(s: string, q: char)
    ensures Undouble(Double(s, q), q) == s
  {
    if s != [] {
      UndoubleDouble(s[1..], q);
      var t := Double(s, q);
      if s[0] == q {
        assert t == [q, q] + Double(s[1..], q);
        assert t[2..] == Double(s[1..], q);
      } else {
        assert t == [s[0]] + Double(s[1..], q);
        assert t[1..] == Double(s[1..], q);
      }
    }
  }

  /** `open + s.replace(close, close + close) + close` */
  function Quote(s: string, open: char, close: char): (r: string)
    ensures |r| >= 2 && r[0] == open && r[|r| - 1] == close
  {
    [open] + Double(s, close) + [close]
  }

  /** Strips the delimiters of a quoted text and collapses doubled closers;
      anything not delimited is returned as it is. */
  function Unquote(t: string, open: char, close: char): string {
    if |t| >= 2 && t[0] == open && t[|t| - 1] == close
    then Undouble(t[1..|t| - 1], close)
    else t
  }

  lemma {:induction false} UnquoteQuote(s: string, open: char, close: char)
    ensures Unquote(Quote(s, open, close), open, close) == s
  {
    var t := Quote(s, open, close);
    assert t[1..|t| - 1] == Double(s, close);
    UndoubleDouble(s, close);
  }

  predicate IsAsciiLower(c: char) { 'a' <= c <= 'z' }

  function AsciiUpperChar(c: char): char {
    if IsAsciiLower(c) then (c as int - 32) as char else c
  }

  /** `s.upper()` restricted to ASCII letters. It is only consulted on names
      that already match an ASCII identifier pattern, where the two agree. */
  function Upper(s: string): (r: string)
    ensures |r| == |s|
    ensures forall i :: 0 <= i < |s| ==> r[i] == AsciiUpperChar(s[i])
  {
    seq(|s|, i requires 0 <= i < |s| => AsciiUpperChar(s[i]))
  }

  /** The characters Python's `str.isspace` accepts. */
  predicate IsSpace(c: char) {
    c in {'\U{0020}', '\U{0009}', '\U{000A}', '\U{000D}', '\U{000B}', '\U{000C}', '\U{001C}', '\U{001D}', '\U{001E}', '\U{001F}', '\U{0085}', '\U{00A0}', '\U{1680}', '\U{2000}', '\U{2001}', '\U{2002}', '\U{2003}', '\U{2004}', '\U{2005}', '\U{2006}', '\U{2007}', '\U{2008}', '\U{2009}', '\U{200A}', '\U{2028}', '\U{2029}', '\U{202F}', '\U{205F}', '\U{3000}'}
  }

  function TrimLeft(s: string): (r: string)
    ensures |r| <= |s| && r == s[|s| - |r|..]
    ensures r == [] || !IsSpace(r[0])
    ensures forall i :: 0 <= i < |s| - |r| ==> IsSpace(s[i])
  {
    if s != [] && IsSpace(s[0]) then TrimLeft(s[1..]) else s
  }

  function TrimRight(s: string): (r: string)
    ensures |r| <= |s| && r == s[..|r|]
    ensures r == [] || !IsSpace(r[|r| - 1])
    ensures forall i :: |r| <= i < |s| ==> IsSpace(s[i])
  {
    if s != [] && IsSpace(s[|s| - 1]) then TrimRight(s[..|s| - 1]) else s
  }

  /** `s.strip()`: a slice of `s` with no whitespace at either end, and only
      whitespace cut away. */
  function Strip(s: string): (r: string)
    ensures |r| <= |s|
    ensures r == [] || (!IsSpace(r[0]) && !IsSpace(r[|r| - 1]))
  {
    TrimRight(TrimLeft(s))
  }

  /** `s.endswith(c)` for a one-character suffix. */
  predicate EndsWith(s: string, c: char) {
    |s| > 0 && s[|s| - 1] == c
  }

  /** `sub in s` */
  predicate Contains(s: string, sub: string) {
    if |s| < |sub| then false else s[..|sub|] == sub || Contains(s[1..], sub)
  }

  function DigitChar(d: nat): char
    requires d < 10
  {
    "0123456789"[d]
  }

  function NatToString(n: nat): (r: string)
    ensures |r| >= 1
    ensures forall i :: 0 <= i < |r| ==> '0' <= r[i] <= '9'
  {
    if n < 10 then [DigitChar(n)] else NatToString(n / 10) + [DigitChar(n % 10)]
  }

  /** `str(i)` for an integer. */
  function IntToString(i: int): string {
    if i < 0 then "-" + NatToString(-i) else NatToString(i)
  }

  /** Reads back the digits produced by `NatToString`. */
  function DigitsValue(s: string): int
    requires forall i :: 0 <= i < |s| ==> '0' <= s[i] <= '9'
  {
    if s == [] then 0 else DigitsValue(s[..|s| - 1]) * 10 + (s[|s| - 1] as int - '0' as int)
  }

  lemma {:induction false} NatToStringRoundTrip(n: nat)
    ensures DigitsValue(NatToString(n)) == n
  {
    if n >= 10 {
      NatToStringRoundTrip(n / 10);
      var r := NatToString(n);
      assert r[..|r| - 1] == NatToString(n / 10);
    }
  }

  // ---------------------------------------------------------------------------
  // Ordering names: Python compares strings code point by code point

  /** `a <= b` on Python strings. */
  predicate StrLe(a: string, b: string) {
    a == [] || (b != [] && (a[0] < b[0] || (a[0] == b[0] && StrLe(a[1..], b[1..]))))
  }

  lemma {:induction false} StrLeTotal(a: string, b: string)
    ensures StrLe(a, b) || StrLe(b, a)
  {
    if a != [] && b != [] && a[0] == b[0] {
      StrLeTotal(a[1..], b[1..]);
    }
  }

  lemma {:induction false} StrLeRefl(a: string)
    ensures StrLe(a, a)
  {
    if a != [] {
      StrLeRefl(a[1..]);
    }
  }

  lemma {:induction false} StrLeTrans(a: string, b: string, c: string)
    requires StrLe(a, b) && StrLe(b, c)
    ensures StrLe(a, c)
  {
    if a != [] && a[0] == b[0] && b[0] == c[0] {
      StrLeTrans(a[1..], b[1..], c[1..]);
    }
  }

  /** The entries of `d` in ascending order of their names. */
  predicate SortedByName<V>(d: Dict<string, V>) {
    forall i :: 0 < i < |d| ==> StrLe(d[i - 1].0, d[i].0)
  }

  lemma {:induction false} SortedByNameLe<V>(d: Dict<string, V>, i: int, j: int)
    requires SortedByName(d) && 0 <= i <= j < |d|
    ensures StrLe(d[i].0, d[j].0)
  {
    if i == j {
      StrLeRefl(d[i].0);
    } else {
      SortedByNameLe(d, i, j - 1);
      StrLeTrans(d[i].0, d[j - 1].0, d[j].0);
    }
  }

  /** Puts `e` into `d` before the first entry whose name is not below `e`'s. */
  function InsertByName<V>(e: (string, V), d: Dict<string, V>): Dict<string, V> {
    if d == [] || StrLe(e.0, d[0].0) then [e] + d
    else [d[0]] + InsertByName(e, d[1..])
  }

  /** The insertion adds `e` and nothing else, and no entry ahead of it
      carries its name, so `get` finds `e` under its name. */
  lemma {:induction false} InsertByNameFacts<V>(e: (string, V), d: Dict<string, V>)
    ensures var r := InsertByName(e, d);
      && multiset(r) == multiset(d) + multiset{e}
      && |r| == |d| + 1 && (r[0] == e || (d != [] && r[0] == d[0]))
      && forall x :: Get(r, x) == if x == e.0 then Some(e.1) else Get(d, x)
  {
    if d == [] || StrLe(e.0, d[0].0) {
      assert ([e] + d)[1..] == d;
    } else {
      StrLeRefl(e.0);
      assert d == [d[0]] + d[1..];
      InsertByNameFacts(e, d[1..]);
      var t := InsertByName(e, d[1..]);
      assert ([d[0]] + t)[1..] == t;
    }
  }

  lemma {:induction false} InsertByNameSorted<V>(e: (string, V), d: Dict<string, V>)
    requires SortedByName(d)
    ensures SortedByName(InsertByName(e, d))
  {
    if d != [] && !StrLe(e.0, d[0].0) {
      StrLeTotal(e.0, d[0].0);
      InsertByNameSorted(e, d[1..]);
      InsertByNameFacts(e, d[1..]);
      var r := InsertByName(e, d);
      var t := InsertByName(e, d[1..]);
      assert r == [d[0]] + t;
      assert StrLe(d[0].0, t[0].0);
      forall i | 1 < i < |r|
        ensures StrLe(r[i - 1].0, r[i].0)
      {
        assert r[i - 1] == t[i - 2] && r[i] == t[i - 1];
      }
    }
  }

  /** The order `yaml.safe_dump` writes a mapping in (`sort_keys` is on):
      ascending by name, entries of equal names kept in their order. */
  function SortByName<V>(d: Dict<string, V>): Dict<string, V> {
    if d == [] then [] else InsertByName(d[0], SortByName(d[1..]))
  }

  /** Sorting keeps the same entries, and every name finds what it found
      before. */
  lemma {:induction false} SortByNameKeeps<V>(d: Dict<string, V>)
    ensures multiset(SortByName(d)) == multiset(d)
    ensures forall x :: Get(SortByName(d), x) == Get(d, x)
  {
    if d != [] {
      assert d == [d[0]] + d[1..];
      SortByNameKeeps(d[1..]);
      InsertByNameFacts(d[0], SortByName(d[1..]));
    }
  }

  lemma {:induction false} SortByNameSorted<V>(d: Dict<string, V>)
    ensures SortedByName(SortByName(d))
  {
    if d != [] {
      SortByNameSorted(d[1..]);
      InsertByNameSorted(d[0], SortByName(d[1..]));
    }
  }
}
