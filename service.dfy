/** The request rules of the sync web service (service.py): which task
    names a manual run accepts, how the cron schedule is adopted, and the
    bounds on the page sizes of the run listings. */
module Service {
  import opened Base
  import opened Text

  /** The `ValueError`s these rules raise, and the web layer's 400 for a
      page size below one. */
  datatype ServiceError = NoTaskName | UnknownTasks(names: seq<string>) | InvalidCron | LimitTooSmall

  datatype Checked<T> = Ok(value: T) | Rejected(error: ServiceError)

  // ---------------------------------------------------------------------------
  // sorted(names)

  predicate SortedNames(s: seq<string>) {
    forall i :: 0 < i < |s| ==> StrLe(s[i - 1], s[i])
  }

  /** Puts `x` into the sorted `s` before the first name above it. */
  function InsertName(x: string, s: seq<string>): (r: seq<string>)
    ensures multiset(r) == multiset(s) + multiset{x}
    ensures |r| == |s| + 1 && (r[0] == x || (s != [] && r[0] == s[0]))
  {
    if s == [] || StrLe(x, s[0]) then [x] + s
    else
      assert s == [s[0]] + s[1..];
      [s[0]] + InsertName(x, s[1..])
  }

  lemma {:induction false} InsertNameSorted(x: string, s: seq<string>)
    requires SortedNames(s)
    ensures SortedNames(InsertName(x, s))
  {
    if s != [] && !StrLe(x, s[0]) {
      StrLeTotal(x, s[0]);
      InsertNameSorted(x, s[1..]);
      var r := InsertName(x, s);
      var t := InsertName(x, s[1..]);
      assert r == [s[0]] + t;
      assert StrLe(s[0], t[0]);
      forall i | 1 < i < |r|
        ensures StrLe(r[i - 1], r[i])
      {
        assert r[i - 1] == t[i - 2] && r[i] == t[i - 1];
      }
    }
  }

  /** `sorted(names)` */
  function SortNames(names: seq<string>): (r: seq<string>)
    ensures multiset(r) == multiset(names)
  {
    if names == [] then []
    else
      assert names == [names[0]] + names[1..];
      InsertName(names[0], SortNames(names[1..]))
  }

  lemma {:induction false} SortNamesSorted(names: seq<string>)
    ensures SortedNames(SortNames(names))
  {
    if names != [] {
      SortNamesSorted(names[1..]);
      InsertNameSorted(names[0], SortNames(names[1..]));
    }
  }

  // ---------------------------------------------------------------------------
  // normalize_task_names

  /** The names given, stripped, without the blank ones, in their order. */
  function Cleaned(names: seq<string>): (r: seq<string>)
    ensures |r| <= |names|
    ensures forall i :: 0 <= i < |r| ==> r[i] != []
  {
    if names == [] then []
    else if Strip(names[0]) != [] then [Strip(names[0])] + Cleaned(names[1..])
    else Cleaned(names[1..])
  }

  /** Every name that is not blank once stripped is kept, stripped. */
  lemma {:induction false} CleanedKeeps(names: seq<string>, i: int)
    requires 0 <= i < |names| && Strip(names[i]) != []
    ensures Strip(names[i]) in Cleaned(names)
  {
    if i > 0 {
      CleanedKeeps(names[1..], i - 1);
    }
  }

  /** The cleaned names that are not configured, in order. */
  function Unknown(cleaned: seq<string>, configured: set<string>): (r: seq<string>)
    ensures forall x :: x in r <==> x in cleaned && x !in configured
  {
    if cleaned == [] then []
    else if cleaned[0] in configured then Unknown(cleaned[1..], configured)
    else [cleaned[0]] + Unknown(cleaned[1..], configured)
  }

  /** Each name once, at the place it first occurs. */
  function FirstOccurrences(xs: seq<string>): (r: seq<string>)
    ensures forall x :: x in r <==> x in xs
  {
    if xs == [] then []
    else
      var p := FirstOccurrences(xs[..|xs| - 1]);
      assert xs == xs[..|xs| - 1] + [xs[|xs| - 1]];
      if xs[|xs| - 1] in p then p else p + [xs[|xs| - 1]]
  }

  /** The position where `x` first occurs in `xs`. */
  function IndexOf(xs: seq<string>, x: string): (i: nat)
    requires x in xs
    ensures i < |xs| && xs[i] == x && forall j :: 0 <= j < i ==> xs[j] != x
  {
    if xs[0] == x then 0 else 1 + IndexOf(xs[1..], x)
  }

  /** Nothing repeats, and names come in the order of their first
      occurrence in the input. */
  lemma {:induction false} FirstOccurrencesOrder(xs: seq<string>)
    ensures forall i, j :: 0 <= i < j < |FirstOccurrences(xs)| ==>
      FirstOccurrences(xs)[i] != FirstOccurrences(xs)[j]
      && IndexOf(xs, FirstOccurrences(xs)[i]) < IndexOf(xs, FirstOccurrences(xs)[j])
  {
    if xs != [] {
      var init := xs[..|xs| - 1];
      var last := xs[|xs| - 1];
      FirstOccurrencesOrder(init);
      var p := FirstOccurrences(init);
      var r := FirstOccurrences(xs);
      forall y | y in p
        ensures IndexOf(xs, y) == IndexOf(init, y)
      {
        IndexOfPrefix(init, last, y);
      }
      if last !in p {
        assert last !in init;
        assert IndexOf(xs, last) == |xs| - 1;
        assert r == p + [last];
        forall i, j | 0 <= i < j < |r|
          ensures r[i] != r[j] && IndexOf(xs, r[i]) < IndexOf(xs, r[j])
        {
          assert r[i] == p[i] && p[i] in p;
          assert IndexOf(xs, p[i]) == IndexOf(init, p[i]);
          if j < |p| {
            assert r[j] == p[j] && p[j] in p;
            assert IndexOf(xs, p[j]) == IndexOf(init, p[j]);
            assert p[i] != p[j] && IndexOf(init, p[i]) < IndexOf(init, p[j]);
          } else {
            assert r[j] == last;
          }
        }
      }
    }
  }

  lemma {:induction false} IndexOfPrefix(init: seq<string>, last: string, y: string)
    requires y in init
    ensures IndexOf(init + [last], y) == IndexOf(init, y)
  {
    if init[0] != y {
      assert (init + [last])[1..] == init[1..] + [last];
      IndexOfPrefix(init[1..], last, y);
    }
  }

  /** `normalize_task_names` against the names of the configured tasks.
      None asks for every task. Otherwise the names are stripped and blank
      ones dropped; none left, or any name not configured, is an error
      that lists the unknown names sorted; else each name once, in the
      order given. */
  method NormalizeTaskNames(taskNames: Option<seq<string>>, configured: set<string>)
    returns (r: Checked<Option<seq<string>>>)
    ensures taskNames.None? ==> r == Ok(None)
    ensures taskNames.Some? && Cleaned(taskNames.value) == [] ==> r == Rejected(NoTaskName)
    ensures taskNames.Some? && Cleaned(taskNames.value) != [] && Unknown(Cleaned(taskNames.value), configured) != [] ==>
      r == Rejected(UnknownTasks(SortNames(Unknown(Cleaned(taskNames.value), configured))))
    ensures taskNames.Some? && Cleaned(taskNames.value) != [] && Unknown(Cleaned(taskNames.value), configured) == [] ==>
      r == Ok(Some(FirstOccurrences(Cleaned(taskNames.value))))
    ensures r.Ok? && r.value.Some? ==> forall x :: x in r.value.value ==> x in configured
  {
    if taskNames.None? {
      return Ok(None);
    }
    var cleaned := Cleaned(taskNames.value);
    if cleaned == [] {
      return Rejected(NoTaskName);
    }
    var unknown := Unknown(cleaned, configured);
    if unknown != [] {
      return Rejected(UnknownTasks(SortNames(unknown)));
    }
    var seen: set<string> := {};
    var unique: seq<string> := [];
    for i := 0 to |cleaned|
      invariant unique == FirstOccurrences(cleaned[..i])
      invariant forall x :: x in seen <==> x in unique
    {
      assert cleaned[..i + 1][..i] == cleaned[..i];
      if cleaned[i] !in seen {
        unique := unique + [cleaned[i]];
        seen := seen + {cleaned[i]};
      }
    }
    assert cleaned[..|cleaned|] == cleaned;
    return Ok(Some(unique));
  }

  // ---------------------------------------------------------------------------
  // The schedule

  /** The service's schedule: the cron expression it runs by (None: paused)
      and the one saved in the history file. */
  class Schedule {
    var cronExpr: Option<string>
    var savedCron: Option<string>

    constructor ()
      ensures cronExpr.None? && savedCron.None?
    {
      cronExpr := None;
      savedCron := None;
    }

    /** `_apply_schedule`: a blank or missing expression, or one `isValid`
        rejects, pauses the schedule; otherwise the stripped expression is
        adopted. */
    method ApplySchedule(stored: Option<string>, isValid: string -> bool)
      modifies this
      ensures var expr := Strip(stored.GetOr(""));
        cronExpr == if expr != "" && isValid(expr) then Some(expr) else None
      ensures savedCron == old(savedCron)
    {
      var expr := Strip(stored.GetOr(""));
      if expr == "" {
        cronExpr := None;
        return;
      }
      if isValid(expr) {
        cronExpr := Some(expr);
      } else {
        cronExpr := None;
      }
    }

    /** `set_cron`: an invalid stripped expression is refused and nothing
        changes; a valid one is adopted and saved. */
    method SetCron(expr: string, isValid: string -> bool) returns (r: Checked<string>)
      modifies this
      ensures !isValid(Strip(expr)) ==>
        r == Rejected(InvalidCron) && cronExpr == old(cronExpr) && savedCron == old(savedCron)
      ensures isValid(Strip(expr)) ==>
        r == Ok(Strip(expr)) && cronExpr == Some(Strip(expr)) && savedCron == Some(Strip(expr))
    {
      var e := Strip(expr);
      if !isValid(e) {
        return Rejected(InvalidCron);
      }
      cronExpr := Some(e);
      savedCron := Some(e);
      return Ok(e);
    }
  }

  // ---------------------------------------------------------------------------
  // Page sizes of the listings

  /** The page size a listing uses: below one is refused, above `cap` is
      cut to `cap`. */
  function ClampLimit(limit: int, cap: nat): (r: Checked<int>)
    requires cap >= 1
    ensures r.Ok? <==> limit >= 1
    ensures r.Rejected? ==> r.error == LimitTooSmall
    ensures r.Ok? ==> 1 <= r.value <= cap && r.value <= limit && (r.value == limit || r.value == cap)
  {
    if limit < 1 then Rejected(LimitTooSmall)
    else if limit < cap then Ok(limit) else Ok(cap)
  }

  /** `list_runs`: at most 500 runs per page. */
  function ListRunsLimit(limit: int): (r: Checked<int>)
    ensures r.Ok? <==> limit >= 1
    ensures r.Ok? ==> r.value == (if limit <= 500 then limit else 500)
  {
    ClampLimit(limit, 500)
  }

  /** `get_run_logs`: at most 1000 lines per page. */
  function RunLogsLimit(limit: int): (r: Checked<int>)
    ensures r.Ok? <==> limit >= 1
    ensures r.Ok? ==> r.value == (if limit <= 1000 then limit else 1000)
  {
    ClampLimit(limit, 1000)
  }
}
