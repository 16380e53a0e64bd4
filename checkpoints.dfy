/** Checkpoint bookkeeping: the YAML-backed key/value file
    (utils/yaml_database.py) and the sync manager that reads a task's last
    sync date by configuration hash, saves it under the task's name, and runs
    the tasks in order (sync/manager.py; synchronize.py holds the same logic). */
module Checkpoints {
  import opened Base
  import opened Text
  import opened Settings

  /** `d` without the entry named `k` (`del d[k]`). */
  function Without<V>(d: Dict<string, V>, k: string): (r: Dict<string, V>)
    ensures forall x :: Get(r, x) == if x == k then None else Get(d, x)
    ensures |r| <= |d|
  {
    if d == [] then []
    else if d[0].0 == k then Without(d[1..], k)
    else [d[0]] + Without(d[1..], k)
  }

  /** The key/value file. `file` is None while the file does not exist; an
      empty file loads as an empty dictionary, like a missing one. Every
      save goes through `yaml.safe_dump`, which writes the keys sorted, so a
      file this class has written reloads in ascending order of its keys. */
  class YamlDatabase<V> {
    var file: Option<Dict<string, V>>

    constructor ()
      ensures file == None
    {
      file := None;
    }

    /** `_load_data` */
    function Load(): Dict<string, V>
      reads this
    {
      file.GetOr([])
    }

    /** `insert`: load, set the key, save sorted by key. */
    method Insert(key: string, value: V)
      modifies this
      ensures file == Some(SortByName(Put(old(Load()), key, value)))
      ensures Lookup(key) == Some(value)
      ensures forall x :: x != key ==> Lookup(x) == old(Lookup(x))
    {
      var data := Load();
      data := Put(data, key, value);
      SortByNameKeeps(data);
      file := Some(SortByName(data));
    }

    /** `get`: None when the key is absent, the file missing or empty. */
    function Lookup(key: string): (r: Option<V>)
      reads this
      ensures file.None? ==> r.None?
      ensures r.Some? <==> Has(Load(), key)
    {
      Get(Load(), key)
    }

    /** `delete`: removes the key, and writes the file, sorted by key,
        only if the key was there. */
    method Delete(key: string)
      modifies this
      ensures Has(old(Load()), key) ==> file == Some(SortByName(Without(old(Load()), key)))
      ensures !Has(old(Load()), key) ==> file == old(file)
      ensures Lookup(key).None?
      ensures forall x :: x != key ==> Lookup(x) == old(Lookup(x))
    {
      var data := Load();
      if Has(data, key) {
        data := Without(data, key);
        SortByNameKeeps(data);
        file := Some(SortByName(data));
      }
    }
  }

  /** A store after `insert(k, v)`, as the file reloads: `get(k)` gives
      `v`, every other key keeps its value, the keys are in ascending order,
      and `delete(k)` then removes exactly `k`. */
  lemma {:induction false} InsertGetDelete<V>(data: Dict<string, V>, k: string, v: V, x: string)
    ensures Get(SortByName(Put(data, k, v)), k) == Some(v)
    ensures x != k ==> Get(SortByName(Put(data, k, v)), x) == Get(data, x)
    ensures SortedByName(SortByName(Put(data, k, v)))
    ensures Get(SortByName(Without(SortByName(Put(data, k, v)), k)), x) == if x == k then None else Get(data, x)
  {
    SortByNameKeeps(Put(data, k, v));
    SortByNameSorted(Put(data, k, v));
    SortByNameKeeps(Without(SortByName(Put(data, k, v)), k));
  }

  // ---------------------------------------------------------------------------
  // The sync manager

  /** A saved checkpoint: the configuration hash and the date as ISO text. */
  datatype Entry = Entry(hash: string, lastSyncDateUtc: string)

  type Entries = Dict<string, Entry>

  /** A task as the manager runs it: its name and validated configuration. */
  datatype ManagedTask = ManagedTask(name: string, config: TaskSettings)

  /** What `gen_task_hash` hashes: the configuration with
      `use_last_sync_date` and `delete` excluded. */
  function Identity(cfg: TaskSettings): TaskSettings {
    cfg.(useLastSyncDate := true, delete := None)
  }

  /** `gen_task_hash`; `hash` stands for the JSON dump and SHA-256. */
  function TaskHash(cfg: TaskSettings, hash: TaskSettings -> string): string {
    hash(Identity(cfg))
  }

  /** Configurations that differ only in `use_last_sync_date` and `delete`
      share their checkpoint. */
  lemma {:induction false} HashIgnoresCheckpointAndDelete(a: TaskSettings, b: TaskSettings, hash: TaskSettings -> string)
    requires a.(useLastSyncDate := b.useLastSyncDate, delete := b.delete) == b
    ensures TaskHash(a, hash) == TaskHash(b, hash)
  {
    assert Identity(a) == Identity(b);
  }

  /** The position of the first entry, in file order, carrying hash `h`. */
  function FirstWithHash(entries: Entries, h: string): (r: Option<nat>)
    ensures r.None? <==> forall i :: 0 <= i < |entries| ==> entries[i].1.hash != h
    ensures r.Some? ==> (r.value < |entries| && entries[r.value].1.hash == h
      && forall j :: 0 <= j < r.value ==> entries[j].1.hash != h)
  {
    if entries == [] then None
    else if entries[0].1.hash == h then Some(0)
    else
      match FirstWithHash(entries[1..], h)
      case None => None
      case Some(i) => Some(i + 1)
  }

  /** `get_last_sync_date` over what the file holds under "timestamps":
      None when checkpoints are off or no entry has the task's hash, else
      the date of the first such entry. `parse` is `datetime.fromisoformat`. */
  function LastSyncDate(cfg: TaskSettings, stored: Option<Entries>, hash: TaskSettings -> string,
                        parse: string -> int): Option<int>
  {
    if !cfg.useLastSyncDate then None
    else match stored
      case None => None
      case Some(entries) =>
        match FirstWithHash(entries, TaskHash(cfg, hash))
        case None => None
        case Some(i) => Some(parse(entries[i].1.lastSyncDateUtc))
  }

  /** The operand `save_sync_date` compares each stored hash with: it names
      the builtin `hash` function, not the new entry's hash text. */
  datatype HashOperand = BuiltinHashFunction | HashText(text: string)

  /** The entries `save_sync_date` writes back, as the file reloads them:
      the stored ones (none when the file holds nothing) with the task's
      entry set, in ascending order of task name, since the dump sorts the
      nested mapping too. Nothing is purged: the purge compares hash texts
      with the builtin `hash` function. */
  function Saved(stored: Option<Entries>, taskName: string, cfg: TaskSettings, date: int,
                 hash: TaskSettings -> string, iso: int -> string): (r: Entries)
    ensures Get(r, taskName) == Some(Entry(TaskHash(cfg, hash), iso(date)))
    ensures forall x :: x != taskName ==> Get(r, x) == Get(stored.GetOr([]), x)
  {
    var entries := Put(stored.GetOr([]), taskName, Entry(TaskHash(cfg, hash), iso(date)));
    SortByNameKeeps(entries);
    SortByName(entries)
  }

  /** What the file holds under "timestamps" after the first `n` tasks
      of a run, in order: each saves its entry unless the run is dry. */
  function EntriesUpTo(stored: Option<Entries>, dryRun: bool, tasks: seq<ManagedTask>, dates: seq<int>, n: nat,
                       hash: TaskSettings -> string, iso: int -> string): Option<Entries>
    requires n <= |tasks| && n <= |dates|
  {
    if n == 0 then stored
    else
      var e := EntriesUpTo(stored, dryRun, tasks, dates, n - 1, hash, iso);
      if dryRun then e else Some(Saved(e, tasks[n - 1].name, tasks[n - 1].config, dates[n - 1], hash, iso))
  }

  /** Where a run stands after its first `n` tasks: what the file holds
      under "timestamps", and the checkpoint each of those tasks started
      from. */
  datatype Progress = Progress(entries: Option<Entries>, since: seq<Option<int>>)

  /** The first `n` tasks of a run, in order: each reads its checkpoint
      from the entries the tasks before it left, then saves its entry
      unless the run is dry. */
  function RunUpTo(stored: Option<Entries>, dryRun: bool, tasks: seq<ManagedTask>, dates: seq<int>, n: nat,
                   hash: TaskSettings -> string, iso: int -> string, parse: string -> int): (r: Progress)
    requires n <= |tasks| && n <= |dates|
    ensures |r.since| == n
  {
    if n == 0 then Progress(stored, [])
    else
      var p := RunUpTo(stored, dryRun, tasks, dates, n - 1, hash, iso, parse);
      var t := tasks[n - 1];
      Progress(if dryRun then p.entries else Some(Saved(p.entries, t.name, t.config, dates[n - 1], hash, iso)),
               p.since + [LastSyncDate(t.config, p.entries, hash, parse)])
  }

  /** One more task of a run: it reads from, then saves over, what the
      tasks before it left. */
  lemma RunUpToStep(stored: Option<Entries>, dryRun: bool, tasks: seq<ManagedTask>, dates: seq<int>, n: nat,
                    hash: TaskSettings -> string, iso: int -> string, parse: string -> int)
    requires n < |tasks| && n < |dates|
    ensures var p := RunUpTo(stored, dryRun, tasks, dates, n, hash, iso, parse);
      RunUpTo(stored, dryRun, tasks, dates, n + 1, hash, iso, parse)
        == Progress(if dryRun then p.entries else Some(Saved(p.entries, tasks[n].name, tasks[n].config, dates[n], hash, iso)),
                    p.since + [LastSyncDate(tasks[n].config, p.entries, hash, parse)])
  {
  }

  /** The entries of a run's progress are those its saves leave. */
  lemma {:induction false} RunUpToEntries(stored: Option<Entries>, dryRun: bool, tasks: seq<ManagedTask>, dates: seq<int>,
                                          n: nat, hash: TaskSettings -> string, iso: int -> string, parse: string -> int)
    requires n <= |tasks| && n <= |dates|
    ensures RunUpTo(stored, dryRun, tasks, dates, n, hash, iso, parse).entries
         == EntriesUpTo(stored, dryRun, tasks, dates, n, hash, iso)
  {
    if n > 0 {
      RunUpToEntries(stored, dryRun, tasks, dates, n - 1, hash, iso, parse);
    }
  }

  /** A dry run leaves the entries as they were. */
  lemma {:induction false} DryRunKeepsEntries(stored: Option<Entries>, tasks: seq<ManagedTask>, dates: seq<int>, n: nat,
                                              hash: TaskSettings -> string, iso: int -> string)
    requires n <= |tasks| && n <= |dates|
    ensures EntriesUpTo(stored, true, tasks, dates, n, hash, iso) == stored
  {
    if n > 0 {
      DryRunKeepsEntries(stored, tasks, dates, n - 1, hash, iso);
    }
  }

  /** After a run that is not dry, the file holds, under each task's name,
      the hash and date that task saved, unless a later task of the same
      name overwrote it. */
  lemma {:induction false} RunSavesEveryTask(stored: Option<Entries>, tasks: seq<ManagedTask>, dates: seq<int>, n: nat,
                                             hash: TaskSettings -> string, iso: int -> string, j: int)
    requires n <= |tasks| && n <= |dates| && 0 <= j < n
    requires forall k :: j < k < n ==> tasks[k].name != tasks[j].name
    ensures EntriesUpTo(stored, false, tasks, dates, n, hash, iso).Some?
    ensures Get(EntriesUpTo(stored, false, tasks, dates, n, hash, iso).value, tasks[j].name)
         == Some(Entry(TaskHash(tasks[j].config, hash), iso(dates[j])))
  {
    if j < n - 1 {
      RunSavesEveryTask(stored, tasks, dates, n - 1, hash, iso, j);
    }
  }

  /** The index of the first task whose sync raises, or the number of
      tasks when none does. */
  function FirstRaise(raises: seq<bool>): (k: nat)
    ensures k <= |raises|
    ensures forall i :: 0 <= i < k ==> !raises[i]
    ensures k < |raises| ==> raises[k]
  {
    if raises == [] then 0
    else if raises[0] then 0
    else 1 + FirstRaise(raises[1..])
  }

  /** The dates a run saves: each clock reading plus the buffer. */
  function Deadlines(clock: seq<int>, buffer: int): (r: seq<int>)
    ensures |r| == |clock| && forall i :: 0 <= i < |clock| ==> r[i] == clock[i] + buffer
  {
    seq(|clock|, i requires 0 <= i < |clock| => clock[i] + buffer)
  }

  /** The manager's state that outlives a call: its dry-run switch, its
      checkpoint file, and whether the connections have been closed. */
  class SyncManager {
    const dryRun: bool
    const store: YamlDatabase<Entries>
    var connectionsClosed: bool

    constructor (dryRun: bool, store: YamlDatabase<Entries>)
      ensures this.dryRun == dryRun && this.store == store && !connectionsClosed
    {
      this.dryRun := dryRun;
      this.store := store;
      connectionsClosed := false;
    }

    /** `get_last_sync_date` */
    method GetLastSyncDate(cfg: TaskSettings, hash: TaskSettings -> string, parse: string -> int) returns (r: Option<int>)
      ensures r == LastSyncDate(cfg, store.Lookup("timestamps"), hash, parse)
    {
      if !cfg.useLastSyncDate {
        return None;
      }
      var h := TaskHash(cfg, hash);
      var entries := store.Lookup("timestamps");
      if entries.Some? && entries.value != [] {
        var es := entries.value;
        var i := 0;
        while i < |es|
          invariant 0 <= i <= |es|
          invariant forall j :: 0 <= j < i ==> es[j].1.hash != h
        {
          if es[i].1.hash == h {
            assert FirstWithHash(es, h) == Some(i) by {
              var k := FirstWithHash(es, h).value;
              assert k == i;
            }
            return Some(parse(es[i].1.lastSyncDateUtc));
          }
          i := i + 1;
        }
      }
      return None;
    }

    /** `save_sync_date`: nothing in dry run; otherwise the task's entry is
        set under its name and the file rewritten, every mapping in it
        sorted by key. */
    method SaveSyncDate(taskName: string, cfg: TaskSettings, date: int, hash: TaskSettings -> string, iso: int -> string)
      modifies store
      ensures dryRun ==> store.file == old(store.file)
      ensures !dryRun ==> (store.file
        == Some(SortByName(Put(old(store.Load()), "timestamps", Saved(old(store.Lookup("timestamps")), taskName, cfg, date, hash, iso)))))
      ensures !dryRun ==> store.Lookup("timestamps") == Some(Saved(old(store.Lookup("timestamps")), taskName, cfg, date, hash, iso))
      ensures forall key :: key != "timestamps" ==> store.Lookup(key) == old(store.Lookup(key))
    {
      if dryRun {
        return;
      }
      var newEntry := Entry(TaskHash(cfg, hash), iso(date));
      var entries := store.Lookup("timestamps").GetOr([]);
      var i := 0;
      while i < |entries|
        invariant 0 <= i <= |entries|
        invariant entries == store.Lookup("timestamps").GetOr([])
      {
        var (name, entry) := entries[i];
        if HashText(entry.hash) == BuiltinHashFunction {
          entries := Without(entries, name);
        }
        i := i + 1;
      }
      entries := SortByName(Put(entries, taskName, newEntry));
      store.Insert("timestamps", entries);
    }

    /** One turn of `run`: the task's checkpoint is read, the task synced
        from it, and the given date saved. */
    method RunTask(task: ManagedTask, date: int, hash: TaskSettings -> string, iso: int -> string, parse: string -> int)
      returns (since: Option<int>)
      modifies store
      ensures since == LastSyncDate(task.config, old(store.Lookup("timestamps")), hash, parse)
      ensures store.Lookup("timestamps")
        == if dryRun then old(store.Lookup("timestamps"))
           else Some(Saved(old(store.Lookup("timestamps")), task.name, task.config, date, hash, iso))
      ensures forall key :: key != "timestamps" ==> store.Lookup(key) == old(store.Lookup(key))
    {
      since := GetLastSyncDate(task.config, hash, parse);
      SaveSyncDate(task.name, task.config, date, hash, iso);
    }

    /** `run`: for each task in order, read its checkpoint, sync from it,
        and save the clock reading plus the buffer; then close the
        connections. Each task reads the checkpoints left by the tasks
        before it. `clock[i]` is the time when task i finishes, and
        `raises[i]` whether its sync raises. An exception from a sync ends
        the run: that task has read its checkpoint but saves none, later
        tasks are not run, and the connections stay open. */
    method Run(tasks: seq<ManagedTask>, clock: seq<int>, raises: seq<bool>, buffer: int,
               hash: TaskSettings -> string, iso: int -> string, parse: string -> int)
      returns (since: seq<Option<int>>, raised: bool)
      requires |clock| == |tasks| && |raises| == |tasks|
      modifies this, store
      ensures raised <==> FirstRaise(raises) < |tasks|
      ensures connectionsClosed == (!raised || old(connectionsClosed))
      ensures var p := RunUpTo(old(store.Lookup("timestamps")), dryRun, tasks, Deadlines(clock, buffer), FirstRaise(raises),
                               hash, iso, parse);
        && store.Lookup("timestamps") == p.entries
        && since == if raised then p.since + [LastSyncDate(tasks[FirstRaise(raises)].config, p.entries, hash, parse)]
                    else p.since
      ensures forall key :: key != "timestamps" ==> store.Lookup(key) == old(store.Lookup(key))
    {
      ghost var stored := store.Lookup("timestamps");
      ghost var dates := Deadlines(clock, buffer);
      since := [];
      var k := FirstRaise(raises);
      var i := 0;
      while i < k
        invariant 0 <= i <= k
        invariant store.Lookup("timestamps") == RunUpTo(stored, dryRun, tasks, dates, i, hash, iso, parse).entries
        invariant since == RunUpTo(stored, dryRun, tasks, dates, i, hash, iso, parse).since
        invariant connectionsClosed == old(connectionsClosed)
        invariant forall key :: key != "timestamps" ==> store.Lookup(key) == old(store.Lookup(key))
      {
        ghost var p := RunUpTo(stored, dryRun, tasks, dates, i, hash, iso, parse);
        var date := clock[i] + buffer;
        assert date == dates[i];
        var last := RunTask(tasks[i], date, hash, iso, parse);
        RunUpToStep(stored, dryRun, tasks, dates, i, hash, iso, parse);
        since := since + [last];
        i := i + 1;
      }
      raised := k < |tasks|;
      if raised {
        // the sync of task k raises after its checkpoint was read
        var last := GetLastSyncDate(tasks[k].config, hash, parse);
        since := since + [last];
      } else {
        connectionsClosed := true;
      }
    }
  }

  /** The kind of task `_create_sync_task` builds for a direction; None
      for an unknown one. */
  function CreateSyncTask(direction: string): (r: Option<Direction>)
    ensures r == Some(DbToFrappe) <==> direction == "db_to_frappe"
    ensures r == Some(FrappeToDb) <==> direction == "frappe_to_db"
    ensures r == Some(Bidirectional) <==> direction == "bidirectional"
  {
    if direction == "db_to_frappe" then Some(DbToFrappe)
    else if direction == "frappe_to_db" then Some(FrappeToDb)
    else if direction == "bidirectional" then Some(Bidirectional)
    else None
  }

  /** In entries sorted by name, the first entry carrying a hash is the
      one with the least name among those carrying it. */
  lemma {:induction false} FirstWithHashLeastName(entries: Entries, h: string, j: int)
    requires SortedByName(entries) && 0 <= j < |entries| && entries[j].1.hash == h
    ensures FirstWithHash(entries, h).Some?
    ensures StrLe(entries[FirstWithHash(entries, h).value].0, entries[j].0)
  {
    SortedByNameLe(entries, FirstWithHash(entries, h).value, j);
  }

  /** After a save, the entry the next lookup finds for a hash is the one
      whose task name sorts first among those carrying it, whichever task
      saved last. */
  lemma {:induction false} LookupFindsLeastName(stored: Option<Entries>, taskName: string, cfg: TaskSettings, date: int,
                                                hash: TaskSettings -> string, iso: int -> string, look: TaskSettings,
                                                parse: string -> int)
    requires look.useLastSyncDate
    ensures var saved := Saved(stored, taskName, cfg, date, hash, iso);
      var h := TaskHash(look, hash);
      forall j :: 0 <= j < |saved| && saved[j].1.hash == h ==>
        exists i :: (0 <= i < |saved| && saved[i].1.hash == h && StrLe(saved[i].0, saved[j].0)
                     && LastSyncDate(look, Some(saved), hash, parse) == Some(parse(saved[i].1.lastSyncDateUtc)))
  {
    var saved := Saved(stored, taskName, cfg, date, hash, iso);
    var h := TaskHash(look, hash);
    SortByNameSorted(Put(stored.GetOr([]), taskName, Entry(TaskHash(cfg, hash), iso(date))));
    forall j | 0 <= j < |saved| && saved[j].1.hash == h
      ensures exists i :: (0 <= i < |saved| && saved[i].1.hash == h && StrLe(saved[i].0, saved[j].0)
                           && LastSyncDate(look, Some(saved), hash, parse) == Some(parse(saved[i].1.lastSyncDateUtc)))
    {
      FirstWithHashLeastName(saved, h, j);
      var i := FirstWithHash(saved, h).value;
      assert saved[i].1.hash == h && StrLe(saved[i].0, saved[j].0);
    }
  }

  /** An older entry with the same hash survives a save under a new name.
      Here the new name sorts first, so the lookup returns the new date. */
  lemma {:induction false} StaleEntrySurvivesSave(cfg: TaskSettings, hash: TaskSettings -> string, iso: int -> string,
                               parse: string -> int, date: int)
    requires cfg.useLastSyncDate
    ensures var old_ := [("old_task", Entry(TaskHash(cfg, hash), "2020-01-01T00:00:00"))];
      var saved := Saved(Some(old_), "new_task", cfg, date, hash, iso);
      && Get(saved, "old_task") == Some(Entry(TaskHash(cfg, hash), "2020-01-01T00:00:00"))
      && LastSyncDate(cfg, Some(saved), hash, parse) == Some(parse(iso(date)))
  {
    var stale := ("old_task", Entry(TaskHash(cfg, hash), "2020-01-01T00:00:00"));
    var newer := ("new_task", Entry(TaskHash(cfg, hash), iso(date)));
    var saved := Saved(Some([stale]), "new_task", cfg, date, hash, iso);
    assert Put([stale], "new_task", newer.1) == [stale, newer];
    assert !StrLe(stale.0, newer.0);
    assert SortByName([newer]) == InsertByName(newer, []) == [newer];
    assert InsertByName(stale, [newer]) == [newer] + InsertByName(stale, []) == [newer, stale];
    assert saved == [newer, stale];
    assert FirstWithHash(saved, TaskHash(cfg, hash)) == Some(0);
  }

  /** The other order: when the older entry's name sorts first, the lookup
      keeps returning the older date after the new one was saved. */
  lemma {:induction false} StaleEntryShadowsSave(cfg: TaskSettings, hash: TaskSettings -> string, iso: int -> string,
                               parse: string -> int, date: int)
    requires cfg.useLastSyncDate
    ensures var old_ := [("old_task", Entry(TaskHash(cfg, hash), "2020-01-01T00:00:00"))];
      var saved := Saved(Some(old_), "task_v2", cfg, date, hash, iso);
      && Get(saved, "task_v2") == Some(Entry(TaskHash(cfg, hash), iso(date)))
      && LastSyncDate(cfg, Some(saved), hash, parse) == Some(parse("2020-01-01T00:00:00"))
  {
    var stale := ("old_task", Entry(TaskHash(cfg, hash), "2020-01-01T00:00:00"));
    var newer := ("task_v2", Entry(TaskHash(cfg, hash), iso(date)));
    var saved := Saved(Some([stale]), "task_v2", cfg, date, hash, iso);
    assert Put([stale], "task_v2", newer.1) == [stale, newer];
    assert StrLe(stale.0, newer.0);
    assert SortByName([newer]) == InsertByName(newer, []) == [newer];
    assert InsertByName(stale, [newer]) == [stale, newer];
    assert saved == [stale, newer];
    assert FirstWithHash(saved, TaskHash(cfg, hash)) == Some(0);
  }

  /** When no entry under another name carries the task's hash, what was
      saved is what the next lookup finds. */
  lemma {:induction false} SaveThenLookup(stored: Option<Entries>, taskName: string, cfg: TaskSettings, date: int,
                       hash: TaskSettings -> string, iso: int -> string, parse: string -> int)
    requires cfg.useLastSyncDate && DistinctKeys(stored.GetOr([]))
    requires forall i :: 0 <= i < |stored.GetOr([])| && stored.GetOr([])[i].0 != taskName ==>
      stored.GetOr([])[i].1.hash != TaskHash(cfg, hash)
    ensures LastSyncDate(cfg, Some(Saved(stored, taskName, cfg, date, hash, iso)), hash, parse) == Some(parse(iso(date)))
  {
    var saved := Saved(stored, taskName, cfg, date, hash, iso);
    var h := TaskHash(cfg, hash);
    var put := Put(stored.GetOr([]), taskName, Entry(h, iso(date)));
    SortByNameKeeps(put);
    assert (taskName, Entry(h, iso(date))) in saved;
    var i := FirstWithHash(saved, h).value;
    assert saved[i] in multiset(put);
    var j :| 0 <= j < |put| && put[j] == saved[i];
    SavedEntries(stored.GetOr([]), taskName, Entry(h, iso(date)), j);
  }

  /** Every entry of `Put(d, k, e)`, for `d` without repeated names, is
      `(k, e)` or an entry of `d` under another name. */
  lemma {:induction false} SavedEntries(d: Entries, k: string, e: Entry, i: int)
    requires DistinctKeys(d) && 0 <= i < |Put(d, k, e)|
    ensures Put(d, k, e)[i] == (k, e) || (Put(d, k, e)[i].0 != k && Put(d, k, e)[i] in d)
  {
    if d != [] && i > 0 {
      if d[0].0 == k {
        assert Put(d, k, e)[i] == d[i];
        assert d[0].0 != d[i].0;
      } else {
        SavedEntries(d[1..], k, e, i - 1);
        assert Put(d, k, e)[i] == Put(d[1..], k, e)[i - 1];
      }
    }
  }
}
