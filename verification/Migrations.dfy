/** Migrations under crashes, restarts and several processes at once: each is applied once, in order, with no gap. */
module Migrations {
  import opened Text

  /** An embedded migration file. */
  datatype Migration = Migration(name: string, sql: string)

  function Names(ms: seq<Migration>): set<string> { set m | m in ms :: m.name }

  /** Files as the runner orders them; names in a directory are distinct. */
  predicate Sorted(ms: seq<Migration>) { forall i, j :: 0 <= i < j < |ms| ==> Less(ms[i].name, ms[j].name) }

  // ---------------------------------------------------------------- the database and its runners

  /** A process in `migrate`: its files, the one it is at, and whether that was found not to be recorded yet. */
  datatype Runner = Runner(files: seq<Migration>, next: nat, missing: bool)

  /** `applied` is the table schema_migrations; `scripts` is the list of all migrations ever executed, which is the schema. */
  datatype World = World(applied: set<string>, scripts: seq<Migration>, runners: map<nat, Runner>)

  const NEW := World({}, [], map[])

  datatype Action =
    | Start(id: nat, files: seq<Migration>)
    | Check(id: nat)
    | Apply(id: nat)
    | Crash(id: nat)

  predicate AtFile(w: World, id: nat) { id in w.runners && w.runners[id].next < |w.runners[id].files| }

  predicate Enabled(w: World, a: Action) {
    match a
    case Start(id, files) => id !in w.runners && Sorted(files)
    case Check(id) => AtFile(w, id) && !w.runners[id].missing
    case Apply(id) => AtFile(w, id) && w.runners[id].missing
    case Crash(id) => id in w.runners
  }

  /**
   * The script and its record are one transaction. A record that exists by now violates the primary key: the transaction
   * is rolled back and the process gives up, as it does when a crash or a failing script stops it.
   */
  function Next(w: World, a: Action): World
    requires Enabled(w, a)
  {
    match a
    case Start(id, files) => w.(runners := w.runners[id := Runner(files, 0, false)])
    case Check(id) =>
      var r := w.runners[id];
      w.(runners := w.runners[id := if r.files[r.next].name in w.applied then r.(next := r.next + 1) else r.(missing := true)])
    case Apply(id) =>
      var r := w.runners[id];
      var m := r.files[r.next];
      if m.name in w.applied then w.(runners := w.runners - {id})
      else World(w.applied + {m.name}, w.scripts + [m], w.runners[id := Runner(r.files, r.next + 1, false)])
    case Crash(id) => w.(runners := w.runners - {id})
  }

  predicate ValidRun(w: World, run: seq<Action>)
    decreases |run|
  {
    run == [] || (Enabled(w, run[0]) && ValidRun(Next(w, run[0]), run[1..]))
  }

  function After(w: World, run: seq<Action>): World
    requires ValidRun(w, run)
    decreases |run|
  {
    if run == [] then w else After(Next(w, run[0]), run[1..])
  }

  /** Every process started carries a release of the chain: its first so many migrations. */
  predicate Releases(chain: seq<Migration>, run: seq<Action>) {
    forall k :: 0 <= k < |run| && run[k].Start? ==> run[k].files <= chain
  }

  // ---------------------------------------------------------------- the invariant

  /** The scripts run are a prefix of the chain, recorded by name, and no process is ahead of them. */
  ghost predicate PrefixApplied(w: World, chain: seq<Migration>) {
    && w.scripts <= chain
    && w.applied == Names(w.scripts)
    && forall id :: id in w.runners ==>
         w.runners[id].files <= chain && w.runners[id].next <= |w.runners[id].files| && w.runners[id].next <= |w.scripts|
  }

  lemma NameIsPosition(chain: seq<Migration>, n: nat, k: nat)
    requires Sorted(chain) && n <= |chain| && k < |chain|
    ensures chain[k].name in Names(chain[..n]) <==> k < n
  {
    if k < n {
      assert chain[..n][k] == chain[k];
    } else if chain[k].name in Names(chain[..n]) {
      var m :| m in chain[..n] && m.name == chain[k].name;
      var j :| 0 <= j < n && chain[j] == m;
      LessTrichotomy(chain[j].name, chain[k].name);
    }
  }

  lemma StepKeepsPrefix(w: World, a: Action, chain: seq<Migration>)
    requires Sorted(chain) && PrefixApplied(w, chain) && Enabled(w, a) && (a.Start? ==> a.files <= chain)
    ensures PrefixApplied(Next(w, a), chain)
  {
    hide Sorted;
    match a {
      case Check(id) =>
        var r := w.runners[id];
        assert w.scripts == chain[..|w.scripts|];
        NameIsPosition(chain, |w.scripts|, r.next);
      case Apply(id) =>
        var r := w.runners[id];
        assert w.scripts == chain[..|w.scripts|];
        NameIsPosition(chain, |w.scripts|, r.next);
        NamesGrow(w.scripts, r.files[r.next]);
      case _ =>
    }
  }

  lemma NamesGrow(ms: seq<Migration>, m: Migration)
    ensures Names(ms + [m]) == Names(ms) + {m.name}
  {
    assert m in ms + [m];
    forall x | x in Names(ms) ensures x in Names(ms + [m]) {
      var y :| y in ms && y.name == x;
      assert y in ms + [m];
    }
  }

  lemma {:induction false} RunKeepsPrefix(w: World, run: seq<Action>, chain: seq<Migration>)
    requires Sorted(chain) && PrefixApplied(w, chain) && ValidRun(w, run) && Releases(chain, run)
    ensures PrefixApplied(After(w, run), chain)
    decreases |run|
  {
    hide PrefixApplied, Enabled, Next, Sorted;
    if run != [] {
      StepKeepsPrefix(w, run[0], chain);
      forall k | 0 <= k < |run[1..]| && run[1..][k].Start? ensures run[1..][k].files <= chain { assert run[k + 1].Start?; }
      RunKeepsPrefix(Next(w, run[0]), run[1..], chain);
    }
  }

  /**
   * Whatever crashes, restarts or runs beside it: the migrations executed are the first so many of the chain, each once and
   * in order, and exactly they are recorded. A process that has come to its end leaves its whole release applied.
   */
  lemma MigrationsAreAPrefix(run: seq<Action>, chain: seq<Migration>)
    requires Sorted(chain) && ValidRun(NEW, run) && Releases(chain, run)
    ensures var w := After(NEW, run);
      && w.scripts <= chain && w.applied == Names(w.scripts)
      && forall id :: id in w.runners && w.runners[id].next == |w.runners[id].files| ==> w.runners[id].files <= w.scripts
  {
    hide Enabled, Next, Sorted;
    RunKeepsPrefix(NEW, run, chain);
  }

  // ---------------------------------------------------------------- a process left alone

  ghost predicate StepsOf(run: seq<Action>, id: nat) { forall k :: 0 <= k < |run| ==> run[k] == Check(id) || run[k] == Apply(id) }

  /** The files are all run: what was applied before, and the rest of the release. */
  predicate Finishes(w: World, w': World, id: nat)
    requires id in w.runners
  {
    var files := w.runners[id].files;
    && id in w'.runners && w'.runners[id].next == |w'.runners[id].files| && w'.runners[id].files == files
    && w'.scripts == if |w.scripts| >= |files| then w.scripts else files
  }

  lemma {:induction false} RunnerFinishes(w: World, id: nat, chain: seq<Migration>) returns (run: seq<Action>)
    requires Sorted(chain) && PrefixApplied(w, chain) && id in w.runners
    requires w.runners[id].missing ==> AtFile(w, id) && w.runners[id].next == |w.scripts|
    ensures ValidRun(w, run) && StepsOf(run, id) && Finishes(w, After(w, run), id)
    decreases |w.runners[id].files| - w.runners[id].next, if w.runners[id].missing then 0 else 1
  {
    var r := w.runners[id];
    run := [];
    if r.next < |r.files| {
      assert w.scripts == chain[..|w.scripts|] && r.files[r.next] == chain[r.next];
      NameIsPosition(chain, |w.scripts|, r.next);
      var a := if r.missing then Apply(id) else Check(id);
      StepKeepsPrefix(w, a, chain);
      hide Sorted, PrefixApplied, Names;
      var rest := RunnerFinishes(Next(w, a), id, chain);
      run := [a] + rest;
      assert run[1..] == rest;
    }
  }

  /** A process that nothing disturbs applies what is missing of its release, and all of it, and finds nothing to undo. */
  lemma StartedRunnerFinishes(w: World, id: nat, files: seq<Migration>, chain: seq<Migration>) returns (run: seq<Action>)
    requires Sorted(chain) && PrefixApplied(w, chain) && id !in w.runners && files <= chain
    ensures run != [] && run[0] == Start(id, files) && StepsOf(run[1..], id) && ValidRun(w, run) && Releases(chain, run)
    ensures After(w, run).scripts == if |w.scripts| >= |files| then w.scripts else files
  {
    var a := Start(id, files);
    StepKeepsPrefix(w, a, chain);
    var rest := RunnerFinishes(Next(w, a), id, chain);
    run := [a] + rest;
    assert run[1..] == rest;
  }

  /** A process that crashes, wherever it was, can be started again, and then finishes the release. */
  lemma CrashedRunnerIsResumed(w: World, id: nat, chain: seq<Migration>) returns (run: seq<Action>)
    requires Sorted(chain) && PrefixApplied(w, chain) && id in w.runners
    ensures |run| >= 2 && run[0] == Crash(id) && run[1] == Start(id, w.runners[id].files) && StepsOf(run[2..], id) && ValidRun(w, run)
    ensures After(w, run).scripts == if |w.scripts| >= |w.runners[id].files| then w.scripts else w.runners[id].files
  {
    StepKeepsPrefix(w, Crash(id), chain);
    var rest := StartedRunnerFinishes(Next(w, Crash(id)), id, w.runners[id].files, chain);
    run := [Crash(id)] + rest;
    assert run[1..] == rest && run[2..] == rest[1..];
  }

  /** A file may be added to a release exactly if its name sorts after all others. */
  lemma SortedGrows(ms: seq<Migration>, m: Migration)
    ensures Sorted([]) && (Sorted(ms + [m]) <==> Sorted(ms) && forall n :: n in ms ==> Less(n.name, m.name))
  {
    var all := ms + [m];
    assert forall i :: 0 <= i < |ms| ==> all[i] == ms[i];
    if Sorted(all) {
      forall n | n in ms ensures Less(n.name, m.name) {
        var i :| 0 <= i < |ms| && ms[i] == n;
        assert Less(all[i].name, all[|ms|].name);
      }
    }
  }

  // ---------------------------------------------------------------- which releases form a chain

  /**
   * A release that keeps the files of an earlier one extends it exactly when every new name sorts after every old one.
   */
  lemma ExtensionCondition(older: seq<Migration>, newer: seq<Migration>)
    requires Sorted(older) && Sorted(newer) && forall m :: m in older ==> m in newer
    ensures older <= newer <==> forall m, n :: m in older && n in newer && n !in older ==> Less(m.name, n.name)
  {
    if older <= newer {
      assert forall k :: 0 <= k < |older| ==> newer[k] == older[k];
      forall m, n | m in older && n in newer && n !in older ensures Less(m.name, n.name) {
        var i :| 0 <= i < |older| && older[i] == m;
        var j :| 0 <= j < |newer| && newer[j] == n;
      }
    } else if forall m, n :: m in older && n in newer && n !in older ==> Less(m.name, n.name) {
      OldComesFirst(older, newer, |older|);
    }
  }

  lemma SortedAt(ms: seq<Migration>, i: nat, j: nat)
    requires Sorted(ms) && i < |ms| && j < |ms|
    ensures (Less(ms[i].name, ms[j].name) <==> i < j) && (ms[i] == ms[j] <==> i == j)
  {
    LessTrichotomy(ms[i].name, ms[j].name);
  }

  /** The first k files of the new release are those of the older one. */
  lemma {:induction false} OldComesFirst(older: seq<Migration>, newer: seq<Migration>, k: nat)
    requires Sorted(older) && Sorted(newer) && (forall m :: m in older ==> m in newer) && k <= |older|
    requires forall m, n :: m in older && n in newer && n !in older ==> Less(m.name, n.name)
    ensures k <= |newer| && older[..k] == newer[..k]
  {
    hide Sorted;
    if k > 0 {
      OldComesFirst(older, newer, k - 1);
      assert older[k - 1] in older;
      var j :| 0 <= j < |newer| && newer[j] == older[k - 1];
      if j < k - 1 {
        assert newer[j] == newer[..k - 1][j] == older[..k - 1][j] == older[j];
        SortedAt(older, j, k - 1);
      }
      NoneInBetween(older, newer, k, j);
      assert older[..k] == older[..k - 1] + [older[k - 1]] && newer[..k] == newer[..k - 1] + [newer[k - 1]];
    }
  }

  /** What stands at k - 1 would sort before the k-th old file: an old file then, but those before it have their places. */
  lemma NoneInBetween(older: seq<Migration>, newer: seq<Migration>, k: nat, j: nat)
    requires Sorted(older) && Sorted(newer) && 0 < k <= |older| && k - 1 <= j < |newer|
    requires older[..k - 1] == newer[..k - 1] && newer[j] == older[k - 1]
    requires forall m, n :: m in older && n in newer && n !in older ==> Less(m.name, n.name)
    ensures j == k - 1
  {
    hide Sorted;
    var n := newer[k - 1];
    SortedAt(newer, k - 1, j);
    LessTrichotomy(n.name, older[k - 1].name);
    assert n in newer && older[k - 1] in older;
    if n in older {
      var i :| 0 <= i < |older| && older[i] == n;
      SortedAt(older, i, k - 1);
      assert i < k - 1 ==> newer[..k - 1][i] == older[..k - 1][i];
      if i < |newer| { SortedAt(newer, i, k - 1); }
    }
  }

  // ---------------------------------------------------------------- one process

  class Database {
    var applied: set<string>
    var scripts: seq<Migration>

    constructor ()
      ensures applied == {} && scripts == []
    {
      applied, scripts := {}, [];
    }

    /** Both the script and its record, or neither. */
    method RunMigration(m: Migration, fails: bool) returns (ok: bool)
      modifies this
      ensures ok <==> !fails && m.name !in old(applied)
      ensures applied == old(applied) + (if ok then {m.name} else {}) && scripts == old(scripts) + (if ok then [m] else [])
    {
      ok := !fails && m.name !in applied;
      if ok {
        applied := applied + {m.name};
        scripts := scripts + [m];
      }
    }

    /** Takes up where the last process stopped; `failAt` is the file at which it crashes or fails, if there is one. */
    method Migrate(files: seq<Migration>, failAt: nat) returns (ok: bool)
      requires Sorted(files) && applied == Names(scripts) && (scripts <= files || files <= scripts)
      requires Sorted(scripts)
      modifies this
      ensures applied == Names(scripts)
      ensures scripts == if |old(scripts)| >= |files| then old(scripts) else if failAt < |files| && failAt >= |old(scripts)| then files[..failAt] else files
      ensures ok <==> files <= scripts
    {
      ghost var all := if scripts <= files then files else scripts;
      for i := 0 to |files|
        invariant applied == Names(scripts) && scripts <= all && files <= all && Sorted(all)
        invariant |scripts| == if |old(scripts)| > i then |old(scripts)| else i
        invariant failAt < i ==> failAt < |old(scripts)|
      {
        assert scripts == all[..|scripts|] && all[i] == files[i];
        NameIsPosition(all, |scripts|, i);
        if files[i].name in applied { continue; }
        NamesGrow(scripts, files[i]);
        var done := RunMigration(files[i], failAt == i);
        if !done { return false; }
      }
      ok := true;
    }
  }
}
