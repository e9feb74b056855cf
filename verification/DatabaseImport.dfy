/** Restoring a database backup: staging the dumps, then importing them one by one, with a
    failure possible at every effect. */
module DatabaseImport {
  import opened Common

  // -----------------------------------------------------------------------------------
  // Targets
  // -----------------------------------------------------------------------------------

  /** A dump to import: the database it goes into and its file name. */
  datatype Target = Target(database: string, file: string)

  /** An entry of the extracted directory. */
  datatype Listed = Listed(name: string, isFile: bool)

  /** Python's order on strings. */
  predicate Before(a: string, b: string) {
    if a == "" then b != ""
    else b != "" && (a[0] < b[0] || (a[0] == b[0] && Before(a[1..], b[1..])))
  }

  predicate EndsWithSql(name: string) {
    |name| >= 4 && name[|name| - 4..] == ".sql"
  }

  /** os.path.splitext(name)[0] for a name ending in ".sql": leading dots are no extension. */
  function Stem(name: string): string
    requires EndsWithSql(name)
  {
    if forall i | 0 <= i < |name| - 4 :: name[i] == '.' then name else name[..|name| - 4]
  }

  predicate IsDump(l: Listed) {
    l.isFile && EndsWithSql(l.name)
  }

  ghost predicate Increasing(names: seq<string>) {
    forall i, j :: 0 <= i < j < |names| ==> Before(names[i], names[j])
  }

  function Insert(name: string, names: seq<string>): seq<string> {
    if names == [] then [name]
    else if Before(names[0], name) then [names[0]] + Insert(name, names[1..])
    else [name] + names
  }

  /** sorted(name for name in listing if ...) */
  function DumpNames(listing: seq<Listed>): seq<string> {
    if listing == [] then []
    else if IsDump(listing[0]) then Insert(listing[0].name, DumpNames(listing[1..]))
    else DumpNames(listing[1..])
  }

  function TargetOf(name: string, tablesMode: bool, databaseName: string): Target
    requires EndsWithSql(name)
  {
    Target(if tablesMode then databaseName else Stem(name), name)
  }

  /** _classify_dumps; `tablesMode` is (not backup.all_tables) and backup.tables. An archive
      without dumps is the one error. */
  method ClassifyDumps(listing: seq<Listed>, tablesMode: bool, databaseName: string)
    returns (targets: Option<seq<Target>>)
    requires forall i, j :: 0 <= i < j < |listing| ==> listing[i].name != listing[j].name
    ensures targets.None? <==>
              forall l | l in listing && l.isFile :: |l.name| < 4 || l.name[|l.name| - 4..] != ".sql"
    ensures targets.Some? ==>
              && Increasing(Files(targets.value))
              && (forall name :: name in Files(targets.value) <==>
                    Listed(name, true) in listing && |name| >= 4 && name[|name| - 4..] == ".sql")
              && (forall t | t in targets.value :: NamedRightly(t, tablesMode, databaseName))
  {
    var sqlFiles := DumpNames(listing);
    DumpNamesSorted(listing);
    if |sqlFiles| == 0 {
      forall l | l in listing ensures !IsDump(l) {
        assert l.isFile && EndsWithSql(l.name) ==> l == Listed(l.name, true) && l.name in sqlFiles;
      }
      return None;
    }
    assert sqlFiles[0] in sqlFiles && IsDump(Listed(sqlFiles[0], true));
    var found: seq<Target> := [];
    var i := 0;
    while i < |sqlFiles|
      invariant 0 <= i <= |sqlFiles| && |found| == i
      invariant forall k | 0 <= k < i ::
                  EndsWithSql(sqlFiles[k]) && found[k] == TargetOf(sqlFiles[k], tablesMode, databaseName)
    {
      var name := sqlFiles[i];
      assert name in sqlFiles;
      var database := if tablesMode then databaseName else Stem(name);
      found := found + [Target(database, name)];
      i := i + 1;
    }
    assert Files(found) == sqlFiles;
    forall t | t in found ensures NamedRightly(t, tablesMode, databaseName) {
      var k :| 0 <= k < |found| && found[k] == t;
      TargetNames(sqlFiles[k], tablesMode, databaseName);
    }
    targets := Some(found);
  }

  /** The database of a dump: the connection's in tables mode; otherwise the name without ".sql", or all of it
      when nothing but dots comes before that. */
  predicate NamedRightly(t: Target, tablesMode: bool, databaseName: string) {
    if tablesMode then t.database == databaseName
    else if exists k | 0 <= k < |t.file| - 4 :: t.file[k] != '.' then t.file == t.database + ".sql"
    else t.database == t.file
  }

  lemma TargetNames(name: string, tablesMode: bool, databaseName: string)
    requires EndsWithSql(name)
    ensures NamedRightly(TargetOf(name, tablesMode, databaseName), tablesMode, databaseName)
  {
  }

  function Files(targets: seq<Target>): seq<string> {
    seq(|targets|, i requires 0 <= i < |targets| => targets[i].file)
  }

  /** Python's order is the lexicographic one: the strings agree up to a place where the first one ends, or
      has the smaller character. */
  lemma {:induction false} BeforeIsLexicographic(a: string, b: string)
    ensures Before(a, b) <==>
              exists k | 0 <= k <= |a| && k < |b| :: a[..k] == b[..k] && (k == |a| || a[k] < b[k])
  {
    if a != "" && b != "" && a[0] == b[0] {
      BeforeIsLexicographic(a[1..], b[1..]);
      if k :| && 0 <= k <= |a[1..]| && k < |b[1..]| && a[1..][..k] == b[1..][..k]
              && (k == |a[1..]| || a[1..][k] < b[1..][k]) {
        assert a[..k + 1] == [a[0]] + a[1..][..k] && b[..k + 1] == [b[0]] + b[1..][..k];
      }
      if k :| 0 <= k <= |a| && k < |b| && a[..k] == b[..k] && (k == |a| || a[k] < b[k]) {
        assert k > 0;
        assert a[1..][..k - 1] == a[..k][1..] && b[1..][..k - 1] == b[..k][1..];
      }
    } else if a == "" {
      assert b != "" ==> a[..0] == b[..0];
    } else if b != "" {
      assert a[..0] == b[..0];
      forall k | 0 < k <= |a| && k < |b| ensures a[..k] != b[..k] {
        assert a[..k][0] != b[..k][0];
      }
    }
  }

  lemma {:induction false} BeforeIsTotal(a: string, b: string)
    ensures a == b || Before(a, b) || Before(b, a)
  {
    if a != "" && b != "" && a[0] == b[0] {
      BeforeIsTotal(a[1..], b[1..]);
      assert a == [a[0]] + a[1..] && b == [b[0]] + b[1..];
    }
  }

  lemma {:induction false} BeforeIsTransitive(a: string, b: string, c: string)
    requires Before(a, b) && Before(b, c)
    ensures Before(a, c)
  {
    if a != "" && a[0] == b[0] == c[0] {
      BeforeIsTransitive(a[1..], b[1..], c[1..]);
    }
  }

  lemma {:induction false} InsertSorts(name: string, names: seq<string>)
    requires Increasing(names) && name !in names
    ensures Increasing(Insert(name, names))
    ensures forall x :: x in Insert(name, names) <==> x == name || x in names
  {
    if names != [] {
      var rest := names[1..];
      assert forall x :: x in names <==> x == names[0] || x in rest;
      BeforeIsTotal(name, names[0]);
      if Before(names[0], name) {
        InsertSorts(name, rest);
        var tail := Insert(name, rest);
        forall k | 0 <= k < |tail| ensures Before(names[0], tail[k]) {
          assert tail[k] in tail;
          if tail[k] != name {
            var j :| 0 <= j < |rest| && rest[j] == tail[k];
            assert rest[j] == names[j + 1];
          }
        }
      } else {
        forall k | 0 <= k < |names| ensures Before(name, names[k]) {
          if k > 0 {
            BeforeIsTransitive(name, names[0], names[k]);
          }
        }
      }
    }
  }

  lemma {:induction false} DumpNamesSorted(listing: seq<Listed>)
    requires forall i, j :: 0 <= i < j < |listing| ==> listing[i].name != listing[j].name
    ensures Increasing(DumpNames(listing))
    ensures forall x :: x in DumpNames(listing) <==> Listed(x, true) in listing && EndsWithSql(x)
  {
    if listing != [] {
      DumpNamesSorted(listing[1..]);
      assert forall l :: l in listing <==> l == listing[0] || l in listing[1..];
      if IsDump(listing[0]) {
        forall k | 0 <= k < |listing[1..]| ensures listing[1..][k].name != listing[0].name {
          assert listing[1..][k] == listing[k + 1];
        }
        InsertSorts(listing[0].name, DumpNames(listing[1..]));
        assert listing[0] == Listed(listing[0].name, true);
      }
    }
  }

  // -----------------------------------------------------------------------------------
  // Effects
  // -----------------------------------------------------------------------------------

  /** OpenLog is the three lines a run log begins with. The lines about a command are written by the attempt
      to run it, and fail with it; the one about an error only changes which error it is. */
  datatype Action =
    | OpenLog | LogFetch | LogTargets | LogDone
    | CheckSpace | Fetch | Extract | CheckConnection | Decrypt
    | Connect | PutCredentials | RemoveCredentials | CloseSsh | RemoveKey
    | WriteDefaults | RemoveDefaults
    | EnsureDatabase(database: string) | QueryDatabase(database: string) | CreateDatabase(database: string)
    | Upload(target: Target) | Import(target: Target) | RemoveDump(target: Target)
    | LocalCleanup

  /** An effect that was attempted, and whether it returned. */
  datatype Event = Event(action: Action, ok: bool)

  /** Which attempts fail, by their position in the trace; which failed attempts to write the defaults
      file leave a file behind all the same; and whether connecting leaves a key file to remove. */
  datatype World = World(fails: set<nat>, leaves: set<nat>, keyFile: bool)

  datatype Engine = MySqlFamily | PostgreSql | Unsupported

  /** What has happened since the trace was `n` long, the databases the server has, and whether
      control is still on the normal path. */
  datatype Run = Run(events: seq<Event>, databases: set<string>, ok: bool)

  function Known(a: Action, ok: bool, databases: set<string>): set<string> {
    if ok && (a.EnsureDatabase? || a.CreateDatabase?) then databases + {a.database} else databases
  }

  function Works(w: World, n: nat, r: Run): bool {
    n + |r.events| !in w.fails
  }

  /** The next statement: skipped once an exception is on its way. */
  function Do(w: World, n: nat, r: Run, a: Action): Run {
    if !r.ok then r
    else Run(r.events + [Event(a, Works(w, n, r))], Known(a, Works(w, n, r), r.databases), Works(w, n, r))
  }

  /** A statement of a finally block whose own failure is swallowed. */
  function Always(w: World, n: nat, r: Run, a: Action): Run {
    r.(events := r.events + [Event(a, Works(w, n, r))])
  }

  /** A statement of a finally block whose own failure becomes the exception. */
  function AlwaysLoud(w: World, n: nat, r: Run, a: Action): Run {
    Always(w, n, r, a).(ok := r.ok && Works(w, n, r))
  }

  function Ensured(w: World, n: nat, r: Run, database: string, engine: Engine): Run {
    if engine.PostgreSql? then
      var q := Do(w, n, r, QueryDatabase(database));
      if q.ok && database !in q.databases then Do(w, n, q, CreateDatabase(database)) else q
    else Do(w, n, r, EnsureDatabase(database))
  }

  function OneTarget(w: World, n: nat, r: Run, t: Target, engine: Engine, ssh: bool): Run {
    var ensured := Ensured(w, n, r, t.database, engine);
    if !ssh then Do(w, n, ensured, Import(t))
    else
      var up := Do(w, n, ensured, Upload(t));
      if !up.ok then up else Always(w, n, Do(w, n, up, Import(t)), RemoveDump(t))
  }

  function Targets(w: World, n: nat, r: Run, ts: seq<Target>, engine: Engine, ssh: bool): Run
    decreases |ts|
  {
    if ts == [] || !r.ok then r
    else Targets(w, n, OneTarget(w, n, r, ts[0], engine, ssh), ts[1..], engine, ssh)
  }

  function Closed(w: World, n: nat, done: Run): Run {
    var closed := AlwaysLoud(w, n, Always(w, n, done, RemoveCredentials), CloseSsh);
    if w.keyFile then AlwaysLoud(w, n, closed, RemoveKey) else closed
  }

  /** _restore_mysql_family and _restore_postgresql. */
  function ImportStage(w: World, n: nat, r: Run, ts: seq<Target>, engine: Engine, ssh: bool): Run
    requires r.ok
  {
    if ssh then
      var connected := Do(w, n, r, Connect);
      if !connected.ok then connected
      else
        Closed(w, n, Targets(w, n, Do(w, n, connected, PutCredentials), ts, engine, ssh))
    else if engine.MySqlFamily? then
      var written := Do(w, n, r, WriteDefaults);
      var done := Targets(w, n, written, ts, engine, ssh);
      if written.ok || n + |r.events| in w.leaves then Always(w, n, done, RemoveDefaults) else done
    else Targets(w, n, r, ts, engine, ssh)
  }

  /** What a restore is asked to do: the storage point may be gone, the archive may hold no dumps
      (`targets` None), and `safe` are the texts the guards let through. */
  datatype Job = Job(storagePoint: bool, targets: Option<seq<Target>>, credentials: bool,
                     fields: seq<string>, safe: set<string>, engine: Engine, ssh: bool)

  predicate Screened(j: Job) {
    && (forall f | f in j.fields :: f in j.safe)
    && (j.targets.Some? ==> forall t | t in j.targets.value :: t.database in j.safe)
  }

  /** The try block of restore_database. */
  function Body(w: World, n: nat, r: Run, j: Job): Run
    requires r.ok
  {
    var space := Do(w, n, r, CheckSpace);
    if !space.ok || !j.storagePoint then space.(ok := false)
    else
      var extracted := Do(w, n, Do(w, n, Do(w, n, space, LogFetch), Fetch), Extract);
      if !extracted.ok || j.targets.None? then extracted.(ok := false)
      else
        var ready := Do(w, n, Do(w, n, Do(w, n, extracted, LogTargets), CheckConnection), Decrypt);
        if !ready.ok || !j.credentials || !Screened(j) || j.engine.Unsupported? then ready.(ok := false)
        else Do(w, n, ImportStage(w, n, ready, j.targets.value, j.engine, j.ssh), LogDone)
  }

  /** restore_database. The log is begun ahead of the try, so a failure there ends it at once. */
  function Restore(w: World, n: nat, r: Run, j: Job): Run
    requires r.ok
  {
    var begun := Do(w, n, r, OpenLog);
    if !begun.ok then begun else AlwaysLoud(w, n, Body(w, n, begun, j), LocalCleanup)
  }

  // -----------------------------------------------------------------------------------
  // The code
  // -----------------------------------------------------------------------------------

  class Session {
    const w: World
    var trace: seq<Event>
    var databases: set<string>

    /** The state as a run from position `n`. */
    ghost predicate Is(before: seq<Event>, r: Run)
      reads this
    {
      trace == before + r.events && databases == r.databases
    }

    method Attempt(a: Action) returns (ok: bool)
      modifies this
      ensures ok == (|old(trace)| !in w.fails)
      ensures trace == old(trace) + [Event(a, ok)]
      ensures databases == Known(a, ok, old(databases))
    {
      ok := |trace| !in w.fails;
      trace := trace + [Event(a, ok)];
      if ok && (a.EnsureDatabase? || a.CreateDatabase?) {
        databases := databases + {a.database};
      }
    }

    method EnsureTarget(database: string, engine: Engine, ghost before: seq<Event>, ghost r: Run) returns (ok: bool)
      requires Is(before, r) && r.ok
      modifies this
      ensures var s := Ensured(w, |before|, r, database, engine); Is(before, s) && ok == s.ok
    {
      if engine.PostgreSql? {
        ok := Attempt(QueryDatabase(database));
        assert Is(before, Do(w, |before|, r, QueryDatabase(database)));
        if ok && database !in databases {
          ok := Attempt(CreateDatabase(database));
        }
      } else {
        ok := Attempt(EnsureDatabase(database));
      }
    }

    method ImportTarget(t: Target, engine: Engine, ssh: bool, ghost before: seq<Event>, ghost r: Run) returns (ok: bool)
      requires Is(before, r) && r.ok
      modifies this
      ensures var s := OneTarget(w, |before|, r, t, engine, ssh); Is(before, s) && ok == s.ok
    {
      ok := EnsureTarget(t.database, engine, before, r);
      ghost var ensured := Ensured(w, |before|, r, t.database, engine);
      if !ok {
        return;
      }
      if ssh {
        ok := Attempt(Upload(t));
        ghost var up := Do(w, |before|, ensured, Upload(t));
        assert Is(before, up);
        if ok {
          ok := Attempt(Import(t));
          assert Is(before, Do(w, |before|, up, Import(t)));
          var _ := Attempt(RemoveDump(t));
        }
      } else {
        ok := Attempt(Import(t));
      }
    }

    method ImportTargets(ts: seq<Target>, engine: Engine, ssh: bool, ghost before: seq<Event>, ghost r: Run)
      returns (ok: bool)
      requires Is(before, r) && r.ok
      modifies this
      ensures Is(before, Targets(w, |before|, r, ts, engine, ssh)) && ok == Targets(w, |before|, r, ts, engine, ssh).ok
    {
      ok := true;
      var i := 0;
      ghost var now := r;
      while i < |ts| && ok
        invariant 0 <= i <= |ts|
        invariant Is(before, now) && now.ok == ok
        invariant Targets(w, |before|, now, ts[i..], engine, ssh) == Targets(w, |before|, r, ts, engine, ssh)
      {
        ok := ImportTarget(ts[i], engine, ssh, before, now);
        assert ts[i..][0] == ts[i] && ts[i..][1..] == ts[i + 1..];
        now := OneTarget(w, |before|, now, ts[i], engine, ssh);
        i := i + 1;
      }
    }

    /** The remote branch of both: everything after the connection is made ends in the same removals. */
    method RunOverSsh(ts: seq<Target>, engine: Engine, ghost before: seq<Event>, ghost r: Run) returns (ok: bool)
      requires Is(before, r) && r.ok
      modifies this
      ensures var s := ImportStage(w, |before|, r, ts, engine, true); Is(before, s) && ok == s.ok
    {
      ok := Attempt(Connect);
      ghost var connected := Do(w, |before|, r, Connect);
      assert Is(before, connected);
      if !ok {
        return;
      }
      ok := Attempt(PutCredentials);
      ghost var put := Do(w, |before|, connected, PutCredentials);
      assert Is(before, put);
      if ok {
        ok := ImportTargets(ts, engine, true, before, put);
      }
      ghost var done := Targets(w, |before|, put, ts, engine, true);
      assert Is(before, done) && ok == done.ok;
      ok := Close(ok, before, done);
    }

    /** finally: remove the credentials, close the connection; finally: remove the key file, if there is one. */
    method Close(good: bool, ghost before: seq<Event>, ghost done: Run) returns (ok: bool)
      requires Is(before, done) && good == done.ok
      modifies this
      ensures Is(before, Closed(w, |before|, done)) && ok == Closed(w, |before|, done).ok
    {
      var _ := Attempt(RemoveCredentials);
      assert Is(before, Always(w, |before|, done, RemoveCredentials));
      var closed := Attempt(CloseSsh);
      assert Is(before, AlwaysLoud(w, |before|, Always(w, |before|, done, RemoveCredentials), CloseSsh));
      ok := good && closed;
      if w.keyFile {
        var keyRemoved := Attempt(RemoveKey);
        ok := ok && keyRemoved;
      }
    }

    /** The local branches: MySQL and MariaDB with a defaults file, PostgreSQL without. */
    method RunDirect(ts: seq<Target>, engine: Engine, ghost before: seq<Event>, ghost r: Run) returns (ok: bool)
      requires Is(before, r) && r.ok
      modifies this
      ensures var s := ImportStage(w, |before|, r, ts, engine, false); Is(before, s) && ok == s.ok
    {
      if !engine.MySqlFamily? {
        ok := ImportTargets(ts, engine, false, before, r);
        return;
      }
      var leaves := |trace| in w.leaves;
      ok := Attempt(WriteDefaults);
      var fileExists := ok || leaves;
      ghost var written := Do(w, |before|, r, WriteDefaults);
      assert Is(before, written);
      if ok {
        ok := ImportTargets(ts, engine, false, before, written);
      }
      assert Is(before, Targets(w, |before|, written, ts, engine, false));
      if fileExists {
        var _ := Attempt(RemoveDefaults);
      }
    }

    /** Everything up to the classified dumps; false when it raises. */
    method Stage(j: Job, ghost before: seq<Event>, ghost r: Run) returns (ok: bool)
      requires Is(before, r) && r.ok
      modifies this
      ensures var space := Do(w, |before|, r, CheckSpace);
              var extracted := Do(w, |before|, Do(w, |before|, Do(w, |before|, space, LogFetch), Fetch), Extract);
              if !space.ok || !j.storagePoint then Is(before, space) && !ok
              else Is(before, extracted) && (ok <==> extracted.ok && j.targets.Some?)
    {
      ok := Attempt(CheckSpace);
      ghost var now := Do(w, |before|, r, CheckSpace);
      assert Is(before, now);
      if !ok || !j.storagePoint {
        return false;
      }
      ok := Attempt(LogFetch);
      now := Do(w, |before|, now, LogFetch);
      assert Is(before, now);
      if ok {
        ok := Attempt(Fetch);
        assert Is(before, Do(w, |before|, now, Fetch));
      }
      now := Do(w, |before|, now, Fetch);
      if ok {
        ok := Attempt(Extract);
        assert Is(before, Do(w, |before|, now, Extract));
      }
      ok := ok && j.targets.Some?;
    }

    /** From the classified dumps to the credentials; false when it raises. */
    method Prepare(ghost before: seq<Event>, ghost r: Run) returns (ok: bool)
      requires Is(before, r) && r.ok
      modifies this
      ensures var s := Do(w, |before|, Do(w, |before|, Do(w, |before|, r, LogTargets), CheckConnection), Decrypt);
              Is(before, s) && ok == s.ok
    {
      ok := Attempt(LogTargets);
      ghost var now := Do(w, |before|, r, LogTargets);
      assert Is(before, now);
      if ok {
        ok := Attempt(CheckConnection);
        assert Is(before, Do(w, |before|, now, CheckConnection));
      }
      now := Do(w, |before|, now, CheckConnection);
      if ok {
        ok := Attempt(Decrypt);
        assert Is(before, Do(w, |before|, now, Decrypt));
      }
    }

    method RunBody(j: Job, ghost before: seq<Event>, ghost r: Run) returns (ok: bool)
      requires Is(before, r) && r.ok
      modifies this
      ensures var s := Body(w, |before|, r, j); Is(before, s) && ok == s.ok
    {
      ok := Stage(j, before, r);
      if !ok {
        return;
      }
      ghost var space := Do(w, |before|, r, CheckSpace);
      ghost var extracted := Do(w, |before|, Do(w, |before|, Do(w, |before|, space, LogFetch), Fetch), Extract);
      ok := Prepare(before, extracted);
      if !ok || !j.credentials {
        return false;
      }
      if !Screened(j) || j.engine.Unsupported? {
        return false;
      }
      ghost var ready :=
        Do(w, |before|, Do(w, |before|, Do(w, |before|, extracted, LogTargets), CheckConnection), Decrypt);
      ok := RunImport(j.targets.value, j.engine, j.ssh, before, ready);
    }

    /** The import stage and the last line of the log. */
    method RunImport(ts: seq<Target>, engine: Engine, ssh: bool, ghost before: seq<Event>, ghost r: Run)
      returns (ok: bool)
      requires Is(before, r) && r.ok
      modifies this
      ensures var s := Do(w, |before|, ImportStage(w, |before|, r, ts, engine, ssh), LogDone);
              Is(before, s) && ok == s.ok
    {
      if ssh {
        ok := RunOverSsh(ts, engine, before, r);
      } else {
        ok := RunDirect(ts, engine, before, r);
      }
      if ok {
        ok := Attempt(LogDone);
      }
    }

    /** The try block and its finally. */
    method RunAndCleanUp(j: Job, ghost before: seq<Event>, ghost r: Run) returns (ok: bool)
      requires Is(before, r) && r.ok
      modifies this
      ensures var s := AlwaysLoud(w, |before|, Body(w, |before|, r, j), LocalCleanup); Is(before, s) && ok == s.ok
    {
      var done := RunBody(j, before, r);
      var queued := Attempt(LocalCleanup);
      ok := done && queued;
    }

    /** restore_database: the body, then the cleanup task queued on every exit; failing to queue it is a
        failure of the restore. */
    method RestoreDatabase(j: Job) returns (ok: bool)
      modifies this
      ensures var s := Restore(w, |old(trace)|, Run([], old(databases), true), j);
              Is(old(trace), s) && ok == s.ok
    {
      ghost var before, start := trace, Run([], databases, true);
      ok := Attempt(OpenLog);
      ghost var begun := Do(w, |before|, start, OpenLog);
      assert Is(before, begun);
      if !ok {
        return;
      }
      ok := RunAndCleanUp(j, before, begun);
    }
  }

  // -----------------------------------------------------------------------------------
  // What a trace shows
  // -----------------------------------------------------------------------------------

  /** The dumps that were imported, in order. */
  function Imported(es: seq<Event>): seq<Target> {
    if es == [] then []
    else
      var e := es[|es| - 1];
      Imported(es[..|es| - 1]) + (if e.action.Import? && e.ok then [e.action.target] else [])
  }

  /** The dumps whose upload returned. */
  function Uploaded(es: seq<Event>): seq<Target> {
    if es == [] then []
    else
      var e := es[|es| - 1];
      Uploaded(es[..|es| - 1]) + (if e.action.Upload? && e.ok then [e.action.target] else [])
  }

  /** The dumps whose removal was issued. */
  function Removed(es: seq<Event>): seq<Target> {
    if es == [] then []
    else
      var e := es[|es| - 1];
      Removed(es[..|es| - 1]) + (if e.action.RemoveDump? then [e.action.target] else [])
  }

  function Attempts(es: seq<Event>, a: Action): nat {
    if es == [] then 0 else Attempts(es[..|es| - 1], a) + (if es[|es| - 1].action == a then 1 else 0)
  }

  predicate AnyClientCommand(es: seq<Event>) {
    exists e | e in es ::
      e.action.EnsureDatabase? || e.action.QueryDatabase? || e.action.CreateDatabase? || e.action.Import?
  }

  lemma Push(es: seq<Event>, e: Event, a: Action)
    ensures Imported(es + [e]) == Imported(es) + (if e.action.Import? && e.ok then [e.action.target] else [])
    ensures Uploaded(es + [e]) == Uploaded(es) + (if e.action.Upload? && e.ok then [e.action.target] else [])
    ensures Removed(es + [e]) == Removed(es) + (if e.action.RemoveDump? then [e.action.target] else [])
    ensures Attempts(es + [e], a) == Attempts(es, a) + (if e.action == a then 1 else 0)
  {
    assert (es + [e])[..|es|] == es;
  }

  /** Every database a dump is sent into was found or made there before: it was on the server from
      the start or an earlier successful command created it. */
  ghost predicate IntoKnownDatabases(es: seq<Event>, initial: set<string>) {
    forall k | 0 <= k < |es| && es[k].action.Import? ::
      KnownAt(es[..k], initial, es[k].action.target.database)
  }

  ghost predicate KnownAt(es: seq<Event>, initial: set<string>, database: string) {
    || database in initial
    || Event(EnsureDatabase(database), true) in es
    || Event(CreateDatabase(database), true) in es
  }

  /** What the failure of an effect means: the dumps cannot be imported at all, a target cannot, the
      restore fails although nothing more was to be imported, or nothing. */
  datatype Kind = Setup | Step | Teardown | Swallowed

  function KindOf(a: Action): Kind {
    match a
    case OpenLog | LogFetch | LogTargets => Setup
    case CheckSpace | Fetch | Extract | CheckConnection | Decrypt | Connect | PutCredentials | WriteDefaults => Setup
    case EnsureDatabase(_) | QueryDatabase(_) | CreateDatabase(_) | Upload(_) | Import(_) => Step
    case CloseSsh | RemoveKey | LogDone | LocalCleanup => Teardown
    case RemoveCredentials | RemoveDefaults | RemoveDump(_) => Swallowed
  }

  predicate Failed(es: seq<Event>, kind: Kind) {
    exists e | e in es :: !e.ok && KindOf(e.action) == kind
  }

  predicate IsStepOf(a: Action, t: Target) {
    || a == EnsureDatabase(t.database) || a == QueryDatabase(t.database) || a == CreateDatabase(t.database)
    || a == Upload(t) || a == Import(t)
  }

  ghost predicate OnlyFailedStep(es: seq<Event>, j: nat)
    requires j < |es|
  {
    !es[j].ok && forall i | 0 <= i < |es| && i != j && KindOf(es[i].action) == Step :: es[i].ok
  }

  /** Of all the steps of targets one failed, and it is a step of this target. */
  ghost predicate FailsAt(es: seq<Event>, t: Target) {
    exists j: nat | j < |es| :: IsStepOf(es[j].action, t) && OnlyFailedStep(es, j)
  }

  /** The import was cut at target `k`: the step that failed is one of that target; or at the end, no step
      having failed. */
  ghost predicate CutAt(es: seq<Event>, ts: seq<Target>, k: nat) {
    && k <= |ts| && (k == |ts| <==> !Failed(es, Step))
    && (k < |ts| ==> FailsAt(es, ts[k]))
  }

  lemma FailedPush(es: seq<Event>, e: Event, kind: Kind)
    ensures Failed(es + [e], kind) <==> Failed(es, kind) || (!e.ok && KindOf(e.action) == kind)
  {
    assert e in es + [e] && forall x | x in es :: x in es + [e];
  }

  /** An event that is no failing step leaves a failed target the failed one. */
  lemma FailsAtPush(es: seq<Event>, e: Event, t: Target)
    requires FailsAt(es, t) && (KindOf(e.action) == Step ==> e.ok)
    ensures FailsAt(es + [e], t)
  {
    var j: nat :| j < |es| && IsStepOf(es[j].action, t) && OnlyFailedStep(es, j);
    var fs := es + [e];
    assert IsStepOf(fs[j].action, t) && OnlyFailedStep(fs, j);
  }

  lemma CutPush(es: seq<Event>, e: Event, ts: seq<Target>, k: nat)
    requires CutAt(es, ts, k) && KindOf(e.action) != Step
    ensures CutAt(es + [e], ts, k)
  {
    FailedPush(es, e, Step);
    if k < |ts| {
      FailsAtPush(es, e, ts[k]);
    }
  }

  /** The first failing step. */
  lemma FailsNow(es: seq<Event>, a: Action, t: Target)
    requires !Failed(es, Step) && IsStepOf(a, t)
    ensures FailsAt(es + [Event(a, false)], t)
  {
    var fs := es + [Event(a, false)];
    assert IsStepOf(fs[|es|].action, t);
    forall i | 0 <= i < |fs| && i != |es| && KindOf(fs[i].action) == Step ensures fs[i].ok {
      assert fs[i] in es;
    }
    assert OnlyFailedStep(fs, |es|);
  }

  /** No setup or teardown effect has failed in `s` that had not in `r`; and either no step has failed, or
      the one that did is one of `t`. */
  ghost predicate StepsOf(r: Run, s: Run, t: Target) {
    && (Failed(s.events, Setup) <==> Failed(r.events, Setup))
    && (Failed(s.events, Teardown) <==> Failed(r.events, Teardown))
    && (s.ok <==> !Failed(s.events, Step))
    && (!s.ok ==> FailsAt(s.events, t))
  }

  lemma StepFails(w: World, n: nat, r: Run, a: Action, t: Target)
    requires r.ok && !Failed(r.events, Step) && IsStepOf(a, t)
    ensures StepsOf(r, Do(w, n, r, a), t)
  {
    var e := Event(a, Works(w, n, r));
    FailedPush(r.events, e, Setup);
    FailedPush(r.events, e, Step);
    FailedPush(r.events, e, Teardown);
    if !e.ok {
      FailsNow(r.events, a, t);
    }
  }

  lemma EnsuredFails(w: World, n: nat, r: Run, t: Target, engine: Engine)
    requires r.ok && !Failed(r.events, Step)
    ensures StepsOf(r, Ensured(w, n, r, t.database, engine), t)
  {
    if engine.PostgreSql? {
      var q := Do(w, n, r, QueryDatabase(t.database));
      StepFails(w, n, r, QueryDatabase(t.database), t);
      if q.ok {
        StepFails(w, n, q, CreateDatabase(t.database), t);
      }
    } else {
      StepFails(w, n, r, EnsureDatabase(t.database), t);
    }
  }

  /** One target: control leaves the normal path exactly by the failure of one of its own steps. */
  lemma OneTargetFails(w: World, n: nat, r: Run, t: Target, engine: Engine, ssh: bool)
    requires r.ok && !Failed(r.events, Step)
    ensures StepsOf(r, OneTarget(w, n, r, t, engine, ssh), t)
  {
    EnsuredFails(w, n, r, t, engine);
    var e := Ensured(w, n, r, t.database, engine);
    if e.ok && !ssh {
      StepFails(w, n, e, Import(t), t);
    } else if e.ok {
      var up := Do(w, n, e, Upload(t));
      StepFails(w, n, e, Upload(t), t);
      if up.ok {
        StepFails(w, n, up, Import(t), t);
        SwallowedKeepsSteps(w, n, e, Do(w, n, up, Import(t)), t);
      }
    }
  }

  lemma SwallowedKeepsSteps(w: World, n: nat, r: Run, s: Run, t: Target)
    requires StepsOf(r, s, t)
    ensures StepsOf(r, Always(w, n, s, RemoveDump(t)), t)
  {
    var e := Event(RemoveDump(t), Works(w, n, s));
    FailedPush(s.events, e, Setup);
    FailedPush(s.events, e, Step);
    FailedPush(s.events, e, Teardown);
    if !s.ok {
      FailsAtPush(s.events, e, t);
    }
  }

  /** What holds of every run along the import stage. */
  ghost predicate Tracks(r: Run, initial: set<string>) {
    && IntoKnownDatabases(r.events, initial)
    && forall d | d in r.databases :: KnownAt(r.events, initial, d)
  }

  ghost predicate Sound(r: Run, initial: set<string>) {
    Tracks(r, initial) && Removed(r.events) == Uploaded(r.events)
  }

  lemma DoTracks(w: World, n: nat, r: Run, a: Action, initial: set<string>)
    requires Tracks(r, initial)
    requires a.Import? ==> a.target.database in r.databases
    ensures Tracks(Do(w, n, r, a), initial)
    ensures Tracks(Always(w, n, r, a), initial) && Tracks(AlwaysLoud(w, n, r, a), initial)
  {
    var es := r.events + [Event(a, Works(w, n, r))];
    forall k | 0 <= k < |es| && es[k].action.Import?
      ensures KnownAt(es[..k], initial, es[k].action.target.database)
    {
      if k < |r.events| {
        assert es[..k] == r.events[..k];
      } else {
        assert es[..k] == r.events;
      }
    }
    forall d | d in Known(a, Works(w, n, r), r.databases)
      ensures KnownAt(es, initial, d)
    {
      assert es[|r.events|] in es;
    }
  }

  /** One target: it is imported exactly when control stays on the normal path; what was uploaded is
      removed again. */
  lemma OneTargetEffect(w: World, n: nat, r: Run, t: Target, engine: Engine, ssh: bool, initial: set<string>)
    requires r.ok && Tracks(r, initial) && !engine.Unsupported?
    requires Removed(r.events) == Uploaded(r.events)
    ensures var s := OneTarget(w, n, r, t, engine, ssh);
            && Imported(s.events) == Imported(r.events) + (if s.ok then [t] else [])
            && Removed(s.events) == Uploaded(s.events)
            && Tracks(s, initial)
  {
    EnsuredEffect(w, n, r, t.database, engine, initial);
    var e := Ensured(w, n, r, t.database, engine);
    assert Imported(r.events) + [] == Imported(r.events);
    if !e.ok {
      assert OneTarget(w, n, r, t, engine, ssh) == e;
    } else if ssh {
      SshTargetEffect(w, n, e, t, initial);
    } else {
      DirectTargetEffect(w, n, e, t, initial);
    }
  }

  lemma DirectTargetEffect(w: World, n: nat, e: Run, t: Target, initial: set<string>)
    requires e.ok && Tracks(e, initial) && t.database in e.databases
    requires Removed(e.events) == Uploaded(e.events)
    ensures var s := Do(w, n, e, Import(t));
            && Imported(s.events) == Imported(e.events) + (if s.ok then [t] else [])
            && Removed(s.events) == Uploaded(s.events)
            && Tracks(s, initial)
  {
    Push(e.events, Event(Import(t), Works(w, n, e)), CloseSsh);
    DoTracks(w, n, e, Import(t), initial);
  }

  lemma SshTargetEffect(w: World, n: nat, e: Run, t: Target, initial: set<string>)
    requires e.ok && Tracks(e, initial) && t.database in e.databases
    requires Removed(e.events) == Uploaded(e.events)
    ensures var up := Do(w, n, e, Upload(t));
            var s := if !up.ok then up else Always(w, n, Do(w, n, up, Import(t)), RemoveDump(t));
            && Imported(s.events) == Imported(e.events) + (if s.ok then [t] else [])
            && Removed(s.events) == Uploaded(s.events)
            && Tracks(s, initial)
  {
    var up := Do(w, n, e, Upload(t));
    Push(e.events, Event(Upload(t), Works(w, n, e)), CloseSsh);
    DoTracks(w, n, e, Upload(t), initial);
    if up.ok {
      UploadedTargetEffect(w, n, up, t, initial);
    }
  }

  lemma UploadedTargetEffect(w: World, n: nat, up: Run, t: Target, initial: set<string>)
    requires up.ok && Tracks(up, initial) && t.database in up.databases
    ensures var s := Always(w, n, Do(w, n, up, Import(t)), RemoveDump(t));
            && Imported(s.events) == Imported(up.events) + (if s.ok then [t] else [])
            && Uploaded(s.events) == Uploaded(up.events)
            && Removed(s.events) == Removed(up.events) + [t]
            && Tracks(s, initial)
  {
    var im := Do(w, n, up, Import(t));
    Push(up.events, Event(Import(t), Works(w, n, up)), CloseSsh);
    DoTracks(w, n, up, Import(t), initial);
    Push(im.events, Event(RemoveDump(t), Works(w, n, im)), CloseSsh);
    DoTracks(w, n, im, RemoveDump(t), initial);
  }

  lemma EnsuredEffect(w: World, n: nat, r: Run, database: string, engine: Engine, initial: set<string>)
    requires r.ok && Tracks(r, initial) && !engine.Unsupported?
    ensures var e := Ensured(w, n, r, database, engine);
            && Imported(e.events) == Imported(r.events)
            && Uploaded(e.events) == Uploaded(r.events) && Removed(e.events) == Removed(r.events)
            && Tracks(e, initial) && (e.ok ==> database in e.databases)
  {
    if engine.PostgreSql? {
      var q := Do(w, n, r, QueryDatabase(database));
      QuietEffect(w, n, r, QueryDatabase(database), initial);
      if q.ok && database !in q.databases {
        QuietEffect(w, n, q, CreateDatabase(database), initial);
      }
    } else {
      QuietEffect(w, n, r, EnsureDatabase(database), initial);
    }
  }

  /** How many targets go through before one fails. */
  function Completed(w: World, n: nat, r: Run, ts: seq<Target>, engine: Engine, ssh: bool): (k: nat)
    ensures k <= |ts|
    decreases |ts|
  {
    if ts == [] then 0
    else
      var s := OneTarget(w, n, r, ts[0], engine, ssh);
      if s.ok then Completed(w, n, s, ts[1..], engine, ssh) + 1 else 0
  }

  lemma {:induction false} TargetsImport(w: World, n: nat, r: Run, ts: seq<Target>, engine: Engine, ssh: bool,
                                         initial: set<string>)
    requires r.ok && Sound(r, initial) && !engine.Unsupported?
    ensures var s, k := Targets(w, n, r, ts, engine, ssh), Completed(w, n, r, ts, engine, ssh);
            && Imported(s.events) == Imported(r.events) + ts[..k]
            && (s.ok <==> k == |ts|)
            && Sound(s, initial)
    decreases |ts|
  {
    if ts == [] {
      assert Imported(r.events) + ts[..0] == Imported(r.events);
    } else {
      var s := OneTarget(w, n, r, ts[0], engine, ssh);
      OneTargetEffect(w, n, r, ts[0], engine, ssh, initial);
      if s.ok {
        TargetsImport(w, n, s, ts[1..], engine, ssh, initial);
        Regroup(Imported(r.events), ts, Completed(w, n, s, ts[1..], engine, ssh));
      } else {
        assert Targets(w, n, r, ts, engine, ssh) == s;
        assert Imported(r.events) + [] == Imported(r.events) + ts[..0];
      }
    }
  }

  lemma {:induction false} TargetsCut(w: World, n: nat, r: Run, ts: seq<Target>, engine: Engine, ssh: bool)
    requires r.ok && !Failed(r.events, Step)
    ensures var s, k := Targets(w, n, r, ts, engine, ssh), Completed(w, n, r, ts, engine, ssh);
            && CutAt(s.events, ts, k)
            && (Failed(s.events, Setup) <==> Failed(r.events, Setup))
            && (Failed(s.events, Teardown) <==> Failed(r.events, Teardown))
    decreases |ts|
  {
    if ts != [] {
      var s := OneTarget(w, n, r, ts[0], engine, ssh);
      OneTargetFails(w, n, r, ts[0], engine, ssh);
      if s.ok {
        TargetsCut(w, n, s, ts[1..], engine, ssh);
        var k := Completed(w, n, s, ts[1..], engine, ssh);
        assert k < |ts[1..]| ==> ts[1..][k] == ts[k + 1];
      }
    }
  }

  /** All targets: when none of their steps fails, all are imported, in order and once each; when one does,
      exactly the targets before the one it belongs to. */
  lemma TargetsEffect(w: World, n: nat, r: Run, ts: seq<Target>, engine: Engine, ssh: bool, initial: set<string>)
    returns (k: nat)
    requires r.ok && Sound(r, initial) && !engine.Unsupported? && !Failed(r.events, Step)
    ensures var s := Targets(w, n, r, ts, engine, ssh);
            && k <= |ts| && Imported(s.events) == Imported(r.events) + ts[..k]
            && CutAt(s.events, ts, k)
            && (s.ok <==> k == |ts|)
            && (Failed(s.events, Setup) <==> Failed(r.events, Setup))
            && (Failed(s.events, Teardown) <==> Failed(r.events, Teardown))
            && Sound(s, initial)
  {
    k := Completed(w, n, r, ts, engine, ssh);
    TargetsImport(w, n, r, ts, engine, ssh, initial);
    TargetsCut(w, n, r, ts, engine, ssh);
  }

  lemma Regroup(done: seq<Target>, ts: seq<Target>, k: nat)
    requires k < |ts|
    ensures done + [ts[0]] + ts[1..][..k] == done + ts[..k + 1]
  {
  }

  /** What any effect other than an upload, import or removal of a dump leaves of the trace. */
  lemma QuietEffect(w: World, n: nat, r: Run, a: Action, initial: set<string>)
    requires Tracks(r, initial) && !a.Import? && !a.Upload? && !a.RemoveDump?
    ensures var es := r.events + [Event(a, Works(w, n, r))];
            && Imported(es) == Imported(r.events)
            && Uploaded(es) == Uploaded(r.events) && Removed(es) == Removed(r.events)
    ensures Tracks(Do(w, n, r, a), initial)
    ensures Tracks(Always(w, n, r, a), initial) && Tracks(AlwaysLoud(w, n, r, a), initial)
  {
    DoTracks(w, n, r, a, initial);
    Push(r.events, Event(a, Works(w, n, r)), a);
  }

  /** The trace of a stage: with a failed setup nothing was imported; otherwise exactly the targets before
      the one that failed, all of them if none did, and the stage succeeds if they all were and no
      teardown effect failed. */
  ghost predicate Staged(r: Run, s: Run, ts: seq<Target>, initial: set<string>) {
    && Sound(s, initial)
    && if Failed(s.events, Setup) then !s.ok && Imported(s.events) == Imported(r.events)
       else exists k: nat :: Reached(r, s, ts, k)
  }

  ghost predicate Reached(r: Run, s: Run, ts: seq<Target>, k: nat) {
    && CutAt(s.events, ts, k) && Imported(s.events) == Imported(r.events) + ts[..k]
    && (s.ok <==> k == |ts| && !Failed(s.events, Teardown))
  }

  /** One more effect that is not about a target: its failure makes the stage fail exactly if it is not
      swallowed. */
  lemma StagedPush(w: World, n: nat, r: Run, s: Run, t: Run, a: Action, ts: seq<Target>, initial: set<string>)
    requires Staged(r, s, ts, initial) && (KindOf(a) == Teardown || KindOf(a) == Swallowed) && !a.RemoveDump?
    requires t == if KindOf(a) == Teardown then AlwaysLoud(w, n, s, a) else Always(w, n, s, a)
    ensures Staged(r, t, ts, initial)
  {
    var e := Event(a, Works(w, n, s));
    QuietEffect(w, n, s, a, initial);
    FailedPush(s.events, e, Setup);
    FailedPush(s.events, e, Teardown);
    if !Failed(s.events, Setup) {
      var k: nat :| Reached(r, s, ts, k);
      CutPush(s.events, e, ts, k);
      assert Reached(r, t, ts, k);
    }
  }

  /** The targets, after a setup effect. */
  lemma TargetsStaged(w: World, n: nat, r: Run, a: Action, ts: seq<Target>, engine: Engine, ssh: bool,
                      initial: set<string>)
    requires Clean(r, initial) && KindOf(a) == Setup && !engine.Unsupported?
    ensures Staged(r, Targets(w, n, Do(w, n, r, a), ts, engine, ssh), ts, initial)
    ensures var begun := Do(w, n, r, a); begun.ok ==> Clean(begun, initial)
  {
    var begun := Do(w, n, r, a);
    QuietEffect(w, n, r, a, initial);
    FailedPush(r.events, Event(a, Works(w, n, r)), Setup);
    FailedPush(r.events, Event(a, Works(w, n, r)), Step);
    FailedPush(r.events, Event(a, Works(w, n, r)), Teardown);
    if begun.ok {
      TargetsAreStaged(w, n, r, begun, ts, engine, ssh, initial);
    }
  }

  lemma TargetsAreStaged(w: World, n: nat, r: Run, begun: Run, ts: seq<Target>, engine: Engine, ssh: bool,
                         initial: set<string>)
    requires Clean(begun, initial) && Imported(begun.events) == Imported(r.events) && !engine.Unsupported?
    ensures Staged(r, Targets(w, n, begun, ts, engine, ssh), ts, initial)
  {
    var k := TargetsEffect(w, n, begun, ts, engine, ssh, initial);
    assert Reached(r, Targets(w, n, begun, ts, engine, ssh), ts, k);
  }

  /** Control is on the normal path and nothing has failed. */
  ghost predicate Clean(r: Run, initial: set<string>) {
    r.ok && Sound(r, initial) && !Failed(r.events, Setup) && !Failed(r.events, Step) && !Failed(r.events, Teardown)
  }

  lemma ImportStageEffect(w: World, n: nat, r: Run, ts: seq<Target>, engine: Engine, ssh: bool, initial: set<string>)
    requires Clean(r, initial) && !engine.Unsupported?
    ensures Staged(r, ImportStage(w, n, r, ts, engine, ssh), ts, initial)
  {
    if ssh {
      SshStageEffect(w, n, r, ts, engine, initial);
    } else if engine.MySqlFamily? {
      DefaultsStageEffect(w, n, r, ts, initial);
    } else {
      TargetsAreStaged(w, n, r, r, ts, engine, ssh, initial);
    }
  }

  lemma DefaultsStageEffect(w: World, n: nat, r: Run, ts: seq<Target>, initial: set<string>)
    requires Clean(r, initial)
    ensures Staged(r, ImportStage(w, n, r, ts, MySqlFamily, false), ts, initial)
  {
    TargetsStaged(w, n, r, WriteDefaults, ts, MySqlFamily, false, initial);
    DefaultsGone(w, n, r, Targets(w, n, Do(w, n, r, WriteDefaults), ts, MySqlFamily, false), ts, initial);
  }

  /** The finally block of the direct branch: a file that is there is removed. */
  lemma DefaultsGone(w: World, n: nat, r: Run, done: Run, ts: seq<Target>, initial: set<string>)
    requires Staged(r, done, ts, initial)
    ensures Staged(r, Always(w, n, done, RemoveDefaults), ts, initial)
  {
    StagedPush(w, n, r, done, Always(w, n, done, RemoveDefaults), RemoveDefaults, ts, initial);
  }

  lemma SshStageEffect(w: World, n: nat, r: Run, ts: seq<Target>, engine: Engine, initial: set<string>)
    requires Clean(r, initial) && !engine.Unsupported?
    ensures Staged(r, ImportStage(w, n, r, ts, engine, true), ts, initial)
  {
    var connected := Do(w, n, r, Connect);
    QuietEffect(w, n, r, Connect, initial);
    if connected.ok {
      TargetsStaged(w, n, r, Connect, [], engine, true, initial);
      ConnectedStageEffect(w, n, r, connected, ts, engine, initial);
    } else {
      FailedPush(r.events, Event(Connect, false), Setup);
    }
  }

  lemma ConnectedStageEffect(w: World, n: nat, r: Run, c: Run, ts: seq<Target>, engine: Engine, initial: set<string>)
    requires Clean(c, initial) && Imported(c.events) == Imported(r.events) && !engine.Unsupported?
    ensures Staged(r, Closed(w, n, Targets(w, n, Do(w, n, c, PutCredentials), ts, engine, true)), ts, initial)
  {
    var done := Targets(w, n, Do(w, n, c, PutCredentials), ts, engine, true);
    TargetsStaged(w, n, c, PutCredentials, ts, engine, true, initial);
    StagedFrom(r, c, done, ts, initial);
    CloseStaged(w, n, r, done, ts, initial);
  }

  lemma StagedFrom(r: Run, c: Run, s: Run, ts: seq<Target>, initial: set<string>)
    requires Staged(c, s, ts, initial) && Imported(c.events) == Imported(r.events)
    ensures Staged(r, s, ts, initial)
  {
    if !Failed(s.events, Setup) {
      var k: nat :| Reached(c, s, ts, k);
      assert Reached(r, s, ts, k);
    }
  }

  lemma StagedLoud(w: World, n: nat, r: Run, s: Run, a: Action, ts: seq<Target>, initial: set<string>)
    requires Staged(r, s, ts, initial) && KindOf(a) == Teardown
    ensures Staged(r, AlwaysLoud(w, n, s, a), ts, initial)
  {
    StagedPush(w, n, r, s, AlwaysLoud(w, n, s, a), a, ts, initial);
  }

  lemma CloseStaged(w: World, n: nat, r: Run, done: Run, ts: seq<Target>, initial: set<string>)
    requires Staged(r, done, ts, initial)
    ensures Staged(r, Closed(w, n, done), ts, initial)
  {
    var removed := Always(w, n, done, RemoveCredentials);
    CredentialsStaged(w, n, r, done, ts, initial);
    SshClosedStaged(w, n, r, removed, ts, initial);
  }

  lemma CredentialsStaged(w: World, n: nat, r: Run, done: Run, ts: seq<Target>, initial: set<string>)
    requires Staged(r, done, ts, initial)
    ensures Staged(r, Always(w, n, done, RemoveCredentials), ts, initial)
  {
    StagedPush(w, n, r, done, Always(w, n, done, RemoveCredentials), RemoveCredentials, ts, initial);
  }

  lemma SshClosedStaged(w: World, n: nat, r: Run, removed: Run, ts: seq<Target>, initial: set<string>)
    requires Staged(r, removed, ts, initial)
    ensures var closed := AlwaysLoud(w, n, removed, CloseSsh);
            Staged(r, if w.keyFile then AlwaysLoud(w, n, closed, RemoveKey) else closed, ts, initial)
  {
    StagedLoud(w, n, r, removed, CloseSsh, ts, initial);
    KeyStaged(w, n, r, AlwaysLoud(w, n, removed, CloseSsh), ts, initial);
  }

  lemma KeyStaged(w: World, n: nat, r: Run, closed: Run, ts: seq<Target>, initial: set<string>)
    requires Staged(r, closed, ts, initial)
    ensures Staged(r, if w.keyFile then AlwaysLoud(w, n, closed, RemoveKey) else closed, ts, initial)
  {
    if w.keyFile {
      StagedLoud(w, n, r, closed, RemoveKey, ts, initial);
    }
  }

  // -----------------------------------------------------------------------------------
  // Prefixes of the trace
  // -----------------------------------------------------------------------------------

  lemma {:induction false} TargetsExtend(w: World, n: nat, r: Run, ts: seq<Target>, engine: Engine, ssh: bool)
    ensures r.events <= Targets(w, n, r, ts, engine, ssh).events
    ensures var s := Targets(w, n, r, ts, engine, ssh);
            forall k | |r.events| <= k < |s.events| :: IsTargetAction(s.events[k].action)
    decreases |ts|
  {
    if ts != [] && r.ok {
      var s := OneTarget(w, n, r, ts[0], engine, ssh);
      TargetsExtend(w, n, s, ts[1..], engine, ssh);
    }
  }

  predicate IsTargetAction(a: Action) {
    a.EnsureDatabase? || a.QueryDatabase? || a.CreateDatabase? || a.Import? || a.Upload? || a.RemoveDump?
  }

  lemma {:induction false} NoAttempts(es: seq<Event>, fs: seq<Event>, a: Action)
    requires es <= fs && forall k | |es| <= k < |fs| :: fs[k].action != a
    ensures Attempts(fs, a) == Attempts(es, a)
    decreases |fs|
  {
    if |es| < |fs| {
      NoAttempts(es, fs[..|fs| - 1], a);
    } else {
      assert es == fs;
    }
  }

  // -----------------------------------------------------------------------------------
  // Main results
  // -----------------------------------------------------------------------------------

  function Start(databases: set<string>): Run {
    Run([], databases, true)
  }

  predicate IsStaging(a: Action) {
    || a.OpenLog? || a.LogFetch? || a.LogTargets?
    || a.CheckSpace? || a.Fetch? || a.Extract? || a.CheckConnection? || a.Decrypt?
  }

  /** Nothing but staging has happened, and it failed at most at its end. */
  predicate IsPlain(r: Run, databases: set<string>) {
    && r.databases == databases && (forall e | e in r.events :: IsStaging(e.action))
    && (r.ok ==> !Failed(r.events, Setup))
  }

  /** Staging imports nothing, uploads nothing, removes nothing and runs no client command. */
  lemma {:induction false} StagingShows(es: seq<Event>)
    requires forall e | e in es :: IsStaging(e.action)
    ensures Imported(es) == [] && Uploaded(es) == [] && Removed(es) == [] && Attempts(es, LocalCleanup) == 0
    ensures !AnyClientCommand(es) && !Failed(es, Step) && !Failed(es, Teardown)
    decreases |es|
  {
    if es != [] {
      var init, last := es[..|es| - 1], es[|es| - 1];
      assert last in es && IsStaging(last.action);
      forall e | e in init ensures IsStaging(e.action) {
        assert e in es;
      }
      StagingShows(init);
      assert es == init + [last];
    }
  }

  lemma PlainTracks(r: Run, databases: set<string>)
    requires IsPlain(r, databases)
    ensures Tracks(r, databases)
  {
    forall k | 0 <= k < |r.events| ensures !r.events[k].action.Import? {
      assert r.events[k] in r.events;
    }
  }

  /** The log's first lines. */
  function Opened(w: World, n: nat, databases: set<string>): Run {
    Do(w, n, Start(databases), OpenLog)
  }

  function Extracted(w: World, n: nat, databases: set<string>): Run {
    var space := Do(w, n, Opened(w, n, databases), CheckSpace);
    Do(w, n, Do(w, n, Do(w, n, space, LogFetch), Fetch), Extract)
  }

  /** The staging steps, each skipped once one failed. */
  function Ready(w: World, n: nat, databases: set<string>): Run {
    Do(w, n, Do(w, n, Do(w, n, Extracted(w, n, databases), LogTargets), CheckConnection), Decrypt)
  }

  /** The storage point, the archive, the credentials, the guarded texts and the engine are all usable. */
  predicate Accepted(j: Job) {
    j.storagePoint && j.targets.Some? && j.credentials && Screened(j) && !j.engine.Unsupported?
  }

  predicate Proceeds(w: World, n: nat, databases: set<string>, j: Job) {
    Accepted(j) && Ready(w, n, databases).ok
  }

  lemma StagingStep(w: World, n: nat, r: Run, a: Action, databases: set<string>)
    requires Staging(r, databases) && IsStaging(a)
    ensures Staging(Do(w, n, r, a), databases)
  {
    FailedPush(r.events, Event(a, Works(w, n, r)), Setup);
  }

  predicate Staging(r: Run, databases: set<string>) {
    IsPlain(r, databases) && (!r.ok ==> Failed(r.events, Setup))
  }

  lemma ExtractedIsStaging(w: World, n: nat, databases: set<string>)
    ensures Staging(Opened(w, n, databases), databases)
    ensures Staging(Do(w, n, Opened(w, n, databases), CheckSpace), databases)
    ensures Staging(Extracted(w, n, databases), databases)
  {
    var begun := Opened(w, n, databases);
    var space := Do(w, n, begun, CheckSpace);
    var logged := Do(w, n, space, LogFetch);
    StagingStep(w, n, Start(databases), OpenLog, databases);
    StagingStep(w, n, begun, CheckSpace, databases);
    StagingStep(w, n, space, LogFetch, databases);
    StagingStep(w, n, logged, Fetch, databases);
    StagingStep(w, n, Do(w, n, logged, Fetch), Extract, databases);
  }

  lemma ReadyIsStaging(w: World, n: nat, databases: set<string>)
    ensures Staging(Ready(w, n, databases), databases)
  {
    ExtractedIsStaging(w, n, databases);
    var extracted := Extracted(w, n, databases);
    var logged := Do(w, n, extracted, LogTargets);
    StagingStep(w, n, extracted, LogTargets, databases);
    StagingStep(w, n, logged, CheckConnection, databases);
    StagingStep(w, n, Do(w, n, logged, CheckConnection), Decrypt, databases);
  }

  /** The body either reaches the import stage with nothing but staging behind it, or fails without having
      done anything else; a job that is acceptable, then, because a staging step failed. */
  lemma BodyCases(w: World, n: nat, databases: set<string>, j: Job)
    requires Opened(w, n, databases).ok
    ensures var b := Body(w, n, Opened(w, n, databases), j);
            if Proceeds(w, n, databases, j) then
              var ready := Ready(w, n, databases);
              && IsPlain(ready, databases)
              && b == Do(w, n, ImportStage(w, n, ready, j.targets.value, j.engine, j.ssh), LogDone)
            else !b.ok && IsPlain(b, databases) && (Accepted(j) ==> Failed(b.events, Setup))
  {
    ExtractedIsStaging(w, n, databases);
    ReadyIsStaging(w, n, databases);
  }

  /** Either the log cannot be begun and nothing else happens, or cleanup follows the body. */
  lemma RestoreCases(w: World, n: nat, databases: set<string>, j: Job)
    ensures var s, begun := Restore(w, n, Start(databases), j), Opened(w, n, databases);
            if begun.ok then s == AlwaysLoud(w, n, Body(w, n, begun, j), LocalCleanup)
            else s == begun && s.events == [Event(OpenLog, false)]
  {
  }

  /** What a restore comes to, for a job that is accepted and for one that is not. */
  ghost predicate Outcome(s: Run, j: Job, usable: bool, initial: set<string>) {
    && (if usable && !Failed(s.events, Setup) then
          && j.targets.Some?
          && exists k: nat :: CutAt(s.events, j.targets.value, k) && Imported(s.events) == j.targets.value[..k]
        else Imported(s.events) == [])
    && (s.ok <==> usable && !Failed(s.events, Setup) && !Failed(s.events, Step) && !Failed(s.events, Teardown))
    && IntoKnownDatabases(s.events, initial)
    && Removed(s.events) == Uploaded(s.events)
  }

  /** For every job and every pattern of failures. When the job is usable and no setup effect failed, the
      targets imported, each once and in order, are exactly those before the one of which a step failed,
      all of them if none did; otherwise none is imported. The restore succeeds exactly when the job is
      usable and no setup effect, no step of a target and no teardown effect failed. Every import went
      into a database known to be there, and removal was issued for exactly the dumps whose upload
      returned, in order. */
  lemma ImportIsStaged(w: World, n: nat, databases: set<string>, j: Job)
    ensures var s := Restore(w, n, Start(databases), j);
            var usable := && j.storagePoint && j.credentials && j.targets.Some?
                          && (forall f | f in j.fields :: f in j.safe)
                          && (forall t | t in j.targets.value :: t.database in j.safe)
                          && (j.engine == MySqlFamily || j.engine == PostgreSql);
            Outcome(s, j, usable, databases)
  {
    AcceptedExactly(j);
    RestoreOutcome(w, n, databases, j);
  }

  lemma AcceptedExactly(j: Job)
    ensures Accepted(j) <==>
              && j.storagePoint && j.credentials && j.targets.Some?
              && (forall f | f in j.fields :: f in j.safe)
              && (forall t | t in j.targets.value :: t.database in j.safe)
              && (j.engine == MySqlFamily || j.engine == PostgreSql)
  {
  }

  lemma RestoreOutcome(w: World, n: nat, databases: set<string>, j: Job)
    ensures Outcome(Restore(w, n, Start(databases), j), j, Accepted(j), databases)
  {
    var begun := Opened(w, n, databases);
    RestoreCases(w, n, databases, j);
    if !begun.ok {
      UnopenedOutcome(begun, w, n, databases, j);
    } else if Proceeds(w, n, databases, j) {
      ProceedingOutcome(w, n, databases, j);
    } else {
      StoppedOutcome(w, n, databases, j);
    }
  }

  lemma UnopenedOutcome(begun: Run, w: World, n: nat, databases: set<string>, j: Job)
    requires begun == Opened(w, n, databases) && !begun.ok
    ensures Outcome(begun, j, Accepted(j), databases)
  {
    ExtractedIsStaging(w, n, databases);
    PlainOutcome(begun, j, Accepted(j), databases);
  }

  lemma ProceedingOutcome(w: World, n: nat, databases: set<string>, j: Job)
    requires Opened(w, n, databases).ok && Proceeds(w, n, databases, j)
    ensures Outcome(Restore(w, n, Start(databases), j), j, Accepted(j), databases)
  {
    StageAndAfter(w, n, databases, j);
    StagedOutcome(Ready(w, n, databases), Restore(w, n, Start(databases), j), j, databases);
  }

  lemma StoppedOutcome(w: World, n: nat, databases: set<string>, j: Job)
    requires Opened(w, n, databases).ok && !Proceeds(w, n, databases, j)
    ensures Outcome(AlwaysLoud(w, n, Body(w, n, Opened(w, n, databases), j), LocalCleanup), j, Accepted(j), databases)
  {
    BodyCases(w, n, databases, j);
    CleanedOutcome(w, n, Body(w, n, Opened(w, n, databases), j), j, databases);
  }

  lemma StagedOutcome(r: Run, s: Run, j: Job, initial: set<string>)
    requires Accepted(j) && Imported(r.events) == [] && Staged(r, s, j.targets.value, initial)
    ensures Outcome(s, j, true, initial)
  {
    if !Failed(s.events, Setup) {
      var k: nat :| Reached(r, s, j.targets.value, k);
      assert [] + j.targets.value[..k] == j.targets.value[..k];
    }
  }

  /** A restore that got no further than staging. */
  lemma PlainOutcome(r: Run, j: Job, usable: bool, initial: set<string>)
    requires IsPlain(r, initial) && !r.ok && (usable ==> Failed(r.events, Setup))
    ensures Outcome(r, j, usable, initial)
  {
    StagingShows(r.events);
    PlainTracks(r, initial);
  }

  lemma CleanedOutcome(w: World, n: nat, b: Run, j: Job, initial: set<string>)
    requires IsPlain(b, initial) && !b.ok && (Accepted(j) ==> Failed(b.events, Setup))
    ensures Outcome(AlwaysLoud(w, n, b, LocalCleanup), j, Accepted(j), initial)
  {
    PlainOutcome(b, j, Accepted(j), initial);
    PlainTracks(b, initial);
    QuietEffect(w, n, b, LocalCleanup, initial);
    FailedPush(b.events, Event(LocalCleanup, Works(w, n, b)), Setup);
  }

  /** The import stage, the last line of the log and the cleanup. */
  lemma StageAndAfter(w: World, n: nat, databases: set<string>, j: Job)
    requires Opened(w, n, databases).ok && Proceeds(w, n, databases, j)
    ensures Staged(Ready(w, n, databases), Restore(w, n, Start(databases), j), j.targets.value, databases)
    ensures Imported(Ready(w, n, databases).events) == []
  {
    RestoreCases(w, n, databases, j);
    BodyCases(w, n, databases, j);
    var r, ts := Ready(w, n, databases), j.targets.value;
    ReadyIsClean(w, n, databases);
    ImportStageEffect(w, n, r, ts, j.engine, j.ssh, databases);
    LoggedAndCleaned(w, n, r, ImportStage(w, n, r, ts, j.engine, j.ssh), ts, databases);
  }

  lemma ReadyIsClean(w: World, n: nat, databases: set<string>)
    requires Ready(w, n, databases).ok
    ensures Clean(Ready(w, n, databases), databases) && Imported(Ready(w, n, databases).events) == []
  {
    ReadyIsStaging(w, n, databases);
    StagingShows(Ready(w, n, databases).events);
    PlainTracks(Ready(w, n, databases), databases);
  }

  lemma LoggedAndCleaned(w: World, n: nat, r: Run, stage: Run, ts: seq<Target>, initial: set<string>)
    requires Staged(r, stage, ts, initial)
    ensures Staged(r, AlwaysLoud(w, n, Do(w, n, stage, LogDone), LocalCleanup), ts, initial)
  {
    LoggedStaged(w, n, r, stage, ts, initial);
    StagedLoud(w, n, r, Do(w, n, stage, LogDone), LocalCleanup, ts, initial);
  }

  lemma LoggedStaged(w: World, n: nat, r: Run, stage: Run, ts: seq<Target>, initial: set<string>)
    requires Staged(r, stage, ts, initial)
    ensures Staged(r, Do(w, n, stage, LogDone), ts, initial)
  {
    if stage.ok {
      assert Do(w, n, stage, LogDone) == AlwaysLoud(w, n, stage, LogDone);
      StagedLoud(w, n, r, stage, LogDone, ts, initial);
    }
  }

  /** No client command of the import stage runs unless every field and every database name passed
      its guard. */
  lemma NothingRunsUnscreened(w: World, n: nat, databases: set<string>, j: Job)
    requires || (exists f :: f in j.fields && f !in j.safe)
             || (j.targets.Some? && exists t :: t in j.targets.value && t.database !in j.safe)
    ensures !AnyClientCommand(Restore(w, n, Start(databases), j).events)
    ensures !Restore(w, n, Start(databases), j).ok
  {
    RestoreCases(w, n, databases, j);
    var begun := Opened(w, n, databases);
    if begun.ok {
      BodyCases(w, n, databases, j);
      StagingShows(Body(w, n, begun, j).events);
    }
  }

  /** Once the log is open, local cleanup is issued exactly once, last, on every exit; when it cannot be
      begun, nothing else happens, and there is nothing to clean up. */
  lemma CleanupIsLast(w: World, n: nat, databases: set<string>, j: Job)
    ensures var es := Restore(w, n, Start(databases), j).events;
            if Opened(w, n, databases).ok then
              && es != [] && es[|es| - 1].action == LocalCleanup
              && Attempts(es, LocalCleanup) == 1
            else es == [Event(OpenLog, false)]
  {
    RestoreCases(w, n, databases, j);
    if Opened(w, n, databases).ok {
      BodyHasNoCleanup(w, n, databases, j);
      var b := Body(w, n, Opened(w, n, databases), j);
      Push(b.events, Event(LocalCleanup, Works(w, n, b)), LocalCleanup);
    }
  }

  lemma BodyHasNoCleanup(w: World, n: nat, databases: set<string>, j: Job)
    requires Opened(w, n, databases).ok
    ensures Attempts(Body(w, n, Opened(w, n, databases), j).events, LocalCleanup) == 0
  {
    BodyCases(w, n, databases, j);
    if Proceeds(w, n, databases, j) {
      var r := Ready(w, n, databases);
      var stage := ImportStage(w, n, r, j.targets.value, j.engine, j.ssh);
      StagingShows(r.events);
      StageShape(w, n, r, j.targets.value, j.engine, j.ssh);
      NoAttempts(r.events, stage.events, LocalCleanup);
      Push(stage.events, Event(LogDone, Works(w, n, stage)), LocalCleanup);
    } else {
      StagingShows(Body(w, n, Opened(w, n, databases), j).events);
    }
  }

  lemma StageShape(w: World, n: nat, r: Run, ts: seq<Target>, engine: Engine, ssh: bool)
    requires r.ok
    ensures var s := ImportStage(w, n, r, ts, engine, ssh);
            && r.events <= s.events
            && forall k | |r.events| <= k < |s.events| :: s.events[k].action != LocalCleanup
  {
    if ssh {
      var put := Do(w, n, Do(w, n, r, Connect), PutCredentials);
      TargetsExtend(w, n, put, ts, engine, ssh);
    } else if engine.MySqlFamily? {
      TargetsExtend(w, n, Do(w, n, r, WriteDefaults), ts, engine, ssh);
    } else {
      TargetsExtend(w, n, r, ts, engine, ssh);
    }
  }

  /** Over SSH, whatever fails after the connection is made, the credentials file's removal is issued
      exactly once, after the last client command, then the connection is closed and the key file, if there is
      one, removed. */
  lemma CredentialsAreRemoved(w: World, n: nat, r: Run, ts: seq<Target>, engine: Engine)
    requires r.ok && Works(w, n, r)
    ensures var s := ImportStage(w, n, r, ts, engine, true);
            var m := |s.events| - (if w.keyFile then 3 else 2);
            && |r.events| + 1 < m
            && s.events[|r.events| + 1].action == PutCredentials
            && s.events[m].action == RemoveCredentials
            && s.events[m + 1].action == CloseSsh
            && (w.keyFile ==> s.events[m + 2].action == RemoveKey)
            && (forall k | |r.events| + 1 < k < m :: IsTargetAction(s.events[k].action))
  {
    var put := Do(w, n, Do(w, n, r, Connect), PutCredentials);
    TargetsExtend(w, n, put, ts, engine, true);
    var done := Targets(w, n, put, ts, engine, true);
    assert done.events[|r.events| + 1] == put.events[|r.events| + 1];
  }

  /** Direct MySQL: the defaults file's removal is the last thing issued whenever there is a file. */
  lemma DefaultsAreRemoved(w: World, n: nat, r: Run, ts: seq<Target>)
    requires r.ok && (Works(w, n, r) || n + |r.events| in w.leaves)
    ensures var s := ImportStage(w, n, r, ts, MySqlFamily, false);
            && |r.events| + 1 < |s.events|
            && s.events[|r.events|].action == WriteDefaults
            && s.events[|s.events| - 1].action == RemoveDefaults
  {
    var written := Do(w, n, r, WriteDefaults);
    TargetsExtend(w, n, written, ts, MySqlFamily, false);
    assert Targets(w, n, written, ts, MySqlFamily, false).events[|r.events|] == written.events[|r.events|];
  }

  /** The one leak: an upload that raises leaves no removal behind it, although the file may already be
      on the server. */
  lemma FailedUploadIsNotRemoved(w: World, n: nat, r: Run, t: Target, engine: Engine)
    requires r.ok && Ensured(w, n, r, t.database, engine).ok
    requires !Works(w, n, Ensured(w, n, r, t.database, engine))
    ensures var s := OneTarget(w, n, r, t, engine, true);
            && s.events == Ensured(w, n, r, t.database, engine).events + [Event(Upload(t), false)]
            && Removed(s.events) == Removed(r.events)
  {
    var first := if engine.PostgreSql? then QueryDatabase(t.database) else EnsureDatabase(t.database);
    var q := Do(w, n, r, first);
    Push(r.events, Event(first, Works(w, n, r)), CloseSsh);
    Push(q.events, Event(CreateDatabase(t.database), Works(w, n, q)), CloseSsh);
    var e := Ensured(w, n, r, t.database, engine);
    Push(e.events, Event(Upload(t), false), CloseSsh);
  }
}
