/** The rules the trace of a database restore follows: what has to stand before each effect. They speak of
    the trace alone, and every trace of a restore keeps them, wherever it fails. */
module DatabaseTrace {
  import opened Common
  import opened DatabaseImport

  /** The order of the effects ahead of the import stage. */
  const STAGING: seq<Action> :=
    [OpenLog, CheckSpace, LogFetch, Fetch, Extract, LogTargets, CheckConnection, Decrypt]

  datatype Context = Context(w: World, n: nat, initial: set<string>, j: Job)

  predicate AllWorked(es: seq<Event>) {
    forall e | e in es :: e.ok
  }

  predicate EndsWith(es: seq<Event>, e: Event) {
    es != [] && es[|es| - 1] == e
  }

  predicate EndsWithAction(es: seq<Event>, a: Action) {
    es != [] && es[|es| - 1].action == a
  }

  /** Every text that goes into a client command passed its guard. */
  predicate TextsAreSafe(j: Job) {
    && (forall f | f in j.fields :: f in j.safe)
    && j.targets.Some? && (forall t | t in j.targets.value :: t.database in j.safe)
  }

  /** Ahead of the import stage everything worked and the job proved usable. */
  predicate StageMayBegin(es: seq<Event>, j: Job) {
    |es| == |STAGING| && AllWorked(es) && j.storagePoint && j.credentials && TextsAreSafe(j)
  }

  /** The import stage has begun and is set up: connected, with the credentials in place; or, directly with
      MySQL, with the defaults file written. */
  predicate IsSetUp(es: seq<Event>, j: Job) {
    && |es| >= |STAGING| && StageMayBegin(es[..|STAGING|], j)
    && if j.ssh then
         && |es| >= |STAGING| + 2
         && es[|STAGING|] == Event(Connect, true) && es[|STAGING| + 1] == Event(PutCredentials, true)
       else
         j.engine.MySqlFamily? ==> |es| > |STAGING| && es[|STAGING|] == Event(WriteDefaults, true)
  }

  predicate NothingFailed(es: seq<Event>) {
    !Failed(es, Setup) && !Failed(es, Step)
  }

  /** The last thing that happened is that the database was found or made. */
  ghost predicate DatabaseIsReady(es: seq<Event>, d: string, c: Context) {
    && es != [] && es[|es| - 1].ok && KnownAt(es, c.initial, d)
    && es[|es| - 1].action in {EnsureDatabase(d), CreateDatabase(d), QueryDatabase(d)}
  }

  /** What must be true of the trace when an effect is attempted. */
  ghost predicate Rule(es: seq<Event>, a: Action, c: Context) {
    match a
    case OpenLog | CheckSpace | LogFetch | Fetch | Extract | LogTargets | CheckConnection | Decrypt =>
      && |es| < |STAGING| && a == STAGING[|es|] && AllWorked(es)
      && (|es| >= 2 ==> c.j.storagePoint) && (|es| >= 5 ==> c.j.targets.Some?)
    case Connect => c.j.ssh && !c.j.engine.Unsupported? && StageMayBegin(es, c.j)
    case PutCredentials => c.j.ssh && EndsWith(es, Event(Connect, true))
    case WriteDefaults => !c.j.ssh && c.j.engine.MySqlFamily? && StageMayBegin(es, c.j)
    case EnsureDatabase(d) => c.j.engine.MySqlFamily? && IsSetUp(es, c.j) && NothingFailed(es)
    case QueryDatabase(d) => c.j.engine.PostgreSql? && IsSetUp(es, c.j) && NothingFailed(es)
    case CreateDatabase(d) => EndsWith(es, Event(QueryDatabase(d), true)) && !KnownAt(es, c.initial, d)
    case Upload(t) => c.j.ssh && DatabaseIsReady(es, t.database, c)
    case Import(t) =>
      && KnownAt(es, c.initial, t.database)
      && if c.j.ssh then EndsWith(es, Event(Upload(t), true)) else DatabaseIsReady(es, t.database, c)
    case RemoveDump(t) => c.j.ssh && EndsWithAction(es, Import(t))
    case RemoveCredentials => c.j.ssh
    case CloseSsh => EndsWithAction(es, RemoveCredentials)
    case RemoveKey => c.w.keyFile && EndsWithAction(es, CloseSsh)
    case RemoveDefaults => !c.j.ssh && c.j.engine.MySqlFamily?
    case LogDone => NothingFailed(es) && !Failed(es, Teardown)
    case LocalCleanup => es != [] && es[0] == Event(OpenLog, true)
  }

  /** Every event was attempted in keeping with the rules, and worked exactly when the world lets it. */
  ghost predicate KeepsRules(es: seq<Event>, c: Context) {
    forall k | 0 <= k < |es| ::
      Rule(es[..k], es[k].action, c) && (es[k].ok <==> c.n + k !in c.w.fails)
  }

  ghost predicate Lawful(r: Run, c: Context) {
    && KeepsRules(r.events, c)
    && forall d :: d in r.databases <==> KnownAt(r.events, c.initial, d)
  }

  lemma KnownPush(es: seq<Event>, e: Event, initial: set<string>, d: string)
    ensures KnownAt(es + [e], initial, d) <==>
              KnownAt(es, initial, d) || e == Event(EnsureDatabase(d), true) || e == Event(CreateDatabase(d), true)
  {
    assert forall x :: x in es + [e] <==> x in es || x == e;
  }

  lemma RulesPush(es: seq<Event>, e: Event, c: Context)
    requires KeepsRules(es, c) && Rule(es, e.action, c) && (e.ok <==> c.n + |es| !in c.w.fails)
    ensures KeepsRules(es + [e], c)
  {
    var fs := es + [e];
    forall k | 0 <= k < |fs| ensures Rule(fs[..k], fs[k].action, c) && (fs[k].ok <==> c.n + k !in c.w.fails) {
      if k < |es| {
        assert fs[..k] == es[..k] && fs[k] == es[k];
      } else {
        assert fs[..k] == es;
      }
    }
  }

  lemma EventIsLawful(r: Run, a: Action, databases: set<string>, ok: bool, c: Context)
    requires Lawful(r, c) && Rule(r.events, a, c)
    requires databases == Known(a, Works(c.w, c.n, r), r.databases)
    ensures Lawful(Run(r.events + [Event(a, Works(c.w, c.n, r))], databases, ok), c)
  {
    var e := Event(a, Works(c.w, c.n, r));
    RulesPush(r.events, e, c);
    forall d ensures d in databases <==> KnownAt(r.events + [e], c.initial, d) {
      KnownPush(r.events, e, c.initial, d);
    }
  }

  lemma DoIsLawful(r: Run, a: Action, c: Context)
    requires Lawful(r, c) && (r.ok ==> Rule(r.events, a, c))
    ensures Lawful(Do(c.w, c.n, r, a), c)
  {
    if r.ok {
      EventIsLawful(r, a, Known(a, Works(c.w, c.n, r), r.databases), Works(c.w, c.n, r), c);
    }
  }

  lemma AlwaysIsLawful(r: Run, a: Action, c: Context)
    requires Lawful(r, c) && Rule(r.events, a, c) && !a.EnsureDatabase? && !a.CreateDatabase?
    ensures Lawful(Always(c.w, c.n, r, a), c) && Lawful(AlwaysLoud(c.w, c.n, r, a), c)
  {
    EventIsLawful(r, a, r.databases, r.ok, c);
    EventIsLawful(r, a, r.databases, r.ok && Works(c.w, c.n, r), c);
  }

  // -----------------------------------------------------------------------------------
  // One target
  // -----------------------------------------------------------------------------------

  lemma EnsuredIsLawful(r: Run, d: string, c: Context)
    requires r.ok && Lawful(r, c) && IsSetUp(r.events, c.j) && NothingFailed(r.events) && !c.j.engine.Unsupported?
    ensures var e := Ensured(c.w, c.n, r, d, c.j.engine);
            Lawful(e, c) && (e.ok ==> DatabaseIsReady(e.events, d, c))
  {
    if c.j.engine.PostgreSql? {
      var q := Do(c.w, c.n, r, QueryDatabase(d));
      DoIsLawful(r, QueryDatabase(d), c);
      if q.ok && d !in q.databases {
        DoIsLawful(q, CreateDatabase(d), c);
      }
    } else {
      DoIsLawful(r, EnsureDatabase(d), c);
    }
  }

  lemma OneTargetIsLawful(r: Run, t: Target, c: Context)
    requires r.ok && Lawful(r, c) && IsSetUp(r.events, c.j) && NothingFailed(r.events) && !c.j.engine.Unsupported?
    ensures Lawful(OneTarget(c.w, c.n, r, t, c.j.engine, c.j.ssh), c)
  {
    EnsuredIsLawful(r, t.database, c);
    var e := Ensured(c.w, c.n, r, t.database, c.j.engine);
    if c.j.ssh {
      var up := Do(c.w, c.n, e, Upload(t));
      DoIsLawful(e, Upload(t), c);
      if up.ok {
        UploadedIsLawful(up, t, c);
      }
    } else {
      DoIsLawful(e, Import(t), c);
    }
  }

  lemma UploadedIsLawful(up: Run, t: Target, c: Context)
    requires up.ok && Lawful(up, c) && c.j.ssh && EndsWith(up.events, Event(Upload(t), true))
    requires KnownAt(up.events, c.initial, t.database)
    ensures Lawful(Always(c.w, c.n, Do(c.w, c.n, up, Import(t)), RemoveDump(t)), c)
  {
    DoIsLawful(up, Import(t), c);
    AlwaysIsLawful(Do(c.w, c.n, up, Import(t)), RemoveDump(t), c);
  }

  lemma StaysSetUp(es: seq<Event>, fs: seq<Event>, j: Job)
    requires IsSetUp(es, j) && es <= fs
    ensures IsSetUp(fs, j)
  {
    assert fs[..|STAGING|] == es[..|STAGING|];
  }

  lemma {:induction false} TargetsAreLawful(r: Run, ts: seq<Target>, c: Context)
    requires Lawful(r, c) && (r.ok ==> IsSetUp(r.events, c.j) && NothingFailed(r.events)) && !c.j.engine.Unsupported?
    ensures var s := Targets(c.w, c.n, r, ts, c.j.engine, c.j.ssh);
            && Lawful(s, c) && (s.ok ==> NothingFailed(s.events)) && r.events <= s.events
    decreases |ts|
  {
    if ts != [] && r.ok {
      var s := OneTarget(c.w, c.n, r, ts[0], c.j.engine, c.j.ssh);
      OneTargetIsLawful(r, ts[0], c);
      OneTargetFails(c.w, c.n, r, ts[0], c.j.engine, c.j.ssh);
      StaysSetUp(r.events, s.events, c.j);
      TargetsAreLawful(s, ts[1..], c);
    }
  }

  // -----------------------------------------------------------------------------------
  // The import stage
  // -----------------------------------------------------------------------------------

  lemma WorkedMeansNothingFailed(es: seq<Event>)
    requires AllWorked(es)
    ensures NothingFailed(es) && !Failed(es, Teardown)
  {
  }

  /** The targets, after the setup effect that makes the stage ready for them. */
  lemma SetUpTargets(r: Run, a: Action, c: Context)
    requires r.ok && Lawful(r, c) && AllWorked(r.events) && Rule(r.events, a, c) && !c.j.engine.Unsupported?
    requires IsSetUp(r.events + [Event(a, true)], c.j)
    ensures Lawful(Targets(c.w, c.n, Do(c.w, c.n, r, a), c.j.targets.GetOr([]), c.j.engine, c.j.ssh), c)
  {
    var begun := Do(c.w, c.n, r, a);
    DoIsLawful(r, a, c);
    if begun.ok {
      assert AllWorked(begun.events);
      WorkedMeansNothingFailed(begun.events);
    }
    TargetsAreLawful(begun, c.j.targets.GetOr([]), c);
  }

  lemma ClosedIsLawful(done: Run, c: Context)
    requires Lawful(done, c) && c.j.ssh
    ensures Lawful(Closed(c.w, c.n, done), c)
  {
    var removed := Always(c.w, c.n, done, RemoveCredentials);
    var closed := AlwaysLoud(c.w, c.n, removed, CloseSsh);
    AlwaysIsLawful(done, RemoveCredentials, c);
    AlwaysIsLawful(removed, CloseSsh, c);
    if c.w.keyFile {
      AlwaysIsLawful(closed, RemoveKey, c);
    }
  }

  lemma SshStageIsLawful(r: Run, c: Context)
    requires r.ok && Lawful(r, c) && StageMayBegin(r.events, c.j) && !c.j.engine.Unsupported? && c.j.ssh
    ensures Lawful(ImportStage(c.w, c.n, r, c.j.targets.value, c.j.engine, true), c)
  {
    var connected := Do(c.w, c.n, r, Connect);
    DoIsLawful(r, Connect, c);
    if connected.ok {
      var put := connected.events + [Event(PutCredentials, true)];
      assert put[..|STAGING|] == r.events;
      SetUpTargets(connected, PutCredentials, c);
      var begun := Do(c.w, c.n, connected, PutCredentials);
      ClosedIsLawful(Targets(c.w, c.n, begun, c.j.targets.value, c.j.engine, true), c);
    }
  }

  lemma StageIsLawful(r: Run, c: Context)
    requires r.ok && Lawful(r, c) && StageMayBegin(r.events, c.j) && !c.j.engine.Unsupported?
    ensures Lawful(ImportStage(c.w, c.n, r, c.j.targets.value, c.j.engine, c.j.ssh), c)
  {
    assert r.events[..|STAGING|] == r.events;
    if c.j.ssh {
      SshStageIsLawful(r, c);
    } else if c.j.engine.MySqlFamily? {
      var written := r.events + [Event(WriteDefaults, true)];
      assert written[..|STAGING|] == r.events;
      SetUpTargets(r, WriteDefaults, c);
      var done := Targets(c.w, c.n, Do(c.w, c.n, r, WriteDefaults), c.j.targets.value, c.j.engine, false);
      AlwaysIsLawful(done, RemoveDefaults, c);
    } else {
      WorkedMeansNothingFailed(r.events);
      TargetsAreLawful(r, c.j.targets.value, c);
    }
  }

  // -----------------------------------------------------------------------------------
  // The whole restore
  // -----------------------------------------------------------------------------------

  /** Staging has come to its k-th effect: all of them worked, or the last one failed. */
  ghost predicate StagedTo(r: Run, k: nat, c: Context) {
    && Lawful(r, c)
    && (r.ok ==> |r.events| == k && AllWorked(r.events))
    && |r.events| <= k <= |STAGING| && (forall i | 0 <= i < |r.events| :: r.events[i].action == STAGING[i])
    && r.events != [] && r.events[0] == Event(OpenLog, true)
  }

  lemma StagingIsLawful(r: Run, k: nat, c: Context)
    requires StagedTo(r, k, c) && 1 <= k < |STAGING|
    requires k >= 2 ==> c.j.storagePoint
    requires k >= 5 ==> c.j.targets.Some?
    ensures StagedTo(Do(c.w, c.n, r, STAGING[k]), k + 1, c)
  {
    DoIsLawful(r, STAGING[k], c);
  }

  lemma OpenedIsLawful(c: Context)
    ensures var begun := Do(c.w, c.n, Start(c.initial), OpenLog);
            Lawful(begun, c) && (begun.ok ==> StagedTo(begun, 1, c))
  {
    assert Lawful(Start(c.initial), c);
    DoIsLawful(Start(c.initial), OpenLog, c);
  }

  lemma ExtractedIsLawful(space: Run, c: Context)
    requires StagedTo(space, 2, c) && c.j.storagePoint
    ensures StagedTo(Do(c.w, c.n, Do(c.w, c.n, Do(c.w, c.n, space, LogFetch), Fetch), Extract), 5, c)
  {
    var logged := Do(c.w, c.n, space, LogFetch);
    var fetched := Do(c.w, c.n, logged, Fetch);
    StagingIsLawful(space, 2, c);
    StagingIsLawful(logged, 3, c);
    StagingIsLawful(fetched, 4, c);
  }

  /** A lawful trace of a restore whose log was opened. */
  ghost predicate LawfulBody(b: Run, c: Context) {
    Lawful(b, c) && b.events != [] && b.events[0] == Event(OpenLog, true)
  }

  lemma FailingIsLawful(r: Run, k: nat, c: Context)
    requires StagedTo(r, k, c)
    ensures LawfulBody(r, c) && LawfulBody(r.(ok := false), c)
  {
  }

  lemma BodyIsLawful(r: Run, c: Context)
    requires r.ok && StagedTo(r, 1, c)
    ensures LawfulBody(Body(c.w, c.n, r, c.j), c)
  {
    var space := Do(c.w, c.n, r, CheckSpace);
    StagingIsLawful(r, 1, c);
    FailingIsLawful(space, 2, c);
    if space.ok && c.j.storagePoint {
      var extracted := Do(c.w, c.n, Do(c.w, c.n, Do(c.w, c.n, space, LogFetch), Fetch), Extract);
      ExtractedIsLawful(space, c);
      FailingIsLawful(extracted, 5, c);
      if extracted.ok && c.j.targets.Some? {
        PreparedIsLawful(extracted, c);
      }
    }
  }

  lemma PreparedIsLawful(extracted: Run, c: Context)
    requires extracted.ok && StagedTo(extracted, 5, c) && c.j.storagePoint && c.j.targets.Some?
    ensures var ready := Do(c.w, c.n, Do(c.w, c.n, Do(c.w, c.n, extracted, LogTargets), CheckConnection), Decrypt);
            && LawfulBody(ready.(ok := false), c)
            && (ready.ok && c.j.credentials && Screened(c.j) && !c.j.engine.Unsupported? ==>
                  var stage := ImportStage(c.w, c.n, ready, c.j.targets.value, c.j.engine, c.j.ssh);
                  LawfulBody(Do(c.w, c.n, stage, LogDone), c))
  {
    var logged := Do(c.w, c.n, extracted, LogTargets);
    var checked := Do(c.w, c.n, logged, CheckConnection);
    StagingIsLawful(extracted, 5, c);
    StagingIsLawful(logged, 6, c);
    StagingIsLawful(checked, 7, c);
    var ready := Do(c.w, c.n, checked, Decrypt);
    FailingIsLawful(ready, 8, c);
    if ready.ok && c.j.credentials && Screened(c.j) && !c.j.engine.Unsupported? {
      LoggedIsLawful(ready, c);
    }
  }

  lemma LoggedIsLawful(ready: Run, c: Context)
    requires ready.ok && StagedTo(ready, 8, c) && StageMayBegin(ready.events, c.j) && !c.j.engine.Unsupported?
    ensures LawfulBody(Do(c.w, c.n, ImportStage(c.w, c.n, ready, c.j.targets.value, c.j.engine, c.j.ssh), LogDone), c)
  {
    var ts := c.j.targets.value;
    var stage := ImportStage(c.w, c.n, ready, ts, c.j.engine, c.j.ssh);
    StageIsLawful(ready, c);
    StageShape(c.w, c.n, ready, ts, c.j.engine, c.j.ssh);
    assert stage.events[0] == ready.events[0];
    if stage.ok {
      StageSucceeded(ready, stage, c);
    }
    DoIsLawful(stage, LogDone, c);
  }

  /** A stage that succeeds has no failure behind it but swallowed ones. */
  lemma StageSucceeded(ready: Run, stage: Run, c: Context)
    requires ready.ok && StagedTo(ready, 8, c) && !c.j.engine.Unsupported?
    requires c.j.targets.Some? && stage == ImportStage(c.w, c.n, ready, c.j.targets.value, c.j.engine, c.j.ssh)
    requires stage.ok
    ensures Rule(stage.events, LogDone, c)
  {
    StagedIsClean(ready, c);
    ImportStageEffect(c.w, c.n, ready, c.j.targets.value, c.j.engine, c.j.ssh, c.initial);
    var k: nat :| Reached(ready, stage, c.j.targets.value, k);
  }

  lemma StagedIsClean(ready: Run, c: Context)
    requires ready.ok && StagedTo(ready, 8, c)
    ensures Clean(ready, c.initial)
  {
    WorkedMeansNothingFailed(ready.events);
    var es := ready.events;
    forall e | e in es ensures IsStaging(e.action) {
      var k :| 0 <= k < |es| && es[k] == e;
      assert STAGING[k] in STAGING;
    }
    StagingShows(es);
    forall k | 0 <= k < |es| ensures !es[k].action.Import? {
      assert es[k] in es;
    }
  }

  /** Every restore keeps the rules, for every job and every pattern of failures. */
  lemma RestoreKeepsRules(w: World, n: nat, initial: set<string>, j: Job)
    ensures KeepsRules(Restore(w, n, Start(initial), j).events, Context(w, n, initial, j))
  {
    var c := Context(w, n, initial, j);
    var begun := Do(w, n, Start(initial), OpenLog);
    OpenedIsLawful(c);
    if begun.ok {
      BodyIsLawful(begun, c);
      AlwaysIsLawful(Body(w, n, begun, j), LocalCleanup, c);
    }
  }

  // -----------------------------------------------------------------------------------
  // What the rules mean for a dump and for a database
  // -----------------------------------------------------------------------------------

  /** The last upload or removal of a dump. */
  function LastTransfer(es: seq<Event>, t: Target): Option<Event> {
    if es == [] then None
    else
      var e := es[|es| - 1];
      if e.action == Upload(t) || e.action == RemoveDump(t) then Some(e) else LastTransfer(es[..|es| - 1], t)
  }

  /** Over SSH every dump that is imported is on the server: the last thing done to it is an upload that
      returned. It is removed right after, and only then. Directly, no dump is uploaded or removed. */
  lemma ImportsWhatIsThere(w: World, n: nat, initial: set<string>, j: Job, k: nat, t: Target)
    requires k < |Restore(w, n, Start(initial), j).events|
    ensures var es := Restore(w, n, Start(initial), j).events;
            && (es[k].action == Import(t) ==>
                  && KnownAt(es[..k], initial, t.database)
                  && (j.ssh ==> LastTransfer(es[..k], t) == Some(Event(Upload(t), true))))
            && (es[k].action == RemoveDump(t) ==> j.ssh && k > 0 && es[k - 1].action == Import(t))
            && (es[k].action == Upload(t) ==> j.ssh)
  {
    RestoreKeepsRules(w, n, initial, j);
    var es := Restore(w, n, Start(initial), j).events;
    assert Rule(es[..k], es[k].action, Context(w, n, initial, j));
  }

  /** createdb runs only for a database that is not there, right after asking for it worked. */
  lemma CreatesWhatIsMissing(w: World, n: nat, initial: set<string>, j: Job, k: nat, d: string)
    requires k < |Restore(w, n, Start(initial), j).events|
    requires Restore(w, n, Start(initial), j).events[k].action == CreateDatabase(d)
    ensures var es := Restore(w, n, Start(initial), j).events;
            && !KnownAt(es[..k], initial, d)
            && k > 0 && es[k - 1] == Event(QueryDatabase(d), true) && j.engine.PostgreSql?
  {
    RestoreKeepsRules(w, n, initial, j);
    RuleAt(Restore(w, n, Start(initial), j).events, k, d, Context(w, n, initial, j));
  }

  lemma RuleAt(es: seq<Event>, k: nat, d: string, c: Context)
    requires KeepsRules(es, c) && k < |es| && es[k].action == CreateDatabase(d)
    ensures !KnownAt(es[..k], c.initial, d)
    ensures k > 0 && es[k - 1] == Event(QueryDatabase(d), true) && c.j.engine.PostgreSql?
  {
    assert Rule(es[..k], es[k].action, c);
    assert es[..k][k - 1] == es[k - 1];
    assert Rule(es[..k - 1], es[k - 1].action, c);
  }
}
