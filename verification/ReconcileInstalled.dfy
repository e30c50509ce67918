/** Exactly when a run leaves the desired definition installed. */
module ReconcileInstalled {
  import opened Options
  import opened ReconcileNames
  import opened ReconcileModel
  import opened ReconcileDiff
  import opened ReconcileRead
  import opened ReconcileStatements
  import opened ReconcileApply
  import opened ReconcileEffects
  import opened ReconcileConvergence
  import opened ReconcileTheorems

  // ----- what is installed, and what should be -----------------------------------------------------

  /** A trigger and its function as the catalog reads them back. */
  datatype Definition = Definition(trigger: string, code: string)

  function Digest(env: Env, d: Definition): string {
    env.fingerprint(d.trigger, d.code)
  }

  /** What the catalog reads of the texts generated from `l` for `table`, when that relation is called `called`. */
  function Generated(env: Env, instance: string, l: Listener, table: Table, p: Pair, called: string): Definition {
    Definition(env.readTrigger(env.triggerText(instance, l, table, p.operation), called),
               env.readFunction(env.functionText(instance, l, table, p.operation)))
  }

  function GeneratedNow(env: Env, instance: string, l: Listener, t: Target, p: Pair): Definition {
    Generated(env, instance, l, t.table, p, t.table.name)
  }

  /** What stands under a pair's name, where both objects carry the pair's own marker. */
  function Installed(env: Env, instance: string, db: Database, oid: Oid, p: Pair): Option<Definition>
    requires KnownOperation(p.operation)
  {
    var trigger, code := ReadTrigger(env, db, oid, NameOf(p, env.hashed)), ReadFunctionOf(env, db, oid, NameOf(p, env.hashed));
    if trigger.Some? && code.Some? && trigger.value.marker == code.value.marker == Some(Marker(instance, p))
    then Some(Definition(trigger.value.definition, code.value.definition))
    else None
  }

  /** A pair the configuration wants installed, on the relation the plan chose. */
  ghost predicate Wanted(env: Env, db: Database, cfg: Config, l: Listener, t: Target, p: Pair) {
    && FindListener(cfg.listeners, p.listener) == Some(l) && l.enabled && LegalPair(p) && HasOperation(l.trigger, p.operation)
    && ConfiguredTarget(env, db, l).refusal.None? && ConfiguredTarget(env, db, l).target == Some(t)
  }

  // ----- the guard of the branches that install nothing ---------------------------------------------

  function Observation(s: PairSources): Definition
    requires s.ObservedComplete()
  {
    Definition(s.observed.trigger.value.definition, s.observed.code.value.definition)
  }

  /** What stands is kept: the pair is recorded, both its objects are there, the relation is no recreated
      one, and either it was renamed or neither the specification nor the fingerprint changed. */
  predicate Keeps(env: Env, s: PairSources) {
    && s.recorded.trigger.Some? && s.ObservedComplete() && s.target.outcome != DroppedAndRecreated
    && (s.target.outcome == Renamed
        || (!s.desired.specificationChanged && Digest(env, Observation(s)) == s.recorded.trigger.value.ddlHash))
  }

  /** What is kept is not what would be generated now: of a renamed relation its reading says so, else the
      recorded fingerprint. */
  predicate Outdated(env: Env, s: PairSources, now: Definition)
    requires Keeps(env, s)
  {
    if s.target.outcome == Renamed then Observation(s) != now else Digest(env, now) != s.recorded.trigger.value.ddlHash
  }

  ghost predicate NoCollisions(env: Env) {
    forall d, e :: Digest(env, d) == Digest(env, e) ==> d == e
  }

  predicate Rebuilds(actions: seq<Action>, p: Pair) {
    exists a :: a in actions && a.pair == p && (a.kind == Create || a.kind == Replace)
  }

  lemma WantedIsExamined(env: Env, db: Database, cfg: Config, actions: seq<Action>, l: Listener, t: Target, p: Pair)
    requires cfg.Legal() && RecordedNames(env, db) && Decides(env, db, cfg, actions) && Wanted(env, db, cfg, l, t, p)
    ensures Generates(env, db, Some(l), p.operation) && Examines(env, db, cfg, p)
    ensures !ClassifyPair(env, Source(env, db, cfg, p)).Refuse? && TargetOf(env, db, cfg.listeners, p.listener) == ConfiguredTarget(env, db, l)
  {
    assert Examines(env, db, cfg, p);
    assert !PlanClassifier(env, db, cfg)(p).Refuse?;
  }

  /** A wanted pair is kept by the empty answer and by a rename, and created or replaced by any other. */
  lemma WantedClass(env: Env, db: Database, cfg: Config, actions: seq<Action>, l: Listener, t: Target, p: Pair)
    requires cfg.Legal() && RecordedNames(env, db) && Decides(env, db, cfg, actions) && Wanted(env, db, cfg, l, t, p)
    ensures var c, s := ClassifyPair(env, Source(env, db, cfg, p)), Source(env, db, cfg, p);
            if Keeps(env, s) then (if s.target.outcome == Renamed then c.Act? && c.action.kind == Rename else c.Nothing?)
            else c.Act? && (c.action.kind == Create || c.action.kind == Replace)
  {
    WantedIsExamined(env, db, cfg, actions, l, t, p);
    SourceIs(env, db, cfg, p);
  }

  /** A plan creates or replaces a wanted pair exactly when the guard does not keep it. */
  lemma RebuiltIff(env: Env, db: Database, cfg: Config, actions: seq<Action>, l: Listener, t: Target, p: Pair)
    requires cfg.Legal() && RecordedNames(env, db) && Decides(env, db, cfg, actions) && Wanted(env, db, cfg, l, t, p)
    ensures Rebuilds(actions, p) <==> !Keeps(env, Source(env, db, cfg, p))
    ensures (exists a :: a in actions && a.pair == p && a.kind == Rename)
            <==> Keeps(env, Source(env, db, cfg, p)) && Source(env, db, cfg, p).target.outcome == Renamed
  {
    WantedIsExamined(env, db, cfg, actions, l, t, p);
    WantedClass(env, db, cfg, actions, l, t, p);
    forall a | a in actions && a.pair == p ensures ClassifyPair(env, Source(env, db, cfg, p)) == Act(a) {
      ActionFacts(env, db, cfg, actions, a);
    }
    if ClassifyPair(env, Source(env, db, cfg, p)).Act? {
      ActionOfPair(env, db, cfg, actions, p, ClassifyPair(env, Source(env, db, cfg, p)).action);
    }
  }

  // ----- what a run leaves installed ----------------------------------------------------------------

  /** What stands of a pair that was read completely and not refused is what was observed. */
  lemma ObservedIsInstalled(env: Env, db: Database, cfg: Config, actions: seq<Action>, l: Listener, t: Target, p: Pair)
    requires cfg.Legal() && Managed(env, cfg.instance, db) && Decides(env, db, cfg, actions) && Wanted(env, db, cfg, l, t, p)
    requires Source(env, db, cfg, p).ObservedComplete()
    ensures Installed(env, cfg.instance, db, t.oid, p) == Some(Observation(Source(env, db, cfg, p)))
  {
    WantedIsExamined(env, db, cfg, actions, l, t, p);
    SourceIs(env, db, cfg, p);
    ObservedIsRead(env, db, cfg, t, p);
    NotRefusedIsOwned(env, Source(env, db, cfg, p), p);
  }

  lemma KeptStaysInstalled(env: Env, db: Database, cfg: Config, actions: seq<Action>, objects: seq<ApplyObject>, steps: seq<Step>, db': Database,
                           l: Listener, t: Target, p: Pair)
    requires Commits(env, db, cfg, actions, objects, steps, db') && Wanted(env, db, cfg, l, t, p) && Keeps(env, Source(env, db, cfg, p))
    ensures Installed(env, cfg.instance, db', t.oid, p) == Some(Observation(Source(env, db, cfg, p)))
  {
    WantedIsExamined(env, db, cfg, actions, l, t, p);
    WantedClass(env, db, cfg, actions, l, t, p);
    KeptIsSkipped(env, db, cfg, actions, p);
    UnplannedReadsTheSame(env, db, cfg, actions, objects, steps, db', p, t.oid);
    ObservedIsInstalled(env, db, cfg, actions, l, t, p);
  }

  lemma StandingIsInstalled(env: Env, instance: string, db: Database, l: Listener, t: Target, p: Pair)
    requires KnownOperation(p.operation) && Standing(env, instance, db, l, t, p) && t.oid in db.tables && db.tables[t.oid] == t.table
    ensures Installed(env, instance, db, t.oid, p) == Some(GeneratedNow(env, instance, l, t, p))
  {}

  lemma RebuiltIsInstalled(env: Env, db: Database, cfg: Config, actions: seq<Action>, objects: seq<ApplyObject>, steps: seq<Step>, db': Database,
                           l: Listener, t: Target, p: Pair)
    requires Commits(env, db, cfg, actions, objects, steps, db') && Wanted(env, db, cfg, l, t, p) && Rebuilds(actions, p)
    ensures Installed(env, cfg.instance, db', t.oid, p) == Some(GeneratedNow(env, cfg.instance, l, t, p))
  {
    var a :| a in actions && a.pair == p && (a.kind == Create || a.kind == Replace);
    var l', t' := CreatedIsInstalled(env, db, cfg, actions, objects, steps, a);
    RunKeepsTables(env, db, cfg, actions, objects, steps);
    TargetExists(env, db, cfg.listeners, p.listener);
    StandingIsInstalled(env, cfg.instance, RunSteps(db, steps).value, l, t, p);
    CatalogReadsTheSame(env, RunSteps(db, steps).value, db', t.oid, NameOf(p, env.hashed));
  }

  lemma CommittedIsInstalled(env: Env, db: Database, cfg: Config, actions: seq<Action>, objects: seq<ApplyObject>, steps: seq<Step>, db': Database,
                             l: Listener, t: Target, p: Pair)
    requires Commits(env, db, cfg, actions, objects, steps, db') && Wanted(env, db, cfg, l, t, p)
    ensures var s := Source(env, db, cfg, p);
            Installed(env, cfg.instance, db', t.oid, p)
            == Some(if Keeps(env, s) then Observation(s) else GeneratedNow(env, cfg.instance, l, t, p))
  {
    RebuiltIff(env, db, cfg, actions, l, t, p);
    if Keeps(env, Source(env, db, cfg, p)) {
      KeptStaysInstalled(env, db, cfg, actions, objects, steps, db', l, t, p);
    } else {
      RebuiltIsInstalled(env, db, cfg, actions, objects, steps, db', l, t, p);
    }
  }

  /** What a run leaves installed of a wanted pair: what was observed where the guard keeps it, and else what
      is generated now. */
  lemma InstalledAfterARun(env: Env, db: Database, cfg: Config, plan: PlanResult, db': Database, l: Listener, t: Target, p: Pair)
    requires Ran(env, db, cfg, plan, db') && Wanted(env, db, cfg, l, t, p)
    ensures var s := Source(env, db, cfg, p);
            Installed(env, cfg.instance, db', t.oid, p)
            == Some(if Keeps(env, s) then Observation(s) else GeneratedNow(env, cfg.instance, l, t, p))
  {
    var objects, steps := RanCommits(env, db, cfg, plan, db');
    CommittedIsInstalled(env, db, cfg, plan.actions, objects, steps, db', l, t, p);
  }

  /** After a run the installed definition of a wanted pair is the one generated from the desired
      specification for the relation as it is, exactly when the guard did not keep an outdated one. */
  lemma InstalledIsDesiredIff(env: Env, db: Database, cfg: Config, plan: PlanResult, db': Database, l: Listener, t: Target, p: Pair)
    requires Ran(env, db, cfg, plan, db') && Wanted(env, db, cfg, l, t, p) && NoCollisions(env)
    ensures var s, now := Source(env, db, cfg, p), GeneratedNow(env, cfg.instance, l, t, p);
            Installed(env, cfg.instance, db', t.oid, p) == Some(now) <==> !(Keeps(env, s) && Outdated(env, s, now))
  {
    InstalledAfterARun(env, db, cfg, plan, db', l, t, p);
    var s, now := Source(env, db, cfg, p), GeneratedNow(env, cfg.instance, l, t, p);
    if Keeps(env, s) && s.target.outcome != Renamed {
      assert Digest(env, now) == Digest(env, Observation(s)) ==> now == Observation(s);
    }
  }

  /** A wanted pair that is kept outdated stays so: planning again with the same configuration finds nothing
      to do. */
  lemma AnOutdatedPairIsNotRepaired(env: Env, db: Database, cfg: Config, plan: PlanResult, db': Database, l: Listener, t: Target, p: Pair)
    requires Ran(env, db, cfg, plan, db') && Wanted(env, db, cfg, l, t, p) && AllSettled(env, db, cfg, plan.actions)
    requires Keeps(env, Source(env, db, cfg, p))
    requires Outdated(env, Source(env, db, cfg, p), GeneratedNow(env, cfg.instance, l, t, p))
    ensures PlansNothing(env, db', cfg) && Installed(env, cfg.instance, db', t.oid, p) != Some(GeneratedNow(env, cfg.instance, l, t, p))
  {
    InstalledAfterARun(env, db, cfg, plan, db', l, t, p);
    Convergence(env, db, cfg, plan, db');
  }
}
