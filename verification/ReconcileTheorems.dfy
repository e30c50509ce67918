/** What reconciliation promises of every database and every legal configuration. */
module ReconcileTheorems {
  import opened Options
  import opened ReconcileNames
  import opened ReconcileModel
  import opened ReconcileDiff
  import opened ReconcileRead
  import opened ReconcileStatements
  import opened ReconcileApply
  import opened ReconcileEffects
  import opened ReconcileConvergence

  // ----- convergence -------------------------------------------------------------------------------

  /** Of every configured listener with an action: its configured table, where that name resolves, is
      the relation the plan chose for it. */
  ghost predicate AllSettled(env: Env, db: Database, cfg: Config, actions: seq<Action>) {
    forall l :: l in cfg.listeners && Acts(actions, l.name) && ConfiguredTarget(env, db, l).target.Some? ==>
      Settles(env, db, l, ConfiguredTarget(env, db, l).target.value)
  }

  lemma {:induction false} OnlyOneOfAName(listeners: seq<Listener>, l: Listener)
    requires (forall i, j :: 0 <= i < j < |listeners| ==> listeners[i].name != listeners[j].name) && l in listeners
    ensures FindListener(listeners, l.name) == Some(l)
    decreases |listeners|
  {
    var front, last := listeners[..|listeners| - 1], listeners[|listeners| - 1];
    assert listeners == front + [last];
    if l != last {
      OnlyOneOfAName(front, l);
    }
  }

  lemma SettledPlanIsQuiet(env: Env, db: Database, cfg: Config, actions: seq<Action>, objects: seq<ApplyObject>, steps: seq<Step>,
                           db': Database, q: Pair)
    requires Commits(env, db, cfg, actions, objects, steps, db') && AllSettled(env, db, cfg, actions) && Examines(env, db', cfg, q)
    ensures ClassifyPair(env, Source(env, db', cfg, q)) == Nothing
  {
    if !Acts(actions, q.listener) {
      QuietListenerStaysQuiet(env, db, cfg, actions, objects, steps, db', q);
    } else if FindListener(cfg.listeners, q.listener).None? {
      RemovedListenerIsGone(env, db, cfg, actions, objects, steps, db', q);
    } else {
      var l, t := ActingEntry(env, db, cfg, actions, objects, steps, db', q.listener);
      FoundIsOneOf(cfg.listeners, q.listener);
      ActingPairIsNothing(env, db, cfg, actions, objects, steps, db', l, t, q);
    }
  }

  /** A listener whose configured table resolves elsewhere is examined by the next plan, and refused. */
  lemma UnsettledIsRefused(env: Env, db: Database, cfg: Config, actions: seq<Action>, objects: seq<ApplyObject>, steps: seq<Step>,
                           db': Database, l: Listener) returns (q: Pair)
    requires Commits(env, db, cfg, actions, objects, steps, db') && l in cfg.listeners && Acts(actions, l.name)
    requires ConfiguredTarget(env, db, l).target.Some? && !Settles(env, db, l, ConfiguredTarget(env, db, l).target.value)
    ensures Examines(env, db', cfg, q) && ClassifyPair(env, Source(env, db', cfg, q)).Refuse?
  {
    OnlyOneOfAName(cfg.listeners, l);
    var l', t := ActingEntry(env, db, cfg, actions, objects, steps, db', l.name);
    RewrittenResolves(env, db, cfg, RunSteps(db, steps).value, db', l, t);
    q := SomeRecordedPair(env, db', cfg, l.name);
    assert Source(env, db', cfg, q).target == TargetOf(env, db', cfg.listeners, l.name);
  }

  /** A recorded listener always stands in the join. */
  lemma SomeRecordedPair(env: Env, db: Database, cfg: Config, name: string) returns (q: Pair)
    requires name in db.listeners
    ensures q.listener == name && Examines(env, db, cfg, q)
  {
    if HasRows(db, name) {
      q :| q in db.rows && q.listener == name;
    } else {
      q := Pair(name, "");
    }
  }

  /** One committed run: the plan it ran, and the database after it. */
  ghost predicate Ran(env: Env, db: Database, cfg: Config, plan: PlanResult, db': Database) {
    && cfg.Legal() && Managed(env, cfg.instance, db)
    && IsPlanFor(env, db, cfg, plan) && plan.refusals == []
    && if plan.actions == [] then db' == db else Applied(env, db, cfg, plan.actions, db')
  }

  /** A run without an action is the empty commit. */
  lemma RanCommits(env: Env, db: Database, cfg: Config, plan: PlanResult, db': Database)
    returns (objects: seq<ApplyObject>, steps: seq<Step>)
    requires Ran(env, db, cfg, plan, db')
    ensures Commits(env, db, cfg, plan.actions, objects, steps, db')
  {
    PlanDecides(env, db, cfg, plan);
    if plan.actions == [] {
      objects, steps := [], [];
      NothingCommits(env, db, cfg);
    } else {
      objects, steps :| Committed(env, db, cfg, plan.actions, objects, steps, db');
    }
  }

  lemma NothingCommits(env: Env, db: Database, cfg: Config)
    ensures Committed(env, db, cfg, [], [], [], db)
  {
    assert IsTableOrder([], []) && StepsOver([], []) == [];
    forall name ensures SyncedListener(env, db, cfg, [], name, db) {
      assert !Acts([], name);
    }
  }

  lemma QuietPlanIsClean(env: Env, db: Database, cfg: Config, plan: PlanResult)
    requires cfg.Legal() && RecordedNames(env, db) && IsPlanFor(env, db, cfg, plan)
    requires forall q :: Examines(env, db, cfg, q) ==> ClassifyPair(env, Source(env, db, cfg, q)) == Nothing
    ensures plan.refusals == [] && plan.actions == [] && plan.verdict == Clean
  {
    var f, pairs := PlanClassifier(env, db, cfg), PairsOf(env, db, cfg);
    forall q | q in pairs ensures f(q) == Nothing {
      PairsOfAre(env, db, cfg, q);
    }
    PlanFacts(f, pairs, plan);
    NothingPlansNothing(f, pairs, plan.actions);
  }

  lemma NothingPlansNothing(f: Classifier, pairs: set<Pair>, actions: seq<Action>)
    requires forall q :: q in pairs ==> f(q) == Nothing
    requires forall a :: a in actions ==> a.pair in pairs && f(a.pair) == Act(a)
    ensures actions == []
  {
    forall a: Action ensures a !in actions {}
    NoMemberIsEmpty(actions);
  }

  lemma NoMemberIsEmpty(actions: seq<Action>)
    requires forall a :: a !in actions
    ensures |actions| == 0
  {
    assert multiset(actions) == multiset{} by {
      forall a: Action ensures multiset(actions)[a] == 0 {
        assert a in multiset(actions) <==> a in actions;
      }
    }
    assert |multiset(actions)| == |actions|;
  }

  lemma RefusedPlanIsRefused(env: Env, db: Database, cfg: Config, plan: PlanResult, q: Pair)
    requires cfg.Legal() && RecordedNames(env, db) && IsPlanFor(env, db, cfg, plan)
    requires Examines(env, db, cfg, q) && ClassifyPair(env, Source(env, db, cfg, q)).Refuse?
    ensures plan.refusals != [] && plan.actions == []
  {
    var f, pairs := PlanClassifier(env, db, cfg), PairsOf(env, db, cfg);
    PairsOfAre(env, db, cfg, q);
    forall p | p in pairs && f(p).Act? ensures f(p).action.pair == p {
      PairsOfAre(env, db, cfg, p);
      ActsForItself(env, db, cfg, p);
    }
    PlanFacts(f, pairs, plan);
    assert f(q).Refuse?;
  }

  lemma SettledConverges(env: Env, db: Database, cfg: Config, actions: seq<Action>, objects: seq<ApplyObject>, steps: seq<Step>,
                         db': Database, again: PlanResult)
    requires Commits(env, db, cfg, actions, objects, steps, db') && AllSettled(env, db, cfg, actions)
    requires RecordedNames(env, db') && IsPlanFor(env, db', cfg, again)
    ensures again == PlanResult([], again.examined, [], Clean)
  {
    forall q | Examines(env, db', cfg, q) ensures ClassifyPair(env, Source(env, db', cfg, q)) == Nothing {
      SettledPlanIsQuiet(env, db, cfg, actions, objects, steps, db', q);
    }
    QuietPlanIsClean(env, db', cfg, again);
  }

  lemma UnsettledRefuses(env: Env, db: Database, cfg: Config, actions: seq<Action>, objects: seq<ApplyObject>, steps: seq<Step>,
                         db': Database, again: PlanResult)
    requires Commits(env, db, cfg, actions, objects, steps, db') && !AllSettled(env, db, cfg, actions)
    requires RecordedNames(env, db') && IsPlanFor(env, db', cfg, again)
    ensures again.refusals != [] && again.actions == []
  {
    var l :| l in cfg.listeners && Acts(actions, l.name) && ConfiguredTarget(env, db, l).target.Some?
      && !Settles(env, db, l, ConfiguredTarget(env, db, l).target.value);
    var q := UnsettledIsRefused(env, db, cfg, actions, objects, steps, db', l);
    RefusedPlanIsRefused(env, db', cfg, again, q);
  }

  /** Whatever a plan for the database answers, it is that there is nothing to do. */
  ghost predicate PlansNothing(env: Env, db: Database, cfg: Config) {
    forall again :: IsPlanFor(env, db, cfg, again) ==> again == PlanResult([], again.examined, [], Clean)
  }

  ghost predicate PlansARefusal(env: Env, db: Database, cfg: Config) {
    forall again :: IsPlanFor(env, db, cfg, again) ==> again.refusals != [] && again.actions == []
  }

  lemma CommitConverges(env: Env, db: Database, cfg: Config, actions: seq<Action>, objects: seq<ApplyObject>, steps: seq<Step>, db': Database)
    requires Commits(env, db, cfg, actions, objects, steps, db')
    ensures if AllSettled(env, db, cfg, actions) then PlansNothing(env, db', cfg) else PlansARefusal(env, db', cfg)
  {
    NamesStayGenerated(env, db, cfg, actions, objects, steps, db');
    forall again | IsPlanFor(env, db', cfg, again)
      ensures if AllSettled(env, db, cfg, actions) then again == PlanResult([], again.examined, [], Clean)
              else again.refusals != [] && again.actions == []
    {
      if AllSettled(env, db, cfg, actions) {
        SettledConverges(env, db, cfg, actions, objects, steps, db', again);
      } else {
        UnsettledRefuses(env, db, cfg, actions, objects, steps, db', again);
      }
    }
  }

  /** Convergence. For every database a run may find and every legal configuration: once a plan
      without refusals has been applied, planning again yields no action, no refusal and a clean
      verdict if and only if each configured table, where its name resolves, is the relation the
      plan chose; where one is not, planning again refuses. */
  lemma Convergence(env: Env, db: Database, cfg: Config, plan: PlanResult, db': Database)
    requires Ran(env, db, cfg, plan, db')
    ensures if AllSettled(env, db, cfg, plan.actions) then PlansNothing(env, db', cfg) else PlansARefusal(env, db', cfg)
  {
    var objects, steps := RanCommits(env, db, cfg, plan, db');
    CommitConverges(env, db, cfg, plan.actions, objects, steps, db');
  }

  /** What a run needs of the database it finds, it leaves of the database it commits. */
  lemma RunKeepsManaged(env: Env, db: Database, cfg: Config, plan: PlanResult, db': Database)
    requires Ran(env, db, cfg, plan, db')
    ensures Managed(env, cfg.instance, db')
  {
    var objects, steps := RanCommits(env, db, cfg, plan, db');
    ApplyKeepsManaged(env, db, cfg, plan.actions, objects, steps, db');
  }

  // ----- what is installed -------------------------------------------------------------------------

  /** After a create or a replace the installed trigger and function are the generated ones. */
  lemma InstalledIsDesired(env: Env, db: Database, cfg: Config, plan: PlanResult, db': Database, a: Action) returns (l: Listener, t: Target)
    requires Ran(env, db, cfg, plan, db') && a in plan.actions && (a.kind == Create || a.kind == Replace)
    ensures FindListener(cfg.listeners, a.pair.listener) == Some(l) && ConfiguredTarget(env, db, l).target == Some(t)
    ensures KnownOperation(a.pair.operation) && Standing(env, cfg.instance, db', l, t, a.pair)
  {
    var objects, steps := RanCommits(env, db, cfg, plan, db');
    l, t := CreatedIsInstalled(env, db, cfg, plan.actions, objects, steps, a);
  }

  /** A rename leaves the installed trigger and function as they were, while the registry records the
      desired specification: where that one changed in the same run, what is installed is still the
      definition of the old one. */
  lemma RenameKeepsTheDefinition(env: Env, db: Database, cfg: Config, plan: PlanResult, db': Database, a: Action) returns (l: Listener, t: Target)
    requires Ran(env, db, cfg, plan, db') && a in plan.actions && a.kind == Rename
    ensures FindListener(cfg.listeners, a.pair.listener) == Some(l) && ConfiguredTarget(env, db, l).target == Some(t)
    ensures LegalPair(a.pair) && SameUnder(db, db', t.oid, NameOf(a.pair, env.hashed))
    ensures a.pair.listener in db'.listeners && db'.listeners[a.pair.listener].trigger == l.trigger
  {
    var objects, steps := RanCommits(env, db, cfg, plan, db');
    l, t := ActingEntry(env, db, cfg, plan.actions, objects, steps, db', a.pair.listener) by {
      CreateIsGenerated(env, db, cfg, plan.actions, objects, steps, a);
    }
    CreateIsGenerated(env, db, cfg, plan.actions, objects, steps, a);
    forall b | b in plan.actions && b.pair == a.pair ensures Skips(db, cfg, b) {
      SamePairIsSameAction(plan.actions, a, b);
    }
    UnplannedIsUntouched(env, db, cfg, plan.actions, objects, steps, a.pair, t.oid);
  }

  // ----- ownership ---------------------------------------------------------------------------------

  /** A trigger this service is entitled to drop: recorded for its pair, and commented with exactly
      this instance's marker for it. */
  ghost predicate IsOurs(env: Env, db: Database, instance: string, place: Place) {
    place in db.triggers && exists p :: IsOf(env, db, instance, place, p)
  }

  ghost predicate IsOf(env: Env, db: Database, instance: string, place: Place, p: Pair)
    requires place in db.triggers
  {
    && p in db.rows && LegalPair(p) && place.name == NameOf(p, env.hashed)
    && db.triggers[place].marker == Some(Marker(instance, p))
    && ParseCatalogMarker(db.triggers[place].marker) == Some(CatalogMarker(instance, p.listener, p.operation))
  }

  lemma {:induction false} OtherPlacesKeep(db: Database, steps: seq<Step>, place: Place)
    requires RunSteps(db, steps).Some? && AllScoped(steps) && place in db.triggers
    requires forall s :: s in steps ==> Place(s.item.target.oid, s.item.name) != place
    ensures place in RunSteps(db, steps).value.triggers && RunSteps(db, steps).value.triggers[place] == db.triggers[place]
    decreases |steps|
  {
    if steps != [] {
      assert steps[0] in steps;
      StepTouches(db, steps[0]);
      OtherPlacesKeep(ExecuteAll(db, steps[0].Statements()).value, steps[1..], place);
    }
  }

  /** What an apply could touch under a pair's name was that pair's own, or was not there. */
  lemma TouchedIsOurs(env: Env, db: Database, cfg: Config, actions: seq<Action>, objects: seq<ApplyObject>, steps: seq<Step>, db': Database, s: Step)
    requires Commits(env, db, cfg, actions, objects, steps, db') && s in steps
    requires Place(s.item.target.oid, s.item.name) in db.triggers
    ensures IsOurs(env, db, cfg.instance, Place(s.item.target.oid, s.item.name))
  {
    RunsAreSound(env, db, cfg, actions, objects, steps);
    var a :| a in actions && !Skips(db, cfg, a) && ObjectForAction(env, db, cfg, a) == Some(s.item);
    ObjectIsNamed(env, db, cfg, actions, a);
    ObjectTarget(env, db, cfg, a, s.item);
    PlannedIsOurs(env, db, cfg, actions, a, s.item.target);
  }

  lemma LegalMarkerParses(instance: string, p: Pair)
    requires LegalName(instance) && LegalPair(p)
    ensures ParseCatalogMarker(Some(Marker(instance, p))) == Some(CatalogMarker(instance, p.listener, p.operation))
  {
    LegalNameIsMarkerField(instance);
    LegalNameIsMarkerField(p.listener);
    MarkerRoundTrip(instance, p);
  }

  lemma PlannedIsOurs(env: Env, db: Database, cfg: Config, actions: seq<Action>, a: Action, target: Target)
    requires cfg.Legal() && Managed(env, cfg.instance, db) && Decides(env, db, cfg, actions) && a in actions && LegalPair(a.pair)
    requires TargetOf(env, db, cfg.listeners, a.pair.listener).target == Some(target)
    requires Place(target.oid, NameOf(a.pair, env.hashed)) in db.triggers
    ensures IsOurs(env, db, cfg.instance, Place(target.oid, NameOf(a.pair, env.hashed)))
  {
    ActionFacts(env, db, cfg, actions, a);
    ObservedIsOwned(env, db, cfg, actions, a.pair, target.oid);
    LegalMarkerParses(cfg.instance, a.pair);
    assert IsOf(env, db, cfg.instance, Place(target.oid, NameOf(a.pair, env.hashed)), a.pair);
  }

  lemma ObjectTarget(env: Env, db: Database, cfg: Config, a: Action, o: ApplyObject)
    requires ObjectForAction(env, db, cfg, a) == Some(o)
    ensures TargetOf(env, db, cfg.listeners, a.pair.listener).target == Some(o.target)
  {}

  /** Ownership safety: every trigger an apply drops or replaces had a registry row for its pair and a
      marker parsing to exactly this instance, that listener and that operation; every other trigger
      of the database is left as it was. */
  lemma OnlyOurTriggersChange(env: Env, db: Database, cfg: Config, plan: PlanResult, db': Database, place: Place)
    requires Ran(env, db, cfg, plan, db') && place in db.triggers
    ensures (place in db'.triggers && db'.triggers[place] == db.triggers[place]) || IsOurs(env, db, cfg.instance, place)
  {
    var objects, steps := RanCommits(env, db, cfg, plan, db');
    if exists s :: s in steps && Place(s.item.target.oid, s.item.name) == place {
      var s :| s in steps && Place(s.item.target.oid, s.item.name) == place;
      TouchedIsOurs(env, db, cfg, plan.actions, objects, steps, db', s);
    } else {
      RunsAreSound(env, db, cfg, plan.actions, objects, steps);
      OtherPlacesKeep(db, steps, place);
    }
  }
}
