/** Which functions a run may replace or drop. */
module ReconcileOwnership {
  import opened Options
  import opened ReconcileNames
  import opened ReconcileModel
  import opened ReconcileDiff
  import opened ReconcileRead
  import opened ReconcileStatements
  import opened ReconcileApply
  import opened ReconcileEffects
  import opened ReconcileConvergence
  import opened ReconcileTheorems

  /** The function is commented as one of this instance's. */
  ghost predicate MarkedOurs(db: Database, instance: string, f: string)
    requires f in db.functions
  {
    exists p :: LegalPair(p) && db.functions[f].marker == Some(Marker(instance, p))
  }

  /** The plan creates or replaces the pair the function is named for, and no trigger stands where the pair's
      own would: a function is read only through its trigger, so this one was never read. */
  ghost predicate Unread(env: Env, db: Database, cfg: Config, actions: seq<Action>, f: string) {
    exists a :: a in actions && IsUnread(env, db, cfg, a, f)
  }

  ghost predicate IsUnread(env: Env, db: Database, cfg: Config, a: Action, f: string) {
    && (a.kind == Create || a.kind == Replace) && KnownOperation(a.pair.operation) && f == NameOf(a.pair, env.hashed)
    && TargetOf(env, db, cfg.listeners, a.pair.listener).target.Some?
    && Place(TargetOf(env, db, cfg.listeners, a.pair.listener).target.value.oid, f) !in db.triggers
  }

  /** What a step touches under a function's name: one this instance owns, or one that was never read. */
  lemma TouchedFunction(env: Env, db: Database, cfg: Config, actions: seq<Action>, objects: seq<ApplyObject>, steps: seq<Step>, db': Database, s: Step)
    requires Commits(env, db, cfg, actions, objects, steps, db') && s in steps && s.item.name in db.functions
    ensures MarkedOurs(db, cfg.instance, s.item.name) || Unread(env, db, cfg, actions, s.item.name)
  {
    RunsAreSound(env, db, cfg, actions, objects, steps);
    var a :| a in actions && !Skips(db, cfg, a) && ObjectForAction(env, db, cfg, a) == Some(s.item);
    ObjectIsNamed(env, db, cfg, actions, a);
    ObjectTarget(env, db, cfg, a, s.item);
    TargetExists(env, db, cfg.listeners, a.pair.listener);
    if Place(s.item.target.oid, s.item.name) in db.triggers {
      ActionFacts(env, db, cfg, actions, a);
      ObservedIsOwned(env, db, cfg, actions, a.pair, s.item.target.oid);
    } else {
      UndroppedIsCreated(env, db, cfg, a, s);
      assert IsUnread(env, db, cfg, a, s.item.name);
    }
  }

  lemma UndroppedIsCreated(env: Env, db: Database, cfg: Config, a: Action, s: Step)
    requires ObjectForAction(env, db, cfg, a) == Some(s.item) && (if s.creating then s.item.creates != [] else s.item.drop)
    requires Place(s.item.target.oid, s.item.name) !in db.triggers
    ensures a.kind == Create || a.kind == Replace
  {}

  /** A function that was never read is replaced, whoever it belongs to. */
  lemma UnreadIsReplaced(env: Env, db: Database, cfg: Config, plan: PlanResult, db': Database, f: string)
    requires Ran(env, db, cfg, plan, db') && Unread(env, db, cfg, plan.actions, f)
    ensures f in db'.functions && MarkedOurs(db', cfg.instance, f)
  {
    var objects, steps := RanCommits(env, db, cfg, plan, db');
    var a :| a in plan.actions && IsUnread(env, db, cfg, a, f);
    var l, t := CreatedIsInstalled(env, db, cfg, plan.actions, objects, steps, a);
    assert RunSteps(db, steps).value.functions[f].marker == Some(Marker(cfg.instance, a.pair));
  }

  lemma UnreadOrOurs(env: Env, db: Database, cfg: Config, plan: PlanResult, db': Database, f: string)
    requires Ran(env, db, cfg, plan, db') && f in db.functions
    ensures || (f in db'.functions && db'.functions[f] == db.functions[f])
            || MarkedOurs(db, cfg.instance, f) || Unread(env, db, cfg, plan.actions, f)
  {
    var objects, steps := RanCommits(env, db, cfg, plan, db');
    if exists s :: s in steps && s.item.name == f {
      var s :| s in steps && s.item.name == f;
      TouchedFunction(env, db, cfg, plan.actions, objects, steps, db', s);
    } else {
      RunsAreSound(env, db, cfg, plan.actions, objects, steps);
      OtherStepsKeep(db, steps, 0, f);
    }
  }

  /** Ownership of functions. One that is not commented as this instance's is left as it was if and only if
      the plan does not create or replace a pair of its name where that pair's trigger is missing. */
  lemma ForeignFunctionIsKeptIff(env: Env, db: Database, cfg: Config, plan: PlanResult, db': Database, f: string)
    requires Ran(env, db, cfg, plan, db') && f in db.functions && !MarkedOurs(db, cfg.instance, f)
    ensures (f in db'.functions && db'.functions[f] == db.functions[f]) <==> !Unread(env, db, cfg, plan.actions, f)
  {
    UnreadOrOurs(env, db, cfg, plan, db', f);
    if Unread(env, db, cfg, plan.actions, f) {
      UnreadIsReplaced(env, db, cfg, plan, db', f);
    }
  }
}
