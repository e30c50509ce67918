/** What an apply does to the objects of each pair it examines. */
module ReconcileEffects {
  import opened Options
  import opened TextOrder
  import opened Sorting
  import opened ReconcileNames
  import opened ReconcileModel
  import opened ReconcileDiff
  import opened ReconcileRead
  import opened ReconcileStatements
  import opened ReconcileApply

  // ----- the state a run starts from ---------------------------------------------------------------

  /** The registry names the objects the generator names: it only ever recorded those. */
  ghost predicate RecordedNames(env: Env, db: Database) {
    && (forall n :: n in db.listeners ==> LegalName(n))
    && forall p :: p in db.rows ==> LegalPair(p) && db.rows[p].triggerName == NameOf(p, env.hashed)
                                    && db.rows[p].functionName == NameOf(p, env.hashed)
  }

  /** A function carrying this instance's marker for a pair is that pair's function: nobody moved a
      comment from one function to another. */
  ghost predicate MarkersInPlace(env: Env, instance: string, db: Database) {
    forall f, p :: f in db.functions && LegalPair(p) && db.functions[f].marker == Some(Marker(instance, p)) ==> f == NameOf(p, env.hashed)
  }

  ghost predicate Managed(env: Env, instance: string, db: Database) {
    Consistent(env, db) && RecordedNames(env, db) && MarkersInPlace(env, instance, db)
  }

  // ----- what the plan says of one pair ------------------------------------------------------------

  predicate IsOneOf(actions: seq<Action>, a: Action) {
    a in actions
  }

  lemma ActionFacts(env: Env, db: Database, cfg: Config, actions: seq<Action>, a: Action)
    requires Decides(env, db, cfg, actions) && a in actions
    ensures Examines(env, db, cfg, a.pair) && ClassifyPair(env, Source(env, db, cfg, a.pair)) == Act(a)
  {
    assert IsOneOf(actions, a);
  }

  /** The plan in terms of pairs: nothing refused, and an action exactly where one was classified. */
  ghost predicate Decides(env: Env, db: Database, cfg: Config, actions: seq<Action>) {
    && (forall p {:trigger PlanClassifier(env, db, cfg)(p)} :: Examines(env, db, cfg, p) ==> !PlanClassifier(env, db, cfg)(p).Refuse?)
    && (forall a {:trigger IsOneOf(actions, a)} ::
          IsOneOf(actions, a) <==> Examines(env, db, cfg, a.pair) && PlanClassifier(env, db, cfg)(a.pair) == Act(a))
    && forall i, j :: 0 <= i < j < |actions| ==> actions[i].pair != actions[j].pair
  }

  lemma PlanDecides(env: Env, db: Database, cfg: Config, plan: PlanResult)
    requires cfg.Legal() && RecordedNames(env, db) && IsPlanFor(env, db, cfg, plan) && plan.refusals == []
    ensures Decides(env, db, cfg, plan.actions)
    ensures plan.verdict == if plan.actions == [] then Clean else ChangesPending
  {
    var pairs := PairsOf(env, db, cfg);
    forall p | p in pairs && PlanClassifier(env, db, cfg)(p).Act? ensures PlanClassifier(env, db, cfg)(p).action.pair == p {
      PairsOfAre(env, db, cfg, p);
      ActsForItself(env, db, cfg, p);
    }
    PlanFacts(PlanClassifier(env, db, cfg), pairs, plan);
    DistinctPairs(plan.actions);
    FactsDecide(env, db, cfg, pairs, plan.actions);
  }

  lemma DistinctPairs(actions: seq<Action>)
    requires StrictlySorted(actions, ByPair)
    ensures forall i, j :: 0 <= i < j < |actions| ==> actions[i].pair != actions[j].pair
  {
    PairLessIsOrder();
    forall i, j | 0 <= i < j < |actions| ensures actions[i].pair != actions[j].pair {
      assert ByPair(actions[i], actions[j]);
    }
  }

  lemma FactsDecide(env: Env, db: Database, cfg: Config, pairs: set<Pair>, actions: seq<Action>)
    requires pairs == PairsOf(env, db, cfg)
    requires forall p :: p in pairs ==> !PlanClassifier(env, db, cfg)(p).Refuse?
    requires forall a :: a in actions <==> a.pair in pairs && PlanClassifier(env, db, cfg)(a.pair) == Act(a)
    requires forall i, j :: 0 <= i < j < |actions| ==> actions[i].pair != actions[j].pair
    ensures Decides(env, db, cfg, actions)
  {
    forall p | Examines(env, db, cfg, p) ensures p in pairs {
      PairsOfAre(env, db, cfg, p);
    }
    forall a ensures IsOneOf(actions, a) <==> Examines(env, db, cfg, a.pair) && PlanClassifier(env, db, cfg)(a.pair) == Act(a) {
      PairsOfAre(env, db, cfg, a.pair);
    }
  }

  lemma ActsForItself(env: Env, db: Database, cfg: Config, p: Pair)
    requires cfg.Legal() && RecordedNames(env, db) && Examines(env, db, cfg, p) && ClassifyPair(env, Source(env, db, cfg, p)).Act?
    ensures ClassifyPair(env, Source(env, db, cfg, p)).action.pair == p
  {
    ActIsForActionPair(env, Source(env, db, cfg, p));
    ExaminedIsNamed(env, db, cfg, p);
    SourcePair(env, db, cfg, p);
  }

  lemma ExaminedIsNamed(env: Env, db: Database, cfg: Config, p: Pair)
    requires cfg.Legal() && RecordedNames(env, db) && Examines(env, db, cfg, p)
    ensures LegalName(p.listener)
    ensures !StandsAlone(db, p) ==> LegalPair(p)
    ensures p in db.rows || StandsAlone(db, p) || Generates(env, db, FindListener(cfg.listeners, p.listener), p.operation)
  {
    FoundIsOneOf(cfg.listeners, p.listener);
  }

  /** Some source names the pair it is classified under. */
  lemma SourcePair(env: Env, db: Database, cfg: Config, p: Pair)
    requires Examines(env, db, cfg, p) && p.listener != ""
    ensures Source(env, db, cfg, p).ActionPair() == p
  {}

  /** The two sides a classification reads of a pair with a name: its row and its catalog objects. */
  lemma SourceIs(env: Env, db: Database, cfg: Config, p: Pair)
    requires cfg.Legal() && RecordedNames(env, db) && Examines(env, db, cfg, p) && LegalPair(p)
    ensures var s := Source(env, db, cfg, p);
            && s.target == TargetOf(env, db, cfg.listeners, p.listener) && s.instance == cfg.instance
            && s.observed == ReadObservedPair(env, db, s.target, p, GeneratedNames(env, p))
            && s.recorded == (if p in db.rows && p.listener in db.listeners then Recorded(p, Some(db.listeners[p.listener]), Some(db.rows[p])) else NOT_RECORDED)
            && s.desired.listenerPresent == FindListener(cfg.listeners, p.listener).Some?
            && s.desired.operationPresent == Generates(env, db, FindListener(cfg.listeners, p.listener), p.operation)
            && (s.desired.listenerPresent ==> s.desired.enabled == FindListener(cfg.listeners, p.listener).value.enabled)
  {
    assert p.operation != "";
    ExaminedIsNamed(env, db, cfg, p);
  }

  lemma TargetIsNotRefused(env: Env, db: Database, cfg: Config, actions: seq<Action>, p: Pair)
    requires cfg.Legal() && RecordedNames(env, db) && Decides(env, db, cfg, actions) && Examines(env, db, cfg, p)
    ensures TargetOf(env, db, cfg.listeners, p.listener).refusal.None?
  {
    assert !PlanClassifier(env, db, cfg)(p).Refuse?;
    assert Source(env, db, cfg, p).target == TargetOf(env, db, cfg.listeners, p.listener);
  }

  // ----- the objects of a plan ---------------------------------------------------------------------

  /** What an action that is not skipped drops and creates is under its own pair's name. */
  lemma ObjectIsNamed(env: Env, db: Database, cfg: Config, actions: seq<Action>, a: Action)
    requires cfg.Legal() && RecordedNames(env, db) && Decides(env, db, cfg, actions) && a in actions && !Skips(db, cfg, a)
    requires ObjectForAction(env, db, cfg, a).Some?
    ensures LegalPair(a.pair) && ObjectForAction(env, db, cfg, a).value.name == NameOf(a.pair, env.hashed)
    ensures a.kind == Drop ==> a.pair in db.rows
    ensures a.kind != Drop ==> Generates(env, db, FindListener(cfg.listeners, a.pair.listener), a.pair.operation)
  {
    var p := a.pair;
    ActionFacts(env, db, cfg, actions, a);
    ExaminedIsNamed(env, db, cfg, p);
    ActKinds(env, db, cfg, p, a);
  }

  /** A drop is of a recorded pair, or of a recorded listener that stands alone; everything else is of
      a pair the generator yields. */
  lemma ActKinds(env: Env, db: Database, cfg: Config, p: Pair, a: Action)
    requires cfg.Legal() && RecordedNames(env, db) && Examines(env, db, cfg, p) && ClassifyPair(env, Source(env, db, cfg, p)) == Act(a)
    ensures a.kind == Drop ==> p in db.rows || (StandsAlone(db, p) && FindListener(cfg.listeners, p.listener).None?)
    ensures a.kind != Drop ==> Generates(env, db, FindListener(cfg.listeners, p.listener), p.operation)
  {
    ExaminedIsNamed(env, db, cfg, p);
    if StandsAlone(db, p) {
      AloneIsBare(env, db, cfg, p);
    } else {
      SourceIs(env, db, cfg, p);
    }
  }

  lemma AloneIsBare(env: Env, db: Database, cfg: Config, p: Pair)
    requires StandsAlone(db, p)
    ensures var s := Source(env, db, cfg, p);
            && s.recorded.trigger.None? && !s.ObservedAny() && !s.desired.operationPresent && p !in db.rows
            && s.desired.listenerPresent == FindListener(cfg.listeners, p.listener).Some?
  {
    assert p in db.rows ==> HasRows(db, p.listener);
    assert !KnownOperation("");
  }

  // ----- the list of objects -----------------------------------------------------------------------

  ghost predicate FromActions(env: Env, db: Database, cfg: Config, actions: seq<Action>, objects: seq<ApplyObject>) {
    && (forall o :: o in objects ==> exists a :: a in actions && !Skips(db, cfg, a) && ObjectForAction(env, db, cfg, a) == Some(o))
    && forall a :: a in actions && !Skips(db, cfg, a) ==>
         ObjectForAction(env, db, cfg, a).Some? && ObjectForAction(env, db, cfg, a).value in objects
  }

  lemma {:induction false} ObjectsAreFromActions(env: Env, db: Database, cfg: Config, actions: seq<Action>)
    requires ObjectsOf(env, db, cfg, actions).Some?
    ensures FromActions(env, db, cfg, actions, ObjectsOf(env, db, cfg, actions).value)
    decreases |actions|
  {
    if actions != [] {
      var front, last := actions[..|actions| - 1], actions[|actions| - 1];
      assert actions == front + [last];
      ObjectsAreFromActions(env, db, cfg, front);
      var before, after := ObjectsOf(env, db, cfg, front).value, ObjectsOf(env, db, cfg, actions).value;
      forall o | o in after ensures exists a :: a in actions && !Skips(db, cfg, a) && ObjectForAction(env, db, cfg, a) == Some(o) {
        if o in before {
          var a :| a in front && !Skips(db, cfg, a) && ObjectForAction(env, db, cfg, a) == Some(o);
          assert a in actions;
        } else {
          assert last in actions;
        }
      }
    }
  }

  ghost predicate NamedApart(env: Env, db: Database, cfg: Config, actions: seq<Action>) {
    && (forall a :: a in actions && !Skips(db, cfg, a) && ObjectForAction(env, db, cfg, a).Some? ==>
          LegalPair(a.pair) && ObjectForAction(env, db, cfg, a).value.name == NameOf(a.pair, env.hashed))
    && forall i, j :: 0 <= i < j < |actions| ==> actions[i].pair != actions[j].pair
  }

  lemma DistinctMore(before: seq<ApplyObject>, item: ApplyObject)
    requires DistinctNames(before) && forall o :: o in before ==> o.name != item.name
    ensures DistinctNames(before + [item])
  {}

  lemma LastDiffers(env: Env, db: Database, cfg: Config, actions: seq<Action>, front: seq<Action>, last: Action, a: Action)
    requires NamedApart(env, db, cfg, actions) && actions == front + [last] && a in front
    requires !Skips(db, cfg, a) && !Skips(db, cfg, last) && ObjectForAction(env, db, cfg, a).Some? && ObjectForAction(env, db, cfg, last).Some?
    ensures ObjectForAction(env, db, cfg, a).value.name != ObjectForAction(env, db, cfg, last).value.name
  {
    var k :| 0 <= k < |front| && front[k] == a;
    assert actions[k] == a && actions[|front|] == last && a.pair != last.pair;
    NamesDiffer(env, db, cfg, actions, a, last);
  }

  lemma LastIsNamedApart(env: Env, db: Database, cfg: Config, actions: seq<Action>, front: seq<Action>, last: Action,
                         before: seq<ApplyObject>, item: ApplyObject)
    requires NamedApart(env, db, cfg, actions) && actions == front + [last] && FromActions(env, db, cfg, front, before)
    requires !Skips(db, cfg, last) && ObjectForAction(env, db, cfg, last) == Some(item)
    ensures forall o :: o in before ==> o.name != item.name
  {
    forall o | o in before ensures o.name != item.name {
      var a :| a in front && !Skips(db, cfg, a) && ObjectForAction(env, db, cfg, a) == Some(o);
      LastDiffers(env, db, cfg, actions, front, last, a);
    }
  }

  lemma FrontIsNamedApart(env: Env, db: Database, cfg: Config, actions: seq<Action>, front: seq<Action>, last: Action)
    requires NamedApart(env, db, cfg, actions) && actions == front + [last]
    ensures NamedApart(env, db, cfg, front)
  {
    assert forall i :: 0 <= i < |front| ==> front[i] == actions[i];
    assert forall a :: a in front ==> a in actions;
  }

  lemma OneMoreIsDistinct(env: Env, db: Database, cfg: Config, actions: seq<Action>, front: seq<Action>, last: Action)
    requires ObjectsOf(env, db, cfg, actions).Some? && NamedApart(env, db, cfg, actions)
    requires actions == front + [last] && front == actions[..|actions| - 1]
    requires ObjectsOf(env, db, cfg, front).Some? && DistinctNames(ObjectsOf(env, db, cfg, front).value)
    ensures DistinctNames(ObjectsOf(env, db, cfg, actions).value)
  {
    var before := ObjectsOf(env, db, cfg, front).value;
    if Skips(db, cfg, last) {
      assert before + [] == before;
    } else {
      var item := ObjectForAction(env, db, cfg, last).value;
      ObjectsAreFromActions(env, db, cfg, front);
      LastIsNamedApart(env, db, cfg, actions, front, last, before, item);
      DistinctMore(before, item);
    }
  }

  lemma {:induction false} ObjectsAreDistinct(env: Env, db: Database, cfg: Config, actions: seq<Action>)
    requires ObjectsOf(env, db, cfg, actions).Some? && NamedApart(env, db, cfg, actions)
    ensures DistinctNames(ObjectsOf(env, db, cfg, actions).value)
    decreases |actions|
  {
    if actions != [] {
      var front, last := actions[..|actions| - 1], actions[|actions| - 1];
      assert actions == front + [last];
      FrontIsNamedApart(env, db, cfg, actions, front, last);
      ObjectsAreDistinct(env, db, cfg, front);
      OneMoreIsDistinct(env, db, cfg, actions, front, last);
    }
  }

  lemma SamePairIsSameAction(actions: seq<Action>, a: Action, b: Action)
    requires (forall i, j :: 0 <= i < j < |actions| ==> actions[i].pair != actions[j].pair)
    requires a in actions && b in actions && a.pair == b.pair
    ensures a == b
  {
    var i :| 0 <= i < |actions| && actions[i] == a;
    var j :| 0 <= j < |actions| && actions[j] == b;
  }

  lemma NamesDiffer(env: Env, db: Database, cfg: Config, actions: seq<Action>, a: Action, b: Action)
    requires NamedApart(env, db, cfg, actions) && a in actions && b in actions && a != b
    requires !Skips(db, cfg, a) && !Skips(db, cfg, b) && ObjectForAction(env, db, cfg, a).Some? && ObjectForAction(env, db, cfg, b).Some?
    ensures ObjectForAction(env, db, cfg, a).value.name != ObjectForAction(env, db, cfg, b).value.name
  {
    if NameOf(a.pair, env.hashed) == NameOf(b.pair, env.hashed) {
      NamesAreInjective(a.pair, b.pair, env.hashed);
      SamePairIsSameAction(actions, a, b);
    }
  }

  // ----- what a committed apply does to one pair ---------------------------------------------------

  /** The setting of every lemma below. */
  ghost predicate Runs(env: Env, db: Database, cfg: Config, actions: seq<Action>, objects: seq<ApplyObject>, steps: seq<Step>) {
    && cfg.Legal() && RecordedNames(env, db) && Decides(env, db, cfg, actions)
    && ObjectsOf(env, db, cfg, actions) == Some(objects) && IsSchedule(objects, steps) && RunSteps(db, steps).Some?
  }

  ghost predicate Sound(env: Env, db: Database, cfg: Config, actions: seq<Action>, objects: seq<ApplyObject>, steps: seq<Step>) {
    && FromActions(env, db, cfg, actions, objects) && NamedApart(env, db, cfg, actions)
    && DropsFirst(steps) && (forall s :: s in steps <==> IsStepOf(s, objects)) && AllScoped(steps)
  }

  lemma RunsAreSound(env: Env, db: Database, cfg: Config, actions: seq<Action>, objects: seq<ApplyObject>, steps: seq<Step>)
    requires Runs(env, db, cfg, actions, objects, steps)
    ensures Sound(env, db, cfg, actions, objects, steps)
  {
    ObjectsAreFromActions(env, db, cfg, actions);
    ObjectsAreNamed(env, db, cfg, actions);
    ObjectsAreDistinct(env, db, cfg, actions);
    ScheduleFacts(objects, steps);
    StepsAreScoped(env, db, cfg, actions, objects, steps);
  }

  lemma ObjectsAreNamed(env: Env, db: Database, cfg: Config, actions: seq<Action>)
    requires cfg.Legal() && RecordedNames(env, db) && Decides(env, db, cfg, actions)
    ensures NamedApart(env, db, cfg, actions)
  {
    forall a | a in actions && !Skips(db, cfg, a) && ObjectForAction(env, db, cfg, a).Some?
      ensures LegalPair(a.pair) && ObjectForAction(env, db, cfg, a).value.name == NameOf(a.pair, env.hashed)
    {
      ObjectIsNamed(env, db, cfg, actions, a);
    }
  }

  lemma StepsAreScoped(env: Env, db: Database, cfg: Config, actions: seq<Action>, objects: seq<ApplyObject>, steps: seq<Step>)
    requires FromActions(env, db, cfg, actions, objects) && forall s :: s in steps <==> IsStepOf(s, objects)
    ensures AllScoped(steps)
  {
    forall s | s in steps ensures Scoped(s.item) {
      var a :| a in actions && !Skips(db, cfg, a) && ObjectForAction(env, db, cfg, a) == Some(s.item);
      ObjectIsScoped(env, db, cfg, a);
    }
  }

  lemma ObjectIsScoped(env: Env, db: Database, cfg: Config, a: Action)
    requires ObjectForAction(env, db, cfg, a).Some?
    ensures Scoped(ObjectForAction(env, db, cfg, a).value)
  {}

  /** A pair no statement is planned for keeps its trigger and its function, wherever it stands. */
  lemma UnplannedIsUntouched(env: Env, db: Database, cfg: Config, actions: seq<Action>, objects: seq<ApplyObject>, steps: seq<Step>,
                             p: Pair, oid: Oid)
    requires Runs(env, db, cfg, actions, objects, steps) && LegalPair(p)
    requires forall a :: a in actions && a.pair == p ==> Skips(db, cfg, a)
    ensures SameUnder(db, RunSteps(db, steps).value, oid, NameOf(p, env.hashed))
  {
    RunsAreSound(env, db, cfg, actions, objects, steps);
    forall s | s in steps ensures s.item.name != NameOf(p, env.hashed) {
      var a :| a in actions && !Skips(db, cfg, a) && ObjectForAction(env, db, cfg, a) == Some(s.item);
      if s.item.name == NameOf(p, env.hashed) {
        NamesAreInjective(a.pair, p, env.hashed);
      }
    }
    OtherStepsKeep(db, steps, oid, NameOf(p, env.hashed));
  }

  lemma RunKeepsTables(env: Env, db: Database, cfg: Config, actions: seq<Action>, objects: seq<ApplyObject>, steps: seq<Step>)
    requires Runs(env, db, cfg, actions, objects, steps)
    ensures var mid := RunSteps(db, steps).value;
            mid.tables == db.tables && mid.names == db.names && mid.listeners == db.listeners && mid.rows == db.rows
  {
    RunsAreSound(env, db, cfg, actions, objects, steps);
    StepsKeepRegistry(db, steps);
  }

  ghost predicate Standing(env: Env, instance: string, db: Database, l: Listener, target: Target, p: Pair)
    requires KnownOperation(p.operation)
  {
    var name := NameOf(p, env.hashed);
    && Place(target.oid, name) in db.triggers
    && db.triggers[Place(target.oid, name)] == Trigger(name, Some(Marker(instance, p)), env.triggerText(instance, l, target.table, p.operation))
    && name in db.functions
    && db.functions[name] == Function(Some(Marker(instance, p)), env.functionText(instance, l, target.table, p.operation))
  }

  /** One object's steps in a schedule. */
  ghost predicate InSchedule(steps: seq<Step>, o: ApplyObject) {
    && DropsFirst(steps) && AllScoped(steps)
    && (o.creates != [] ==> Step(o, true) in steps) && (o.drop ==> Step(o, false) in steps)
    && (o.creates == [] ==> forall t :: t in steps && t.item.name == o.name ==> t == Step(o, false))
  }

  lemma SoundIsInSchedule(env: Env, db: Database, cfg: Config, actions: seq<Action>, objects: seq<ApplyObject>, steps: seq<Step>, o: ApplyObject)
    requires Sound(env, db, cfg, actions, objects, steps) && o in objects
    ensures InSchedule(steps, o)
  {
    forall t | t in steps && t.item.name == o.name ensures t.item == o {
      OnlyItself(env, db, cfg, actions, objects, t.item, o);
    }
  }

  lemma ActionIsAStep(env: Env, db: Database, cfg: Config, actions: seq<Action>, objects: seq<ApplyObject>, steps: seq<Step>, a: Action)
    returns (o: ApplyObject)
    requires Runs(env, db, cfg, actions, objects, steps) && a in actions && !Skips(db, cfg, a)
    ensures ObjectForAction(env, db, cfg, a) == Some(o) && InSchedule(steps, o)
  {
    RunsAreSound(env, db, cfg, actions, objects, steps);
    o := ObjectForAction(env, db, cfg, a).value;
    SoundIsInSchedule(env, db, cfg, actions, objects, steps, o);
  }

  ghost predicate CreatesPair(env: Env, instance: string, l: Listener, target: Target, p: Pair, o: ApplyObject) {
    LegalPair(p) && o.target == target && o.name == NameOf(p, env.hashed) && o.creates == CreatesFor(env, instance, l, target, p)
  }

  /** What the object of a create or a replace holds. */
  lemma CreateObject(env: Env, db: Database, cfg: Config, a: Action, o: ApplyObject) returns (l: Listener, target: Target)
    requires (a.kind == Create || a.kind == Replace) && ObjectForAction(env, db, cfg, a) == Some(o)
    requires LegalPair(a.pair) && Generates(env, db, FindListener(cfg.listeners, a.pair.listener), a.pair.operation)
    ensures FindListener(cfg.listeners, a.pair.listener) == Some(l) && TargetOf(env, db, cfg.listeners, a.pair.listener).target == Some(target)
    ensures CreatesPair(env, cfg.instance, l, target, a.pair, o)
  {
    l, target := FindListener(cfg.listeners, a.pair.listener).value, TargetOf(env, db, cfg.listeners, a.pair.listener).target.value;
  }

  lemma CreatesStand(env: Env, db: Database, steps: seq<Step>, instance: string, l: Listener, target: Target, p: Pair, o: ApplyObject)
    requires RunSteps(db, steps).Some? && InSchedule(steps, o) && CreatesPair(env, instance, l, target, p, o)
    ensures Standing(env, instance, RunSteps(db, steps).value, l, target, p)
  {
    CreateStepInstalls(db, steps, o, Marker(instance, p), env.functionText(instance, l, target.table, p.operation),
                       env.triggerText(instance, l, target.table, p.operation));
  }

  /** An action that creates is planned for a legal pair the generator yields. */
  lemma CreateIsGenerated(env: Env, db: Database, cfg: Config, actions: seq<Action>, objects: seq<ApplyObject>, steps: seq<Step>, a: Action)
    requires Runs(env, db, cfg, actions, objects, steps) && a in actions && a.kind != Drop
    ensures LegalPair(a.pair) && Generates(env, db, FindListener(cfg.listeners, a.pair.listener), a.pair.operation)
  {
    ActionFacts(env, db, cfg, actions, a);
    ActKinds(env, db, cfg, a.pair, a);
    ExaminedIsNamed(env, db, cfg, a.pair);
    FoundIsOneOf(cfg.listeners, a.pair.listener);
  }

  /** After a create or a replace the installed definition is the one generated from the desired
      specification for the resolved target, with its marker, whatever stood there before. */
  lemma CreatedIsInstalled(env: Env, db: Database, cfg: Config, actions: seq<Action>, objects: seq<ApplyObject>, steps: seq<Step>, a: Action)
    returns (l: Listener, target: Target)
    requires Runs(env, db, cfg, actions, objects, steps) && a in actions && (a.kind == Create || a.kind == Replace)
    ensures FindListener(cfg.listeners, a.pair.listener) == Some(l) && TargetOf(env, db, cfg.listeners, a.pair.listener).target == Some(target)
    ensures LegalPair(a.pair) && Standing(env, cfg.instance, RunSteps(db, steps).value, l, target, a.pair)
  {
    var o := ActionIsAStep(env, db, cfg, actions, objects, steps, a);
    CreateIsGenerated(env, db, cfg, actions, objects, steps, a);
    l, target := CreateObject(env, db, cfg, a, o);
    CreatesStand(env, db, steps, cfg.instance, l, target, a.pair, o);
  }

  ghost predicate DropsPair(env: Env, db: Database, target: Target, p: Pair, o: ApplyObject) {
    LegalPair(p) && o.target == target && o.name == NameOf(p, env.hashed) && o.creates == []
    && o.drop == ReadTrigger(env, db, target.oid, o.name).Some?
  }

  lemma DropObject(env: Env, db: Database, cfg: Config, a: Action, o: ApplyObject) returns (target: Target)
    requires (a.kind == Drop || a.kind == Disable) && ObjectForAction(env, db, cfg, a) == Some(o)
    requires LegalPair(a.pair) && o.name == NameOf(a.pair, env.hashed)
    ensures TargetOf(env, db, cfg.listeners, a.pair.listener).target == Some(target) && DropsPair(env, db, target, a.pair, o)
  {
    target := TargetOf(env, db, cfg.listeners, a.pair.listener).target.value;
  }

  /** A resolved target is a relation of the catalog. */
  lemma TargetExists(env: Env, db: Database, listeners: seq<Listener>, name: string)
    requires Consistent(env, db) && TargetOf(env, db, listeners, name).target.Some?
    ensures var target := TargetOf(env, db, listeners, name).target.value;
            target.oid in db.tables && db.tables[target.oid] == target.table
  {}

  lemma DropsAreGone(env: Env, db: Database, steps: seq<Step>, target: Target, p: Pair, o: ApplyObject)
    requires RunSteps(db, steps).Some? && InSchedule(steps, o) && DropsPair(env, db, target, p, o) && target.oid in db.tables
    ensures Place(target.oid, NameOf(p, env.hashed)) !in RunSteps(db, steps).value.triggers
  {
    DropStepRemoves(db, steps, o);
  }

  /** After a drop or a disable no trigger stands under the pair's name on the resolved target. */
  lemma DroppedIsGone(env: Env, db: Database, cfg: Config, actions: seq<Action>, objects: seq<ApplyObject>, steps: seq<Step>, a: Action)
    returns (target: Target)
    requires Runs(env, db, cfg, actions, objects, steps) && Consistent(env, db)
    requires a in actions && (a.kind == Drop || a.kind == Disable) && !Skips(db, cfg, a)
    ensures TargetOf(env, db, cfg.listeners, a.pair.listener).target == Some(target) && LegalPair(a.pair)
    ensures Place(target.oid, NameOf(a.pair, env.hashed)) !in RunSteps(db, steps).value.triggers
  {
    var o := ActionIsAStep(env, db, cfg, actions, objects, steps, a);
    ObjectIsNamed(env, db, cfg, actions, a);
    target := DropObject(env, db, cfg, a, o);
    TargetExists(env, db, cfg.listeners, a.pair.listener);
    DropsAreGone(env, db, steps, target, a.pair, o);
  }

  lemma OnlyItself(env: Env, db: Database, cfg: Config, actions: seq<Action>, objects: seq<ApplyObject>, o: ApplyObject, p: ApplyObject)
    requires FromActions(env, db, cfg, actions, objects) && NamedApart(env, db, cfg, actions) && o in objects && p in objects && o.name == p.name
    ensures o == p
  {
    var a :| a in actions && !Skips(db, cfg, a) && ObjectForAction(env, db, cfg, a) == Some(o);
    var b :| b in actions && !Skips(db, cfg, b) && ObjectForAction(env, db, cfg, b) == Some(p);
    if a != b {
      NamesDiffer(env, db, cfg, actions, a, b);
    }
  }
}
