/** A plan without refusals commits exactly when no trigger but its own executes a function it drops. */
module ReconcileCommit {
  import opened Options
  import opened TextOrder
  import opened Sorting
  import opened ReconcileNames
  import opened ReconcileModel
  import opened ReconcileDiff
  import opened ReconcileRead
  import opened ReconcileStatements
  import opened ReconcileApply
  import opened ReconcileEffects
  import opened ReconcileConvergence
  import opened ReconcileTheorems
  import opened ReconcileSchedule

  /** What a plan without refusals is planned over. */
  ghost predicate Planning(env: Env, db: Database, cfg: Config, actions: seq<Action>) {
    cfg.Legal() && Managed(env, cfg.instance, db) && Decides(env, db, cfg, actions)
  }

  // ----- the objects -------------------------------------------------------------------------------

  lemma ActionHasTarget(env: Env, db: Database, cfg: Config, actions: seq<Action>, a: Action) returns (t: Target)
    requires Planning(env, db, cfg, actions) && a in actions
    ensures TargetOf(env, db, cfg.listeners, a.pair.listener).refusal.None?
    ensures TargetOf(env, db, cfg.listeners, a.pair.listener).target == Some(t) && t.oid in db.tables && db.tables[t.oid] == t.table
  {
    var name := a.pair.listener;
    ActionFacts(env, db, cfg, actions, a);
    TargetIsNotRefused(env, db, cfg, actions, a.pair);
    FoundIsOneOf(cfg.listeners, name);
    var l := FindListener(cfg.listeners, name);
    if l.Some? {
      ResolvedHasTarget(env, db, name, l.value.trigger.table, RecordedOf(db, name));
    } else {
      ResolvedHasTarget(env, db, name, db.listeners[name].targetTable, RecordedOf(db, name));
    }
    TargetExists(env, db, cfg.listeners, name);
    t := TargetOf(env, db, cfg.listeners, name).target.value;
  }

  lemma {:induction false} ObjectsAreFound(env: Env, db: Database, cfg: Config, actions: seq<Action>, some: seq<Action>)
    requires Planning(env, db, cfg, actions) && forall a :: a in some ==> a in actions
    ensures ObjectsOf(env, db, cfg, some).Some?
    decreases |some|
  {
    if some != [] {
      ObjectsAreFound(env, db, cfg, actions, some[..|some| - 1]);
      var t := ActionHasTarget(env, db, cfg, actions, some[|some| - 1]);
    }
  }

  lemma CompleteIsNotCreated(env: Env, s: PairSources)
    requires s.recorded.trigger.Some? && s.ObservedComplete()
    ensures ClassifyPair(env, s).Act? ==> ClassifyPair(env, s).action.kind != Create
  {}

  /** Where a pair's trigger stands, a plan never merely creates it. */
  lemma CreateFindsNoTrigger(env: Env, db: Database, cfg: Config, actions: seq<Action>, a: Action, t: Target)
    requires Planning(env, db, cfg, actions) && a in actions && a.kind == Create && LegalPair(a.pair)
    requires TargetOf(env, db, cfg.listeners, a.pair.listener).target == Some(t) && t.oid in db.tables
    ensures Place(t.oid, NameOf(a.pair, env.hashed)) !in db.triggers
  {
    ActionFacts(env, db, cfg, actions, a);
    TargetIsNotRefused(env, db, cfg, actions, a.pair);
    if Place(t.oid, NameOf(a.pair, env.hashed)) in db.triggers {
      ObservedIsOwned(env, db, cfg, actions, a.pair, t.oid);
      OwnedIsRead(env, cfg.instance, db, t.oid, a.pair);
      ObservedIsRead(env, db, cfg, t, a.pair);
      SourceIs(env, db, cfg, a.pair);
      CompleteIsNotCreated(env, Source(env, db, cfg, a.pair));
    }
  }

  lemma OwnedIsReady(env: Env, db: Database, cfg: Config, actions: seq<Action>, a: Action, t: Target)
    requires Planning(env, db, cfg, actions) && a in actions && LegalPair(a.pair)
    requires TargetOf(env, db, cfg.listeners, a.pair.listener).target == Some(t) && Place(t.oid, NameOf(a.pair, env.hashed)) in db.triggers
    ensures db.triggers[Place(t.oid, NameOf(a.pair, env.hashed))].executes == NameOf(a.pair, env.hashed) && NameOf(a.pair, env.hashed) in db.functions
  {
    ActionFacts(env, db, cfg, actions, a);
    ObservedIsOwned(env, db, cfg, actions, a.pair, t.oid);
  }

  lemma DropIsReady(env: Env, db: Database, cfg: Config, actions: seq<Action>, a: Action, o: ApplyObject)
    requires Planning(env, db, cfg, actions) && a in actions && LegalPair(a.pair) && o.name == NameOf(a.pair, env.hashed)
    requires TargetOf(env, db, cfg.listeners, a.pair.listener).target == Some(o.target) && o.target.oid in db.tables
    requires o.drop ==> ReadTrigger(env, db, o.target.oid, o.name).Some?
    ensures o.drop ==> OwnPlace(o) in db.triggers && db.triggers[OwnPlace(o)].executes == o.name && o.name in db.functions
  {
    if o.drop {
      OwnedIsReady(env, db, cfg, actions, a, o.target);
    }
  }

  lemma CreateIsReady(env: Env, db: Database, cfg: Config, actions: seq<Action>, a: Action, o: ApplyObject)
    requires Planning(env, db, cfg, actions) && a in actions && LegalPair(a.pair) && o.name == NameOf(a.pair, env.hashed)
    requires TargetOf(env, db, cfg.listeners, a.pair.listener).target == Some(o.target) && o.target.oid in db.tables
    requires ObjectForAction(env, db, cfg, a) == Some(o) && o.creates != []
    requires a.kind != Drop ==> Generates(env, db, FindListener(cfg.listeners, a.pair.listener), a.pair.operation)
    ensures CreatesOwn(o) && (OwnPlace(o) in db.triggers ==> o.drop)
  {
    var l, t := CreateObject(env, db, cfg, a, o);
    if a.kind == Create {
      CreateFindsNoTrigger(env, db, cfg, actions, a, t);
    }
  }

  lemma ObjectIsReady(env: Env, db: Database, cfg: Config, actions: seq<Action>, a: Action, o: ApplyObject)
    requires Planning(env, db, cfg, actions) && a in actions && !Skips(db, cfg, a) && ObjectForAction(env, db, cfg, a) == Some(o)
    ensures Ready(db, o)
  {
    var t := ActionHasTarget(env, db, cfg, actions, a);
    ObjectTarget(env, db, cfg, a, o);
    ObjectIsNamed(env, db, cfg, actions, a);
    DropIsReady(env, db, cfg, actions, a, o);
    if o.creates != [] {
      CreateIsReady(env, db, cfg, actions, a, o);
    }
  }

  lemma PlanIsScheduled(env: Env, db: Database, cfg: Config, actions: seq<Action>, objects: seq<ApplyObject>, steps: seq<Step>)
    requires Planning(env, db, cfg, actions) && ObjectsOf(env, db, cfg, actions) == Some(objects) && IsSchedule(objects, steps)
    ensures Scheduled(db, steps) && forall s :: s in steps <==> IsStepOf(s, objects)
  {
    ObjectsAreFromActions(env, db, cfg, actions);
    ObjectsAreNamed(env, db, cfg, actions);
    ObjectsAreDistinct(env, db, cfg, actions);
    ScheduleFacts(objects, steps);
    StepsAreScoped(env, db, cfg, actions, objects, steps);
    forall s | s in steps ensures Ready(db, s.item) {
      var a :| a in actions && !Skips(db, cfg, a) && ObjectForAction(env, db, cfg, a) == Some(s.item);
      ObjectIsReady(env, db, cfg, actions, a, s.item);
    }
    forall s, t | s in steps && t in steps && s.item.name == t.item.name ensures s.item == t.item {
      SameNameIsSameObject(objects, s.item, t.item);
    }
  }

  // ----- a schedule and a rewritten registry always exist ------------------------------------------

  function TablesIn(objects: seq<ApplyObject>): seq<string> {
    if objects == [] then []
    else
      var front, name := TablesIn(objects[..|objects| - 1]), objects[|objects| - 1].target.table.name;
      if name in front then front else front + [name]
  }

  lemma {:induction false} TablesAreIn(objects: seq<ApplyObject>)
    ensures forall i, j :: 0 <= i < j < |TablesIn(objects)| ==> TablesIn(objects)[i] != TablesIn(objects)[j]
    ensures forall t :: t in TablesIn(objects) <==> exists o :: o in objects && o.target.table.name == t
    decreases |objects|
  {
    if objects != [] {
      var front, last := objects[..|objects| - 1], objects[|objects| - 1];
      assert objects == front + [last];
      TablesAreIn(front);
      forall t | t in TablesIn(objects) ensures exists o :: o in objects && o.target.table.name == t {
        if t in TablesIn(front) {
          var o :| o in front && o.target.table.name == t;
          assert o in objects;
        } else {
          assert last in objects;
        }
      }
    }
  }

  lemma AScheduleExists(objects: seq<ApplyObject>) returns (steps: seq<Step>)
    ensures IsSchedule(objects, steps)
  {
    var tables := TablesIn(objects);
    TablesAreIn(objects);
    LessIsOrder();
    SortedIsSorted(tables, Less);
    MembersOf(Sorted(tables, Less), tables);
    steps := StepsOver(objects, Sorted(tables, Less));
    assert IsTableOrder(objects, Sorted(tables, Less));
  }

  predicate Rewritten(cfg: Config, actions: seq<Action>, name: string) {
    Acts(actions, name) && FindListener(cfg.listeners, name).Some?
  }

  /** The rows of a listener that is rewritten. */
  function RowsOf(env: Env, mid: Database, cfg: Config, name: string): map<string, RecordedTrigger>
    requires FindListener(cfg.listeners, name).Some?
  {
    var l := FindListener(cfg.listeners, name).value;
    var target := ConfiguredTarget(env, mid, l).target;
    if target.Some? then RegistryTriggers(env, mid, l, target.value.oid) else map[]
  }

  function EntryOf(env: Env, mid: Database, cfg: Config, name: string): Option<RecordedListener>
    requires FindListener(cfg.listeners, name).Some?
  {
    var l := FindListener(cfg.listeners, name).value;
    var target := ConfiguredTarget(env, mid, l).target;
    if target.Some? then Some(NewRow(env, l, target.value)) else None
  }

  /** The registry rewritten in one go. */
  function Resynced(env: Env, mid: Database, cfg: Config, actions: seq<Action>): Database {
    var written := set l | l in cfg.listeners && Rewritten(cfg, actions, l.name) && EntryOf(env, mid, cfg, l.name).Some? :: l.name;
    var kept := set n | n in mid.listeners && !Acts(actions, n);
    var rows := set l, o | l in cfg.listeners && o in OPERATIONS && Rewritten(cfg, actions, l.name) && o in RowsOf(env, mid, cfg, l.name) ::
                      Pair(l.name, o);
    var left := set p | p in mid.rows && !Acts(actions, p.listener);
    mid.(listeners := map n | n in written + kept && (n in kept || (Rewritten(cfg, actions, n) && EntryOf(env, mid, cfg, n).Some?)) ::
           if n in kept then mid.listeners[n] else EntryOf(env, mid, cfg, n).value,
         rows := map p | p in rows + left && (p in left || (Rewritten(cfg, actions, p.listener) && p.operation in RowsOf(env, mid, cfg, p.listener))) ::
           if p in left then mid.rows[p] else RowsOf(env, mid, cfg, p.listener)[p.operation])
  }

  lemma ResyncedRow(env: Env, mid: Database, cfg: Config, actions: seq<Action>, p: Pair)
    requires Rewritten(cfg, actions, p.listener)
    ensures var db', rows := Resynced(env, mid, cfg, actions), RowsOf(env, mid, cfg, p.listener);
            (p in db'.rows <==> p.operation in rows) && (p in db'.rows ==> db'.rows[p] == rows[p.operation])
  {
    FoundIsOneOf(cfg.listeners, p.listener);
    var l := FindListener(cfg.listeners, p.listener).value;
    if p.operation in RowsOf(env, mid, cfg, p.listener) {
      assert p.operation in DesiredOperations(l);
      assert l in cfg.listeners && p == Pair(l.name, p.operation);
    }
  }

  lemma ResyncedEntry(env: Env, mid: Database, cfg: Config, actions: seq<Action>, name: string)
    requires Rewritten(cfg, actions, name) && EntryOf(env, mid, cfg, name).Some?
    ensures var db' := Resynced(env, mid, cfg, actions); name in db'.listeners && db'.listeners[name] == EntryOf(env, mid, cfg, name).value
  {
    FoundIsOneOf(cfg.listeners, name);
    var l := FindListener(cfg.listeners, name).value;
    assert l in cfg.listeners && l.name == name;
  }

  lemma ResyncedOthers(env: Env, mid: Database, cfg: Config, actions: seq<Action>, name: string)
    requires !Rewritten(cfg, actions, name)
    ensures var db' := Resynced(env, mid, cfg, actions);
            if Acts(actions, name) then name !in db'.listeners && forall p :: p in db'.rows ==> p.listener != name
            else SameEntry(mid, db', name)
  {}

  lemma ResyncedIsSynced(env: Env, mid: Database, cfg: Config, actions: seq<Action>)
    requires forall l :: l in cfg.listeners && Rewritten(cfg, actions, l.name) ==> EntryOf(env, mid, cfg, l.name).Some?
    ensures Synced(env, mid, cfg, actions, Resynced(env, mid, cfg, actions))
  {
    var db' := Resynced(env, mid, cfg, actions);
    forall name ensures SyncedListener(env, mid, cfg, actions, name, db') {
      if Rewritten(cfg, actions, name) {
        FoundIsOneOf(cfg.listeners, name);
        ResyncedEntry(env, mid, cfg, actions, name);
        forall p: Pair | p.listener == name
          ensures p in db'.rows <==> p.operation in RowsOf(env, mid, cfg, name)
          ensures p in db'.rows ==> db'.rows[p] == RowsOf(env, mid, cfg, name)[p.operation]
        {
          ResyncedRow(env, mid, cfg, actions, p);
        }
      } else {
        ResyncedOthers(env, mid, cfg, actions, name);
      }
    }
  }

  // ----- the main result ---------------------------------------------------------------------------

  /** No trigger but its own executes a function that the plan drops. */
  ghost predicate SharesNothing(env: Env, db: Database, cfg: Config, actions: seq<Action>) {
    forall a :: a in actions && !Skips(db, cfg, a) && ObjectForAction(env, db, cfg, a).Some? && ObjectForAction(env, db, cfg, a).value.drop ==>
      Unshared(db, ObjectForAction(env, db, cfg, a).value)
  }

  lemma StepsShareNothing(env: Env, db: Database, cfg: Config, actions: seq<Action>, objects: seq<ApplyObject>, steps: seq<Step>)
    requires Planning(env, db, cfg, actions) && ObjectsOf(env, db, cfg, actions) == Some(objects)
    requires forall s :: s in steps <==> IsStepOf(s, objects)
    ensures DropsUnshared(db, steps) <==> SharesNothing(env, db, cfg, actions)
  {
    ObjectsAreFromActions(env, db, cfg, actions);
    if DropsUnshared(db, steps) {
      forall a | a in actions && !Skips(db, cfg, a) && ObjectForAction(env, db, cfg, a).Some? && ObjectForAction(env, db, cfg, a).value.drop
        ensures Unshared(db, ObjectForAction(env, db, cfg, a).value)
      {
        assert Step(ObjectForAction(env, db, cfg, a).value, false) in steps;
      }
    }
    if SharesNothing(env, db, cfg, actions) {
      forall s | s in steps && !s.creating ensures Unshared(db, s.item) {
        var a :| a in actions && !Skips(db, cfg, a) && ObjectForAction(env, db, cfg, a) == Some(s.item);
      }
    }
  }

  lemma RunLeavesTargets(env: Env, db: Database, cfg: Config, actions: seq<Action>, objects: seq<ApplyObject>, steps: seq<Step>)
    requires Planning(env, db, cfg, actions) && Runs(env, db, cfg, actions, objects, steps)
    ensures forall l :: l in cfg.listeners && Rewritten(cfg, actions, l.name) ==> EntryOf(env, RunSteps(db, steps).value, cfg, l.name).Some?
  {
    var mid := RunSteps(db, steps).value;
    RunKeepsTables(env, db, cfg, actions, objects, steps);
    forall l | l in cfg.listeners && Rewritten(cfg, actions, l.name) ensures EntryOf(env, mid, cfg, l.name).Some? {
      var l', t := ActingTarget(env, db, cfg, actions, l.name);
      SameResolution(env, db, mid, l'.name, l'.trigger.table, RecordedOf(db, l'.name));
    }
  }

  /** A plan without refusals commits if and only if no trigger but its own executes a function it drops:
      PostgreSQL then refuses the drop, and the transaction leaves the database as it was. */
  lemma CommitsIff(env: Env, db: Database, cfg: Config, plan: PlanResult)
    requires cfg.Legal() && Managed(env, cfg.instance, db) && IsPlanFor(env, db, cfg, plan) && plan.refusals == []
    ensures (exists db' :: Applied(env, db, cfg, plan.actions, db')) <==> SharesNothing(env, db, cfg, plan.actions)
  {
    var actions := plan.actions;
    PlanDecides(env, db, cfg, plan);
    ObjectsAreFound(env, db, cfg, actions, actions);
    var objects := ObjectsOf(env, db, cfg, actions).value;
    if SharesNothing(env, db, cfg, actions) {
      var steps := AScheduleExists(objects);
      PlanIsScheduled(env, db, cfg, actions, objects, steps);
      StepsShareNothing(env, db, cfg, actions, objects, steps);
      ScheduleRunsIff(db, steps);
      RunLeavesTargets(env, db, cfg, actions, objects, steps);
      var mid := RunSteps(db, steps).value;
      ResyncedIsSynced(env, mid, cfg, actions);
      assert Committed(env, db, cfg, actions, objects, steps, Resynced(env, mid, cfg, actions));
      assert Applied(env, db, cfg, actions, Resynced(env, mid, cfg, actions));
    }
    if db' :| Applied(env, db, cfg, actions, db') {
      var objects', steps :| Committed(env, db, cfg, actions, objects', steps, db');
      PlanIsScheduled(env, db, cfg, actions, objects, steps);
      StepsShareNothing(env, db, cfg, actions, objects, steps);
      ScheduleRunsIff(db, steps);
    }
  }
}
