/** Convergence: once an apply has committed, planning again finds nothing to do. */
module ReconcileConvergence {
  import opened Options
  import opened ReconcileNames
  import opened ReconcileModel
  import opened ReconcileDiff
  import opened ReconcileRead
  import opened ReconcileStatements
  import opened ReconcileApply
  import opened ReconcileEffects

  /** A committed apply and everything it went through. */
  ghost predicate Commits(env: Env, db: Database, cfg: Config, actions: seq<Action>, objects: seq<ApplyObject>, steps: seq<Step>, db': Database) {
    && Runs(env, db, cfg, actions, objects, steps) && Managed(env, cfg.instance, db)
    && Synced(env, RunSteps(db, steps).value, cfg, actions, db')
  }

  predicate Planned(actions: seq<Action>, p: Pair) {
    exists a :: a in actions && a.pair == p
  }

  /** What the second plan reads under a pair's name: the trigger with its marker, and its function
      with the same marker. */
  ghost predicate Owned(env: Env, instance: string, db: Database, oid: Oid, p: Pair)
    requires KnownOperation(p.operation)
  {
    var place := Place(oid, NameOf(p, env.hashed));
    && oid in db.tables && place in db.triggers && db.triggers[place].marker == Some(Marker(instance, p))
    && db.triggers[place].executes == NameOf(p, env.hashed) && NameOf(p, env.hashed) in db.functions
    && db.functions[NameOf(p, env.hashed)].marker == Some(Marker(instance, p))
  }

  // ----- reading a pair before the apply -----------------------------------------------------------

  /** A pair the plan did not refuse, and that reads a trigger, owns it: it is recorded, and both its
      trigger and its function carry its marker. */
  lemma ObservedIsOwned(env: Env, db: Database, cfg: Config, actions: seq<Action>, p: Pair, oid: Oid)
    requires cfg.Legal() && Managed(env, cfg.instance, db) && Decides(env, db, cfg, actions)
    requires Examines(env, db, cfg, p) && LegalPair(p)
    requires TargetOf(env, db, cfg.listeners, p.listener).target.Some? && oid == TargetOf(env, db, cfg.listeners, p.listener).target.value.oid
    requires Place(oid, NameOf(p, env.hashed)) in db.triggers
    ensures p in db.rows && Owned(env, cfg.instance, db, oid, p)
  {
    var s := Source(env, db, cfg, p);
    SourceIs(env, db, cfg, p);
    TargetIsNotRefused(env, db, cfg, actions, p);
    assert !PlanClassifier(env, db, cfg)(p).Refuse?;
    NotRefusedIsOwned(env, s, p);
    OwnedByName(env, cfg.instance, db, oid, p);
  }

  lemma NotRefusedIsOwned(env: Env, s: PairSources, p: Pair)
    requires !ClassifyPair(env, s).Refuse? && LegalPair(p) && LegalName(s.instance)
    requires s.recorded.trigger.Some? ==> s.recorded.pair == p
    ensures s.ObservedAny() ==> s.recorded.trigger.Some?
    ensures s.observed.trigger.Some? ==> s.observed.trigger.value.marker == Some(Marker(s.instance, p))
    ensures s.observed.code.Some? ==> s.observed.code.value.marker == Some(Marker(s.instance, p))
  {
    assert ObservedOwnershipRefusal(s).None?;
    LegalNameIsMarkerField(s.instance);
    LegalNameIsMarkerField(p.listener);
    if s.observed.trigger.Some? {
      OwnedIff(s.recorded.trigger.Some?, s.recorded.pair, s.observed.trigger.value.marker, s.instance);
    }
    if s.observed.code.Some? {
      OwnedIff(s.recorded.trigger.Some?, s.recorded.pair, s.observed.code.value.marker, s.instance);
    }
  }

  /** The function a trigger executes carries the pair's marker, so it is the pair's function. */
  lemma OwnedByName(env: Env, instance: string, db: Database, oid: Oid, p: Pair)
    requires Managed(env, instance, db) && LegalPair(p) && Place(oid, NameOf(p, env.hashed)) in db.triggers
    requires db.triggers[Place(oid, NameOf(p, env.hashed))].marker == Some(Marker(instance, p))
    requires db.functions[db.triggers[Place(oid, NameOf(p, env.hashed))].executes].marker == Some(Marker(instance, p))
    ensures Owned(env, instance, db, oid, p)
  {}

  // ----- what is left alone reads the same ---------------------------------------------------------

  lemma ReadsTheSame(env: Env, db: Database, mid: Database, oid: Oid, name: string)
    requires SameUnder(db, mid, oid, name) && mid.tables == db.tables
    requires Place(oid, name) in db.triggers ==> db.triggers[Place(oid, name)].executes == name
    ensures ReadTrigger(env, mid, oid, name) == ReadTrigger(env, db, oid, name)
    ensures ReadFunctionOf(env, mid, oid, name) == ReadFunctionOf(env, db, oid, name)
  {}

  lemma CatalogReadsTheSame(env: Env, mid: Database, db': Database, oid: Oid, name: string)
    requires SameCatalog(mid, db')
    ensures ReadTrigger(env, db', oid, name) == ReadTrigger(env, mid, oid, name)
    ensures ReadFunctionOf(env, db', oid, name) == ReadFunctionOf(env, mid, oid, name)
  {}

  /** A pair the apply has no statement for reads afterwards what it read before. */
  lemma UnplannedReadsTheSame(env: Env, db: Database, cfg: Config, actions: seq<Action>, objects: seq<ApplyObject>, steps: seq<Step>,
                              db': Database, p: Pair, oid: Oid)
    requires Commits(env, db, cfg, actions, objects, steps, db') && Examines(env, db, cfg, p) && LegalPair(p)
    requires forall a :: a in actions && a.pair == p ==> Skips(db, cfg, a)
    requires TargetOf(env, db, cfg.listeners, p.listener).target.Some? && oid == TargetOf(env, db, cfg.listeners, p.listener).target.value.oid
    ensures ReadTrigger(env, db', oid, NameOf(p, env.hashed)) == ReadTrigger(env, db, oid, NameOf(p, env.hashed))
    ensures ReadFunctionOf(env, db', oid, NameOf(p, env.hashed)) == ReadFunctionOf(env, db, oid, NameOf(p, env.hashed))
  {
    var mid, name := RunSteps(db, steps).value, NameOf(p, env.hashed);
    UnplannedIsUntouched(env, db, cfg, actions, objects, steps, p, oid);
    RunKeepsTables(env, db, cfg, actions, objects, steps);
    if Place(oid, name) in db.triggers {
      ObservedIsOwned(env, db, cfg, actions, p, oid);
    }
    ReadsTheSame(env, db, mid, oid, name);
    CatalogReadsTheSame(env, mid, db', oid, name);
  }

  // ----- a listener without an action --------------------------------------------------------------

  lemma SameResolution(env: Env, db: Database, db': Database, listener: string, name: string, recorded: Option<RecordedListener>)
    requires db'.tables == db.tables && db'.names == db.names
    ensures ResolveListenerTarget(env, db', listener, name, recorded) == ResolveListenerTarget(env, db, listener, name, recorded)
  {}

  /** The registry entry and the relations are what they were. */
  ghost predicate SameSide(db: Database, db': Database, name: string) {
    db'.tables == db.tables && db'.names == db.names && SameEntry(db, db', name)
  }

  lemma SameSideResolves(env: Env, db: Database, db': Database, listeners: seq<Listener>, name: string)
    requires SameSide(db, db', name)
    ensures TargetOf(env, db', listeners, name) == TargetOf(env, db, listeners, name)
    ensures forall o :: Generates(env, db', FindListener(listeners, name), o) <==> Generates(env, db, FindListener(listeners, name), o)
  {
    FoundIsOneOf(listeners, name);
    var l := FindListener(listeners, name);
    if l.Some? {
      SameResolution(env, db, db', name, l.value.trigger.table, RecordedOf(db, name));
    } else if name in db.listeners {
      SameResolution(env, db, db', name, db.listeners[name].targetTable, RecordedOf(db, name));
    }
  }

  lemma SameSideStandsAlone(db: Database, db': Database, p: Pair)
    requires SameEntry(db, db', p.listener)
    ensures StandsAlone(db', p) <==> StandsAlone(db, p)
    ensures RecordedEntry(db', p) == RecordedEntry(db, p)
  {
    if HasRows(db, p.listener) {
      var q :| q in db.rows && q.listener == p.listener;
      assert q in db'.rows;
    }
    if HasRows(db', p.listener) {
      var q :| q in db'.rows && q.listener == p.listener;
      assert q in db.rows;
    }
  }

  lemma SameSideNames(env: Env, db: Database, db': Database, listeners: seq<Listener>, p: Pair)
    requires SameSide(db, db', p.listener)
    ensures NamesOf(env, db', listeners, p) == NamesOf(env, db, listeners, p)
    ensures DesiredOf(env, db', listeners, p) == DesiredOf(env, db, listeners, p)
    ensures ListenerEntryOf(env, db', listeners, p.listener) == ListenerEntryOf(env, db, listeners, p.listener)
  {
    SameSideResolves(env, db, db', listeners, p.listener);
    FoundIsOneOf(listeners, p.listener);
  }

  lemma NoActionSameSide(env: Env, db: Database, cfg: Config, actions: seq<Action>, objects: seq<ApplyObject>, steps: seq<Step>,
                         db': Database, name: string)
    requires Commits(env, db, cfg, actions, objects, steps, db') && !Acts(actions, name)
    ensures SameSide(db, db', name)
  {
    RunKeepsTables(env, db, cfg, actions, objects, steps);
    SyncedAt(env, RunSteps(db, steps).value, cfg, actions, db', name);
  }

  /** A listener without an action is read exactly as before, and so planned for as before. */
  lemma QuietListenerReadsTheSame(env: Env, db: Database, cfg: Config, actions: seq<Action>, objects: seq<ApplyObject>, steps: seq<Step>,
                                  db': Database, q: Pair)
    requires Commits(env, db, cfg, actions, objects, steps, db') && !Acts(actions, q.listener)
    ensures Examines(env, db', cfg, q) <==> Examines(env, db, cfg, q)
    ensures Examines(env, db, cfg, q) ==> Source(env, db', cfg, q) == Source(env, db, cfg, q)
  {
    NoActionSameSide(env, db, cfg, actions, objects, steps, db', q.listener);
    SameSideStandsAlone(db, db', q);
    SameSideNames(env, db, db', cfg.listeners, q);
    SameSideResolves(env, db, db', cfg.listeners, q.listener);
    if Examines(env, db, cfg, q) {
      SameObserved(env, db, cfg, actions, objects, steps, db', q);
    }
  }

  lemma SameObserved(env: Env, db: Database, cfg: Config, actions: seq<Action>, objects: seq<ApplyObject>, steps: seq<Step>,
                     db': Database, q: Pair)
    requires Commits(env, db, cfg, actions, objects, steps, db') && !Acts(actions, q.listener) && Examines(env, db, cfg, q)
    requires NamesOf(env, db', cfg.listeners, q) == NamesOf(env, db, cfg.listeners, q)
    requires TargetOf(env, db', cfg.listeners, q.listener) == TargetOf(env, db, cfg.listeners, q.listener)
    ensures ObservedEntry(env, db', cfg.listeners, q) == ObservedEntry(env, db, cfg.listeners, q)
  {
    var names, target := NamesOf(env, db, cfg.listeners, q), TargetOf(env, db, cfg.listeners, q.listener);
    if names.Some? && target.target.Some? {
      NamedIsLegal(env, db, cfg, q);
      UnplannedReadsTheSame(env, db, cfg, actions, objects, steps, db', q, target.target.value.oid);
      SameReading(env, db, db', target, q, names.value);
    }
  }

  lemma SameReading(env: Env, db: Database, db': Database, target: Resolution, q: Pair, names: ObjectNames)
    requires target.target.Some?
    requires ReadTrigger(env, db', target.target.value.oid, names.trigger) == ReadTrigger(env, db, target.target.value.oid, names.trigger)
    requires ReadFunctionOf(env, db', target.target.value.oid, names.trigger) == ReadFunctionOf(env, db, target.target.value.oid, names.trigger)
    ensures ReadObservedPair(env, db', target, q, names) == ReadObservedPair(env, db, target, q, names)
  {}

  lemma NamedIsLegal(env: Env, db: Database, cfg: Config, q: Pair)
    requires cfg.Legal() && RecordedNames(env, db) && NamesOf(env, db, cfg.listeners, q).Some?
    ensures LegalPair(q) && NamesOf(env, db, cfg.listeners, q).value == GeneratedNames(env, q)
  {
    FoundIsOneOf(cfg.listeners, q.listener);
  }

  lemma QuietListenerStaysQuiet(env: Env, db: Database, cfg: Config, actions: seq<Action>, objects: seq<ApplyObject>, steps: seq<Step>,
                                db': Database, q: Pair)
    requires Commits(env, db, cfg, actions, objects, steps, db') && !Acts(actions, q.listener) && Examines(env, db', cfg, q)
    ensures ClassifyPair(env, Source(env, db', cfg, q)) == Nothing
  {
    QuietListenerReadsTheSame(env, db, cfg, actions, objects, steps, db', q);
    NoActionIsNothing(env, db, cfg, actions, q);
  }

  lemma NoActionIsNothing(env: Env, db: Database, cfg: Config, actions: seq<Action>, q: Pair)
    requires cfg.Legal() && RecordedNames(env, db) && Decides(env, db, cfg, actions) && Examines(env, db, cfg, q) && !Planned(actions, q)
    ensures ClassifyPair(env, Source(env, db, cfg, q)) == Nothing
  {
    var f := PlanClassifier(env, db, cfg);
    assert !f(q).Refuse?;
    if f(q).Act? {
      ActIsPlanned(env, db, cfg, actions, q);
    }
  }

  lemma ActIsPlanned(env: Env, db: Database, cfg: Config, actions: seq<Action>, q: Pair)
    requires cfg.Legal() && RecordedNames(env, db) && Decides(env, db, cfg, actions) && Examines(env, db, cfg, q)
    requires PlanClassifier(env, db, cfg)(q).Act?
    ensures Planned(actions, q) && PlanClassifier(env, db, cfg)(q).action in actions
  {
    ActsForItself(env, db, cfg, q);
    var a := PlanClassifier(env, db, cfg)(q).action;
    assert a.pair == q && IsOneOf(actions, a);
  }

  // ----- a listener the configuration no longer names ----------------------------------------------

  lemma RemovedListenerIsGone(env: Env, db: Database, cfg: Config, actions: seq<Action>, objects: seq<ApplyObject>, steps: seq<Step>,
                              db': Database, q: Pair)
    requires Commits(env, db, cfg, actions, objects, steps, db') && Acts(actions, q.listener)
    requires FindListener(cfg.listeners, q.listener).None?
    ensures !Examines(env, db', cfg, q)
  {
    SyncedAt(env, RunSteps(db, steps).value, cfg, actions, db', q.listener);
    UnknownIsNotExamined(env, db', cfg, q);
  }

  lemma SyncedAt(env: Env, mid: Database, cfg: Config, actions: seq<Action>, db': Database, name: string)
    requires Synced(env, mid, cfg, actions, db')
    ensures SyncedListener(env, mid, cfg, actions, name, db')
  {}

  lemma UnknownIsNotExamined(env: Env, db: Database, cfg: Config, q: Pair)
    requires q.listener !in db.listeners && FindListener(cfg.listeners, q.listener).None?
    ensures !Examines(env, db, cfg, q)
  {}

  // ----- a configured listener with an action ------------------------------------------------------

  lemma ResolvedHasTarget(env: Env, db: Database, listener: string, name: string, recorded: Option<RecordedListener>)
    requires ResolveListenerTarget(env, db, listener, name, recorded).refusal.None? && Consistent(env, db)
    ensures var target := ResolveListenerTarget(env, db, listener, name, recorded).target;
            target.Some? && target.value.oid in db.tables && db.tables[target.value.oid] == target.value.table
  {}

  /** A configured listener with an action: the relation its plan resolved, and the entry written. */
  ghost predicate Entry(env: Env, db: Database, cfg: Config, mid: Database, db': Database, l: Listener, t: Target) {
    && FindListener(cfg.listeners, l.name) == Some(l)
    && ConfiguredTarget(env, db, l).refusal.None? && ConfiguredTarget(env, db, l).target == Some(t)
    && t.oid in db.tables && db.tables[t.oid] == t.table
    && db'.tables == db.tables && db'.names == db.names && SameCatalog(mid, db')
    && l.name in db'.listeners && db'.listeners[l.name] == NewRow(env, l, t)
    && EntryRows(db', l.name, RegistryTriggers(env, mid, l, t.oid))
  }

  lemma ActingTarget(env: Env, db: Database, cfg: Config, actions: seq<Action>, name: string) returns (l: Listener, t: Target)
    requires cfg.Legal() && Managed(env, cfg.instance, db) && Decides(env, db, cfg, actions)
    requires Acts(actions, name) && FindListener(cfg.listeners, name).Some?
    ensures l.name == name && FindListener(cfg.listeners, name) == Some(l)
    ensures ConfiguredTarget(env, db, l).refusal.None? && ConfiguredTarget(env, db, l).target == Some(t)
    ensures t.oid in db.tables && db.tables[t.oid] == t.table
  {
    l := FindListener(cfg.listeners, name).value;
    FoundIsOneOf(cfg.listeners, name);
    var a :| a in actions && a.pair.listener == name;
    ActionFacts(env, db, cfg, actions, a);
    TargetIsNotRefused(env, db, cfg, actions, a.pair);
    ResolvedHasTarget(env, db, l.name, l.trigger.table, RecordedOf(db, name));
    t := ConfiguredTarget(env, db, l).target.value;
  }

  lemma ActingEntry(env: Env, db: Database, cfg: Config, actions: seq<Action>, objects: seq<ApplyObject>, steps: seq<Step>,
                    db': Database, name: string) returns (l: Listener, t: Target)
    requires Commits(env, db, cfg, actions, objects, steps, db') && Acts(actions, name) && FindListener(cfg.listeners, name).Some?
    ensures l.name == name && Entry(env, db, cfg, RunSteps(db, steps).value, db', l, t)
  {
    var mid := RunSteps(db, steps).value;
    l, t := ActingTarget(env, db, cfg, actions, name);
    RunKeepsTables(env, db, cfg, actions, objects, steps);
    SameResolution(env, db, mid, l.name, l.trigger.table, RecordedOf(db, name));
    SyncedAt(env, mid, cfg, actions, db', name);
  }

  /** The configured name, where it resolves at all, resolves to that relation. */
  predicate Settles(env: Env, db: Database, l: Listener, t: Target) {
    var configured := ResolveName(env, db, l.trigger.table);
    configured.Some? ==> configured.value.oid == t.oid
  }

  /** The entry just written resolves to the same relation, healthy, exactly when the configured name
      does not resolve elsewhere; where it does, the next plan refuses the listener as retargeted. */
  lemma RewrittenResolves(env: Env, db: Database, cfg: Config, mid: Database, db': Database, l: Listener, t: Target)
    requires Consistent(env, db) && Entry(env, db, cfg, mid, db', l, t)
    ensures Settles(env, db, l, t) ==> TargetOf(env, db', cfg.listeners, l.name) == Resolution(Healthy, Some(t), None)
    ensures !Settles(env, db, l, t) ==> TargetOf(env, db', cfg.listeners, l.name).refusal.Some?
  {
    assert ResolveName(env, db', t.table.name) == Some(t);
    assert ResolveName(env, db', l.trigger.table) == ResolveName(env, db, l.trigger.table);
    assert ResolveOid(db', t.oid) == Some(t);
  }

  lemma DesiredOperationsAre(l: Listener, o: string)
    ensures o in DesiredOperations(l) <==> KnownOperation(o) && HasOperation(l.trigger, o)
  {
    KnownIsListed(o);
  }

  /** What the plan classified of a desired pair of an enabled listener. */
  lemma EnabledClass(env: Env, db: Database, cfg: Config, l: Listener, p: Pair)
    requires cfg.Legal() && RecordedNames(env, db) && FindListener(cfg.listeners, p.listener) == Some(l) && l.enabled
    requires Generates(env, db, Some(l), p.operation) && LegalPair(p)
    requires !ClassifyPair(env, Source(env, db, cfg, p)).Refuse?
    ensures var c := ClassifyPair(env, Source(env, db, cfg, p));
            || (c.Act? && (c.action.kind == Create || c.action.kind == Replace))
            || ((c.Nothing? || (c.Act? && c.action.kind == Rename)) && Source(env, db, cfg, p).ObservedComplete())
  {
    SourceIs(env, db, cfg, p);
  }

  lemma DisabledClass(env: Env, db: Database, cfg: Config, l: Listener, p: Pair)
    requires cfg.Legal() && RecordedNames(env, db) && FindListener(cfg.listeners, p.listener) == Some(l) && !l.enabled
    requires Generates(env, db, Some(l), p.operation) && LegalPair(p)
    requires !ClassifyPair(env, Source(env, db, cfg, p)).Refuse?
    ensures var c := ClassifyPair(env, Source(env, db, cfg, p));
            (c.Act? && c.action.kind == Disable) || (c.Nothing? && !Source(env, db, cfg, p).ObservedAny())
  {
    SourceIs(env, db, cfg, p);
  }

  lemma ObservedIsRead(env: Env, db: Database, cfg: Config, t: Target, p: Pair)
    requires cfg.Legal() && RecordedNames(env, db) && Examines(env, db, cfg, p) && LegalPair(p)
    requires TargetOf(env, db, cfg.listeners, p.listener).refusal.None? && TargetOf(env, db, cfg.listeners, p.listener).target == Some(t)
    ensures Source(env, db, cfg, p).observed ==
            Observed(p, ReadTrigger(env, db, t.oid, NameOf(p, env.hashed)), ReadFunctionOf(env, db, t.oid, NameOf(p, env.hashed)))
  {
    SourceIs(env, db, cfg, p);
  }

  /** The setting of one desired pair of a listener with an action. */
  ghost predicate Member(env: Env, db: Database, cfg: Config, actions: seq<Action>, objects: seq<ApplyObject>, steps: seq<Step>,
                         db': Database, l: Listener, t: Target, p: Pair) {
    && Commits(env, db, cfg, actions, objects, steps, db') && Entry(env, db, cfg, RunSteps(db, steps).value, db', l, t)
    && p.listener == l.name && LegalPair(p) && HasOperation(l.trigger, p.operation)
  }

  lemma MemberIsExamined(env: Env, db: Database, cfg: Config, actions: seq<Action>, objects: seq<ApplyObject>, steps: seq<Step>,
                         db': Database, l: Listener, t: Target, p: Pair)
    requires Member(env, db, cfg, actions, objects, steps, db', l, t, p)
    ensures Generates(env, db, Some(l), p.operation) && Examines(env, db, cfg, p) && !ClassifyPair(env, Source(env, db, cfg, p)).Refuse?
    ensures TargetOf(env, db, cfg.listeners, p.listener) == ConfiguredTarget(env, db, l)
  {
    assert Examines(env, db, cfg, p);
    assert !PlanClassifier(env, db, cfg)(p).Refuse?;
  }

  lemma OwnedStays(env: Env, instance: string, db: Database, mid: Database, oid: Oid, p: Pair)
    requires KnownOperation(p.operation) && Owned(env, instance, db, oid, p)
    requires SameUnder(db, mid, oid, NameOf(p, env.hashed)) && mid.tables == db.tables
    ensures Owned(env, instance, mid, oid, p)
  {}

  lemma StandingIsOwned(env: Env, instance: string, db: Database, l: Listener, t: Target, p: Pair)
    requires KnownOperation(p.operation) && Standing(env, instance, db, l, t, p) && t.oid in db.tables
    ensures Owned(env, instance, db, t.oid, p)
  {}

  /** After the apply every desired pair of an enabled listener stands on the resolved relation under
      its own marker: created or replaced now, or found complete and left alone. */
  lemma EnabledPairStands(env: Env, db: Database, cfg: Config, actions: seq<Action>, objects: seq<ApplyObject>, steps: seq<Step>,
                          db': Database, l: Listener, t: Target, p: Pair)
    requires Member(env, db, cfg, actions, objects, steps, db', l, t, p) && l.enabled
    ensures Owned(env, cfg.instance, RunSteps(db, steps).value, t.oid, p)
  {
    var mid := RunSteps(db, steps).value;
    MemberIsExamined(env, db, cfg, actions, objects, steps, db', l, t, p);
    EnabledClass(env, db, cfg, l, p);
    RunKeepsTables(env, db, cfg, actions, objects, steps);
    var c := ClassifyPair(env, Source(env, db, cfg, p));
    if c.Act? && (c.action.kind == Create || c.action.kind == Replace) {
      ActionOfPair(env, db, cfg, actions, p, c.action);
      CreatedPairIsOwned(env, db, cfg, actions, objects, steps, db', l, t, c.action);
    } else {
      KeptPairIsOwned(env, db, cfg, actions, objects, steps, db', l, t, p);
    }
  }

  lemma CreatedPairIsOwned(env: Env, db: Database, cfg: Config, actions: seq<Action>, objects: seq<ApplyObject>, steps: seq<Step>,
                           db': Database, l: Listener, t: Target, a: Action)
    requires Member(env, db, cfg, actions, objects, steps, db', l, t, a.pair) && a in actions && (a.kind == Create || a.kind == Replace)
    ensures Owned(env, cfg.instance, RunSteps(db, steps).value, t.oid, a.pair)
  {
    RunKeepsTables(env, db, cfg, actions, objects, steps);
    var l', t' := CreatedIsInstalled(env, db, cfg, actions, objects, steps, a);
    StandingIsOwned(env, cfg.instance, RunSteps(db, steps).value, l, t, a.pair);
  }

  lemma KeptPairIsOwned(env: Env, db: Database, cfg: Config, actions: seq<Action>, objects: seq<ApplyObject>, steps: seq<Step>,
                        db': Database, l: Listener, t: Target, p: Pair)
    requires Member(env, db, cfg, actions, objects, steps, db', l, t, p)
    requires var c := ClassifyPair(env, Source(env, db, cfg, p));
             (c.Nothing? || (c.Act? && c.action.kind == Rename)) && Source(env, db, cfg, p).ObservedComplete()
    ensures Owned(env, cfg.instance, RunSteps(db, steps).value, t.oid, p)
  {
    MemberIsExamined(env, db, cfg, actions, objects, steps, db', l, t, p);
    ObservedIsRead(env, db, cfg, t, p);
    ObservedIsOwned(env, db, cfg, actions, p, t.oid);
    RunKeepsTables(env, db, cfg, actions, objects, steps);
    KeptIsSkipped(env, db, cfg, actions, p);
    UnplannedIsUntouched(env, db, cfg, actions, objects, steps, p, t.oid);
    OwnedStays(env, cfg.instance, db, RunSteps(db, steps).value, t.oid, p);
  }

  lemma KeptIsSkipped(env: Env, db: Database, cfg: Config, actions: seq<Action>, p: Pair)
    requires Decides(env, db, cfg, actions)
    requires var c := ClassifyPair(env, Source(env, db, cfg, p)); c.Nothing? || (c.Act? && c.action.kind == Rename)
    ensures forall a :: a in actions && a.pair == p ==> Skips(db, cfg, a)
  {
    forall a | a in actions && a.pair == p ensures Skips(db, cfg, a) {
      ActionFacts(env, db, cfg, actions, a);
    }
  }

  /** After the apply no pair of a disabled listener has a trigger on the resolved relation. */
  lemma DisabledPairIsGone(env: Env, db: Database, cfg: Config, actions: seq<Action>, objects: seq<ApplyObject>, steps: seq<Step>,
                           db': Database, l: Listener, t: Target, p: Pair)
    requires Member(env, db, cfg, actions, objects, steps, db', l, t, p) && !l.enabled
    ensures Place(t.oid, NameOf(p, env.hashed)) !in db'.triggers
  {
    MemberIsExamined(env, db, cfg, actions, objects, steps, db', l, t, p);
    DisabledClass(env, db, cfg, l, p);
    var c := ClassifyPair(env, Source(env, db, cfg, p));
    if c.Act? {
      ActionOfPair(env, db, cfg, actions, p, c.action);
      DisabledPairIsDropped(env, db, cfg, actions, objects, steps, db', t, c.action);
    } else {
      AbsentPairStaysGone(env, db, cfg, actions, objects, steps, db', l, t, p);
    }
  }

  lemma DisabledPairIsDropped(env: Env, db: Database, cfg: Config, actions: seq<Action>, objects: seq<ApplyObject>, steps: seq<Step>,
                              db': Database, t: Target, a: Action)
    requires Runs(env, db, cfg, actions, objects, steps) && Consistent(env, db) && a in actions && a.kind == Disable
    requires TargetOf(env, db, cfg.listeners, a.pair.listener).target == Some(t)
    requires SameCatalog(RunSteps(db, steps).value, db')
    ensures LegalPair(a.pair) && Place(t.oid, NameOf(a.pair, env.hashed)) !in db'.triggers
  {
    var target := DroppedIsGone(env, db, cfg, actions, objects, steps, a);
  }

  lemma ActionOfPair(env: Env, db: Database, cfg: Config, actions: seq<Action>, p: Pair, a: Action)
    requires cfg.Legal() && RecordedNames(env, db) && Decides(env, db, cfg, actions) && Examines(env, db, cfg, p)
    requires ClassifyPair(env, Source(env, db, cfg, p)) == Act(a)
    ensures a in actions && a.pair == p
  {
    ActIsPlanned(env, db, cfg, actions, p);
    ActsForItself(env, db, cfg, p);
  }

  lemma AbsentPairStaysGone(env: Env, db: Database, cfg: Config, actions: seq<Action>, objects: seq<ApplyObject>, steps: seq<Step>,
                            db': Database, l: Listener, t: Target, p: Pair)
    requires Member(env, db, cfg, actions, objects, steps, db', l, t, p)
    requires ClassifyPair(env, Source(env, db, cfg, p)).Nothing? && !Source(env, db, cfg, p).ObservedAny()
    ensures Place(t.oid, NameOf(p, env.hashed)) !in db'.triggers
  {
    MemberIsExamined(env, db, cfg, actions, objects, steps, db', l, t, p);
    ObservedIsRead(env, db, cfg, t, p);
    KeptIsSkipped(env, db, cfg, actions, p);
    UnplannedIsUntouched(env, db, cfg, actions, objects, steps, p, t.oid);
  }

  // ----- the second plan of such a listener --------------------------------------------------------

  /** Every desired pair of an enabled listener is found when the catalog is read back, so the answer
      without rows for a pair not found is never reached after an apply. */
  lemma EveryPairIsReadBack(env: Env, db: Database, cfg: Config, actions: seq<Action>, objects: seq<ApplyObject>, steps: seq<Step>,
                            db': Database, l: Listener, t: Target)
    requires Commits(env, db, cfg, actions, objects, steps, db') && Entry(env, db, cfg, RunSteps(db, steps).value, db', l, t) && l.enabled
    ensures AllPairsRead(env, RunSteps(db, steps).value, l, t.oid)
    ensures forall o :: o in RegistryTriggers(env, RunSteps(db, steps).value, l, t.oid) <==> KnownOperation(o) && HasOperation(l.trigger, o)
  {
    var mid := RunSteps(db, steps).value;
    FoundIsOneOf(cfg.listeners, l.name);
    forall o | o in DesiredOperations(l) && KnownOperation(o) ensures RecordedPair(env, mid, t.oid, NameOf(Pair(l.name, o), env.hashed)).Some? {
      EnabledPairStands(env, db, cfg, actions, objects, steps, db', l, t, Pair(l.name, o));
    }
    forall o ensures o in DesiredOperations(l) <==> KnownOperation(o) && HasOperation(l.trigger, o) {
      DesiredOperationsAre(l, o);
    }
  }

  lemma SameSpecChangesNothing(env: Env, spec: TriggerSpec, o: string)
    ensures o in ChangesOf(env, spec, spec) ==> !ChangesOf(env, spec, spec)[o]
  {}

  /** A pair whose every side agrees is left alone. */
  lemma AgreedIsNothing(env: Env, s: PairSources, p: Pair)
    requires LegalPair(p) && LegalName(s.instance) && s.target.refusal.None? && s.target.outcome == Healthy
    requires s.desired.listenerPresent && s.desired.operationPresent && s.desired.enabled && !s.desired.specificationChanged
    requires s.recorded.trigger.Some? && s.recorded.pair == p && s.ObservedComplete()
    requires s.observed.trigger.value.marker == Some(Marker(s.instance, p)) && s.observed.code.value.marker == Some(Marker(s.instance, p))
    requires s.recorded.trigger.value.ddlHash == env.fingerprint(s.observed.trigger.value.definition, s.observed.code.value.definition)
    ensures ClassifyPair(env, s) == Nothing
  {
    LegalNameIsMarkerField(s.instance);
    LegalNameIsMarkerField(p.listener);
    OwnedIff(true, p, s.observed.trigger.value.marker, s.instance);
    OwnedIff(true, p, s.observed.code.value.marker, s.instance);
  }

  /** A pair nothing is recorded or observed of is left alone where its listener is disabled or no
      longer has the operation. */
  lemma AbsentIsNothing(env: Env, s: PairSources)
    requires s.target.refusal.None? && s.recorded.trigger.None? && !s.ObservedAny()
    requires s.desired.listenerPresent && (!s.desired.operationPresent || !s.desired.enabled)
    ensures ClassifyPair(env, s) == Nothing
  {}

  // ----- what every apply keeps --------------------------------------------------------------------

  /** The registry goes on naming the generated names. */
  lemma NamesStayGenerated(env: Env, db: Database, cfg: Config, actions: seq<Action>, objects: seq<ApplyObject>, steps: seq<Step>, db': Database)
    requires Commits(env, db, cfg, actions, objects, steps, db')
    ensures RecordedNames(env, db')
  {
    forall n | n in db'.listeners ensures LegalName(n) {
      EntryIsLegal(env, db, cfg, actions, objects, steps, db', n);
    }
    forall p | p in db'.rows
      ensures LegalPair(p) && db'.rows[p].triggerName == NameOf(p, env.hashed) && db'.rows[p].functionName == NameOf(p, env.hashed)
    {
      RowIsGenerated(env, db, cfg, actions, objects, steps, db', p);
    }
  }

  lemma EntryIsLegal(env: Env, db: Database, cfg: Config, actions: seq<Action>, objects: seq<ApplyObject>, steps: seq<Step>, db': Database, n: string)
    requires Commits(env, db, cfg, actions, objects, steps, db') && n in db'.listeners
    ensures LegalName(n)
  {
    if Acts(actions, n) {
      SyncedAt(env, RunSteps(db, steps).value, cfg, actions, db', n);
      FoundIsOneOf(cfg.listeners, n);
    } else {
      NoActionSameSide(env, db, cfg, actions, objects, steps, db', n);
    }
  }

  lemma RowIsGenerated(env: Env, db: Database, cfg: Config, actions: seq<Action>, objects: seq<ApplyObject>, steps: seq<Step>, db': Database, p: Pair)
    requires Commits(env, db, cfg, actions, objects, steps, db') && p in db'.rows
    ensures p.listener in db'.listeners
    ensures LegalPair(p) && db'.rows[p].triggerName == NameOf(p, env.hashed) && db'.rows[p].functionName == NameOf(p, env.hashed)
  {
    if !Acts(actions, p.listener) {
      NoActionSameSide(env, db, cfg, actions, objects, steps, db', p.listener);
    } else if FindListener(cfg.listeners, p.listener).None? {
      SyncedAt(env, RunSteps(db, steps).value, cfg, actions, db', p.listener);
    } else {
      var l, t := ActingEntry(env, db, cfg, actions, objects, steps, db', p.listener);
      FoundIsOneOf(cfg.listeners, p.listener);
      DesiredOperationsAre(l, p.operation);
      RegistryRowIs(env, RunSteps(db, steps).value, l, t.oid, p.operation);
    }
  }

  lemma RegistryRowIs(env: Env, mid: Database, l: Listener, oid: Oid, o: string)
    requires o in RegistryTriggers(env, mid, l, oid)
    ensures o in DesiredOperations(l) && KnownOperation(o)
    ensures RecordedPair(env, mid, oid, NameOf(Pair(l.name, o), env.hashed)) == Some(RegistryTriggers(env, mid, l, oid)[o])
    ensures RegistryTriggers(env, mid, l, oid)[o].triggerName == NameOf(Pair(l.name, o), env.hashed)
    ensures RegistryTriggers(env, mid, l, oid)[o].functionName == NameOf(Pair(l.name, o), env.hashed)
  {}

  /** No trigger without its relation and its function. */
  ghost predicate NoDangling(db: Database) {
    forall place :: place in db.triggers ==> place.oid in db.tables && db.triggers[place].executes in db.functions
  }

  lemma StatementKeepsDependencies(db: Database, s: Statement)
    requires NoDangling(db) && Execute(db, s).Some?
    ensures NoDangling(Execute(db, s).value)
  {
    if s.DropFunction? {
      assert forall place :: place in db.triggers ==> db.triggers[place].executes != s.name;
    }
  }

  lemma {:induction false} StatementsKeepDependencies(db: Database, statements: seq<Statement>)
    requires NoDangling(db) && ExecuteAll(db, statements).Some?
    ensures NoDangling(ExecuteAll(db, statements).value)
    decreases |statements|
  {
    if statements != [] {
      StatementKeepsDependencies(db, statements[0]);
      StatementsKeepDependencies(Execute(db, statements[0]).value, statements[1..]);
    }
  }

  lemma {:induction false} StepsKeepDependencies(db: Database, steps: seq<Step>)
    requires NoDangling(db) && RunSteps(db, steps).Some?
    ensures NoDangling(RunSteps(db, steps).value)
    decreases |steps|
  {
    if steps != [] {
      StatementsKeepDependencies(db, steps[0].Statements());
      StepsKeepDependencies(ExecuteAll(db, steps[0].Statements()).value, steps[1..]);
    }
  }

  lemma StaysConsistent(env: Env, db: Database, cfg: Config, actions: seq<Action>, objects: seq<ApplyObject>, steps: seq<Step>, db': Database)
    requires Commits(env, db, cfg, actions, objects, steps, db')
    ensures Consistent(env, db')
  {
    RunKeepsTables(env, db, cfg, actions, objects, steps);
    StepsKeepDependencies(db, steps);
    assert NoDangling(db');
    forall p | p in db'.rows ensures p.listener in db'.listeners {
      RowIsGenerated(env, db, cfg, actions, objects, steps, db', p);
    }
  }

  lemma MarkerIsInjective(instance: string, p: Pair, q: Pair)
    requires LegalName(instance) && LegalPair(p) && LegalPair(q) && Marker(instance, p) == Marker(instance, q)
    ensures p == q
  {
    LegalNameIsMarkerField(instance);
    LegalNameIsMarkerField(p.listener);
    LegalNameIsMarkerField(q.listener);
    MarkerRoundTrip(instance, p);
    MarkerRoundTrip(instance, q);
  }

  lemma MarkersStayInPlace(env: Env, db: Database, cfg: Config, actions: seq<Action>, objects: seq<ApplyObject>, steps: seq<Step>, db': Database)
    requires Commits(env, db, cfg, actions, objects, steps, db')
    ensures MarkersInPlace(env, cfg.instance, db')
  {
    var mid := RunSteps(db, steps).value;
    forall f, p | f in db'.functions && LegalPair(p) && db'.functions[f].marker == Some(Marker(cfg.instance, p)) ensures f == NameOf(p, env.hashed) {
      if exists s :: s in steps && s.item.name == f {
        var s :| s in steps && s.item.name == f;
        TouchedMarker(env, db, cfg, actions, objects, steps, s, p);
      } else {
        RunsAreSound(env, db, cfg, actions, objects, steps);
        OtherStepsKeep(db, steps, 0, f);
      }
    }
  }

  /** A function a schedule touched and left standing is one it created, under its own pair's marker. */
  lemma TouchedMarker(env: Env, db: Database, cfg: Config, actions: seq<Action>, objects: seq<ApplyObject>, steps: seq<Step>, s: Step, p: Pair)
    requires Runs(env, db, cfg, actions, objects, steps) && s in steps && LegalPair(p)
    requires var mid := RunSteps(db, steps).value;
             s.item.name in mid.functions && mid.functions[s.item.name].marker == Some(Marker(cfg.instance, p))
    ensures s.item.name == NameOf(p, env.hashed)
  {
    RunsAreSound(env, db, cfg, actions, objects, steps);
    var a :| a in actions && !Skips(db, cfg, a) && ObjectForAction(env, db, cfg, a) == Some(s.item);
    ObjectIsNamed(env, db, cfg, actions, a);
    if a.kind == Create || a.kind == Replace {
      var l, t := CreatedIsInstalled(env, db, cfg, actions, objects, steps, a);
      MarkerIsInjective(cfg.instance, p, a.pair);
    } else {
      DroppedFunctionIsGone(env, db, cfg, actions, objects, steps, a, s);
    }
  }

  lemma DroppedFunctionIsGone(env: Env, db: Database, cfg: Config, actions: seq<Action>, objects: seq<ApplyObject>, steps: seq<Step>, a: Action, s: Step)
    requires Runs(env, db, cfg, actions, objects, steps) && a in actions && !Skips(db, cfg, a) && a.kind != Create && a.kind != Replace
    requires s in steps && ObjectForAction(env, db, cfg, a) == Some(s.item)
    ensures s.item.name !in RunSteps(db, steps).value.functions
  {
    var o := ActionIsAStep(env, db, cfg, actions, objects, steps, a);
    RunsAreSound(env, db, cfg, actions, objects, steps);
    assert o.creates == [] && o.drop;
    DropStepRemoves(db, steps, o);
  }

  /** The invariant of every run: an apply that commits leaves the database as it needs to find it. */
  lemma ApplyKeepsManaged(env: Env, db: Database, cfg: Config, actions: seq<Action>, objects: seq<ApplyObject>, steps: seq<Step>, db': Database)
    requires Commits(env, db, cfg, actions, objects, steps, db')
    ensures Managed(env, cfg.instance, db')
  {
    StaysConsistent(env, db, cfg, actions, objects, steps, db');
    NamesStayGenerated(env, db, cfg, actions, objects, steps, db');
    MarkersStayInPlace(env, db, cfg, actions, objects, steps, db');
  }

  // ----- the second plan ---------------------------------------------------------------------------

  /** What the second plan reads of a listener that was rewritten. */
  lemma RewrittenSource(env: Env, cfg: Config, db': Database, l: Listener, t: Target, q: Pair)
    requires cfg.Legal() && RecordedNames(env, db') && Examines(env, db', cfg, q) && LegalPair(q)
    requires FindListener(cfg.listeners, q.listener) == Some(l) && q.listener in db'.listeners && db'.listeners[q.listener] == NewRow(env, l, t)
    requires TargetOf(env, db', cfg.listeners, q.listener) == Resolution(Healthy, Some(t), None)
    ensures var s := Source(env, db', cfg, q);
            && s.instance == cfg.instance && s.target == Resolution(Healthy, Some(t), None)
            && s.desired.listenerPresent && s.desired.enabled == l.enabled && !s.desired.specificationChanged
            && s.desired.operationPresent == HasOperation(l.trigger, q.operation)
            && s.recorded == (if q in db'.rows then Recorded(q, Some(db'.listeners[q.listener]), Some(db'.rows[q])) else NOT_RECORDED)
            && s.observed == Observed(q, ReadTrigger(env, db', t.oid, NameOf(q, env.hashed)), ReadFunctionOf(env, db', t.oid, NameOf(q, env.hashed)))
  {
    SourceIs(env, db', cfg, q);
    FoundIsOneOf(cfg.listeners, q.listener);
    SameSpecChangesNothing(env, l.trigger, q.operation);
  }

  lemma AlonePairIsNothing(env: Env, cfg: Config, db': Database, q: Pair)
    requires StandsAlone(db', q) && FindListener(cfg.listeners, q.listener).Some?
    requires TargetOf(env, db', cfg.listeners, q.listener).refusal.None?
    ensures ClassifyPair(env, Source(env, db', cfg, q)) == Nothing
  {
    AloneIsBare(env, db', cfg, q);
    AbsentIsNothing(env, Source(env, db', cfg, q));
  }

  lemma DisabledPairIsNothing(env: Env, db: Database, cfg: Config, actions: seq<Action>, objects: seq<ApplyObject>, steps: seq<Step>,
                              db': Database, l: Listener, t: Target, q: Pair)
    requires Commits(env, db, cfg, actions, objects, steps, db') && Entry(env, db, cfg, RunSteps(db, steps).value, db', l, t) && !l.enabled
    requires q.listener == l.name && LegalPair(q) && Examines(env, db', cfg, q) && RecordedNames(env, db')
    requires TargetOf(env, db', cfg.listeners, l.name) == Resolution(Healthy, Some(t), None)
    ensures ClassifyPair(env, Source(env, db', cfg, q)) == Nothing
  {
    assert q !in db'.rows;
    ExaminedIsNamed(env, db', cfg, q);
    RewrittenSource(env, cfg, db', l, t, q);
    assert !StandsAlone(db', q);
    DisabledPairIsGone(env, db, cfg, actions, objects, steps, db', l, t, q);
    AbsentIsNothing(env, Source(env, db', cfg, q));
  }

  lemma OwnedIsRead(env: Env, instance: string, db: Database, oid: Oid, p: Pair)
    requires KnownOperation(p.operation) && Owned(env, instance, db, oid, p)
    ensures var trigger, code := ReadTrigger(env, db, oid, NameOf(p, env.hashed)), ReadFunctionOf(env, db, oid, NameOf(p, env.hashed));
            && trigger.Some? && trigger.value.marker == Some(Marker(instance, p))
            && code.Some? && code.value.marker == Some(Marker(instance, p))
            && RecordedPair(env, db, oid, NameOf(p, env.hashed)) ==
               Some(RecordedTrigger(NameOf(p, env.hashed), NameOf(p, env.hashed), env.fingerprint(trigger.value.definition, code.value.definition)))
  {}

  lemma EnabledPairIsNothing(env: Env, db: Database, cfg: Config, actions: seq<Action>, objects: seq<ApplyObject>, steps: seq<Step>,
                             db': Database, l: Listener, t: Target, q: Pair)
    requires Commits(env, db, cfg, actions, objects, steps, db') && Entry(env, db, cfg, RunSteps(db, steps).value, db', l, t) && l.enabled
    requires q.listener == l.name && LegalPair(q) && Examines(env, db', cfg, q) && RecordedNames(env, db')
    requires TargetOf(env, db', cfg.listeners, l.name) == Resolution(Healthy, Some(t), None)
    ensures ClassifyPair(env, Source(env, db', cfg, q)) == Nothing
  {
    var mid := RunSteps(db, steps).value;
    EveryPairIsReadBack(env, db, cfg, actions, objects, steps, db', l, t);
    ExaminedIsNamed(env, db', cfg, q);
    assert HasOperation(l.trigger, q.operation) && q in db'.rows;
    RegistryRowIs(env, mid, l, t.oid, q.operation);
    EnabledPairStands(env, db, cfg, actions, objects, steps, db', l, t, q);
    OwnedIsRead(env, cfg.instance, mid, t.oid, q);
    CatalogReadsTheSame(env, mid, db', t.oid, NameOf(q, env.hashed));
    RewrittenSource(env, cfg, db', l, t, q);
    AgreedIsNothing(env, Source(env, db', cfg, q), q);
  }

  lemma ActingPairIsNothing(env: Env, db: Database, cfg: Config, actions: seq<Action>, objects: seq<ApplyObject>, steps: seq<Step>,
                            db': Database, l: Listener, t: Target, q: Pair)
    requires Commits(env, db, cfg, actions, objects, steps, db') && Entry(env, db, cfg, RunSteps(db, steps).value, db', l, t)
    requires q.listener == l.name && Examines(env, db', cfg, q) && Settles(env, db, l, t)
    ensures ClassifyPair(env, Source(env, db', cfg, q)) == Nothing
  {
    NamesStayGenerated(env, db, cfg, actions, objects, steps, db');
    RewrittenResolves(env, db, cfg, RunSteps(db, steps).value, db', l, t);
    ExaminedIsNamed(env, db', cfg, q);
    if StandsAlone(db', q) {
      AlonePairIsNothing(env, cfg, db', q);
    } else if l.enabled {
      EnabledPairIsNothing(env, db, cfg, actions, objects, steps, db', l, t, q);
    } else {
      DisabledPairIsNothing(env, db, cfg, actions, objects, steps, db', l, t, q);
    }
  }
}
