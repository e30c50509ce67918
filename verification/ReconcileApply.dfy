/** One apply: from the plan to the objects, the one transaction that runs them, and the registry
    rewritten from what the catalog then reads back (internal/reconcile objectapply.go, applytx.go,
    registry.go and apply.go). */
module ReconcileApply {
  import opened Options
  import opened TextOrder
  import opened Sorting
  import opened ReconcileNames
  import opened ReconcileModel
  import opened ReconcileDiff
  import opened ReconcileRead
  import opened ReconcileStatements

  // ----- from actions to objects -------------------------------------------------------------------

  function RecordedName(db: Database, p: Pair): string {
    if p in db.rows then db.rows[p].triggerName else ""
  }

  function CreatesFor(env: Env, instance: string, l: Listener, target: Target, p: Pair): seq<Statement>
    requires KnownOperation(p.operation)
  {
    Creates(target.oid, NameOf(p, env.hashed), Marker(instance, p),
            env.functionText(instance, l, target.table, p.operation), env.triggerText(instance, l, target.table, p.operation))
  }

  /** The inventory of one action; nothing where the target cannot be resolved. */
  function ObjectForAction(env: Env, db: Database, cfg: Config, a: Action): Option<ApplyObject> {
    var l := FindListener(cfg.listeners, a.pair.listener);
    var resolution := TargetOf(env, db, cfg.listeners, a.pair.listener);
    if resolution.refusal.Some? || resolution.target.None? then None
    else
      var target := resolution.target.value;
      var generated := a.kind != Drop && Generates(env, db, l, a.pair.operation);
      var name := if generated then NameOf(a.pair, env.hashed) else RecordedName(db, a.pair);
      var creates := if (a.kind == Create || a.kind == Replace) && generated
                     then CreatesFor(env, cfg.instance, l.value, target, a.pair) else [];
      var drops := a.kind == Drop || a.kind == Disable || a.kind == Replace;
      // A drop is kept only for what the catalog still holds.
      Some(ApplyObject(target, name, drops && ReadTrigger(env, db, target.oid, name).Some?, creates))
  }

  /** A rename needs no statement, nor does a recorded listener that never had a trigger. */
  predicate Skips(db: Database, cfg: Config, a: Action) {
    || a.kind == Rename
    || (a.kind == Drop && FindListener(cfg.listeners, a.pair.listener).None? && !HasRows(db, a.pair.listener))
  }

  function ObjectsOf(env: Env, db: Database, cfg: Config, actions: seq<Action>): Option<seq<ApplyObject>> {
    if actions == [] then Some([])
    else
      var last := actions[|actions| - 1];
      var front := ObjectsOf(env, db, cfg, actions[..|actions| - 1]);
      var item := ObjectForAction(env, db, cfg, last);
      if front.None? || item.None? then None
      else Some(front.value + if Skips(db, cfg, last) then [] else [item.value])
  }

  method ObjectsForPlan(env: Env, db: Database, cfg: Config, actions: seq<Action>) returns (objects: Option<seq<ApplyObject>>)
    ensures objects == ObjectsOf(env, db, cfg, actions)
  {
    var list: seq<ApplyObject> := [];
    for k := 0 to |actions|
      invariant ObjectsOf(env, db, cfg, actions[..k]) == Some(list)
    {
      assert actions[..k + 1][..k] == actions[..k];
      var item := ObjectForAction(env, db, cfg, actions[k]);
      if item.None? {
        StaysNone(env, db, cfg, actions, k + 1);
        return None;
      }
      assert list + [] == list;
      if !Skips(db, cfg, actions[k]) {
        list := list + [item.value];
      }
    }
    assert actions[..|actions|] == actions;
    return Some(list);
  }

  lemma {:induction false} StaysNone(env: Env, db: Database, cfg: Config, actions: seq<Action>, k: nat)
    requires k <= |actions| && ObjectsOf(env, db, cfg, actions[..k]).None?
    ensures ObjectsOf(env, db, cfg, actions).None?
    decreases |actions|
  {
    if k < |actions| {
      var front := actions[..|actions| - 1];
      assert front[..k] == actions[..k];
      StaysNone(env, db, cfg, front, k);
    } else {
      assert actions[..k] == actions;
    }
  }

  // ----- the registry after it ---------------------------------------------------------------------

  function RecordedPair(env: Env, db: Database, oid: Oid, name: string): Option<RecordedTrigger> {
    var trigger, code := ReadTrigger(env, db, oid, name), ReadFunctionOf(env, db, oid, name);
    if trigger.None? || code.None? then None
    else Some(RecordedTrigger(name, name, env.fingerprint(trigger.value.definition, code.value.definition)))
  }

  function DesiredOperations(l: Listener): set<string> {
    set o | o in OPERATIONS && HasOperation(l.trigger, o)
  }

  predicate AllPairsRead(env: Env, db: Database, l: Listener, oid: Oid) {
    forall o :: o in DesiredOperations(l) && KnownOperation(o) ==> RecordedPair(env, db, oid, NameOf(Pair(l.name, o), env.hashed)).Some?
  }

  /** The rows of one listener by operation; none at all for a disabled one, and none at all where
      any pair is not found. */
  function RegistryTriggers(env: Env, db: Database, l: Listener, oid: Oid): map<string, RecordedTrigger> {
    if !l.enabled || !AllPairsRead(env, db, l, oid) then map[]
    else map o | o in DesiredOperations(l) && KnownOperation(o) :: RecordedPair(env, db, oid, NameOf(Pair(l.name, o), env.hashed)).value
  }

  function NewRow(env: Env, l: Listener, target: Target): RecordedListener {
    RecordedListener(l.trigger, env.specHash(l.trigger), target.table.name, target.oid, l.enabled)
  }

  predicate Acts(actions: seq<Action>, name: string) {
    exists a :: a in actions && a.pair.listener == name
  }

  /** What one listener's registry entry becomes: rewritten, removed, or left. */
  ghost predicate SyncedListener(env: Env, mid: Database, cfg: Config, actions: seq<Action>, name: string, db': Database) {
    var l := FindListener(cfg.listeners, name);
    if !Acts(actions, name) then SameEntry(mid, db', name)
    else if l.None? then name !in db'.listeners && forall p :: p in db'.rows ==> p.listener != name
    else
      var target := ConfiguredTarget(env, mid, l.value).target;
      && target.Some?
      && name in db'.listeners && db'.listeners[name] == NewRow(env, l.value, target.value)
      && EntryRows(db', name, RegistryTriggers(env, mid, l.value, target.value.oid))
  }

  ghost predicate SameEntry(db: Database, db': Database, name: string) {
    && RecordedOf(db, name) == RecordedOf(db', name)
    && forall p: Pair :: p.listener == name ==> (p in db'.rows <==> p in db.rows) && (p in db.rows ==> db'.rows[p] == db.rows[p])
  }

  ghost predicate EntryRows(db: Database, name: string, triggers: map<string, RecordedTrigger>) {
    forall p: Pair :: p.listener == name ==> (p in db.rows <==> p.operation in triggers) && (p in db.rows ==> db.rows[p] == triggers[p.operation])
  }

  predicate SameCatalog(db: Database, db': Database) {
    db'.tables == db.tables && db'.names == db.names && db'.triggers == db.triggers && db'.functions == db.functions
  }

  ghost predicate Synced(env: Env, mid: Database, cfg: Config, actions: seq<Action>, db': Database) {
    SameCatalog(mid, db') && forall name :: SyncedListener(env, mid, cfg, actions, name, db')
  }

  /** A committed apply of a plan. */
  ghost predicate Committed(env: Env, db: Database, cfg: Config, actions: seq<Action>, objects: seq<ApplyObject>, steps: seq<Step>, db': Database) {
    && ObjectsOf(env, db, cfg, actions) == Some(objects) && IsSchedule(objects, steps)
    && RunSteps(db, steps).Some? && Synced(env, RunSteps(db, steps).value, cfg, actions, db')
  }

  ghost predicate Applied(env: Env, db: Database, cfg: Config, actions: seq<Action>, db': Database) {
    exists objects, steps :: Committed(env, db, cfg, actions, objects, steps, db')
  }
}
