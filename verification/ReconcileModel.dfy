/** The database as reconciliation reads it, and the pure decisions over those readings
    (internal/reconcile targetresolve.go, spechash.go and classify.go). */
module ReconcileModel {
  import opened Options
  import opened ReconcileNames

  type Oid = nat

  // ----- configuration -----------------------------------------------------------------------------

  /** One operation of a trigger; `body` is everything but its kind. */
  datatype OperationSpec = OperationSpec(kind: string, body: string)

  /** A trigger section. `shared` is everything but the table and the operations. */
  datatype TriggerSpec = TriggerSpec(table: string, shared: string, operations: seq<OperationSpec>)

  datatype Listener = Listener(name: string, enabled: bool, trigger: TriggerSpec)

  datatype Config = Config(instance: string, listeners: seq<Listener>) {
    /** The rules on names and operations hold, and no listener name is used twice. */
    predicate Legal() {
      && LegalName(instance)
      && (forall l :: l in listeners ==> LegalName(l.name) && LegalOperations(l.trigger.operations))
      && forall i, j :: 0 <= i < j < |listeners| ==> listeners[i].name != listeners[j].name
    }
  }

  predicate LegalOperations(operations: seq<OperationSpec>) {
    && (forall o :: o in operations ==> KnownOperation(o.kind))
    && forall i, j :: 0 <= i < j < |operations| ==> operations[i].kind != operations[j].kind
  }

  predicate HasOperation(spec: TriggerSpec, kind: string) {
    exists o :: o in spec.operations && o.kind == kind
  }

  // ----- the database ------------------------------------------------------------------------------

  datatype Table = Table(name: string, columns: string)

  datatype Target = Target(oid: Oid, table: Table)

  /** Where a trigger stands: on which relation, under which name. */
  datatype Place = Place(oid: Oid, name: string)

  datatype Trigger = Trigger(executes: string, marker: Option<string>, text: string)

  datatype Function = Function(marker: Option<string>, text: string)

  datatype RecordedListener = RecordedListener(trigger: TriggerSpec, specHash: string, targetTable: string, targetOid: Oid, enabled: bool)

  datatype RecordedTrigger = RecordedTrigger(triggerName: string, functionName: string, ddlHash: string)

  /** The catalog and the registry. `names` is the catalog's own index of `tables` by name. */
  datatype Database = Database(
    tables: map<Oid, Table>, names: map<string, Oid>,
    triggers: map<Place, Trigger>, functions: map<string, Function>,
    listeners: map<string, RecordedListener>, rows: map<Pair, RecordedTrigger>)

  /** What is taken as given: name resolution, the generator's texts, what the catalog reads back of
      a text, and the digests. */
  datatype Env = Env(
    canonical: string -> string,
    hashed: string -> string,
    specHash: TriggerSpec -> string,
    functionText: (string, Listener, Table, string) -> string,
    triggerText: (string, Listener, Table, string) -> string,
    readTrigger: (string, string) -> string,
    readFunction: string -> string,
    fingerprint: (string, string) -> string)

  /** What PostgreSQL keeps true of its catalog and the registry's foreign key. */
  ghost predicate Consistent(env: Env, db: Database) {
    && (forall oid :: oid in db.tables ==> db.tables[oid].name in db.names && db.names[db.tables[oid].name] == oid)
    && (forall n :: n in db.names ==> db.names[n] in db.tables && db.tables[db.names[n]].name == n && env.canonical(n) == n)
    && (forall place :: place in db.triggers ==> place.oid in db.tables && db.triggers[place].executes in db.functions)
    && (forall p :: p in db.rows ==> p.listener in db.listeners)
  }

  // ----- readings ----------------------------------------------------------------------------------

  function ResolveOid(db: Database, oid: Oid): Option<Target> {
    if oid in db.tables then Some(Target(oid, db.tables[oid])) else None
  }

  function ResolveName(env: Env, db: Database, name: string): Option<Target> {
    var canonical := env.canonical(name);
    if canonical in db.names then ResolveOid(db, db.names[canonical]) else None
  }

  datatype Reading = Reading(marker: Option<string>, definition: string)

  function ReadTrigger(env: Env, db: Database, oid: Oid, name: string): Option<Reading> {
    var place := Place(oid, name);
    if oid in db.tables && place in db.triggers then
      Some(Reading(db.triggers[place].marker, env.readTrigger(db.triggers[place].text, db.tables[oid].name)))
    else None
  }

  /** The function a trigger executes, found through the trigger. */
  function ReadFunctionOf(env: Env, db: Database, oid: Oid, name: string): Option<Reading> {
    var place := Place(oid, name);
    if oid in db.tables && place in db.triggers && db.triggers[place].executes in db.functions then
      var f := db.functions[db.triggers[place].executes];
      Some(Reading(f.marker, env.readFunction(f.text)))
    else None
  }

  // ----- the target of a listener ------------------------------------------------------------------

  datatype Outcome = Unresolved | New | Healthy | Renamed | Dropped | DroppedAndRecreated

  datatype Refusal =
    | DroppedTarget(listener: string, table: string)
    | RetargetedListener(listener: string, recorded: string, configured: string)
    | ForeignObject(object: string, marker: Option<string>)

  datatype Resolution = Resolution(outcome: Outcome, target: Option<Target>, refusal: Option<Refusal>)

  function ClassifyTarget(recorded: bool, oid: bool, named: bool, sameName: bool): Outcome {
    if !recorded && named then New
    else if oid && sameName then Healthy
    else if oid then Renamed
    else if named then DroppedAndRecreated
    else Dropped
  }

  function DroppedResolution(listener: string, table: string): Resolution {
    Resolution(Dropped, None, Some(DroppedTarget(listener, table)))
  }

  function ResolveListenerTarget(env: Env, db: Database, listener: string, name: string, recorded: Option<RecordedListener>): Resolution {
    if recorded.None? then
      var reading := ResolveName(env, db, name);
      if ClassifyTarget(false, false, reading.Some?, false) == Dropped then DroppedResolution(listener, name)
      else Resolution(New, reading, None)
    else
      var prior := recorded.value;
      var byOid := ResolveOid(db, prior.targetOid);
      var byName := ResolveName(env, db, prior.targetTable);
      var byConfigured := if name != prior.targetTable then ResolveName(env, db, name) else byName;
      if byOid.Some? && byConfigured.Some? && byConfigured.value.oid != prior.targetOid then
        Resolution(Dropped, None, Some(RetargetedListener(listener, prior.targetTable, name)))
      else
        var sameName := byOid.Some? && byOid.value.table.name == prior.targetTable;
        var outcome := ClassifyTarget(true, byOid.Some?, byName.Some?, sameName);
        if outcome == Dropped then DroppedResolution(listener, prior.targetTable)
        else Resolution(outcome, if outcome == DroppedAndRecreated then byName else byOid, None)
  }

  // ----- specification changes ---------------------------------------------------------------------

  /** The encoding of the operation of that kind; the last one, as a map built in order keeps it. */
  function OperationByKind(operations: seq<OperationSpec>, kind: string): Option<string> {
    if operations == [] then None
    else
      var last := operations[|operations| - 1];
      if last.kind == kind then Some(last.body) else OperationByKind(operations[..|operations| - 1], kind)
  }

  function SharedChanged(env: Env, recorded: TriggerSpec, desired: TriggerSpec): bool {
    env.specHash(recorded.(operations := [])) != env.specHash(desired.(operations := []))
  }

  /** Which operations of `desired` changed against the recorded section: all of them when a shared
      field did, else those whose own encoding did. */
  method ChangedTriggerOperations(env: Env, recorded: TriggerSpec, desired: TriggerSpec) returns (changed: map<string, bool>)
    ensures changed == ChangesOf(env, recorded, desired)
  {
    var shared := SharedChanged(env, recorded, desired);
    var prior := OperationJsonByKind(recorded.operations);
    var current := OperationJsonByKind(desired.operations);
    forall kind ensures OperationByKind(desired.operations, kind).Some? <==> kind in Kinds(desired.operations) {
      KindIsEncoded(desired.operations, kind);
    }
    changed := map kind | kind in current :: shared || kind !in prior || prior[kind] != current[kind];
  }

  method OperationJsonByKind(operations: seq<OperationSpec>) returns (encoded: map<string, string>)
    ensures forall kind :: kind in encoded <==> OperationByKind(operations, kind).Some?
    ensures forall kind :: kind in encoded ==> encoded[kind] == OperationByKind(operations, kind).value
  {
    encoded := map[];
    for k := 0 to |operations|
      invariant forall kind :: kind in encoded <==> OperationByKind(operations[..k], kind).Some?
      invariant forall kind :: kind in encoded ==> encoded[kind] == OperationByKind(operations[..k], kind).value
    {
      assert operations[..k + 1][..k] == operations[..k];
      encoded := encoded[operations[k].kind := operations[k].body];
    }
    assert operations[..|operations|] == operations;
  }

  function Kinds(operations: seq<OperationSpec>): set<string> {
    set o | o in operations :: o.kind
  }

  lemma {:induction false} KindIsEncoded(operations: seq<OperationSpec>, kind: string)
    ensures OperationByKind(operations, kind).Some? <==> kind in Kinds(operations)
  {
    if operations != [] {
      var front, last := operations[..|operations| - 1], operations[|operations| - 1];
      KindIsEncoded(front, kind);
      assert operations == front + [last];
    }
  }

  function ChangesOf(env: Env, recorded: TriggerSpec, desired: TriggerSpec): map<string, bool> {
    map kind | kind in Kinds(desired.operations) && OperationByKind(desired.operations, kind).Some? ::
      SharedChanged(env, recorded, desired) ||
      OperationByKind(recorded.operations, kind) != OperationByKind(desired.operations, kind)
  }

  // ----- the classifier ----------------------------------------------------------------------------

  datatype ActionKind = Create | Replace | Drop | Rename | Disable

  datatype Action = Action(pair: Pair, kind: ActionKind)

  const NO_PAIR := Pair("", "")

  datatype Desired = Desired(
    pair: Pair, listenerPresent: bool, operationPresent: bool, enabled: bool,
    specificationChanged: bool, specificationKnown: bool, specHash: string)

  datatype Recorded = Recorded(pair: Pair, listener: Option<RecordedListener>, trigger: Option<RecordedTrigger>)

  datatype Observed = Observed(pair: Pair, trigger: Option<Reading>, code: Option<Reading>)

  const NOT_DESIRED := Desired(NO_PAIR, false, false, false, false, false, "")
  const NOT_RECORDED := Recorded(NO_PAIR, None, None)
  const NOT_OBSERVED := Observed(NO_PAIR, None, None)
  const NO_TARGET := Resolution(Unresolved, None, None)

  datatype PairSources = PairSources(desired: Desired, recorded: Recorded, observed: Observed, target: Resolution, instance: string) {
    function ActionPair(): Pair {
      if desired.pair.listener != "" then desired.pair
      else if recorded.pair.listener != "" then recorded.pair
      else observed.pair
    }

    predicate ObservedAny() {
      observed.trigger.Some? || observed.code.Some?
    }

    predicate ObservedComplete() {
      observed.trigger.Some? && observed.code.Some?
    }

    function ObjectIdentity(kind: string): string {
      var recordedName :=
        if recorded.trigger.None? then ""
        else if kind == "function" then recorded.trigger.value.functionName
        else recorded.trigger.value.triggerName;
      kind + " " + if recordedName != "" then recordedName else ActionPair().listener + "/" + ActionPair().operation
    }
  }

  datatype Classification = Nothing | Act(action: Action) | Refuse(refusal: Refusal)

  function OwnershipRefusal(s: PairSources, kind: string, reading: Option<Reading>): Option<Refusal> {
    if reading.Some? && !DetermineOwnership(s.recorded.trigger.Some?, s.recorded.pair, reading.value.marker, s.instance).Owned?
    then Some(ForeignObject(s.ObjectIdentity(kind), reading.value.marker))
    else None
  }

  function ObservedOwnershipRefusal(s: PairSources): Option<Refusal> {
    var trigger := OwnershipRefusal(s, "trigger", s.observed.trigger);
    if trigger.Some? then trigger else OwnershipRefusal(s, "function", s.observed.code)
  }

  function ClassifyManagedPair(env: Env, s: PairSources): Classification {
    var act := (kind: ActionKind) => Act(Action(s.ActionPair(), kind));
    if s.target.outcome == DroppedAndRecreated then act(Replace)
    else if s.recorded.trigger.None? || !s.ObservedComplete() then act(Create)
    else if s.target.outcome == Renamed then act(Rename)
    else if s.desired.specificationChanged ||
            env.fingerprint(s.observed.trigger.value.definition, s.observed.code.value.definition)
              != s.recorded.trigger.value.ddlHash
    then act(Replace)
    else Nothing
  }

  function ClassifyPair(env: Env, s: PairSources): Classification {
    var refusal := ObservedOwnershipRefusal(s);
    var absent := s.recorded.trigger.None? && !s.ObservedAny();
    if s.target.refusal.Some? then Refuse(s.target.refusal.value)
    else if refusal.Some? then Refuse(refusal.value)
    else if !s.desired.listenerPresent then
      if absent && s.recorded.listener.None? then Nothing else Act(Action(s.ActionPair(), Drop))
    else if !s.desired.operationPresent then
      if absent then Nothing else Act(Action(s.ActionPair(), Drop))
    else if !s.desired.enabled then
      if absent then Nothing else Act(Action(s.ActionPair(), Disable))
    else ClassifyManagedPair(env, s)
  }
}
