/** From configuration, registry and catalog to the input of the join (internal/reconcile reconcile.go). */
module ReconcileRead {
  import opened Options
  import opened ReconcileNames
  import opened ReconcileModel
  import opened ReconcileDiff

  // ----- what the readings say of one listener and one pair ----------------------------------------

  function FindListener(listeners: seq<Listener>, name: string): Option<Listener> {
    if listeners == [] then None
    else if listeners[|listeners| - 1].name == name then Some(listeners[|listeners| - 1])
    else FindListener(listeners[..|listeners| - 1], name)
  }

  function RecordedOf(db: Database, name: string): Option<RecordedListener> {
    if name in db.listeners then Some(db.listeners[name]) else None
  }

  function ConfiguredTarget(env: Env, db: Database, l: Listener): Resolution {
    ResolveListenerTarget(env, db, l.name, l.trigger.table, RecordedOf(db, l.name))
  }

  function RecordedTarget(env: Env, db: Database, name: string): Resolution
    requires name in db.listeners
  {
    ResolveListenerTarget(env, db, name, db.listeners[name].targetTable, Some(db.listeners[name]))
  }

  function TargetOf(env: Env, db: Database, listeners: seq<Listener>, name: string): Resolution {
    var l := FindListener(listeners, name);
    if l.Some? then ConfiguredTarget(env, db, l.value)
    else if name in db.listeners then RecordedTarget(env, db, name)
    else NO_TARGET
  }

  /** Whether the generator yields a set for the pair: it is reached where the target is not refused. */
  predicate Generates(env: Env, db: Database, l: Option<Listener>, operation: string) {
    && l.Some? && KnownOperation(operation) && HasOperation(l.value.trigger, operation)
    && ConfiguredTarget(env, db, l.value).refusal.None?
  }

  function DesiredOf(env: Env, db: Database, listeners: seq<Listener>, p: Pair): Desired {
    var l := FindListener(listeners, p.listener);
    if Generates(env, db, l, p.operation)
    then Desired(p, true, true, l.value.enabled, false, false, env.specHash(l.value.trigger))
    else NOT_DESIRED
  }

  function ListenerEntry(env: Env, db: Database, l: Listener): DesiredListener {
    var recorded := RecordedOf(db, l.name);
    DesiredListener(l.name, env.specHash(l.trigger), l.enabled, recorded.Some?,
                    if recorded.Some? then ChangesOf(env, recorded.value.trigger, l.trigger) else map[])
  }

  function ListenerEntryOf(env: Env, db: Database, listeners: seq<Listener>, name: string): Option<DesiredListener> {
    var l := FindListener(listeners, name);
    if l.Some? then Some(ListenerEntry(env, db, l.value)) else None
  }

  predicate HasRows(db: Database, name: string) {
    exists p :: p in db.rows && p.listener == name
  }

  /** A recorded listener without operation rows still stands in the join, under no operation. */
  predicate StandsAlone(db: Database, p: Pair) {
    p.operation == "" && p.listener in db.listeners && !HasRows(db, p.listener)
  }

  function RecordedEntry(db: Database, p: Pair): Recorded {
    if p.listener in db.listeners && p in db.rows then Recorded(p, Some(db.listeners[p.listener]), Some(db.rows[p]))
    else if StandsAlone(db, p) then Recorded(p, Some(db.listeners[p.listener]), None)
    else NOT_RECORDED
  }

  datatype ObjectNames = ObjectNames(trigger: string, code: string)

  /** The names to read a pair's objects under: the recorded ones, else the generated ones. */
  function NamesOf(env: Env, db: Database, listeners: seq<Listener>, p: Pair): Option<ObjectNames> {
    if p.listener in db.listeners && p in db.rows then Some(RowNames(db.rows[p]))
    else if Generates(env, db, FindListener(listeners, p.listener), p.operation) then
      Some(ObjectNames(NameOf(p, env.hashed), NameOf(p, env.hashed)))
    else None
  }

  function ReadObservedPair(env: Env, db: Database, target: Resolution, p: Pair, names: ObjectNames): Observed {
    if target.refusal.Some? || target.target.None? then Observed(p, None, None)
    else
      var oid := target.target.value.oid;
      Observed(p, ReadTrigger(env, db, oid, names.trigger), ReadFunctionOf(env, db, oid, names.trigger))
  }

  function ObservedEntry(env: Env, db: Database, listeners: seq<Listener>, p: Pair): Observed {
    var names := NamesOf(env, db, listeners, p);
    if names.Some? then ReadObservedPair(env, db, TargetOf(env, db, listeners, p.listener), p, names.value) else NOT_OBSERVED
  }

  /** Everything the classification of one pair is decided from. */
  function Source(env: Env, db: Database, cfg: Config, p: Pair): PairSources {
    ShortCircuited(PairSources(
      WithListener(DesiredOf(env, db, cfg.listeners, p), p, ListenerEntryOf(env, db, cfg.listeners, p.listener)),
      RecordedEntry(db, p), ObservedEntry(env, db, cfg.listeners, p),
      TargetOf(env, db, cfg.listeners, p.listener), cfg.instance))
  }

  const OPERATIONS := ["insert", "update", "delete"]

  predicate Examines(env: Env, db: Database, cfg: Config, p: Pair) {
    NamesOf(env, db, cfg.listeners, p).Some? || StandsAlone(db, p)
  }

  function PairsOf(env: Env, db: Database, cfg: Config): set<Pair> {
    (set l, o | l in cfg.listeners && o in OPERATIONS && Examines(env, db, cfg, Pair(l.name, o)) :: Pair(l.name, o))
    + (set p | p in db.rows && Examines(env, db, cfg, p))
    + (set n | n in db.listeners && Examines(env, db, cfg, Pair(n, "")) :: Pair(n, ""))
  }

  lemma KnownIsListed(operation: string)
    ensures KnownOperation(operation) <==> operation in OPERATIONS
  {
    assert OPERATIONS[0] == "insert" && OPERATIONS[1] == "update" && OPERATIONS[2] == "delete";
  }

  lemma PairsOfAre(env: Env, db: Database, cfg: Config, p: Pair)
    ensures p in PairsOf(env, db, cfg) <==> Examines(env, db, cfg, p)
  {
    if Examines(env, db, cfg, p) && p !in db.rows && !StandsAlone(db, p) {
      FoundIsOneOf(cfg.listeners, p.listener);
      var l := FindListener(cfg.listeners, p.listener).value;
      KnownIsListed(p.operation);
      assert l in cfg.listeners && p == Pair(l.name, p.operation);
    }
  }

  lemma {:induction false} FoundIsOneOf(listeners: seq<Listener>, name: string)
    ensures FindListener(listeners, name).Some? ==>
              FindListener(listeners, name).value in listeners && FindListener(listeners, name).value.name == name
    ensures FindListener(listeners, name).None? ==> forall l :: l in listeners ==> l.name != name
    decreases |listeners|
  {
    if listeners != [] {
      FoundIsOneOf(listeners[..|listeners| - 1], name);
      assert listeners == listeners[..|listeners| - 1] + [listeners[|listeners| - 1]];
    }
  }

  function PlanClassifier(env: Env, db: Database, cfg: Config): Classifier {
    (p: Pair) => ClassifyPair(env, Source(env, db, cfg, p))
  }

  /** What Plan answers for a database and a configuration. */
  ghost predicate IsPlanFor(env: Env, db: Database, cfg: Config, result: PlanResult) {
    IsPlanOf(PlanClassifier(env, db, cfg), PairsOf(env, db, cfg), result)
  }

  // ----- reading it --------------------------------------------------------------------------------

  lemma FindMore(listeners: seq<Listener>, l: Listener)
    ensures forall n :: FindListener(listeners + [l], n) == if l.name == n then Some(l) else FindListener(listeners, n)
  {
    assert (listeners + [l])[..|listeners|] == listeners;
  }

  lemma NotFoundYet(listeners: seq<Listener>, name: string)
    requires forall l :: l in listeners ==> l.name != name
    ensures FindListener(listeners, name).None?
  {
    FoundIsOneOf(listeners, name);
  }

  /** Those of the generator's first `k` operations that `l` asks for, in the generator's order. */
  function Ordered(l: Listener, k: nat): seq<string>
    requires k <= |OPERATIONS|
  {
    if k == 0 then []
    else Ordered(l, k - 1) + if HasOperation(l.trigger, OPERATIONS[k - 1]) then [OPERATIONS[k - 1]] else []
  }

  /** The operations the generator yields sets for, in its own fixed order. */
  method OrderedOperations(l: Listener) returns (operations: seq<string>)
    ensures operations == Ordered(l, |OPERATIONS|)
    ensures forall o :: o in operations <==> KnownOperation(o) && HasOperation(l.trigger, o)
  {
    operations := [];
    for k := 0 to |OPERATIONS|
      invariant operations == Ordered(l, k)
      invariant forall o :: o in operations <==> o in OPERATIONS[..k] && HasOperation(l.trigger, o)
    {
      assert OPERATIONS[..k + 1] == OPERATIONS[..k] + [OPERATIONS[k]];
      if HasOperation(l.trigger, OPERATIONS[k]) {
        operations := operations + [OPERATIONS[k]];
      }
    }
    assert OPERATIONS[..|OPERATIONS|] == OPERATIONS;
    forall o ensures KnownOperation(o) <==> o in OPERATIONS {
      KnownIsListed(o);
    }
  }

  predicate OneOf(p: Pair, name: string, operations: seq<string>) {
    p.listener == name && p.operation in operations
  }

  ghost predicate DesiredExtended(env: Env, l: Listener, operations: seq<string>, before: seq<Desired>, after: seq<Desired>) {
    && (forall p :: LatestDesired(after, p) == if OneOf(p, l.name, operations) then DesiredEntry(env, l, p) else LatestDesired(before, p))
    && forall p :: p in PairsDesired(after) <==> p in PairsDesired(before) || OneOf(p, l.name, operations)
  }

  function PairsDesired(items: seq<Desired>): set<Pair> {
    set d | d in items :: d.pair
  }

  function DesiredEntry(env: Env, l: Listener, p: Pair): Desired {
    Desired(p, true, true, l.enabled, false, false, env.specHash(l.trigger))
  }

  function GeneratedNames(env: Env, p: Pair): ObjectNames {
    if KnownOperation(p.operation) then ObjectNames(NameOf(p, env.hashed), NameOf(p, env.hashed)) else ObjectNames("", "")
  }

  ghost predicate NamesExtended(env: Env, name: string, operations: seq<string>, before: map<Pair, ObjectNames>, after: map<Pair, ObjectNames>) {
    && (forall p :: p in after <==> p in before || OneOf(p, name, operations))
    && forall p :: p in after ==> after[p] == if OneOf(p, name, operations) then GeneratedNames(env, p) else before[p]
  }

  lemma DesiredOneMore(env: Env, l: Listener, operations: seq<string>, o: string, before: seq<Desired>, after: seq<Desired>)
    requires DesiredExtended(env, l, operations, before, after)
    ensures DesiredExtended(env, l, operations + [o], before, after + [DesiredEntry(env, l, Pair(l.name, o))])
  {
    var d := DesiredEntry(env, l, Pair(l.name, o));
    LatestDesiredMore(after, d);
    assert PairsDesired(after + [d]) == PairsDesired(after) + {d.pair};
  }

  lemma NamesOneMore(env: Env, name: string, operations: seq<string>, o: string, before: map<Pair, ObjectNames>, after: map<Pair, ObjectNames>)
    requires NamesExtended(env, name, operations, before, after)
    ensures NamesExtended(env, name, operations + [o], before, after[Pair(name, o) := GeneratedNames(env, Pair(name, o))])
  {}

  method AppendSets(env: Env, l: Listener, operations: seq<string>, desired: seq<Desired>, names: map<Pair, ObjectNames>)
    returns (desired': seq<Desired>, names': map<Pair, ObjectNames>)
    ensures DesiredExtended(env, l, operations, desired, desired')
    ensures NamesExtended(env, l.name, operations, names, names')
  {
    desired', names' := desired, names;
    for k := 0 to |operations|
      invariant DesiredExtended(env, l, operations[..k], desired, desired')
      invariant NamesExtended(env, l.name, operations[..k], names, names')
    {
      assert operations[..k + 1] == operations[..k] + [operations[k]];
      DesiredOneMore(env, l, operations[..k], operations[k], desired, desired');
      NamesOneMore(env, l.name, operations[..k], operations[k], names, names');
      desired' := desired' + [DesiredEntry(env, l, Pair(l.name, operations[k]))];
      names' := names'[Pair(l.name, operations[k]) := GeneratedNames(env, Pair(l.name, operations[k]))];
    }
    assert operations[..|operations|] == operations;
  }

  lemma OneLess<T>(all: set<T>, left: set<T>, x: T)
    requires x in left && left <= all
    ensures all - (left - {x}) == all - left + {x} && left - {x} + {x} == left
    ensures left - {x} < left && left - {x} <= all
  {}

  /** What the configured side has gathered from the listeners read so far. */
  datatype Gathered = Gathered(
    desired: seq<Desired>, listeners: seq<DesiredListener>, targets: map<string, Resolution>, names: map<Pair, ObjectNames>)

  ghost predicate DesiredAre(env: Env, db: Database, listeners: seq<Listener>, desired: seq<Desired>) {
    && (forall p :: LatestDesired(desired, p) == DesiredOf(env, db, listeners, p))
    && forall p :: p in PairsDesired(desired) <==> Generates(env, db, FindListener(listeners, p.listener), p.operation)
  }

  ghost predicate NamesAre(env: Env, db: Database, listeners: seq<Listener>, names: map<Pair, ObjectNames>) {
    && (forall p :: p in names <==> Generates(env, db, FindListener(listeners, p.listener), p.operation))
    && forall p :: p in names ==> names[p] == GeneratedNames(env, p)
  }

  ghost predicate ListenersAre(env: Env, db: Database, listeners: seq<Listener>, entries: seq<DesiredListener>) {
    forall n :: LatestListener(entries, n) == ListenerEntryOf(env, db, listeners, n)
  }

  ghost predicate TargetsAre(env: Env, db: Database, listeners: seq<Listener>, targets: map<string, Resolution>) {
    && (forall n :: n in targets <==> FindListener(listeners, n).Some?)
    && forall n :: n in targets ==> targets[n] == ConfiguredTarget(env, db, FindListener(listeners, n).value)
  }

  ghost predicate Configured(env: Env, db: Database, listeners: seq<Listener>, g: Gathered) {
    && DesiredAre(env, db, listeners, g.desired) && NamesAre(env, db, listeners, g.names)
    && ListenersAre(env, db, listeners, g.listeners) && TargetsAre(env, db, listeners, g.targets)
  }

  lemma OneListenerMore(before: seq<Listener>, l: Listener, name: string)
    requires forall x :: x in before ==> x.name != l.name
    ensures FindListener(before + [l], name) == if name == l.name then Some(l) else FindListener(before, name)
    ensures FindListener(before, l.name).None?
  {
    FindMore(before, l);
    NotFoundYet(before, l.name);
  }

  lemma RefusedAddsNoSet(env: Env, db: Database, before: seq<Listener>, l: Listener, desired: seq<Desired>, names: map<Pair, ObjectNames>)
    requires forall x :: x in before ==> x.name != l.name
    requires DesiredAre(env, db, before, desired) && NamesAre(env, db, before, names) && ConfiguredTarget(env, db, l).refusal.Some?
    ensures DesiredAre(env, db, before + [l], desired) && NamesAre(env, db, before + [l], names)
  {
    forall p: Pair ensures Generates(env, db, FindListener(before + [l], p.listener), p.operation) <==>
                           Generates(env, db, FindListener(before, p.listener), p.operation)
                   ensures DesiredOf(env, db, before + [l], p) == DesiredOf(env, db, before, p)
    {
      OneListenerMore(before, l, p.listener);
    }
  }

  lemma GeneratesWithOneMore(env: Env, db: Database, before: seq<Listener>, l: Listener, operations: seq<string>, p: Pair)
    requires (forall x :: x in before ==> x.name != l.name) && ConfiguredTarget(env, db, l).refusal.None?
    requires forall o :: o in operations <==> KnownOperation(o) && HasOperation(l.trigger, o)
    ensures Generates(env, db, FindListener(before + [l], p.listener), p.operation) <==>
              OneOf(p, l.name, operations) || Generates(env, db, FindListener(before, p.listener), p.operation)
    ensures DesiredOf(env, db, before + [l], p) ==
              if OneOf(p, l.name, operations) then DesiredEntry(env, l, p) else DesiredOf(env, db, before, p)
    ensures OneOf(p, l.name, operations) ==> !Generates(env, db, FindListener(before, p.listener), p.operation)
  {
    OneListenerMore(before, l, p.listener);
  }

  lemma SetsAreAdded(env: Env, db: Database, before: seq<Listener>, l: Listener, operations: seq<string>,
                     desired: seq<Desired>, desired': seq<Desired>, names: map<Pair, ObjectNames>, names': map<Pair, ObjectNames>)
    requires (forall x :: x in before ==> x.name != l.name) && ConfiguredTarget(env, db, l).refusal.None?
    requires forall o :: o in operations <==> KnownOperation(o) && HasOperation(l.trigger, o)
    requires DesiredAre(env, db, before, desired) && DesiredExtended(env, l, operations, desired, desired')
    requires NamesAre(env, db, before, names) && NamesExtended(env, l.name, operations, names, names')
    ensures DesiredAre(env, db, before + [l], desired') && NamesAre(env, db, before + [l], names')
  {
    forall p: Pair
      ensures LatestDesired(desired', p) == DesiredOf(env, db, before + [l], p)
      ensures p in PairsDesired(desired') <==> Generates(env, db, FindListener(before + [l], p.listener), p.operation)
      ensures p in names' <==> Generates(env, db, FindListener(before + [l], p.listener), p.operation)
    {
      GeneratesWithOneMore(env, db, before, l, operations, p);
      assert p in PairsDesired(desired') <==> p in PairsDesired(desired) || OneOf(p, l.name, operations);
    }
  }

  lemma ListenerIsAdded(env: Env, db: Database, before: seq<Listener>, l: Listener, entries: seq<DesiredListener>, targets: map<string, Resolution>)
    requires forall x :: x in before ==> x.name != l.name
    requires ListenersAre(env, db, before, entries) && TargetsAre(env, db, before, targets)
    ensures ListenersAre(env, db, before + [l], entries + [ListenerEntry(env, db, l)])
    ensures TargetsAre(env, db, before + [l], targets[l.name := ConfiguredTarget(env, db, l)])
  {
    LatestListenerMore(entries, ListenerEntry(env, db, l));
    forall n ensures FindListener(before + [l], n) == if n == l.name then Some(l) else FindListener(before, n) {
      OneListenerMore(before, l, n);
    }
  }

  method AddConfiguredSource(env: Env, db: Database, ghost before: seq<Listener>, l: Listener, g: Gathered) returns (g': Gathered)
    requires Configured(env, db, before, g) && forall x :: x in before ==> x.name != l.name
    ensures Configured(env, db, before + [l], g')
  {
    ListenerIsAdded(env, db, before, l, g.listeners, g.targets);
    var target := ConfiguredTarget(env, db, l);
    var prior := RecordedOf(db, l.name);
    var changes: map<string, bool> := map[];
    if prior.Some? {
      changes := ChangedTriggerOperations(env, prior.value.trigger, l.trigger);
    }
    var entry := DesiredListener(l.name, env.specHash(l.trigger), l.enabled, prior.Some?, changes);
    assert entry == ListenerEntry(env, db, l);
    var desired, names := g.desired, g.names;
    if target.refusal.Some? {
      RefusedAddsNoSet(env, db, before, l, desired, names);
    } else {
      var operations := OrderedOperations(l);
      desired, names := AppendSets(env, l, operations, g.desired, g.names);
      SetsAreAdded(env, db, before, l, operations, g.desired, desired, g.names, names);
    }
    g' := Gathered(desired, g.listeners + [entry], g.targets[l.name := target], names);
  }

  lemma LatestListenerMore(items: seq<DesiredListener>, more: DesiredListener)
    ensures forall n :: LatestListener(items + [more], n) == if more.name == n then Some(more) else LatestListener(items, n)
  {
    assert (items + [more])[..|items|] == items;
  }

  // ----- the registry side -------------------------------------------------------------------------

  function PairsRecorded(items: seq<Recorded>): set<Pair> {
    set r | r in items :: r.pair
  }

  predicate IsRecorded(db: Database, p: Pair) {
    (p.listener in db.listeners && p in db.rows) || StandsAlone(db, p)
  }

  ghost predicate RecordedAre(db: Database, done: set<Pair>, recorded: seq<Recorded>) {
    && (forall p :: LatestRecorded(recorded, p) == if p in done then RecordedEntry(db, p) else NOT_RECORDED)
    && forall p :: p in PairsRecorded(recorded) <==> p in done
  }

  function RowNames(row: RecordedTrigger): ObjectNames {
    ObjectNames(row.triggerName, row.functionName)
  }

  ghost predicate NamesOver(env: Env, db: Database, generated: map<Pair, ObjectNames>, done: set<Pair>, names: map<Pair, ObjectNames>) {
    && (forall p :: p in names <==> p in generated || (p in done && p in db.rows))
    && (forall p :: p in names && p in done && p in db.rows ==> names[p] == RowNames(db.rows[p]))
    && (forall p :: p in names && !(p in done && p in db.rows) ==> names[p] == generated[p])
  }

  lemma RecordedOneMore(db: Database, done: set<Pair>, p: Pair, recorded: seq<Recorded>)
    requires RecordedAre(db, done, recorded) && IsRecorded(db, p)
    ensures RecordedAre(db, done + {p}, recorded + [RecordedEntry(db, p)])
  {
    var r := RecordedEntry(db, p);
    LatestRecordedMore(recorded, r);
    assert PairsRecorded(recorded + [r]) == PairsRecorded(recorded) + {p};
  }

  lemma NamesOverOneMore(env: Env, db: Database, generated: map<Pair, ObjectNames>, done: set<Pair>, p: Pair, names: map<Pair, ObjectNames>)
    requires NamesOver(env, db, generated, done, names)
    ensures NamesOver(env, db, generated, done + {p}, if p in db.rows then names[p := RowNames(db.rows[p])] else names)
  {}

  lemma OneRowMore(env: Env, db: Database, generated: map<Pair, ObjectNames>, done: set<Pair>, rows: set<Pair>, left: set<Pair>, p: Pair,
                   recorded: seq<Recorded>, names: map<Pair, ObjectNames>)
    requires p in left && left <= rows && p in db.rows && p.listener in db.listeners
    requires RecordedAre(db, done + (rows - left), recorded) && NamesOver(env, db, generated, done + (rows - left), names)
    ensures RecordedAre(db, done + (rows - (left - {p})), recorded + [Recorded(p, Some(db.listeners[p.listener]), Some(db.rows[p]))])
    ensures NamesOver(env, db, generated, done + (rows - (left - {p})), names[p := RowNames(db.rows[p])])
  {
    RecordedOneMore(db, done + (rows - left), p, recorded);
    NamesOverOneMore(env, db, generated, done + (rows - left), p, names);
    OneLess(rows, left, p);
    assert done + (rows - (left - {p})) == done + (rows - left) + {p};
  }

  /** The recorded rows of one listener, or the listener alone when it has none. */
  method AddRecordedListener(env: Env, db: Database, ghost generated: map<Pair, ObjectNames>, ghost done: set<Pair>, name: string,
                             recorded: seq<Recorded>, names: map<Pair, ObjectNames>)
    returns (recorded': seq<Recorded>, names': map<Pair, ObjectNames>)
    requires name in db.listeners && RecordedAre(db, done, recorded) && NamesOver(env, db, generated, done, names)
    ensures RecordedAre(db, done + RecordedPairsOf(db, name), recorded')
    ensures NamesOver(env, db, generated, done + RecordedPairsOf(db, name), names')
  {
    recorded', names' := recorded, names;
    var rows := set p | p in db.rows && p.listener == name;
    var left := rows;
    while left != {}
      invariant left <= rows
      invariant RecordedAre(db, done + (rows - left), recorded')
      invariant NamesOver(env, db, generated, done + (rows - left), names')
      decreases left
    {
      var p :| p in left;
      OneRowMore(env, db, generated, done, rows, left, p, recorded', names');
      left := left - {p};
      recorded' := recorded' + [Recorded(p, Some(db.listeners[name]), Some(db.rows[p]))];
      names' := names'[p := RowNames(db.rows[p])];
    }
    RowsOrAlone(db, name, rows);
    if rows == {} {
      var alone := Pair(name, "");
      RecordedOneMore(db, done, alone, recorded');
      NamesOverOneMore(env, db, generated, done, alone, names');
      recorded' := recorded' + [Recorded(alone, Some(db.listeners[name]), None)];
    }
  }

  lemma RowsOrAlone(db: Database, name: string, rows: set<Pair>)
    requires name in db.listeners && rows == set p | p in db.rows && p.listener == name
    ensures rows == {} <==> StandsAlone(db, Pair(name, ""))
    ensures rows == {} ==> Pair(name, "") !in db.rows
    ensures RecordedPairsOf(db, name) == if rows == {} then {Pair(name, "")} else rows
  {
    assert forall p :: p in rows <==> p in db.rows && p.listener == name;
    if rows != {} {
      var p :| p in rows;
      assert p in db.rows && p.listener == name;
    }
  }

  function RecordedPairsOf(db: Database, name: string): set<Pair> {
    (set p | p in db.rows && p.listener == name && IsRecorded(db, p))
    + (if StandsAlone(db, Pair(name, "")) then {Pair(name, "")} else {})
  }

  lemma RecordedPairsOfAre(db: Database, name: string, p: Pair)
    ensures p in RecordedPairsOf(db, name) <==> IsRecorded(db, p) && p.listener == name
  {}

  ghost predicate TargetsOver(env: Env, db: Database, configured: map<string, Resolution>, done: set<string>, targets: map<string, Resolution>) {
    && (forall n :: n in targets <==> n in configured || n in done)
    && (forall n :: n in configured ==> targets[n] == configured[n])
    && forall n :: n in done && n !in configured ==> n in db.listeners && targets[n] == RecordedTarget(env, db, n)
  }

  lemma TargetsOneMore(env: Env, db: Database, configured: map<string, Resolution>, done: set<string>, name: string, targets: map<string, Resolution>)
    requires TargetsOver(env, db, configured, done, targets) && name in db.listeners && name !in done
    ensures TargetsOver(env, db, configured, done + {name},
              if name in targets then targets else targets[name := RecordedTarget(env, db, name)])
  {}

  lemma TargetsAreComplete(env: Env, db: Database, listeners: seq<Listener>, configured: map<string, Resolution>, targets: map<string, Resolution>, n: string)
    requires TargetsAre(env, db, listeners, configured) && TargetsOver(env, db, configured, db.listeners.Keys, targets)
    ensures TargetOf(env, db, listeners, n) == if n in targets then targets[n] else NO_TARGET
  {}

  lemma NamesAreComplete(env: Env, db: Database, listeners: seq<Listener>, generated: map<Pair, ObjectNames>, done: set<Pair>,
                         names: map<Pair, ObjectNames>, p: Pair)
    requires NamesAre(env, db, listeners, generated) && NamesOver(env, db, generated, done, names)
    requires p in done <==> IsRecorded(db, p)
    ensures NamesOf(env, db, listeners, p) == if p in names then Some(names[p]) else None
  {}

  ghost predicate Registered(env: Env, db: Database, listeners: seq<Listener>, recorded: seq<Recorded>,
                             targets: map<string, Resolution>, names: map<Pair, ObjectNames>) {
    && (forall p :: LatestRecorded(recorded, p) == RecordedEntry(db, p))
    && (forall p :: p in PairsRecorded(recorded) <==> IsRecorded(db, p))
    && (forall n :: TargetOf(env, db, listeners, n) == if n in targets then targets[n] else NO_TARGET)
    && forall p :: NamesOf(env, db, listeners, p) == if p in names then Some(names[p]) else None
  }

  /** Every registry record, and the target of each listener the configuration no longer names. */
  method AddRecorded(env: Env, db: Database, listeners: seq<Listener>, g: Gathered)
    returns (recorded: seq<Recorded>, targets: map<string, Resolution>, names: map<Pair, ObjectNames>)
    requires Configured(env, db, listeners, g)
    ensures Registered(env, db, listeners, recorded, targets, names)
  {
    recorded, targets, names := [], g.targets, g.names;
    var left := db.listeners.Keys;
    ghost var done: set<Pair> := {};
    while left != {}
      invariant left <= db.listeners.Keys
      invariant DoneBut(db, done, left)
      invariant RecordedAre(db, done, recorded) && NamesOver(env, db, g.names, done, names)
      invariant TargetsOver(env, db, g.targets, db.listeners.Keys - left, targets)
      decreases left
    {
      var name :| name in left;
      TargetsOneMore(env, db, g.targets, db.listeners.Keys - left, name, targets);
      OneLess(db.listeners.Keys, left, name);
      left := left - {name};
      if name !in targets {
        targets := targets[name := RecordedTarget(env, db, name)];
      }
      recorded, names := AddRecordedListener(env, db, g.names, done, name, recorded, names);
      done := MoreDone(db, done, left, name);
    }
    assert db.listeners.Keys - {} == db.listeners.Keys;
    RecordedIsComplete(env, db, listeners, g, done, recorded, targets, names);
  }

  ghost predicate DoneBut(db: Database, done: set<Pair>, left: set<string>) {
    forall p :: p in done <==> IsRecorded(db, p) && p.listener !in left
  }

  lemma RecordedIsComplete(env: Env, db: Database, listeners: seq<Listener>, g: Gathered, done: set<Pair>,
                           recorded: seq<Recorded>, targets: map<string, Resolution>, names: map<Pair, ObjectNames>)
    requires Configured(env, db, listeners, g) && DoneBut(db, done, {})
    requires RecordedAre(db, done, recorded) && NamesOver(env, db, g.names, done, names)
    requires TargetsOver(env, db, g.targets, db.listeners.Keys, targets)
    ensures Registered(env, db, listeners, recorded, targets, names)
  {
    forall n ensures TargetOf(env, db, listeners, n) == if n in targets then targets[n] else NO_TARGET {
      TargetsAreComplete(env, db, listeners, g.targets, targets, n);
    }
    forall p ensures NamesOf(env, db, listeners, p) == if p in names then Some(names[p]) else None {
      NamesAreComplete(env, db, listeners, g.names, done, names, p);
    }
    forall p ensures LatestRecorded(recorded, p) == RecordedEntry(db, p) {
      assert p in done <==> IsRecorded(db, p);
    }
  }

  lemma MoreDone(db: Database, done: set<Pair>, left: set<string>, name: string) returns (more: set<Pair>)
    requires DoneBut(db, done, left + {name}) && name !in left
    ensures more == done + RecordedPairsOf(db, name) && DoneBut(db, more, left)
  {
    more := done + RecordedPairsOf(db, name);
    forall p ensures p in more <==> IsRecorded(db, p) && p.listener !in left {
      RecordedPairsOfAre(db, name, p);
    }
  }

  // ----- the catalog side --------------------------------------------------------------------------

  function PairsObserved(items: seq<Observed>): set<Pair> {
    set o | o in items :: o.pair
  }

  function ObservedUnder(env: Env, db: Database, targets: map<string, Resolution>, names: map<Pair, ObjectNames>, p: Pair): Observed {
    if p in names then ReadObservedPair(env, db, if p.listener in targets then targets[p.listener] else NO_TARGET, p, names[p])
    else NOT_OBSERVED
  }

  ghost predicate ObservedAre(env: Env, db: Database, targets: map<string, Resolution>, names: map<Pair, ObjectNames>, done: set<Pair>, observed: seq<Observed>) {
    && (forall p :: LatestObserved(observed, p) == if p in done then ObservedUnder(env, db, targets, names, p) else NOT_OBSERVED)
    && PairsObserved(observed) == done
  }

  lemma ObservedOneMore(env: Env, db: Database, targets: map<string, Resolution>, names: map<Pair, ObjectNames>, done: set<Pair>, p: Pair, observed: seq<Observed>)
    requires ObservedAre(env, db, targets, names, done, observed) && p in names
    ensures ObservedAre(env, db, targets, names, done + {p}, observed + [ObservedUnder(env, db, targets, names, p)])
  {
    var o := ObservedUnder(env, db, targets, names, p);
    assert o.pair == p;
    LatestObservedMore(observed, o);
    assert PairsObserved(observed + [o]) == PairsObserved(observed) + {p};
  }

  method ReadObserved(env: Env, db: Database, targets: map<string, Resolution>, names: map<Pair, ObjectNames>) returns (observed: seq<Observed>)
    ensures ObservedAre(env, db, targets, names, names.Keys, observed)
  {
    observed := [];
    var left := names.Keys;
    while left != {}
      invariant left <= names.Keys && ObservedAre(env, db, targets, names, names.Keys - left, observed)
      decreases left
    {
      var p :| p in left;
      ObservedOneMore(env, db, targets, names, names.Keys - left, p, observed);
      OneLess(names.Keys, left, p);
      left := left - {p};
      observed := observed + [ObservedUnder(env, db, targets, names, p)];
    }
    assert names.Keys - {} == names.Keys;
  }

  // ----- diffFromDatabase --------------------------------------------------------------------------

  method GatherConfigured(env: Env, db: Database, cfg: Config) returns (g: Gathered)
    requires cfg.Legal()
    ensures Configured(env, db, cfg.listeners, g)
  {
    g := Gathered([], [], map[], map[]);
    for k := 0 to |cfg.listeners|
      invariant Configured(env, db, cfg.listeners[..k], g)
    {
      assert cfg.listeners[..k + 1] == cfg.listeners[..k] + [cfg.listeners[k]];
      g := AddConfiguredSource(env, db, cfg.listeners[..k], cfg.listeners[k], g);
    }
    assert cfg.listeners[..|cfg.listeners|] == cfg.listeners;
  }

  /** The three sources gathered and joined: the plan is the classification of exactly the pairs any
      of them names, each decided from what the database says of that pair. */
  method DiffFromDatabase(env: Env, db: Database, cfg: Config) returns (result: PlanResult)
    requires cfg.Legal()
    ensures IsPlanFor(env, db, cfg, result)
  {
    var g := GatherConfigured(env, db, cfg);
    var recorded, targets, names := AddRecorded(env, db, cfg.listeners, g);
    var observed := ReadObserved(env, db, targets, names);
    var input := DiffInput(g.desired, recorded, observed, g.listeners, targets, cfg.instance);
    result := Diff(env, input);
    InputSaysTheSame(env, db, cfg, g, recorded, targets, names, observed);
    AgreeingPlan(env, db, cfg, input, result);
  }

  /** The input of the join says of every pair what the database does. */
  ghost predicate Agree(env: Env, db: Database, cfg: Config, input: DiffInput) {
    && AllPairs(input) == PairsOf(env, db, cfg)
    && forall p :: ClassifierOf(env, input)(p) == PlanClassifier(env, db, cfg)(p)
  }

  lemma AgreeingPlan(env: Env, db: Database, cfg: Config, input: DiffInput, result: PlanResult)
    requires Agree(env, db, cfg, input) && IsPlan(env, input, result)
    ensures IsPlanFor(env, db, cfg, result)
  {
    PlanTransfers(ClassifierOf(env, input), PlanClassifier(env, db, cfg), PairsOf(env, db, cfg), result);
  }

  lemma InputSaysTheSame(env: Env, db: Database, cfg: Config, g: Gathered, recorded: seq<Recorded>, targets: map<string, Resolution>,
                         names: map<Pair, ObjectNames>, observed: seq<Observed>)
    requires Configured(env, db, cfg.listeners, g) && Registered(env, db, cfg.listeners, recorded, targets, names)
    requires ObservedAre(env, db, targets, names, names.Keys, observed)
    ensures Agree(env, db, cfg, DiffInput(g.desired, recorded, observed, g.listeners, targets, cfg.instance))
  {
    var input := DiffInput(g.desired, recorded, observed, g.listeners, targets, cfg.instance);
    forall p ensures ClassifierOf(env, input)(p) == PlanClassifier(env, db, cfg)(p) {
      SameSource(env, db, cfg, g, recorded, targets, names, observed, p);
    }
    forall p ensures p in AllPairs(input) <==> p in PairsOf(env, db, cfg) {
      SamePair(env, db, cfg, g, recorded, targets, names, observed, p);
    }
  }

  lemma SameSource(env: Env, db: Database, cfg: Config, g: Gathered, recorded: seq<Recorded>, targets: map<string, Resolution>,
                   names: map<Pair, ObjectNames>, observed: seq<Observed>, p: Pair)
    requires Configured(env, db, cfg.listeners, g)
    requires LatestRecorded(recorded, p) == RecordedEntry(db, p)
    requires TargetOf(env, db, cfg.listeners, p.listener) == if p.listener in targets then targets[p.listener] else NO_TARGET
    requires NamesOf(env, db, cfg.listeners, p) == if p in names then Some(names[p]) else None
    requires ObservedAre(env, db, targets, names, names.Keys, observed)
    ensures Prepared(DiffInput(g.desired, recorded, observed, g.listeners, targets, cfg.instance), p) == Source(env, db, cfg, p)
  {
    var input := DiffInput(g.desired, recorded, observed, g.listeners, targets, cfg.instance);
    assert LatestObserved(observed, p) == ObservedEntry(env, db, cfg.listeners, p);
    assert LatestDesired(g.desired, p) == DesiredOf(env, db, cfg.listeners, p);
    assert LatestListener(g.listeners, p.listener) == ListenerEntryOf(env, db, cfg.listeners, p.listener);
  }

  lemma SamePair(env: Env, db: Database, cfg: Config, g: Gathered, recorded: seq<Recorded>, targets: map<string, Resolution>,
                 names: map<Pair, ObjectNames>, observed: seq<Observed>, p: Pair)
    requires Configured(env, db, cfg.listeners, g)
    requires p in PairsRecorded(recorded) <==> IsRecorded(db, p)
    requires NamesOf(env, db, cfg.listeners, p) == if p in names then Some(names[p]) else None
    requires ObservedAre(env, db, targets, names, names.Keys, observed)
    ensures p in AllPairs(DiffInput(g.desired, recorded, observed, g.listeners, targets, cfg.instance)) <==> p in PairsOf(env, db, cfg)
  {
    PairsOfAre(env, db, cfg, p);
    var input := DiffInput(g.desired, recorded, observed, g.listeners, targets, cfg.instance);
    assert DesiredPairs(input) == PairsDesired(g.desired) && RecordedPairs(input) == PairsRecorded(recorded)
      && ObservedPairs(input) == PairsObserved(observed);
  }
}
