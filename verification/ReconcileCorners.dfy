/** Databases at the edges of the theorems: where convergence fails, where the installed definition is not the
    desired one, where a convergence hypothesis is needed, and where a foreign function is replaced. */
module ReconcileCorners {
  import opened Options
  import opened TextOrder
  import opened Sorting
  import opened ReconcileNames
  import opened ReconcileModel
  import opened ReconcileDiff
  import opened ReconcileRead
  import opened ReconcileStatements
  import opened ReconcileApply
  import opened ReconcileEffects
  import opened ReconcileConvergence
  import opened ReconcileTheorems
  import opened ReconcileInstalled
  import opened ReconcileProvenance
  import opened ReconcileSchedule
  import opened ReconcileCommit
  import opened ReconcileOwnership

  // ----- a plan to start from ----------------------------------------------------------------------

  lemma {:induction false} AnOrderExists(pairs: set<Pair>) returns (order: seq<Pair>)
    ensures (forall p :: p in order <==> p in pairs) && forall i, j :: 0 <= i < j < |order| ==> order[i] != order[j]
    decreases pairs
  {
    order := [];
    if pairs != {} {
      var p :| p in pairs;
      var front := AnOrderExists(pairs - {p});
      order := front + [p];
    }
  }

  lemma APlanExists(env: Env, db: Database, cfg: Config) returns (plan: PlanResult)
    ensures IsPlanFor(env, db, cfg, plan)
  {
    var order := AnOrderExists(PairsOf(env, db, cfg));
    PairLessIsOrder();
    SortedIsSorted(order, PairLess);
    MembersOf(Sorted(order, PairLess), order);
    plan := PlanOver(PlanClassifier(env, db, cfg), Sorted(order, PairLess));
    assert IsOrderOf(Sorted(order, PairLess), PairsOf(env, db, cfg));
  }

  lemma AnUnrefusedPlan(env: Env, db: Database, cfg: Config) returns (plan: PlanResult)
    requires cfg.Legal() && RecordedNames(env, db)
    requires forall p :: Examines(env, db, cfg, p) ==> !ClassifyPair(env, Source(env, db, cfg, p)).Refuse?
    ensures IsPlanFor(env, db, cfg, plan) && plan.refusals == [] && Decides(env, db, cfg, plan.actions)
  {
    plan := APlanExists(env, db, cfg);
    var f, pairs := PlanClassifier(env, db, cfg), PairsOf(env, db, cfg);
    forall p | p in pairs ensures !f(p).Refuse? && (f(p).Act? ==> f(p).action.pair == p) {
      PairsOfAre(env, db, cfg, p);
      if f(p).Act? {
        ActsForItself(env, db, cfg, p);
      }
    }
    PlanFacts(f, pairs, plan);
    PlanDecides(env, db, cfg, plan);
  }

  /** The plan has the one action. */
  ghost predicate OnlyAction(env: Env, db: Database, cfg: Config, a: Action) {
    && Examines(env, db, cfg, a.pair)
    && forall q :: Examines(env, db, cfg, q) ==> ClassifyPair(env, Source(env, db, cfg, q)) == if q == a.pair then Act(a) else Nothing
  }

  /** Every action is that one. */
  ghost predicate Alone(actions: seq<Action>, a: Action) {
    forall b :: b in actions <==> b == a
  }

  lemma OneIsPlanned(env: Env, db: Database, cfg: Config, actions: seq<Action>, a: Action, b: Action)
    requires OnlyAction(env, db, cfg, a)
    requires IsOneOf(actions, b) <==> Examines(env, db, cfg, b.pair) && PlanClassifier(env, db, cfg)(b.pair) == Act(b)
    ensures b in actions <==> b == a
  {}

  lemma DecidesTheOne(env: Env, db: Database, cfg: Config, actions: seq<Action>, a: Action)
    requires Decides(env, db, cfg, actions) && OnlyAction(env, db, cfg, a)
    ensures Alone(actions, a)
  {
    forall b ensures b in actions <==> b == a {
      assert IsOneOf(actions, b) <==> Examines(env, db, cfg, b.pair) && PlanClassifier(env, db, cfg)(b.pair) == Act(b);
      OneIsPlanned(env, db, cfg, actions, a, b);
    }
  }

  lemma NothingIsRefused(env: Env, db: Database, cfg: Config, a: Action)
    requires OnlyAction(env, db, cfg, a)
    ensures forall p :: Examines(env, db, cfg, p) ==> !ClassifyPair(env, Source(env, db, cfg, p)).Refuse?
  {}

  lemma APlanOfOne(env: Env, db: Database, cfg: Config, a: Action) returns (plan: PlanResult)
    requires cfg.Legal() && RecordedNames(env, db) && OnlyAction(env, db, cfg, a)
    ensures IsPlanFor(env, db, cfg, plan) && plan.refusals == [] && Decides(env, db, cfg, plan.actions)
    ensures Alone(plan.actions, a)
  {
    NothingIsRefused(env, db, cfg, a);
    plan := AnUnrefusedPlan(env, db, cfg);
    DecidesTheOne(env, db, cfg, plan.actions, a);
  }

  /** A run of a plan that drops nothing a trigger of another pair executes. */
  lemma ARunExists(env: Env, db: Database, cfg: Config, plan: PlanResult) returns (db': Database)
    requires cfg.Legal() && Managed(env, cfg.instance, db) && IsPlanFor(env, db, cfg, plan) && plan.refusals == [] && plan.actions != []
    requires SharesNothing(env, db, cfg, plan.actions)
    ensures Ran(env, db, cfg, plan, db')
  {
    CommitsIff(env, db, cfg, plan);
    db' :| Applied(env, db, cfg, plan.actions, db');
  }

  lemma NothingIsDropped(env: Env, db: Database, cfg: Config, actions: seq<Action>)
    requires db.triggers == map[]
    ensures SharesNothing(env, db, cfg, actions)
  {}

  lemma RenamesShareNothing(env: Env, db: Database, cfg: Config, actions: seq<Action>)
    requires forall a :: a in actions ==> a.kind == Rename
    ensures SharesNothing(env, db, cfg, actions)
  {}

  lemma ARunOfOne(env: Env, db: Database, cfg: Config, a: Action) returns (plan: PlanResult, db': Database)
    requires cfg.Legal() && Managed(env, cfg.instance, db) && OnlyAction(env, db, cfg, a) && (a.kind == Rename || db.triggers == map[])
    ensures Ran(env, db, cfg, plan, db') && a in plan.actions
  {
    plan := APlanOfOne(env, db, cfg, a);
    if a.kind == Rename {
      RenamesShareNothing(env, db, cfg, plan.actions);
    } else {
      NothingIsDropped(env, db, cfg, plan.actions);
    }
    assert a in plan.actions;
    db' := ARunExists(env, db, cfg, plan);
  }

  // ----- what they have in common ------------------------------------------------------------------

  const INSERT := Pair("x", "insert")
  const UPDATE := Pair("x", "update")

  /** An environment whose function text is the operation's own body and whose readings are the texts. */
  function PlainEnv(): Env {
    Env((name: string) => name, (name: string) => name, (spec: TriggerSpec) => spec.table,
        (i: string, l: Listener, t: Table, o: string) => BodyOf(l.trigger, o),
        (i: string, l: Listener, t: Table, o: string) => "trigger",
        (text: string, table: string) => text, (text: string) => text, (trigger: string, code: string) => trigger + code)
  }

  function BodyOf(spec: TriggerSpec, kind: string): string {
    var body := OperationByKind(spec.operations, kind);
    if body.Some? then body.value else ""
  }

  function Inserting(table: string, body: string): TriggerSpec {
    TriggerSpec(table, "", [OperationSpec("insert", body)])
  }

  function OneListener(spec: TriggerSpec): Config {
    Config("i", [Listener("x", true, spec)])
  }

  function Name(p: Pair): string
    requires KnownOperation(p.operation)
  {
    NameOf(p, PlainEnv().hashed)
  }

  lemma OneListenerIsLegal(table: string, body: string)
    ensures OneListener(Inserting(table, body)).Legal() && LegalPair(INSERT)
    ensures FindListener(OneListener(Inserting(table, body)).listeners, "x") == Some(Listener("x", true, Inserting(table, body)))
    ensures forall o :: HasOperation(Inserting(table, body), o) <==> o == "insert"
  {
    assert LegalName("x") && LegalName("i");
    var operations := Inserting(table, body).operations;
    assert operations[0] in operations;
    forall o | HasOperation(Inserting(table, body), o) ensures o == "insert" {
      var spec :| spec in operations && spec.kind == o;
    }
  }

  /** Of a database that records at most the one insert pair, a plan examines that pair and no other. */
  lemma OnlyInsertIsExamined(env: Env, db: Database, table: string, body: string)
    requires (forall p :: p in db.rows ==> p == INSERT) && (forall n :: n in db.listeners ==> n == "x" && INSERT in db.rows)
    requires ConfiguredTarget(env, db, Listener("x", true, Inserting(table, body))).refusal.None?
    ensures forall q :: Examines(env, db, OneListener(Inserting(table, body)), q) <==> q == INSERT
  {
    OneListenerIsLegal(table, body);
    var cfg := OneListener(Inserting(table, body));
    forall q ensures Examines(env, db, cfg, q) <==> q == INSERT {
      FoundIsOneOf(cfg.listeners, q.listener);
      assert "x" in db.listeners ==> HasRows(db, "x");
    }
  }

  lemma InsertIsTheOnlyAction(env: Env, db: Database, table: string, body: string, a: Action)
    requires (forall p :: p in db.rows ==> p == INSERT) && (forall n :: n in db.listeners ==> n == "x" && INSERT in db.rows)
    requires ConfiguredTarget(env, db, Listener("x", true, Inserting(table, body))).refusal.None?
    requires a.pair == INSERT && ClassifyPair(env, Source(env, db, OneListener(Inserting(table, body)), INSERT)) == Act(a)
    ensures OnlyAction(env, db, OneListener(Inserting(table, body)), a)
  {
    OnlyInsertIsExamined(env, db, table, body);
  }

  lemma OneFunctionIsInPlace(env: Env, f: string, p: Pair, text: string, db: Database)
    requires LegalPair(p) && f == NameOf(p, env.hashed) && db.functions == map[f := Function(Some(Marker("i", p)), text)]
    ensures MarkersInPlace(env, "i", db)
  {
    assert LegalName("i");
    forall g, q | g in db.functions && LegalPair(q) && db.functions[g].marker == Some(Marker("i", q)) ensures g == NameOf(q, env.hashed) {
      MarkerIsInjective("i", p, q);
    }
  }

  // ----- a recreated table hides a retarget --------------------------------------------------------

  const RETARGETED := Listener("x", true, Inserting("b", ""))

  /** Installed on a relation that was dropped, its trigger with it: "a" is now relation 1, and "b" is 2. */
  function RecreatedDatabase(): Database {
    Database(map[1 := Table("a", ""), 2 := Table("b", "")], map["a" := 1, "b" := 2], map[],
             map[Name(INSERT) := Function(Some(Marker("i", INSERT)), "")],
             map["x" := RecordedListener(Inserting("a", ""), "a", "a", 0, true)],
             map[INSERT := RecordedTrigger(Name(INSERT), Name(INSERT), "trigger")])
  }

  lemma RecreatedIsManaged()
    ensures Managed(PlainEnv(), "i", RecreatedDatabase())
  {
    assert LegalName("x");
    OneFunctionIsInPlace(PlainEnv(), Name(INSERT), INSERT, "", RecreatedDatabase());
  }

  lemma RecreatedTarget()
    ensures ConfiguredTarget(PlainEnv(), RecreatedDatabase(), RETARGETED) == Resolution(DroppedAndRecreated, Some(Target(1, Table("a", ""))), None)
  {
    assert ResolveName(PlainEnv(), RecreatedDatabase(), "a") == Some(Target(1, Table("a", "")));
    assert ResolveName(PlainEnv(), RecreatedDatabase(), "b") == Some(Target(2, Table("b", "")));
  }

  /** A wanted pair of a recreated relation of which nothing is read. */
  lemma UnseenIsReplaced(env: Env, s: PairSources)
    requires s.target.refusal.None? && s.target.outcome == DroppedAndRecreated && !s.ObservedAny()
    requires s.desired.listenerPresent && s.desired.operationPresent && s.desired.enabled
    ensures ClassifyPair(env, s) == Act(Action(s.ActionPair(), Replace))
  {}

  lemma RecreatedIsUnseen()
    ensures var s := Source(PlainEnv(), RecreatedDatabase(), OneListener(Inserting("b", "")), INSERT);
            && s.target.refusal.None? && s.target.outcome == DroppedAndRecreated && !s.ObservedAny()
            && s.desired.listenerPresent && s.desired.operationPresent && s.desired.enabled
  {
    var env, db, cfg := PlainEnv(), RecreatedDatabase(), OneListener(Inserting("b", ""));
    OneListenerIsLegal("b", "");
    RecreatedIsManaged();
    RecreatedTarget();
    OnlyInsertIsExamined(env, db, "b", "");
    SourceIs(env, db, cfg, INSERT);
  }

  lemma RecreatedIsReplaced()
    ensures ClassifyPair(PlainEnv(), Source(PlainEnv(), RecreatedDatabase(), OneListener(Inserting("b", "")), INSERT)) == Act(Action(INSERT, Replace))
  {
    var env, db, cfg := PlainEnv(), RecreatedDatabase(), OneListener(Inserting("b", ""));
    OneListenerIsLegal("b", "");
    RecreatedIsManaged();
    RecreatedTarget();
    OnlyInsertIsExamined(env, db, "b", "");
    RecreatedIsUnseen();
    UnseenIsReplaced(env, Source(env, db, cfg, INSERT));
    ActsForItself(env, db, cfg, INSERT);
  }

  lemma RecreatedHasOneAction()
    ensures OnlyAction(PlainEnv(), RecreatedDatabase(), OneListener(Inserting("b", "")), Action(INSERT, Replace))
  {
    RecreatedTarget();
    RecreatedIsReplaced();
    InsertIsTheOnlyAction(PlainEnv(), RecreatedDatabase(), "b", "", Action(INSERT, Replace));
  }

  /** The guard of the retarget refusal asks for the recorded relation by its identity only. Here it is gone,
      so the run adopts the recreated table and commits, and the next plan refuses: the configured name
      resolves elsewhere. */
  lemma RecreatedTableHidesARetarget() returns (plan: PlanResult, db': Database)
    ensures Ran(PlainEnv(), RecreatedDatabase(), OneListener(Inserting("b", "")), plan, db')
    ensures !AllSettled(PlainEnv(), RecreatedDatabase(), OneListener(Inserting("b", "")), plan.actions)
    ensures PlansARefusal(PlainEnv(), db', OneListener(Inserting("b", "")))
  {
    var env, db, cfg := PlainEnv(), RecreatedDatabase(), OneListener(Inserting("b", ""));
    OneListenerIsLegal("b", "");
    RecreatedIsManaged();
    RecreatedHasOneAction();
    plan, db' := ARunOfOne(env, db, cfg, Action(INSERT, Replace));
    NotSettled(plan.actions);
    Convergence(env, db, cfg, plan, db');
  }

  lemma NotSettled(actions: seq<Action>)
    requires Action(INSERT, Replace) in actions
    ensures !AllSettled(PlainEnv(), RecreatedDatabase(), OneListener(Inserting("b", "")), actions)
  {
    RecreatedTarget();
    var cfg := OneListener(Inserting("b", ""));
    assert RETARGETED in cfg.listeners && Acts(actions, RETARGETED.name);
    assert ResolveName(PlainEnv(), RecreatedDatabase(), "b") == Some(Target(2, Table("b", "")));
  }

  // ----- a rename keeps what stands ----------------------------------------------------------------

  /** An environment that is plain but for what a generated function says. */
  ghost predicate SaysOnly(env: Env) {
    env == PlainEnv().(functionText := env.functionText)
  }

  const NOW_B := Target(1, Table("b", ""))

  /** Installed for table "a" with the function `code` and the body `body`; the table is now called "b". */
  function RenamedDatabase(code: string, body: string): Database {
    Database(map[1 := Table("b", "")], map["b" := 1],
             map[Place(1, Name(INSERT)) := Trigger(Name(INSERT), Some(Marker("i", INSERT)), "trigger")],
             map[Name(INSERT) := Function(Some(Marker("i", INSERT)), code)],
             map["x" := RecordedListener(Inserting("a", body), "a", "a", 1, true)],
             map[INSERT := RecordedTrigger(Name(INSERT), Name(INSERT), "trigger" + code)])
  }

  lemma RenamedIsManaged(env: Env, code: string, body: string)
    requires SaysOnly(env)
    ensures Managed(env, "i", RenamedDatabase(code, body))
  {
    assert LegalName("x");
    OneFunctionIsInPlace(env, Name(INSERT), INSERT, code, RenamedDatabase(code, body));
  }

  lemma RenamedTarget(env: Env, code: string, body: string, l: Listener)
    requires SaysOnly(env) && l.name == "x" && (l.trigger.table == "a" || l.trigger.table == "b")
    ensures ConfiguredTarget(env, RenamedDatabase(code, body), l) == Resolution(Renamed, Some(NOW_B), None)
  {
    assert ResolveName(env, RenamedDatabase(code, body), "b") == Some(NOW_B);
  }

  lemma OwnMarkerIsOwned(p: Pair)
    requires LegalPair(p)
    ensures DetermineOwnership(true, p, Some(Marker("i", p)), "i").Owned?
  {
    assert LegalName("i");
    LegalNameIsMarkerField("i");
    LegalNameIsMarkerField(p.listener);
    OwnedIff(true, p, Some(Marker("i", p)), "i");
  }

  lemma OwnedAndRenamed(env: Env, s: PairSources)
    requires s.instance == "i" && s.target.refusal.None? && s.target.outcome == Renamed && LegalPair(s.recorded.pair)
    requires s.desired.listenerPresent && s.desired.operationPresent && s.desired.enabled && s.recorded.trigger.Some? && s.ObservedComplete()
    requires s.observed.trigger.value.marker == s.observed.code.value.marker == Some(Marker("i", s.recorded.pair))
    ensures ClassifyPair(env, s) == Act(Action(s.ActionPair(), Rename)) && Keeps(env, s)
  {
    OwnMarkerIsOwned(s.recorded.pair);
  }

  lemma RenamedIsRenamed(env: Env, code: string, body: string, table: string, wanted: string)
    requires SaysOnly(env) && (table == "a" || table == "b")
    ensures var s := Source(env, RenamedDatabase(code, body), OneListener(Inserting(table, wanted)), INSERT);
            && ClassifyPair(env, s) == Act(Action(INSERT, Rename)) && Keeps(env, s) && s.target.outcome == Renamed
            && Observation(s) == Definition("trigger", code)
  {
    var db, cfg := RenamedDatabase(code, body), OneListener(Inserting(table, wanted));
    OneListenerIsLegal(table, wanted);
    RenamedIsManaged(env, code, body);
    RenamedTarget(env, code, body, Listener("x", true, Inserting(table, wanted)));
    assert Examines(env, db, cfg, INSERT);
    SourceIs(env, db, cfg, INSERT);
    SourcePair(env, db, cfg, INSERT);
    OwnedAndRenamed(env, Source(env, db, cfg, INSERT));
  }

  lemma RenameSettles(env: Env, code: string, body: string, table: string, wanted: string, actions: seq<Action>)
    requires SaysOnly(env) && (table == "a" || table == "b")
    ensures AllSettled(env, RenamedDatabase(code, body), OneListener(Inserting(table, wanted)), actions)
  {
    RenamedTarget(env, code, body, Listener("x", true, Inserting(table, wanted)));
    assert ResolveName(env, RenamedDatabase(code, body), "b") == Some(NOW_B);
    assert ResolveName(env, RenamedDatabase(code, body), "a") == None;
  }

  lemma RenamedIsWanted(env: Env, code: string, body: string, table: string, wanted: string)
    requires SaysOnly(env) && (table == "a" || table == "b")
    ensures Wanted(env, RenamedDatabase(code, body), OneListener(Inserting(table, wanted)), Listener("x", true, Inserting(table, wanted)), NOW_B, INSERT)
  {
    OneListenerIsLegal(table, wanted);
    RenamedTarget(env, code, body, Listener("x", true, Inserting(table, wanted)));
  }

  lemma RenamedHasOneAction(env: Env, code: string, body: string, table: string, wanted: string)
    requires SaysOnly(env) && (table == "a" || table == "b")
    ensures OnlyAction(env, RenamedDatabase(code, body), OneListener(Inserting(table, wanted)), Action(INSERT, Rename))
  {
    RenamedTarget(env, code, body, Listener("x", true, Inserting(table, wanted)));
    RenamedIsRenamed(env, code, body, table, wanted);
    InsertIsTheOnlyAction(env, RenamedDatabase(code, body), table, wanted, Action(INSERT, Rename));
  }

  lemma ARunRenames(env: Env, code: string, body: string, table: string, wanted: string) returns (plan: PlanResult, db': Database)
    requires SaysOnly(env) && (table == "a" || table == "b")
    ensures Ran(env, RenamedDatabase(code, body), OneListener(Inserting(table, wanted)), plan, db') && Action(INSERT, Rename) in plan.actions
  {
    OneListenerIsLegal(table, wanted);
    RenamedIsManaged(env, code, body);
    RenamedHasOneAction(env, code, body, table, wanted);
    plan, db' := ARunOfOne(env, RenamedDatabase(code, body), OneListener(Inserting(table, wanted)), Action(INSERT, Rename));
  }

  /** A run over the renamed table renames the pair and nothing else; where the function generated now is not
      the one that stands, the pair stays so, and the next plan is clean. */
  lemma ARenameKeepsTheOldFunction(env: Env, code: string, body: string, table: string, wanted: string) returns (plan: PlanResult, db': Database)
    requires SaysOnly(env) && (table == "a" || table == "b")
    requires code != env.functionText("i", Listener("x", true, Inserting(table, wanted)), NOW_B.table, "insert")
    ensures Ran(env, RenamedDatabase(code, body), OneListener(Inserting(table, wanted)), plan, db') && Action(INSERT, Rename) in plan.actions
    ensures PlansNothing(env, db', OneListener(Inserting(table, wanted)))
    ensures Installed(env, "i", db', 1, INSERT) != Some(GeneratedNow(env, "i", Listener("x", true, Inserting(table, wanted)), NOW_B, INSERT))
  {
    plan, db' := ARunRenames(env, code, body, table, wanted);
    RenamedIsRenamed(env, code, body, table, wanted);
    RenameSettles(env, code, body, table, wanted, plan.actions);
    RenamedIsWanted(env, code, body, table, wanted);
    AnOutdatedPairIsNotRepaired(env, RenamedDatabase(code, body), OneListener(Inserting(table, wanted)), plan, db',
                                Listener("x", true, Inserting(table, wanted)), NOW_B, INSERT);
  }

  /** The table was renamed and the operation's body changed in one edit. The run records the new body and
      installs nothing; the next plan is clean, so the old body stays installed. */
  lemma ARenameHidesAChange() returns (plan: PlanResult, db': Database)
    ensures Ran(PlainEnv(), RenamedDatabase("old", "old"), OneListener(Inserting("b", "new")), plan, db') && Action(INSERT, Rename) in plan.actions
    ensures PlansNothing(PlainEnv(), db', OneListener(Inserting("b", "new")))
    ensures Installed(PlainEnv(), "i", db', 1, INSERT)
            != Some(GeneratedNow(PlainEnv(), "i", Listener("x", true, Inserting("b", "new")), NOW_B, INSERT))
  {
    var spec := Inserting("b", "new");
    assert spec.operations[|spec.operations| - 1] == OperationSpec("insert", "new");
    assert BodyOf(spec, "insert") == "new";
    assert "new" != "old";
    plan, db' := ARenameKeepsTheOldFunction(PlainEnv(), "old", "old", "b", "new");
  }

  /** A function text that holds the name of its table, as the generator's does. */
  function NamingEnv(): Env {
    PlainEnv().(functionText := (i: string, l: Listener, t: Table, o: string) => t.name)
  }

  /** The table was renamed and the configuration was not touched at all. The function goes on naming the old
      table, and the next plan is clean. */
  lemma ARenameAloneLeavesTheOldName() returns (plan: PlanResult, db': Database)
    ensures Ran(NamingEnv(), RenamedDatabase("a", ""), OneListener(Inserting("a", "")), plan, db') && Action(INSERT, Rename) in plan.actions
    ensures PlansNothing(NamingEnv(), db', OneListener(Inserting("a", "")))
    ensures Installed(NamingEnv(), "i", db', 1, INSERT)
            != Some(GeneratedNow(NamingEnv(), "i", Listener("x", true, Inserting("a", "")), NOW_B, INSERT))
  {
    assert "a" != "b";
    plan, db' := ARenameKeepsTheOldFunction(NamingEnv(), "a", "", "a", "");
  }

  // ----- a key that changed is not seen ------------------------------------------------------------

  /** A function text that ships the key columns, as the generator's does for `keys_only`. */
  function KeyEnv(): Env {
    PlainEnv().(functionText := (i: string, l: Listener, t: Table, o: string) => t.columns)
  }

  const KEYED := Target(1, Table("a", "uuid"))
  const KEYED_LISTENER := Listener("x", true, Inserting("a", ""))

  /** Installed while the key of the table was "id"; it is "uuid" now. Nothing else changed. */
  function KeyedDatabase(): Database {
    Database(map[1 := Table("a", "uuid")], map["a" := 1],
             map[Place(1, Name(INSERT)) := Trigger(Name(INSERT), Some(Marker("i", INSERT)), "trigger")],
             map[Name(INSERT) := Function(Some(Marker("i", INSERT)), "id")],
             map["x" := RecordedListener(Inserting("a", ""), "a", "a", 1, true)],
             map[INSERT := RecordedTrigger(Name(INSERT), Name(INSERT), "trigger" + "id")])
  }

  lemma KeyedIsManaged()
    ensures Managed(KeyEnv(), "i", KeyedDatabase())
    ensures ConfiguredTarget(KeyEnv(), KeyedDatabase(), KEYED_LISTENER) == Resolution(Healthy, Some(KEYED), None)
  {
    assert LegalName("x");
    OneFunctionIsInPlace(KeyEnv(), Name(INSERT), INSERT, "id", KeyedDatabase());
    assert ResolveName(KeyEnv(), KeyedDatabase(), "a") == Some(KEYED);
  }

  lemma KeyedIsQuiet()
    ensures forall q :: Examines(KeyEnv(), KeyedDatabase(), OneListener(Inserting("a", "")), q) ==>
                          ClassifyPair(KeyEnv(), Source(KeyEnv(), KeyedDatabase(), OneListener(Inserting("a", "")), q)) == Nothing
  {
    var env, db, cfg, spec := KeyEnv(), KeyedDatabase(), OneListener(Inserting("a", "")), Inserting("a", "");
    OneListenerIsLegal("a", "");
    KeyedIsManaged();
    OnlyInsertIsExamined(env, db, "a", "");
    assert spec.operations[|spec.operations| - 1] == OperationSpec("insert", "");
    assert spec.operations[0] in spec.operations;
    StandingIsQuiet(env, db, cfg, INSERT, KEYED_LISTENER, KEYED);
  }

  lemma KeyedPlansNothing()
    ensures PlansNothing(KeyEnv(), KeyedDatabase(), OneListener(Inserting("a", "")))
  {
    OneListenerIsLegal("a", "");
    KeyedIsManaged();
    KeyedIsQuiet();
    forall again | IsPlanFor(KeyEnv(), KeyedDatabase(), OneListener(Inserting("a", "")), again)
      ensures again == PlanResult([], again.examined, [], Clean)
    {
      QuietPlanIsClean(KeyEnv(), KeyedDatabase(), OneListener(Inserting("a", "")), again);
    }
  }

  lemma KeyedIsWanted()
    ensures Wanted(KeyEnv(), KeyedDatabase(), OneListener(Inserting("a", "")), KEYED_LISTENER, KEYED, INSERT)
  {
    OneListenerIsLegal("a", "");
    KeyedIsManaged();
  }

  /** The function was generated from this very listener, for the table as it was then. */
  lemma KeyedIsTraced()
    ensures Traced(KeyEnv(), "i", KeyedDatabase(), (p: Pair) => Some(Origin(KEYED_LISTENER, Table("a", "id"))))
  {}

  lemma KeyedIsStale()
    ensures Installed(KeyEnv(), "i", KeyedDatabase(), 1, INSERT) != Some(GeneratedNow(KeyEnv(), "i", KEYED_LISTENER, KEYED, INSERT))
  {
    assert "id" != "uuid";
  }

  /** The pair reads as recorded, so every plan is clean, and the function goes on shipping the old key. */
  lemma AKeyChangeIsNotSeen()
    ensures Managed(KeyEnv(), "i", KeyedDatabase()) && PlansNothing(KeyEnv(), KeyedDatabase(), OneListener(Inserting("a", "")))
    ensures Wanted(KeyEnv(), KeyedDatabase(), OneListener(Inserting("a", "")), KEYED_LISTENER, KEYED, INSERT)
    ensures Traced(KeyEnv(), "i", KeyedDatabase(), (p: Pair) => Some(Origin(KEYED_LISTENER, Table("a", "id"))))
    ensures Installed(KeyEnv(), "i", KeyedDatabase(), 1, INSERT) != Some(GeneratedNow(KeyEnv(), "i", KEYED_LISTENER, KEYED, INSERT))
  {
    KeyedIsManaged();
    KeyedPlansNothing();
    KeyedIsWanted();
    KeyedIsTraced();
    KeyedIsStale();
  }

  // ----- a function nobody read is replaced --------------------------------------------------------

  /** Another instance's function stands under the name this one generates; nothing is recorded. */
  function ForeignDatabase(): Database {
    Database(map[1 := Table("a", "")], map["a" := 1], map[],
             map[Name(INSERT) := Function(Some(Marker("j", INSERT)), "theirs")], map[], map[])
  }

  lemma ForeignIsManaged()
    ensures Managed(PlainEnv(), "i", ForeignDatabase()) && !MarkedOurs(ForeignDatabase(), "i", Name(INSERT))
  {
    assert LegalName("i") && LegalName("j") && LegalName("x") && LegalPair(INSERT);
    forall q | LegalPair(q) ensures Marker("j", INSERT) != Marker("i", q) {
      LegalMarkerParses("j", INSERT);
      LegalMarkerParses("i", q);
    }
  }

  lemma ForeignIsCreated()
    ensures ConfiguredTarget(PlainEnv(), ForeignDatabase(), Listener("x", true, Inserting("a", ""))) == Resolution(New, Some(Target(1, Table("a", ""))), None)
    ensures ClassifyPair(PlainEnv(), Source(PlainEnv(), ForeignDatabase(), OneListener(Inserting("a", "")), INSERT)) == Act(Action(INSERT, Create))
  {
    var env, db, cfg := PlainEnv(), ForeignDatabase(), OneListener(Inserting("a", ""));
    OneListenerIsLegal("a", "");
    ForeignIsManaged();
    assert ResolveName(env, db, "a") == Some(Target(1, Table("a", "")));
    assert Examines(env, db, cfg, INSERT);
    SourceIs(env, db, cfg, INSERT);
  }

  lemma ForeignHasOneAction()
    ensures OnlyAction(PlainEnv(), ForeignDatabase(), OneListener(Inserting("a", "")), Action(INSERT, Create))
  {
    ForeignIsCreated();
    InsertIsTheOnlyAction(PlainEnv(), ForeignDatabase(), "a", "", Action(INSERT, Create));
  }

  lemma ForeignIsUnread(actions: seq<Action>)
    requires Action(INSERT, Create) in actions
    ensures Unread(PlainEnv(), ForeignDatabase(), OneListener(Inserting("a", "")), actions, Name(INSERT))
  {
    ForeignIsCreated();
    OneListenerIsLegal("a", "");
    assert IsUnread(PlainEnv(), ForeignDatabase(), OneListener(Inserting("a", "")), Action(INSERT, Create), Name(INSERT));
  }

  /** The plan refuses nothing, and the run takes the other instance's function over. */
  lemma AForeignFunctionIsReplaced() returns (plan: PlanResult, db': Database)
    ensures Ran(PlainEnv(), ForeignDatabase(), OneListener(Inserting("a", "")), plan, db')
    ensures ForeignDatabase().functions[Name(INSERT)].marker == Some(Marker("j", INSERT)) && !MarkedOurs(ForeignDatabase(), "i", Name(INSERT))
    ensures Name(INSERT) in db'.functions && MarkedOurs(db', "i", Name(INSERT))
  {
    var env, db, cfg := PlainEnv(), ForeignDatabase(), OneListener(Inserting("a", ""));
    OneListenerIsLegal("a", "");
    ForeignIsManaged();
    ForeignHasOneAction();
    plan, db' := ARunOfOne(env, db, cfg, Action(INSERT, Create));
    ForeignIsUnread(plan.actions);
    UnreadIsReplaced(env, db, cfg, plan, db', Name(INSERT));
  }

  // ----- a function under another pair's name ------------------------------------------------------

  const BOTH := TriggerSpec("a", "", [OperationSpec("insert", ""), OperationSpec("update", "")])
  const HEALTHY := Target(1, Table("a", ""))

  /** The insert pair's function was renamed to the update pair's name; its comment went with it, and the
      insert trigger executes it still. PostgreSQL keeps all of this. */
  function SwappedDatabase(): Database {
    Database(map[1 := Table("a", "")], map["a" := 1],
             map[Place(1, Name(INSERT)) := Trigger(Name(UPDATE), Some(Marker("i", INSERT)), "trigger")],
             map[Name(UPDATE) := Function(Some(Marker("i", INSERT)), "")],
             map["x" := RecordedListener(Inserting("a", ""), "a", "a", 1, true)],
             map[INSERT := RecordedTrigger(Name(INSERT), Name(INSERT), "trigger")])
  }

  lemma PairsDiffer()
    ensures LegalPair(INSERT) && LegalPair(UPDATE) && Name(INSERT) != Name(UPDATE) && Marker("i", INSERT) != Marker("i", UPDATE)
  {
    assert LegalName("x") && LegalName("i");
    if Name(INSERT) == Name(UPDATE) {
      NamesAreInjective(INSERT, UPDATE, PlainEnv().hashed);
    }
    LegalMarkerParses("i", INSERT);
    LegalMarkerParses("i", UPDATE);
  }

  /** All that Managed asks for but the place of one comment. */
  lemma SwappedIsAlmostManaged()
    ensures Consistent(PlainEnv(), SwappedDatabase()) && RecordedNames(PlainEnv(), SwappedDatabase())
    ensures !MarkersInPlace(PlainEnv(), "i", SwappedDatabase())
  {
    PairsDiffer();
    var db := SwappedDatabase();
    assert Name(UPDATE) in db.functions && db.functions[Name(UPDATE)].marker == Some(Marker("i", INSERT));
  }

  lemma BothAreLegal()
    ensures OneListener(BOTH).Legal() && FindListener(OneListener(BOTH).listeners, "x") == Some(Listener("x", true, BOTH))
    ensures forall o :: HasOperation(BOTH, o) <==> o == "insert" || o == "update"
  {
    assert LegalName("x") && LegalName("i");
    assert BOTH.operations[0] in BOTH.operations && BOTH.operations[1] in BOTH.operations;
    assert "insert" != "update";
    forall o | HasOperation(BOTH, o) ensures o == "insert" || o == "update" {
      var spec :| spec in BOTH.operations && spec.kind == o;
    }
  }

  lemma SwappedTarget()
    ensures ConfiguredTarget(PlainEnv(), SwappedDatabase(), Listener("x", true, BOTH)) == Resolution(Healthy, Some(HEALTHY), None)
  {
    assert ResolveName(PlainEnv(), SwappedDatabase(), "a") == Some(HEALTHY);
  }

  lemma InsertIsUnchanged()
    ensures "insert" in ChangesOf(PlainEnv(), Inserting("a", ""), BOTH) && !ChangesOf(PlainEnv(), Inserting("a", ""), BOTH)["insert"]
  {
    var was, now := Inserting("a", "").operations, BOTH.operations;
    assert now[0] in now && now[0].kind == "insert";
    assert now[..1] == was && "update" != "insert";
    assert OperationByKind(was, "insert") == Some("");
    assert OperationByKind(now, "insert") == OperationByKind(now[..1], "insert");
  }

  lemma SwappedExamines(q: Pair)
    ensures Examines(PlainEnv(), SwappedDatabase(), OneListener(BOTH), q) <==> q == INSERT || q == UPDATE
  {
    BothAreLegal();
    SwappedTarget();
    FoundIsOneOf(OneListener(BOTH).listeners, q.listener);
    assert HasRows(SwappedDatabase(), "x");
  }

  /** What a recorded pair that stands as recorded is classified as, whatever its function is called. */
  lemma StandingIsQuiet(env: Env, db: Database, cfg: Config, p: Pair, l: Listener, t: Target)
    requires cfg.Legal() && RecordedNames(env, db) && Examines(env, db, cfg, p) && LegalPair(p)
    requires FindListener(cfg.listeners, p.listener) == Some(l) && l.enabled && Generates(env, db, Some(l), p.operation)
    requires TargetOf(env, db, cfg.listeners, p.listener) == Resolution(Healthy, Some(t), None)
    requires p in db.rows && p.listener in db.listeners
    requires var changes := ChangesOf(env, db.listeners[p.listener].trigger, l.trigger); p.operation in changes && !changes[p.operation]
    requires var trigger, code := ReadTrigger(env, db, t.oid, NameOf(p, env.hashed)), ReadFunctionOf(env, db, t.oid, NameOf(p, env.hashed));
             && trigger.Some? && code.Some? && trigger.value.marker == code.value.marker == Some(Marker(cfg.instance, p))
             && db.rows[p].ddlHash == env.fingerprint(trigger.value.definition, code.value.definition)
    ensures ClassifyPair(env, Source(env, db, cfg, p)) == Nothing
  {
    SourceIs(env, db, cfg, p);
    FoundIsOneOf(cfg.listeners, p.listener);
    AgreedIsNothing(env, Source(env, db, cfg, p), p);
  }

  /** What a wanted pair is classified as that is neither recorded nor read. */
  lemma MissingIsCreated(env: Env, db: Database, cfg: Config, p: Pair, l: Listener, t: Target)
    requires cfg.Legal() && RecordedNames(env, db) && Examines(env, db, cfg, p) && LegalPair(p)
    requires FindListener(cfg.listeners, p.listener) == Some(l) && l.enabled && Generates(env, db, Some(l), p.operation)
    requires TargetOf(env, db, cfg.listeners, p.listener) == Resolution(Healthy, Some(t), None)
    requires p !in db.rows && ReadTrigger(env, db, t.oid, NameOf(p, env.hashed)).None? && ReadFunctionOf(env, db, t.oid, NameOf(p, env.hashed)).None?
    ensures ClassifyPair(env, Source(env, db, cfg, p)) == Act(Action(p, Create))
  {
    SourceIs(env, db, cfg, p);
    SourcePair(env, db, cfg, p);
  }

  /** Both objects the insert pair reads carry its marker, and read as recorded. */
  lemma SwappedReads()
    ensures var env, db := PlainEnv(), SwappedDatabase();
            var trigger, code := ReadTrigger(env, db, 1, Name(INSERT)), ReadFunctionOf(env, db, 1, Name(INSERT));
            && trigger.Some? && code.Some? && trigger.value.marker == code.value.marker == Some(Marker("i", INSERT))
            && INSERT in db.rows && db.rows[INSERT].ddlHash == env.fingerprint(trigger.value.definition, code.value.definition)
  {
    PairsDiffer();
  }

  lemma SwappedInsertIsQuiet()
    ensures ClassifyPair(PlainEnv(), Source(PlainEnv(), SwappedDatabase(), OneListener(BOTH), INSERT)) == Nothing
  {
    BothAreLegal();
    SwappedReads();
    SwappedIsAlmostManaged();
    SwappedTarget();
    SwappedExamines(INSERT);
    InsertIsUnchanged();
    StandingIsQuiet(PlainEnv(), SwappedDatabase(), OneListener(BOTH), INSERT, Listener("x", true, BOTH), HEALTHY);
  }

  lemma SwappedUpdateIsCreated()
    ensures ClassifyPair(PlainEnv(), Source(PlainEnv(), SwappedDatabase(), OneListener(BOTH), UPDATE)) == Act(Action(UPDATE, Create))
  {
    BothAreLegal();
    PairsDiffer();
    SwappedIsAlmostManaged();
    SwappedTarget();
    SwappedExamines(UPDATE);
    MissingIsCreated(PlainEnv(), SwappedDatabase(), OneListener(BOTH), UPDATE, Listener("x", true, BOTH), HEALTHY);
  }

  lemma SwappedHasOneAction()
    ensures OnlyAction(PlainEnv(), SwappedDatabase(), OneListener(BOTH), Action(UPDATE, Create))
  {
    SwappedInsertIsQuiet();
    SwappedUpdateIsCreated();
    forall q ensures Examines(PlainEnv(), SwappedDatabase(), OneListener(BOTH), q) <==> q == INSERT || q == UPDATE {
      SwappedExamines(q);
    }
  }

  lemma SwappedPlan() returns (plan: PlanResult)
    ensures IsPlanFor(PlainEnv(), SwappedDatabase(), OneListener(BOTH), plan) && plan.refusals == []
    ensures Decides(PlainEnv(), SwappedDatabase(), OneListener(BOTH), plan.actions)
    ensures Alone(plan.actions, Action(UPDATE, Create))
  {
    BothAreLegal();
    SwappedIsAlmostManaged();
    SwappedHasOneAction();
    plan := APlanOfOne(PlainEnv(), SwappedDatabase(), OneListener(BOTH), Action(UPDATE, Create));
  }

  function UpdateObject(): ApplyObject {
    ApplyObject(HEALTHY, Name(UPDATE), false, CreatesFor(PlainEnv(), "i", Listener("x", true, BOTH), HEALTHY, UPDATE))
  }

  lemma SwappedObjects(actions: seq<Action>)
    requires actions == [Action(UPDATE, Create)]
    ensures ObjectsOf(PlainEnv(), SwappedDatabase(), OneListener(BOTH), actions) == Some([UpdateObject()])
  {
    BothAreLegal();
    SwappedTarget();
    var env, db, cfg := PlainEnv(), SwappedDatabase(), OneListener(BOTH);
    assert ObjectForAction(env, db, cfg, actions[0]) == Some(UpdateObject());
    assert actions[..0] == [] && ObjectsOf(env, db, cfg, []) == Some([]);
    assert [] + [UpdateObject()] == [UpdateObject()];
  }

  lemma OneObjectSchedule(db: Database, o: ApplyObject) returns (steps: seq<Step>)
    requires Ready(db, o) && Scoped(o) && !o.drop && o.creates != []
    ensures IsSchedule([o], steps) && RunSteps(db, steps).Some? && DropsFirst(steps) && AllScoped(steps) && Step(o, true) in steps
    ensures forall s :: s in steps ==> s == Step(o, true)
  {
    steps := AScheduleExists([o]);
    ScheduleFacts([o], steps);
    forall s ensures s in steps <==> s == Step(o, true) {
      assert s in steps <==> IsStepOf(s, [o]);
    }
    ScheduleRunsIff(db, steps);
  }

  lemma UpdateIsReady()
    ensures Ready(SwappedDatabase(), UpdateObject()) && Scoped(UpdateObject()) && UpdateObject().creates != []
  {
    PairsDiffer();
    var env, l := PlainEnv(), Listener("x", true, BOTH);
    assert UpdateObject().creates == Creates(1, Name(UPDATE), Marker("i", UPDATE), env.functionText("i", l, HEALTHY.table, "update"),
                                             env.triggerText("i", l, HEALTHY.table, "update"));
  }

  /** The catalog after the update pair was created: its function is the one the insert trigger executes. */
  predicate Overwritten(mid: Database) {
    var db := SwappedDatabase();
    && mid.tables == db.tables && mid.names == db.names && mid.listeners == db.listeners && mid.rows == db.rows
    && Place(1, Name(INSERT)) in mid.triggers && mid.triggers[Place(1, Name(INSERT))] == db.triggers[Place(1, Name(INSERT))]
    && Place(1, Name(UPDATE)) in mid.triggers && mid.triggers[Place(1, Name(UPDATE))].executes == Name(UPDATE)
    && Name(UPDATE) in mid.functions && mid.functions[Name(UPDATE)].marker == Some(Marker("i", UPDATE))
  }

  lemma SwappedIsOverwritten() returns (steps: seq<Step>)
    ensures IsSchedule([UpdateObject()], steps) && RunSteps(SwappedDatabase(), steps).Some?
    ensures Overwritten(RunSteps(SwappedDatabase(), steps).value)
  {
    var db, o, env, l := SwappedDatabase(), UpdateObject(), PlainEnv(), Listener("x", true, BOTH);
    PairsDiffer();
    UpdateIsReady();
    steps := OneObjectSchedule(db, o);
    CreateStepInstalls(db, steps, o, Marker("i", UPDATE), env.functionText("i", l, HEALTHY.table, "update"),
                       env.triggerText("i", l, HEALTHY.table, "update"));
    OtherStepsKeep(db, steps, 1, Name(INSERT));
    StepsKeepRegistry(db, steps);
  }

  lemma OverwrittenTarget(mid: Database)
    requires Overwritten(mid)
    ensures ConfiguredTarget(PlainEnv(), mid, Listener("x", true, BOTH)) == Resolution(Healthy, Some(HEALTHY), None)
  {
    SwappedTarget();
    SameResolution(PlainEnv(), SwappedDatabase(), mid, "x", "a", RecordedOf(SwappedDatabase(), "x"));
  }

  lemma BothRowsAreRead(mid: Database)
    requires Overwritten(mid)
    ensures INSERT.operation in RegistryTriggers(PlainEnv(), mid, Listener("x", true, BOTH), 1)
  {
    BothAreLegal();
    var env, l := PlainEnv(), Listener("x", true, BOTH);
    forall o ensures o in DesiredOperations(l) <==> o == "insert" || o == "update" {
      DesiredOperationsAre(l, o);
    }
    assert RecordedPair(env, mid, 1, Name(INSERT)).Some? && RecordedPair(env, mid, 1, Name(UPDATE)).Some?;
    assert Pair("x", "insert") == INSERT && Pair("x", "update") == UPDATE;
  }

  lemma ResettledListener(mid: Database, db': Database)
    requires Overwritten(mid) && Synced(PlainEnv(), mid, OneListener(BOTH), [Action(UPDATE, Create)], db')
    ensures "x" in db'.listeners && db'.listeners["x"] == NewRow(PlainEnv(), Listener("x", true, BOTH), HEALTHY)
    ensures EntryRows(db', "x", RegistryTriggers(PlainEnv(), mid, Listener("x", true, BOTH), 1))
  {
    var actions := [Action(UPDATE, Create)];
    BothAreLegal();
    OverwrittenTarget(mid);
    assert actions[0] in actions && Acts(actions, "x");
    SyncedAt(PlainEnv(), mid, OneListener(BOTH), actions, db', "x");
  }

  lemma ResettledOthers(mid: Database, db': Database, n: string)
    requires Overwritten(mid) && Synced(PlainEnv(), mid, OneListener(BOTH), [Action(UPDATE, Create)], db') && n != "x"
    ensures n !in db'.listeners && forall p: Pair :: p.listener == n ==> p !in db'.rows
  {
    SyncedAt(PlainEnv(), mid, OneListener(BOTH), [Action(UPDATE, Create)], db', n);
    assert !Acts([Action(UPDATE, Create)], n);
    assert n !in mid.listeners;
  }

  lemma ResettledEntry(mid: Database, db': Database)
    requires Overwritten(mid) && Synced(PlainEnv(), mid, OneListener(BOTH), [Action(UPDATE, Create)], db')
    ensures db'.listeners.Keys == {"x"} && db'.listeners["x"] == NewRow(PlainEnv(), Listener("x", true, BOTH), HEALTHY)
    ensures EntryRows(db', "x", RegistryTriggers(PlainEnv(), mid, Listener("x", true, BOTH), 1)) && INSERT in db'.rows
    ensures SameCatalog(mid, db') && forall p :: p in db'.rows ==> p.listener == "x"
  {
    ResettledListener(mid, db');
    BothRowsAreRead(mid);
    forall n | n != "x" ensures n !in db'.listeners {
      ResettledOthers(mid, db', n);
    }
    forall p | p in db'.rows ensures p.listener == "x" {
      if p.listener != "x" {
        ResettledOthers(mid, db', p.listener);
      }
    }
  }

  lemma ResettledNames(mid: Database, db': Database)
    requires Overwritten(mid) && Synced(PlainEnv(), mid, OneListener(BOTH), [Action(UPDATE, Create)], db')
    ensures RecordedNames(PlainEnv(), db')
  {
    ResettledEntry(mid, db');
    assert LegalName("x");
    forall p | p in db'.rows
      ensures LegalPair(p) && db'.rows[p].triggerName == db'.rows[p].functionName == NameOf(p, PlainEnv().hashed)
    {
      RegistryRowIs(PlainEnv(), mid, Listener("x", true, BOTH), 1, p.operation);
    }
  }

  lemma ResettledIsForeign(mid: Database, db': Database)
    requires Overwritten(mid) && Synced(PlainEnv(), mid, OneListener(BOTH), [Action(UPDATE, Create)], db')
    ensures Examines(PlainEnv(), db', OneListener(BOTH), INSERT) && ClassifyPair(PlainEnv(), Source(PlainEnv(), db', OneListener(BOTH), INSERT)).Refuse?
  {
    var env, cfg := PlainEnv(), OneListener(BOTH);
    BothAreLegal();
    PairsDiffer();
    ResettledEntry(mid, db');
    ResettledNames(mid, db');
    ResettledTarget(db');
    SourceIs(env, db', cfg, INSERT);
    var s := Source(env, db', cfg, INSERT);
    assert s.observed.code == ReadFunctionOf(env, db', 1, Name(INSERT));
    if !ClassifyPair(env, s).Refuse? {
      NotRefusedIsOwned(env, s, INSERT);
    }
  }

  lemma ResettledTarget(db': Database)
    requires db'.tables == SwappedDatabase().tables && db'.names == SwappedDatabase().names
    requires "x" in db'.listeners && db'.listeners["x"] == NewRow(PlainEnv(), Listener("x", true, BOTH), HEALTHY)
    ensures ConfiguredTarget(PlainEnv(), db', Listener("x", true, BOTH)) == Resolution(Healthy, Some(HEALTHY), None)
  {
    assert ResolveName(PlainEnv(), db', "a") == Some(HEALTHY);
  }

  lemma SwappedCommits() returns (plan: PlanResult, mid: Database, db': Database)
    ensures IsPlanFor(PlainEnv(), SwappedDatabase(), OneListener(BOTH), plan) && plan.refusals == [] && plan.actions == [Action(UPDATE, Create)]
    ensures Applied(PlainEnv(), SwappedDatabase(), OneListener(BOTH), plan.actions, db')
    ensures Overwritten(mid) && Synced(PlainEnv(), mid, OneListener(BOTH), plan.actions, db')
  {
    var env, db, cfg := PlainEnv(), SwappedDatabase(), OneListener(BOTH);
    plan := SwappedPlan();
    OneMember(plan.actions, Action(UPDATE, Create));
    SwappedObjects(plan.actions);
    var steps := SwappedIsOverwritten();
    mid := RunSteps(db, steps).value;
    BothAreLegal();
    OverwrittenTarget(mid);
    ResyncedIsSynced(env, mid, cfg, plan.actions);
    db' := Resynced(env, mid, cfg, plan.actions);
    assert Committed(env, db, cfg, plan.actions, [UpdateObject()], steps, db');
  }

  lemma OneMember(actions: seq<Action>, a: Action)
    requires Alone(actions, a) && forall i, j :: 0 <= i < j < |actions| ==> actions[i].pair != actions[j].pair
    ensures actions == [a]
  {
    assert a in actions;
    forall i | 0 <= i < |actions| ensures actions[i] == a {
      assert actions[i] in actions;
    }
    assert |actions| > 1 ==> actions[0].pair != actions[1].pair;
  }

  lemma SwappedSettles(actions: seq<Action>)
    ensures AllSettled(PlainEnv(), SwappedDatabase(), OneListener(BOTH), actions)
  {
    SwappedTarget();
    assert ResolveName(PlainEnv(), SwappedDatabase(), "a") == Some(HEALTHY);
  }

  lemma ResettledRefuses(mid: Database, db': Database)
    requires Overwritten(mid) && Synced(PlainEnv(), mid, OneListener(BOTH), [Action(UPDATE, Create)], db')
    ensures PlansARefusal(PlainEnv(), db', OneListener(BOTH))
  {
    BothAreLegal();
    ResettledNames(mid, db');
    ResettledIsForeign(mid, db');
    RefusedIsPlanned(PlainEnv(), db', OneListener(BOTH), INSERT);
  }

  lemma RefusedIsPlanned(env: Env, db: Database, cfg: Config, q: Pair)
    requires cfg.Legal() && RecordedNames(env, db) && Examines(env, db, cfg, q) && ClassifyPair(env, Source(env, db, cfg, q)).Refuse?
    ensures PlansARefusal(env, db, cfg)
  {
    forall again | IsPlanFor(env, db, cfg, again) ensures again.refusals != [] && again.actions == [] {
      RefusedPlanIsRefused(env, db, cfg, again, q);
    }
  }

  /** Convergence needs every comment in its place. Here a plan without refusals commits, and the next one
      refuses: creating the update pair replaced the function the insert trigger executes. */
  lemma AMovedCommentBreaksConvergence() returns (plan: PlanResult, db': Database)
    ensures Consistent(PlainEnv(), SwappedDatabase()) && RecordedNames(PlainEnv(), SwappedDatabase())
    ensures !MarkersInPlace(PlainEnv(), "i", SwappedDatabase()) && OneListener(BOTH).Legal()
    ensures IsPlanFor(PlainEnv(), SwappedDatabase(), OneListener(BOTH), plan) && plan.refusals == []
    ensures Applied(PlainEnv(), SwappedDatabase(), OneListener(BOTH), plan.actions, db') && AllSettled(PlainEnv(), SwappedDatabase(), OneListener(BOTH), plan.actions)
    ensures PlansARefusal(PlainEnv(), db', OneListener(BOTH))
  {
    var mid;
    plan, mid, db' := SwappedCommits();
    SwappedIsAlmostManaged();
    BothAreLegal();
    SwappedSettles(plan.actions);
    ResettledRefuses(mid, db');
  }
}
