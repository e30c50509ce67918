/** What the recorded fingerprints are fingerprints of, over every history of runs and of changes made
    beside them. */
module ReconcileProvenance {
  import opened Options
  import opened ReconcileNames
  import opened ReconcileModel
  import opened ReconcileDiff
  import opened ReconcileRead
  import opened ReconcileStatements
  import opened ReconcileApply
  import opened ReconcileEffects
  import opened ReconcileConvergence
  import opened ReconcileTheorems
  import opened ReconcileInstalled

  /** The listener and the relation, as they then were, that a pair was last created or replaced from. */
  datatype Origin = Origin(listener: Listener, table: Table)

  type Origins = Pair -> Option<Origin>

  function FromOrigin(env: Env, instance: string, o: Origin, p: Pair, called: string): Definition {
    Generated(env, instance, o.listener, o.table, p, called)
  }

  /** A recorded fingerprint is the one of what was generated when its pair was last created or replaced,
      read while the relation had the name the registry records. */
  ghost predicate TracedRow(env: Env, instance: string, db: Database, origins: Origins, p: Pair)
    requires p in db.rows
  {
    && p.listener in db.listeners && origins(p).Some?
    && db.rows[p].ddlHash == Digest(env, FromOrigin(env, instance, origins(p).value, p, db.listeners[p.listener].targetTable))
  }

  ghost predicate Traced(env: Env, instance: string, db: Database, origins: Origins) {
    forall p :: p in db.rows ==> TracedRow(env, instance, db, origins, p)
  }

  function OriginAfter(env: Env, db: Database, cfg: Config, actions: seq<Action>, origins: Origins, p: Pair): Option<Origin> {
    var l := FindListener(cfg.listeners, p.listener);
    if Rebuilds(actions, p) && l.Some? && ConfiguredTarget(env, db, l.value).target.Some?
    then Some(Origin(l.value, ConfiguredTarget(env, db, l.value).target.value.table))
    else origins(p)
  }

  function OriginsAfter(env: Env, db: Database, cfg: Config, actions: seq<Action>, origins: Origins): Origins {
    (p: Pair) => OriginAfter(env, db, cfg, actions, origins, p)
  }

  /** What stands of a pair is what was generated when it was last created or replaced: nobody altered it. */
  ghost predicate Undrifted(env: Env, instance: string, db: Database, origins: Origins, t: Target, p: Pair) {
    && KnownOperation(p.operation) && origins(p).Some?
    && Installed(env, instance, db, t.oid, p) == Some(FromOrigin(env, instance, origins(p).value, p, t.table.name))
  }

  /** No pair of a renamed relation was altered when its run came. */
  ghost predicate RenamesUndrifted(env: Env, db: Database, cfg: Config, actions: seq<Action>, origins: Origins) {
    forall a, l, t :: a in actions && a.kind == Rename && Wanted(env, db, cfg, l, t, a.pair) ==> Undrifted(env, cfg.instance, db, origins, t, a.pair)
  }

  // ----- one row -----------------------------------------------------------------------------------

  /** The relation a kept pair was not renamed on is still called what the registry records. */
  lemma HealthyIsCalledTheSame(env: Env, db: Database, cfg: Config, actions: seq<Action>, l: Listener, t: Target, p: Pair)
    requires cfg.Legal() && Managed(env, cfg.instance, db) && Decides(env, db, cfg, actions) && Wanted(env, db, cfg, l, t, p)
    requires Keeps(env, Source(env, db, cfg, p))
    ensures p in db.rows && p.listener in db.listeners && Source(env, db, cfg, p).recorded.trigger.value == db.rows[p]
    ensures Source(env, db, cfg, p).target.outcome != Renamed ==> t.table.name == db.listeners[p.listener].targetTable
  {
    WantedIsExamined(env, db, cfg, actions, l, t, p);
    SourceIs(env, db, cfg, p);
    FoundIsOneOf(cfg.listeners, p.listener);
  }

  /** A row that a run writes is of a pair the configuration wants. */
  lemma RowIsWanted(env: Env, db: Database, cfg: Config, actions: seq<Action>, objects: seq<ApplyObject>, steps: seq<Step>, db': Database,
                    p: Pair) returns (l: Listener, t: Target)
    requires Commits(env, db, cfg, actions, objects, steps, db') && p in db'.rows && Acts(actions, p.listener)
    ensures l.name == p.listener && Wanted(env, db, cfg, l, t, p) && Entry(env, db, cfg, RunSteps(db, steps).value, db', l, t)
    ensures p.operation in RegistryTriggers(env, RunSteps(db, steps).value, l, t.oid)
  {
    var mid := RunSteps(db, steps).value;
    if FindListener(cfg.listeners, p.listener).None? {
      SyncedAt(env, mid, cfg, actions, db', p.listener);
    }
    l, t := ActingEntry(env, db, cfg, actions, objects, steps, db', p.listener);
    FoundIsOneOf(cfg.listeners, p.listener);
    DesiredOperationsAre(l, p.operation);
    RegistryRowIs(env, mid, l, t.oid, p.operation);
  }

  /** The row written of a wanted pair holds the fingerprint of what is then installed. */
  lemma RowIsOfTheInstalled(env: Env, db: Database, cfg: Config, actions: seq<Action>, objects: seq<ApplyObject>, steps: seq<Step>, db': Database,
                            p: Pair) returns (l: Listener, t: Target)
    requires Commits(env, db, cfg, actions, objects, steps, db') && p in db'.rows && Acts(actions, p.listener)
    ensures Wanted(env, db, cfg, l, t, p) && p.listener in db'.listeners && db'.listeners[p.listener].targetTable == t.table.name
    ensures Installed(env, cfg.instance, db', t.oid, p).Some?
    ensures db'.rows[p].ddlHash == Digest(env, Installed(env, cfg.instance, db', t.oid, p).value)
  {
    var mid := RunSteps(db, steps).value;
    l, t := RowIsWanted(env, db, cfg, actions, objects, steps, db', p);
    RegistryRowIs(env, mid, l, t.oid, p.operation);
    assert Pair(l.name, p.operation) == p;
    CommittedIsInstalled(env, db, cfg, actions, objects, steps, db', l, t, p);
    CatalogReadsTheSame(env, mid, db', t.oid, NameOf(p, env.hashed));
  }

  lemma QuietRowStaysTraced(env: Env, db: Database, cfg: Config, actions: seq<Action>, objects: seq<ApplyObject>, steps: seq<Step>, db': Database,
                            origins: Origins, p: Pair)
    requires Commits(env, db, cfg, actions, objects, steps, db') && Traced(env, cfg.instance, db, origins)
    requires p in db'.rows && !Acts(actions, p.listener)
    ensures TracedRow(env, cfg.instance, db', OriginsAfter(env, db, cfg, actions, origins), p)
  {
    NoActionSameSide(env, db, cfg, actions, objects, steps, db', p.listener);
    assert TracedRow(env, cfg.instance, db, origins, p);
  }

  /** The same fingerprint is the same definition. */
  lemma SameDigestIff(env: Env, d: Definition, e: Definition)
    requires NoCollisions(env)
    ensures Digest(env, d) == Digest(env, e) <==> d == e
  {}

  /** The row of a kept pair goes on being traced exactly when what was observed is what was generated, which
      the guard has tested unless the relation was renamed. */
  lemma KeptRowIff(env: Env, db: Database, cfg: Config, actions: seq<Action>, origins: Origins, l: Listener, t: Target, p: Pair)
    requires cfg.Legal() && Managed(env, cfg.instance, db) && Decides(env, db, cfg, actions) && Wanted(env, db, cfg, l, t, p)
    requires Traced(env, cfg.instance, db, origins) && NoCollisions(env) && Keeps(env, Source(env, db, cfg, p))
    ensures origins(p).Some?
    ensures Digest(env, Observation(Source(env, db, cfg, p))) == Digest(env, FromOrigin(env, cfg.instance, origins(p).value, p, t.table.name))
            <==> (Source(env, db, cfg, p).target.outcome == Renamed ==> Undrifted(env, cfg.instance, db, origins, t, p))
  {
    HealthyIsCalledTheSame(env, db, cfg, actions, l, t, p);
    ObservedIsInstalled(env, db, cfg, actions, l, t, p);
    assert TracedRow(env, cfg.instance, db, origins, p);
    SameDigestIff(env, Observation(Source(env, db, cfg, p)), FromOrigin(env, cfg.instance, origins(p).value, p, t.table.name));
  }

  lemma ActingRowIff(env: Env, db: Database, cfg: Config, actions: seq<Action>, objects: seq<ApplyObject>, steps: seq<Step>, db': Database,
                     origins: Origins, p: Pair) returns (l: Listener, t: Target)
    requires Commits(env, db, cfg, actions, objects, steps, db') && Traced(env, cfg.instance, db, origins) && NoCollisions(env)
    requires p in db'.rows && Acts(actions, p.listener)
    ensures Wanted(env, db, cfg, l, t, p)
    ensures TracedRow(env, cfg.instance, db', OriginsAfter(env, db, cfg, actions, origins), p)
            <==> ((exists a :: a in actions && a.pair == p && a.kind == Rename) ==> Undrifted(env, cfg.instance, db, origins, t, p))
  {
    l, t := RowIsOfTheInstalled(env, db, cfg, actions, objects, steps, db', p);
    CommittedIsInstalled(env, db, cfg, actions, objects, steps, db', l, t, p);
    WrittenRowIff(env, db, cfg, actions, db', origins, l, t, p);
  }

  lemma WrittenRowIff(env: Env, db: Database, cfg: Config, actions: seq<Action>, db': Database, origins: Origins, l: Listener, t: Target, p: Pair)
    requires cfg.Legal() && Managed(env, cfg.instance, db) && Decides(env, db, cfg, actions) && Wanted(env, db, cfg, l, t, p)
    requires Traced(env, cfg.instance, db, origins) && NoCollisions(env)
    requires p in db'.rows && p.listener in db'.listeners && db'.listeners[p.listener].targetTable == t.table.name
    requires var s := Source(env, db, cfg, p);
             db'.rows[p].ddlHash == Digest(env, if Keeps(env, s) then Observation(s) else GeneratedNow(env, cfg.instance, l, t, p))
    ensures TracedRow(env, cfg.instance, db', OriginsAfter(env, db, cfg, actions, origins), p)
            <==> ((exists a :: a in actions && a.pair == p && a.kind == Rename) ==> Undrifted(env, cfg.instance, db, origins, t, p))
  {
    RebuiltIff(env, db, cfg, actions, l, t, p);
    OriginIs(env, db, cfg, actions, origins, l, t, p);
    if Keeps(env, Source(env, db, cfg, p)) {
      KeptRowIff(env, db, cfg, actions, origins, l, t, p);
    }
    RowIsTracedIff(env, cfg.instance, db', OriginsAfter(env, db, cfg, actions, origins), t, p);
  }

  lemma OriginIs(env: Env, db: Database, cfg: Config, actions: seq<Action>, origins: Origins, l: Listener, t: Target, p: Pair)
    requires Wanted(env, db, cfg, l, t, p)
    ensures OriginsAfter(env, db, cfg, actions, origins)(p) == if Rebuilds(actions, p) then Some(Origin(l, t.table)) else origins(p)
  {}

  lemma RowIsTracedIff(env: Env, instance: string, db: Database, origins: Origins, t: Target, p: Pair)
    requires p in db.rows && p.listener in db.listeners && db.listeners[p.listener].targetTable == t.table.name && origins(p).Some?
    ensures TracedRow(env, instance, db, origins, p)
            <==> db.rows[p].ddlHash == Digest(env, FromOrigin(env, instance, origins(p).value, p, t.table.name))
  {}

  // ----- every row ---------------------------------------------------------------------------------

  lemma RenamedHasARow(env: Env, db: Database, cfg: Config, actions: seq<Action>, objects: seq<ApplyObject>, steps: seq<Step>, db': Database,
                       l: Listener, t: Target, a: Action)
    requires Commits(env, db, cfg, actions, objects, steps, db') && a in actions && Wanted(env, db, cfg, l, t, a.pair)
    ensures a.pair in db'.rows && Acts(actions, a.pair.listener)
  {
    var l', t' := ActingEntry(env, db, cfg, actions, objects, steps, db', a.pair.listener);
    EveryPairIsReadBack(env, db, cfg, actions, objects, steps, db', l, t);
  }

  lemma CommitKeepsTracedIff(env: Env, db: Database, cfg: Config, actions: seq<Action>, objects: seq<ApplyObject>, steps: seq<Step>, db': Database,
                             origins: Origins)
    requires Commits(env, db, cfg, actions, objects, steps, db') && Traced(env, cfg.instance, db, origins) && NoCollisions(env)
    ensures Traced(env, cfg.instance, db', OriginsAfter(env, db, cfg, actions, origins)) <==> RenamesUndrifted(env, db, cfg, actions, origins)
  {
    var after := OriginsAfter(env, db, cfg, actions, origins);
    if RenamesUndrifted(env, db, cfg, actions, origins) {
      forall p | p in db'.rows ensures TracedRow(env, cfg.instance, db', after, p) {
        if Acts(actions, p.listener) {
          var l, t := ActingRowIff(env, db, cfg, actions, objects, steps, db', origins, p);
        } else {
          QuietRowStaysTraced(env, db, cfg, actions, objects, steps, db', origins, p);
        }
      }
    }
    if Traced(env, cfg.instance, db', after) {
      forall a, l, t | a in actions && a.kind == Rename && Wanted(env, db, cfg, l, t, a.pair)
        ensures Undrifted(env, cfg.instance, db, origins, t, a.pair)
      {
        RenamedHasARow(env, db, cfg, actions, objects, steps, db', l, t, a);
        var l', t' := ActingRowIff(env, db, cfg, actions, objects, steps, db', origins, a.pair);
      }
    }
  }

  /** A run keeps the registry traced exactly when every pair it renames stands as it was generated. */
  lemma RunKeepsTracedIff(env: Env, db: Database, cfg: Config, plan: PlanResult, db': Database, origins: Origins)
    requires Ran(env, db, cfg, plan, db') && Traced(env, cfg.instance, db, origins) && NoCollisions(env)
    ensures Traced(env, cfg.instance, db', OriginsAfter(env, db, cfg, plan.actions, origins)) <==> RenamesUndrifted(env, db, cfg, plan.actions, origins)
  {
    var objects, steps := RanCommits(env, db, cfg, plan, db');
    CommitKeepsTracedIff(env, db, cfg, plan.actions, objects, steps, db', origins);
  }

  // ----- what is installed, by where it came from ---------------------------------------------------

  /** What was generated when the pair was last created or replaced reads differently from what would be
      generated now: the specification, or the relation, changed what the generator writes. */
  ghost predicate Stale(env: Env, instance: string, origins: Origins, l: Listener, t: Target, p: Pair) {
    origins(p).Some? && FromOrigin(env, instance, origins(p).value, p, t.table.name) != GeneratedNow(env, instance, l, t, p)
  }

  /** Of a traced registry: a wanted pair is installed as desired exactly when the run did not keep a stale
      one. */
  lemma InstalledIsDesiredByOrigin(env: Env, db: Database, cfg: Config, plan: PlanResult, db': Database, origins: Origins,
                                   l: Listener, t: Target, p: Pair)
    requires Ran(env, db, cfg, plan, db') && Wanted(env, db, cfg, l, t, p) && NoCollisions(env)
    requires Traced(env, cfg.instance, db, origins) && RenamesUndrifted(env, db, cfg, plan.actions, origins)
    ensures Installed(env, cfg.instance, db', t.oid, p) == Some(GeneratedNow(env, cfg.instance, l, t, p))
            <==> !(Keeps(env, Source(env, db, cfg, p)) && Stale(env, cfg.instance, origins, l, t, p))
  {
    InstalledIsDesiredIff(env, db, cfg, plan, db', l, t, p);
    PlanDecides(env, db, cfg, plan);
    RebuiltIff(env, db, cfg, plan.actions, l, t, p);
    if Keeps(env, Source(env, db, cfg, p)) {
      HealthyIsCalledTheSame(env, db, cfg, plan.actions, l, t, p);
      ObservedIsInstalled(env, db, cfg, plan.actions, l, t, p);
      assert TracedRow(env, cfg.instance, db, origins, p);
      SameDigestIff(env, GeneratedNow(env, cfg.instance, l, t, p), FromOrigin(env, cfg.instance, origins(p).value, p, t.table.name));
    }
  }

  // ----- histories ---------------------------------------------------------------------------------

  datatype World = World(db: Database, origins: Origins)

  /** Whatever is done to the relations, the triggers and the functions without a run: the registry is the
      service's own. */
  ghost predicate Beside(env: Env, instance: string, w: World, w': World) {
    && Managed(env, instance, w'.db) && w'.db.listeners == w.db.listeners && w'.db.rows == w.db.rows
    && forall p :: w'.origins(p) == w.origins(p)
  }

  ghost predicate RunOf(env: Env, cfg: Config, plan: PlanResult, w: World, w': World) {
    && Ran(env, w.db, cfg, plan, w'.db) && RenamesUndrifted(env, w.db, cfg, plan.actions, w.origins)
    && forall p :: w'.origins(p) == OriginAfter(env, w.db, cfg, plan.actions, w.origins, p)
  }

  datatype Event = Change | Run(cfg: Config, plan: PlanResult)

  ghost predicate Moves(env: Env, instance: string, e: Event, w: World, w': World) {
    if e.Change? then Beside(env, instance, w, w') else e.cfg.instance == instance && RunOf(env, e.cfg, e.plan, w, w')
  }

  /** A service that started from an empty registry; at no run had a pair of a renamed relation been altered. */
  ghost predicate IsHistory(env: Env, instance: string, events: seq<Event>, worlds: seq<World>) {
    && |worlds| == |events| + 1 && worlds[0].db.rows == map[]
    && forall i :: 0 <= i < |events| ==> Moves(env, instance, events[i], worlds[i], worlds[i + 1])
  }

  lemma SameRowsStayTraced(env: Env, instance: string, db: Database, db': Database, origins: Origins, origins': Origins)
    requires Traced(env, instance, db, origins) && db'.listeners == db.listeners && db'.rows == db.rows
    requires forall p :: origins'(p) == origins(p)
    ensures Traced(env, instance, db', origins')
  {
    forall p | p in db'.rows ensures TracedRow(env, instance, db', origins', p) {
      assert TracedRow(env, instance, db, origins, p);
    }
  }

  lemma RunOfKeepsTraced(env: Env, cfg: Config, plan: PlanResult, w: World, w': World)
    requires RunOf(env, cfg, plan, w, w') && Traced(env, cfg.instance, w.db, w.origins) && NoCollisions(env)
    ensures Traced(env, cfg.instance, w'.db, w'.origins)
  {
    RunKeepsTracedIff(env, w.db, cfg, plan, w'.db, w.origins);
    SameRowsStayTraced(env, cfg.instance, w'.db, w'.db, OriginsAfter(env, w.db, cfg, plan.actions, w.origins), w'.origins);
  }

  lemma MoveKeepsTraced(env: Env, instance: string, e: Event, w: World, w': World)
    requires Moves(env, instance, e, w, w') && Traced(env, instance, w.db, w.origins) && NoCollisions(env)
    ensures Traced(env, instance, w'.db, w'.origins)
  {
    if e.Change? {
      SameRowsStayTraced(env, instance, w.db, w'.db, w.origins, w'.origins);
    } else {
      RunOfKeepsTraced(env, e.cfg, e.plan, w, w');
    }
  }

  lemma HistoryMoves(env: Env, instance: string, events: seq<Event>, worlds: seq<World>, i: nat)
    requires IsHistory(env, instance, events, worlds) && i < |events|
    ensures Moves(env, instance, events[i], worlds[i], worlds[i + 1])
  {}

  lemma NextWorldIsTraced(env: Env, instance: string, events: seq<Event>, worlds: seq<World>, i: nat)
    requires IsHistory(env, instance, events, worlds) && NoCollisions(env) && i < |events| && Traced(env, instance, worlds[i].db, worlds[i].origins)
    ensures Traced(env, instance, worlds[i + 1].db, worlds[i + 1].origins)
  {
    HistoryMoves(env, instance, events, worlds, i);
    MoveKeepsTraced(env, instance, events[i], worlds[i], worlds[i + 1]);
  }

  lemma {:induction false} EveryWorldIsTraced(env: Env, instance: string, events: seq<Event>, worlds: seq<World>, i: nat)
    requires IsHistory(env, instance, events, worlds) && NoCollisions(env) && i < |worlds|
    ensures Traced(env, instance, worlds[i].db, worlds[i].origins)
  {
    if i > 0 {
      EveryWorldIsTraced(env, instance, events, worlds, i - 1);
      NextWorldIsTraced(env, instance, events, worlds, i - 1);
    }
  }

  /** At every run of every history, and of every pair the configuration then wants: it is left installed as
      desired exactly when the run did not keep it stale. */
  lemma InstalledIsDesiredInHistories(env: Env, instance: string, events: seq<Event>, worlds: seq<World>, i: nat, l: Listener, t: Target, p: Pair)
    requires IsHistory(env, instance, events, worlds) && NoCollisions(env) && i < |events| && events[i].Run?
    requires Wanted(env, worlds[i].db, events[i].cfg, l, t, p)
    ensures Installed(env, instance, worlds[i + 1].db, t.oid, p) == Some(GeneratedNow(env, instance, l, t, p))
            <==> !(Keeps(env, Source(env, worlds[i].db, events[i].cfg, p)) && Stale(env, instance, worlds[i].origins, l, t, p))
  {
    EveryWorldIsTraced(env, instance, events, worlds, i);
    HistoryMoves(env, instance, events, worlds, i);
    InstalledIsDesiredByOrigin(env, worlds[i].db, events[i].cfg, events[i].plan, worlds[i + 1].db, worlds[i].origins, l, t, p);
  }
}
