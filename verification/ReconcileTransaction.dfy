/** The apply transaction as the object whose state its statements change (internal/reconcile
    applytx.go, registry.go and apply.go). Whatever fails, the caller's database is as it was. */
module ReconcileTransaction {
  import opened Options
  import opened TextOrder
  import opened Sorting
  import opened ReconcileNames
  import opened ReconcileModel
  import opened ReconcileDiff
  import opened ReconcileRead
  import opened ReconcileStatements
  import opened ReconcileApply

  datatype Group = Group(name: string, objects: seq<ApplyObject>)

  ghost predicate GroupsOf(objects: seq<ApplyObject>, byTarget: map<string, seq<ApplyObject>>) {
    && (forall t :: t in byTarget <==> exists o :: o in objects && o.target.table.name == t)
    && forall t :: t in byTarget ==> byTarget[t] == Of(objects, t)
  }

  lemma {:induction false} NoGroup(objects: seq<ApplyObject>, table: string)
    requires forall o :: o in objects ==> o.target.table.name != table
    ensures Of(objects, table) == []
    decreases |objects|
  {
    if objects != [] {
      assert objects == objects[..|objects| - 1] + [objects[|objects| - 1]];
      NoGroup(objects[..|objects| - 1], table);
    }
  }

  lemma OneObjectMore(objects: seq<ApplyObject>, o: ApplyObject, byTarget: map<string, seq<ApplyObject>>)
    requires GroupsOf(objects, byTarget)
    ensures var t := o.target.table.name;
            GroupsOf(objects + [o], byTarget[t := (if t in byTarget then byTarget[t] else []) + [o]])
  {
    var all, name := objects + [o], o.target.table.name;
    assert all[..|objects|] == objects;
    var more := byTarget[name := (if name in byTarget then byTarget[name] else []) + [o]];
    forall t ensures t in more <==> exists x :: x in all && x.target.table.name == t {
      if t == name {
        assert o in all;
      } else if t in byTarget {
        var x :| x in objects && x.target.table.name == t;
        assert x in all;
      }
    }
    forall t | t in more ensures more[t] == Of(all, t) {
      assert Of(all, t) == Of(objects, t) + if name == t then [o] else [];
      if t !in byTarget {
        NoGroup(objects, t);
      } else {
        assert Of(objects, t) + [] == Of(objects, t);
      }
    }
  }

  /** Groups by target name, sorted, so the map's own order is not seen. */
  method GroupedApplyObjects(objects: seq<ApplyObject>) returns (groups: seq<Group>)
    ensures forall k :: 0 <= k < |groups| ==> groups[k].objects == Of(objects, groups[k].name)
    ensures IsTableOrder(objects, TableNames(groups))
  {
    var byTarget: map<string, seq<ApplyObject>> := map[];
    for k := 0 to |objects|
      invariant GroupsOf(objects[..k], byTarget)
    {
      OneObjectMore(objects[..k], objects[k], byTarget);
      assert objects[..k + 1] == objects[..k] + [objects[k]];
      var t := objects[k].target.table.name;
      byTarget := byTarget[t := (if t in byTarget then byTarget[t] else []) + [objects[k]]];
    }
    assert objects[..|objects|] == objects;
    var names := SortedSet(byTarget.Keys);
    groups := ListedGroups(objects, byTarget, names);
    assert TableNames(groups) == names;
  }

  /** The groups in the order of their names. */
  method ListedGroups(ghost objects: seq<ApplyObject>, byTarget: map<string, seq<ApplyObject>>, names: seq<string>) returns (groups: seq<Group>)
    requires GroupsOf(objects, byTarget) && forall t :: t in names ==> t in byTarget
    ensures |groups| == |names| && forall i :: 0 <= i < |names| ==> groups[i] == Group(names[i], Of(objects, names[i]))
  {
    groups := [];
    for k := 0 to |names|
      invariant |groups| == k && forall i :: 0 <= i < k ==> groups[i] == Group(names[i], Of(objects, names[i]))
    {
      assert names[k] in byTarget;
      groups := groups + [Group(names[k], byTarget[names[k]])];
    }
  }

  function TableNames(groups: seq<Group>): seq<string> {
    seq(|groups|, k requires 0 <= k < |groups| => groups[k].name)
  }

  method SortedSet(names: set<string>) returns (order: seq<string>)
    ensures StrictlySorted(order, Less) && forall n :: n in order <==> n in names
  {
    order := [];
    var left := names;
    while left != {}
      invariant left <= names
      invariant forall n :: n in order <==> n in names - left
      invariant forall i, j :: 0 <= i < j < |order| ==> order[i] != order[j]
      decreases left
    {
      var n :| n in left;
      assert n !in order;
      left := left - {n};
      order := order + [n];
    }
    LessIsOrder();
    SortedIsSorted(order, Less);
    MembersOf(Sorted(order, Less), order);
    order := Sorted(order, Less);
  }

  function StatementCount(steps: seq<Step>): nat {
    if steps == [] then 0 else StatementCount(steps[..|steps| - 1]) + |steps[|steps| - 1].Statements()|
  }

  lemma {:induction false} CountSplits(a: seq<Step>, b: seq<Step>)
    ensures StatementCount(a + b) == StatementCount(a) + StatementCount(b)
    decreases |b|
  {
    if b == [] {
      assert a + b == a;
    } else {
      CountSplits(a, b[..|b| - 1]);
      assert (a + b)[..|a + b| - 1] == a + b[..|b| - 1];
    }
  }

  lemma {:induction false} ExecuteSplits(db: Database, a: seq<Statement>, b: seq<Statement>)
    ensures ExecuteAll(db, a + b) == var mid := ExecuteAll(db, a); if mid.None? then None else ExecuteAll(mid.value, b)
    decreases |a|
  {
    if a == [] {
      assert a + b == b;
    } else {
      assert (a + b)[1..] == a[1..] + b;
      var next := Execute(db, a[0]);
      if next.Some? {
        ExecuteSplits(next.value, a[1..], b);
      }
    }
  }

  class ApplyTx {
    var db: Database
    var changes: nat

    constructor (db: Database)
      ensures this.db == db && changes == 0
    {
      this.db, changes := db, 0;
    }

    method Change(s: Statement) returns (ok: bool)
      modifies this
      ensures ok == Execute(old(db), s).Some?
      ensures db == (if ok then Execute(old(db), s).value else old(db)) && changes == old(changes) + if ok then 1 else 0
    {
      var next := Execute(db, s);
      if next.None? {
        return false;
      }
      db, changes := next.value, changes + 1;
      return true;
    }

    /** One step of a group: a drop's two statements, or an object's creates. */
    method Perform(step: Step) returns (ok: bool)
      modifies this
      ensures ok == ExecuteAll(old(db), step.Statements()).Some?
      ensures ok ==> db == ExecuteAll(old(db), step.Statements()).value && changes == old(changes) + |step.Statements()|
    {
      var statements := step.Statements();
      for k := 0 to |statements|
        invariant ExecuteAll(old(db), statements[..k]) == Some(db) && changes == old(changes) + k
      {
        assert statements[..k + 1] == statements[..k] + [statements[k]];
        assert statements == statements[..k] + statements[k..];
        ExecuteSplits(old(db), statements[..k], [statements[k]]);
        ExecuteSplits(old(db), statements[..k], statements[k..]);
        ok := Change(statements[k]);
        if !ok {
          return;
        }
      }
      assert statements[..|statements|] == statements;
      return true;
    }

    method ApplyDrops(group: seq<ApplyObject>) returns (ok: bool)
      modifies this
      ensures ok == RunSteps(old(db), DropSteps(group)).Some?
      ensures ok ==> db == RunSteps(old(db), DropSteps(group)).value && changes == old(changes) + StatementCount(DropSteps(group))
    {
      for k := 0 to |group|
        invariant RunSteps(old(db), DropSteps(group[..k])) == Some(db)
        invariant changes == old(changes) + StatementCount(DropSteps(group[..k]))
      {
        assert group[..k + 1] == group[..k] + [group[k]];
        DropsOneMore(group[..k], group[k]);
        if group[k].drop {
          var step := Step(group[k], false);
          OneStepMore(old(db), DropSteps(group[..k]), step);
          ok := Perform(step);
          if !ok {
            FailsOn(old(db), group, k + 1);
            return;
          }
        }
      }
      assert group[..|group|] == group;
      return true;
    }

    method ApplyCreates(group: seq<ApplyObject>) returns (ok: bool)
      modifies this
      ensures ok == RunSteps(old(db), CreateSteps(group)).Some?
      ensures ok ==> db == RunSteps(old(db), CreateSteps(group)).value && changes == old(changes) + StatementCount(CreateSteps(group))
    {
      for k := 0 to |group|
        invariant RunSteps(old(db), CreateSteps(group[..k])) == Some(db)
        invariant changes == old(changes) + StatementCount(CreateSteps(group[..k]))
      {
        assert group[..k + 1] == group[..k] + [group[k]];
        CreatesOneMore(group[..k], group[k]);
        if group[k].creates != [] {
          var step := Step(group[k], true);
          OneStepMore(old(db), CreateSteps(group[..k]), step);
          ok := Perform(step);
          if !ok {
            FailsOnCreate(old(db), group, k + 1);
            return;
          }
        }
      }
      assert group[..|group|] == group;
      return true;
    }

    method ApplyGroup(ghost objects: seq<ApplyObject>, group: Group) returns (ok: bool)
      requires group.objects == Of(objects, group.name)
      modifies this
      ensures ok == RunSteps(old(db), GroupSteps(objects, group.name)).Some?
      ensures ok ==> db == RunSteps(old(db), GroupSteps(objects, group.name)).value
                     && changes == old(changes) + StatementCount(GroupSteps(objects, group.name))
    {
      RunSplits(db, DropSteps(group.objects), CreateSteps(group.objects));
      CountSplits(DropSteps(group.objects), CreateSteps(group.objects));
      ok := ApplyDrops(group.objects);
      if ok {
        ok := ApplyCreates(group.objects);
      }
    }

    /** Every group in the order of its name. */
    method Apply(objects: seq<ApplyObject>) returns (ok: bool, ghost steps: seq<Step>)
      modifies this
      ensures IsSchedule(objects, steps) && ok == RunSteps(old(db), steps).Some?
      ensures ok ==> db == RunSteps(old(db), steps).value && changes == old(changes) + StatementCount(steps)
    {
      var groups := GroupedApplyObjects(objects);
      ghost var tables := TableNames(groups);
      steps := StepsOver(objects, tables);
      for k := 0 to |groups|
        invariant RunSteps(old(db), StepsOver(objects, tables[..k])) == Some(db)
        invariant changes == old(changes) + StatementCount(StepsOver(objects, tables[..k]))
      {
        OneGroupMore(old(db), objects, tables, k);
        ok := ApplyGroup(objects, groups[k]);
        if !ok {
          FailsOver(old(db), objects, tables, k + 1);
          return;
        }
      }
      assert tables[..|tables|] == tables;
      return true, steps;
    }

    // ----- the registry ----------------------------------------------------------------------------

    /** The listener row is written, each operation row upserted, and every other operation of the
        listener deleted. `changed` is whether anything stored differs. */
    method WriteRegistry(name: string, row: RecordedListener, triggers: map<string, RecordedTrigger>) returns (changed: bool)
      modifies this
      ensures db == old(db).(listeners := db.listeners, rows := db.rows) && changes == old(changes)
      ensures db.listeners == old(db).listeners[name := row]
      ensures EntryRows(db, name, triggers)
      ensures forall p: Pair :: p.listener != name ==> (p in db.rows <==> p in old(db).rows) && (p in db.rows ==> db.rows[p] == old(db).rows[p])
      ensures changed <==> old(db).listeners != db.listeners || old(db).rows != db.rows
    {
      changed := name !in db.listeners || db.listeners[name] != row;
      var rows, differ := RewriteRows(db.rows, name, triggers);
      changed := changed || differ;
      db := db.(listeners := db.listeners[name := row], rows := rows);
    }

    /** The listener row goes, and its operation rows with it. */
    method DeleteRegistry(name: string)
      modifies this
      ensures db == old(db).(listeners := old(db).listeners - {name}, rows := db.rows) && changes == old(changes)
      ensures forall p: Pair :: p in db.rows <==> p in old(db).rows && p.listener != name
      ensures forall p: Pair :: p in db.rows ==> db.rows[p] == old(db).rows[p]
    {
      db := db.(listeners := db.listeners - {name}, rows := map p | p in db.rows && p.listener != name :: db.rows[p]);
    }

    /** One listener's entry rewritten from what the catalog reads back. */
    method SyncConfiguredListener(env: Env, l: Listener) returns (ok: bool)
      modifies this
      ensures ok == ConfiguredTarget(env, old(db), l).target.Some? && changes == old(changes) && SameCatalog(old(db), db)
      ensures ok ==> var target := ConfiguredTarget(env, old(db), l).target.value;
                && l.name in db.listeners && db.listeners[l.name] == NewRow(env, l, target)
                && EntryRows(db, l.name, RegistryTriggers(env, old(db), l, target.oid))
      ensures forall name :: name != l.name || !ok ==> SameEntry(old(db), db, name)
    {
      var resolution := ConfiguredTarget(env, db, l);
      if resolution.target.None? {
        return false;
      }
      var target := resolution.target.value;
      var triggers := ReadBack(env, db, l, target.oid);
      var _ := WriteRegistry(l.name, NewRow(env, l, target), triggers);
      return true;
    }

    method SyncConfigured(env: Env, cfg: Config, actions: seq<Action>) returns (ok: bool)
      requires cfg.Legal()
      modifies this
      ensures changes == old(changes)
      ensures ok ==> Syncing(env, old(db), cfg, actions, cfg.listeners, {}, db)
      ensures !ok ==> exists l :: l in cfg.listeners && Acts(actions, l.name) && ConfiguredTarget(env, old(db), l).target.None?
    {
      for k := 0 to |cfg.listeners|
        invariant changes == old(changes) && Syncing(env, old(db), cfg, actions, cfg.listeners[..k], {}, db)
      {
        var l := cfg.listeners[k];
        assert cfg.listeners[..k + 1] == cfg.listeners[..k] + [l];
        ghost var before := db;
        OneListenerMore(cfg.listeners[..k], l, l.name);
        if Acts(actions, l.name) {
          UntouchedReadsTheSame(env, old(db), cfg, actions, cfg.listeners[..k], db, l);
          ok := SyncConfiguredListener(env, l);
          if !ok {
            return;
          }
        }
        SyncedOneMore(env, old(db), cfg, actions, cfg.listeners[..k], l, before, db);
      }
      assert cfg.listeners[..|cfg.listeners|] == cfg.listeners;
      return true;
    }

    method RemoveUnconfigured(env: Env, ghost mid: Database, cfg: Config, actions: seq<Action>)
      requires Syncing(env, mid, cfg, actions, cfg.listeners, {}, db)
      modifies this
      ensures changes == old(changes) && Synced(env, mid, cfg, actions, db)
    {
      ghost var removed: set<string> := {};
      for k := 0 to |actions|
        invariant changes == old(changes) && Syncing(env, mid, cfg, actions, cfg.listeners, removed, db)
        invariant forall n :: n in removed ==> FindListener(cfg.listeners, n).None? && Acts(actions, n)
        invariant forall i :: 0 <= i < k && FindListener(cfg.listeners, actions[i].pair.listener).None? ==> actions[i].pair.listener in removed
      {
        var name := actions[k].pair.listener;
        if FindListener(cfg.listeners, name).None? {
          ghost var before := db;
          DeleteRegistry(name);
          RemovedOneMore(env, mid, cfg, actions, removed, name, before, db);
          removed := removed + {name};
        }
      }
      AllSynced(env, mid, cfg, actions, removed, db);
    }

    /** Every configured listener with an action is rewritten, every other listener with one removed. */
    method SyncRegistry(env: Env, cfg: Config, actions: seq<Action>) returns (ok: bool)
      requires cfg.Legal()
      modifies this
      ensures changes == old(changes)
      ensures ok ==> Synced(env, old(db), cfg, actions, db)
      ensures !ok ==> exists l :: l in cfg.listeners && Acts(actions, l.name) && ConfiguredTarget(env, old(db), l).target.None?
    {
      ghost var mid := db;
      ok := SyncConfigured(env, cfg, actions);
      if ok {
        RemoveUnconfigured(env, mid, cfg, actions);
      }
    }
  }

  ghost predicate Upserted(was: map<Pair, RecordedTrigger>, rows: map<Pair, RecordedTrigger>, name: string,
                           triggers: map<string, RecordedTrigger>, left: set<string>) {
    && (forall p: Pair :: p in rows <==> p in was || Done(p, name, triggers, left))
    && (forall p: Pair :: p in rows && Done(p, name, triggers, left) ==> rows[p] == triggers[p.operation])
    && forall p: Pair :: p in rows && !Done(p, name, triggers, left) ==> rows[p] == was[p]
  }

  /** One listener's rows become the given ones: upserted, and the stale ones deleted. */
  method RewriteRows(was: map<Pair, RecordedTrigger>, name: string, triggers: map<string, RecordedTrigger>)
    returns (rows: map<Pair, RecordedTrigger>, changed: bool)
    ensures forall p: Pair :: p.listener == name ==> (p in rows <==> p.operation in triggers) && (p in rows ==> rows[p] == triggers[p.operation])
    ensures forall p: Pair :: p.listener != name ==> (p in rows <==> p in was) && (p in rows ==> rows[p] == was[p])
    ensures changed <==> rows != was
  {
    var more, upserted := UpsertRows(was, name, triggers);
    var stale := set p | p in more && p.listener == name && p.operation !in triggers;
    DeleteDiffers(was, more, stale);
    return more - stale, upserted || stale != {};
  }

  method UpsertRows(was: map<Pair, RecordedTrigger>, name: string, triggers: map<string, RecordedTrigger>)
    returns (rows: map<Pair, RecordedTrigger>, changed: bool)
    ensures Upserted(was, rows, name, triggers, {}) && (changed <==> rows != was)
  {
    rows, changed := was, false;
    var left := triggers.Keys;
    while left != {}
      invariant left <= triggers.Keys && Upserted(was, rows, name, triggers, left) && (changed <==> rows != was)
      decreases left
    {
      var operation :| operation in left;
      var pair := Pair(name, operation);
      left := left - {operation};
      UpsertDiffers(was, rows, pair, triggers[operation]);
      changed := changed || pair !in rows || rows[pair] != triggers[operation];
      rows := rows[pair := triggers[operation]];
    }
  }

  lemma UpsertDiffers(was: map<Pair, RecordedTrigger>, rows: map<Pair, RecordedTrigger>, pair: Pair, row: RecordedTrigger)
    requires (pair in rows <==> pair in was) && (pair in rows ==> rows[pair] == was[pair])
    ensures rows[pair := row] != was <==> rows != was || pair !in was || was[pair] != row
  {
    var more := rows[pair := row];
    if pair in rows && rows[pair] == row {
      assert more == rows;
    }
    if more == was {
      assert pair in more && more[pair] == row;
      assert forall p :: p in rows <==> p in was;
      assert forall p :: p in rows ==> rows[p] == more[p];
      assert rows == was;
    }
  }

  lemma DeleteDiffers(was: map<Pair, RecordedTrigger>, rows: map<Pair, RecordedTrigger>, stale: set<Pair>)
    requires stale <= rows.Keys && stale <= was.Keys
    ensures rows - stale != was <==> rows != was || stale != {}
  {
    if stale == {} {
      assert rows - stale == rows;
    } else {
      var p :| p in stale;
      assert p in was && p !in rows - stale;
    }
  }

  predicate Done(p: Pair, name: string, triggers: map<string, RecordedTrigger>, left: set<string>) {
    p.listener == name && p.operation in triggers && p.operation !in left
  }

  lemma OneGroupMore(db: Database, objects: seq<ApplyObject>, tables: seq<string>, k: nat)
    requires k < |tables|
    ensures var before, group := StepsOver(objects, tables[..k]), GroupSteps(objects, tables[k]);
            && RunSteps(db, StepsOver(objects, tables[..k + 1])) ==
               (var mid := RunSteps(db, before); if mid.None? then None else RunSteps(mid.value, group))
            && StatementCount(StepsOver(objects, tables[..k + 1])) == StatementCount(before) + StatementCount(group)
  {
    assert tables[..k + 1][..k] == tables[..k];
    RunSplits(db, StepsOver(objects, tables[..k]), GroupSteps(objects, tables[k]));
    CountSplits(StepsOver(objects, tables[..k]), GroupSteps(objects, tables[k]));
  }

  lemma DropsOneMore(group: seq<ApplyObject>, o: ApplyObject)
    ensures DropSteps(group + [o]) == if o.drop then DropSteps(group) + [Step(o, false)] else DropSteps(group)
  {
    assert (group + [o])[..|group|] == group;
  }

  lemma CreatesOneMore(group: seq<ApplyObject>, o: ApplyObject)
    ensures CreateSteps(group + [o]) == if o.creates != [] then CreateSteps(group) + [Step(o, true)] else CreateSteps(group)
  {
    assert (group + [o])[..|group|] == group;
  }

  lemma OneStepMore(db: Database, steps: seq<Step>, step: Step)
    ensures RunSteps(db, steps + [step]) == var mid := RunSteps(db, steps); if mid.None? then None else ExecuteAll(mid.value, step.Statements())
    ensures StatementCount(steps + [step]) == StatementCount(steps) + |step.Statements()|
  {
    RunSplits(db, steps, [step]);
    assert (steps + [step])[..|steps|] == steps;
    assert [step][1..] == [];
  }

  lemma {:induction false} FailsOn(db: Database, group: seq<ApplyObject>, k: nat)
    requires k <= |group| && RunSteps(db, DropSteps(group[..k])).None?
    ensures RunSteps(db, DropSteps(group)).None?
    decreases |group|
  {
    if k < |group| {
      var front := group[..|group| - 1];
      assert front[..k] == group[..k];
      FailsOn(db, front, k);
      RunSplits(db, DropSteps(front), if group[|group| - 1].drop then [Step(group[|group| - 1], false)] else []);
    } else {
      assert group[..k] == group;
    }
  }

  lemma {:induction false} FailsOnCreate(db: Database, group: seq<ApplyObject>, k: nat)
    requires k <= |group| && RunSteps(db, CreateSteps(group[..k])).None?
    ensures RunSteps(db, CreateSteps(group)).None?
    decreases |group|
  {
    if k < |group| {
      var front := group[..|group| - 1];
      assert front[..k] == group[..k];
      FailsOnCreate(db, front, k);
      RunSplits(db, CreateSteps(front), if group[|group| - 1].creates != [] then [Step(group[|group| - 1], true)] else []);
    } else {
      assert group[..k] == group;
    }
  }

  lemma {:induction false} FailsOver(db: Database, objects: seq<ApplyObject>, tables: seq<string>, k: nat)
    requires k <= |tables| && RunSteps(db, StepsOver(objects, tables[..k])).None?
    ensures RunSteps(db, StepsOver(objects, tables)).None?
    decreases |tables|
  {
    if k < |tables| {
      var front := tables[..|tables| - 1];
      assert front[..k] == tables[..k];
      FailsOver(db, objects, front, k);
      RunSplits(db, StepsOver(objects, front), GroupSteps(objects, tables[|tables| - 1]));
    } else {
      assert tables[..k] == tables;
    }
  }

  // ----- reading the catalog back ------------------------------------------------------------------

  /** registryTriggers: the first pair not found answers with no rows at all. */
  method ReadBack(env: Env, db: Database, l: Listener, oid: Oid) returns (rows: map<string, RecordedTrigger>)
    ensures rows == RegistryTriggers(env, db, l, oid)
  {
    if !l.enabled {
      return map[];
    }
    var operations := OrderedOperations(l);
    forall o ensures o in DesiredOperations(l) <==> o in operations {
      KnownIsListed(o);
    }
    rows := map[];
    for k := 0 to |operations|
      invariant RowsRead(env, db, l, oid, operations[..k], rows)
    {
      var o := operations[k];
      assert operations[..k + 1] == operations[..k] + [o];
      var reading := RowRead(env, db, l, oid, o);
      if reading.None? {
        assert o in DesiredOperations(l);
        return map[];
      }
      RowReadMore(env, db, l, oid, operations[..k], rows, o);
      rows := rows[o := reading.value];
    }
    assert operations[..|operations|] == operations;
    AllRowsRead(env, db, l, oid, operations, rows);
  }

  /** One row for each of the operations, as the catalog reads it. */
  ghost predicate RowsRead(env: Env, db: Database, l: Listener, oid: Oid, operations: seq<string>, rows: map<string, RecordedTrigger>) {
    && (forall o :: o in rows <==> o in operations)
    && forall o :: o in rows ==> RowRead(env, db, l, oid, o) == Some(rows[o])
  }

  lemma RowReadMore(env: Env, db: Database, l: Listener, oid: Oid, operations: seq<string>, rows: map<string, RecordedTrigger>, o: string)
    requires RowsRead(env, db, l, oid, operations, rows) && RowRead(env, db, l, oid, o).Some?
    ensures RowsRead(env, db, l, oid, operations + [o], rows[o := RowRead(env, db, l, oid, o).value])
  {}

  lemma AllRowsRead(env: Env, db: Database, l: Listener, oid: Oid, operations: seq<string>, rows: map<string, RecordedTrigger>)
    requires RowsRead(env, db, l, oid, operations, rows) && l.enabled
    requires forall o :: o in DesiredOperations(l) <==> o in operations
    requires forall o :: o in operations ==> KnownOperation(o)
    ensures rows == RegistryTriggers(env, db, l, oid)
  {
    forall o | o in DesiredOperations(l) && KnownOperation(o) ensures RecordedPair(env, db, oid, NameOf(Pair(l.name, o), env.hashed)).Some? {
      assert o in rows;
    }
  }

  function RowRead(env: Env, db: Database, l: Listener, oid: Oid, o: string): Option<RecordedTrigger> {
    if KnownOperation(o) then RecordedPair(env, db, oid, NameOf(Pair(l.name, o), env.hashed)) else None
  }

  // ----- synchronising -----------------------------------------------------------------------------

  /** The entries as they stand once the listeners of `seen` and the names of `removed` are done. */
  ghost predicate Syncing(env: Env, mid: Database, cfg: Config, actions: seq<Action>, seen: seq<Listener>, removed: set<string>, db: Database) {
    && SameCatalog(mid, db)
    && forall name :: if FindListener(seen, name).Some? && Acts(actions, name)
                      then Rewritten(env, mid, FindListener(seen, name).value, name, db)
                      else if name in removed then Gone(db, name) else SameEntry(mid, db, name)
  }

  ghost predicate Rewritten(env: Env, mid: Database, l: Listener, name: string, db: Database) {
    var target := ConfiguredTarget(env, mid, l).target;
    && target.Some? && name in db.listeners && db.listeners[name] == NewRow(env, l, target.value)
    && EntryRows(db, name, RegistryTriggers(env, mid, l, target.value.oid))
  }

  ghost predicate Gone(db: Database, name: string) {
    name !in db.listeners && forall p: Pair :: p in db.rows ==> p.listener != name
  }

  lemma SameTarget(env: Env, mid: Database, db: Database, l: Listener)
    requires SameCatalog(mid, db) && RecordedOf(mid, l.name) == RecordedOf(db, l.name)
    ensures ConfiguredTarget(env, mid, l) == ConfiguredTarget(env, db, l)
  {}

  lemma SameReadBack(env: Env, mid: Database, db: Database, l: Listener, oid: Oid)
    requires SameCatalog(mid, db)
    ensures RegistryTriggers(env, mid, l, oid) == RegistryTriggers(env, db, l, oid)
  {
    assert forall name :: RecordedPair(env, mid, oid, name) == RecordedPair(env, db, oid, name);
  }

  /** A listener not reached yet is resolved and read back as if it were the only one. */
  lemma UntouchedReadsTheSame(env: Env, mid: Database, cfg: Config, actions: seq<Action>, seen: seq<Listener>, db: Database, l: Listener)
    requires Syncing(env, mid, cfg, actions, seen, {}, db) && FindListener(seen, l.name).None?
    ensures ConfiguredTarget(env, mid, l) == ConfiguredTarget(env, db, l)
    ensures forall oid :: RegistryTriggers(env, mid, l, oid) == RegistryTriggers(env, db, l, oid)
  {
    assert SameEntry(mid, db, l.name);
    SameTarget(env, mid, db, l);
    forall oid ensures RegistryTriggers(env, mid, l, oid) == RegistryTriggers(env, db, l, oid) {
      SameReadBack(env, mid, db, l, oid);
    }
  }

  lemma SyncedOneMore(env: Env, mid: Database, cfg: Config, actions: seq<Action>, seen: seq<Listener>, l: Listener, before: Database, after: Database)
    requires Syncing(env, mid, cfg, actions, seen, {}, before) && forall x :: x in seen ==> x.name != l.name
    requires SameCatalog(before, after) && forall name :: name != l.name || !Acts(actions, l.name) ==> SameEntry(before, after, name)
    requires Acts(actions, l.name) ==> Rewritten(env, mid, l, l.name, after)
    ensures Syncing(env, mid, cfg, actions, seen + [l], {}, after)
  {
    forall name ensures if FindListener(seen + [l], name).Some? && Acts(actions, name)
                        then Rewritten(env, mid, FindListener(seen + [l], name).value, name, after)
                        else SameEntry(mid, after, name)
    {
      OneListenerMore(seen, l, name);
      if name != l.name || !Acts(actions, l.name) {
        assert SameEntry(before, after, name);
      }
    }
  }

  lemma RemovedOneMore(env: Env, mid: Database, cfg: Config, actions: seq<Action>, removed: set<string>, name: string, before: Database, after: Database)
    requires Syncing(env, mid, cfg, actions, cfg.listeners, removed, before) && FindListener(cfg.listeners, name).None?
    requires SameCatalog(before, after) && Gone(after, name) && forall n :: n != name ==> SameEntry(before, after, n)
    ensures Syncing(env, mid, cfg, actions, cfg.listeners, removed + {name}, after)
  {
    forall n ensures if FindListener(cfg.listeners, n).Some? && Acts(actions, n)
                     then Rewritten(env, mid, FindListener(cfg.listeners, n).value, n, after)
                     else if n in removed + {name} then Gone(after, n) else SameEntry(mid, after, n)
    {
      if n != name {
        assert SameEntry(before, after, n);
        StillGone(before, after, n);
      }
    }
  }

  lemma StillGone(before: Database, after: Database, n: string)
    requires SameEntry(before, after, n)
    ensures Gone(before, n) ==> Gone(after, n)
  {}

  lemma AllSynced(env: Env, mid: Database, cfg: Config, actions: seq<Action>, removed: set<string>, db: Database)
    requires Syncing(env, mid, cfg, actions, cfg.listeners, removed, db)
    requires forall n :: n in removed ==> FindListener(cfg.listeners, n).None? && Acts(actions, n)
    requires forall a :: a in actions && FindListener(cfg.listeners, a.pair.listener).None? ==> a.pair.listener in removed
    ensures Synced(env, mid, cfg, actions, db)
  {
    forall name ensures SyncedListener(env, mid, cfg, actions, name, db) {
      if Acts(actions, name) && FindListener(cfg.listeners, name).None? {
        assert name in removed;
      }
    }
  }

  // ----- apply -------------------------------------------------------------------------------------

  predicate Destructive(actions: seq<Action>) {
    exists a :: a in actions && (a.kind == Drop || a.kind == Disable)
  }

  datatype Stop = NotStopped | StopOwnership | StopTargetDropped | StopPermission | Failed

  datatype ApplyResult = ApplyResult(plan: PlanResult, statements: nat, verdict: Verdict, stopped: Stop)

  /** One run over a database: what it answers is the committed database, and where it stops or fails
      that is the one it was given. `proceeds` is the decision an interactive run asks for. */
  method Apply(env: Env, db: Database, cfg: Config, permitted: bool, proceeds: bool) returns (result: ApplyResult, after: Database)
    requires cfg.Legal()
    ensures IsPlanFor(env, db, cfg, result.plan)
    ensures result.verdict == Clean ==>
              if result.plan.actions == [] then after == db && result.statements == 0
              else Applied(env, db, cfg, result.plan.actions, after)
    ensures result.verdict != Clean ==> after == db && result.stopped != NotStopped
    ensures result.plan.refusals != [] ==> after == db && result.statements == 0 && result.verdict == Error
    ensures Destructive(result.plan.actions) && !permitted ==> after == db
  {
    var plan := DiffFromDatabase(env, db, cfg);
    if plan.refusals != [] {
      return ApplyResult(plan, 0, Error, if plan.refusals[0].DroppedTarget? then StopTargetDropped else StopOwnership), db;
    }
    if plan.actions == [] {
      return ApplyResult(plan, 0, Clean, NotStopped), db;
    }
    if (Destructive(plan.actions) && !permitted) || !proceeds {
      return ApplyResult(plan, 0, ChangesPending, StopPermission), db;
    }
    var objects := ObjectsForPlan(env, db, cfg, plan.actions);
    if objects.None? {
      return ApplyResult(plan, 0, Error, Failed), db;
    }
    var tx := new ApplyTx(db);
    var ok, steps := tx.Apply(objects.value);
    if !ok {
      return ApplyResult(plan, tx.changes, Error, Failed), db;
    }
    ok := tx.SyncRegistry(env, cfg, plan.actions);
    if !ok {
      return ApplyResult(plan, tx.changes, Error, Failed), db;
    }
    assert Committed(env, db, cfg, plan.actions, objects.value, steps, tx.db);
    return ApplyResult(plan, tx.changes, Clean, NotStopped), tx.db;
  }
}
