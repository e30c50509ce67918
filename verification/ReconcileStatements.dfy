/** The statements of an apply and the order they run in (internal/reconcile applytx.go): grouped by
    target, the groups by name, and each group's drops before its creates. */
module ReconcileStatements {
  import opened Options
  import opened TextOrder
  import opened Sorting
  import opened ReconcileNames
  import opened ReconcileModel

  datatype Statement =
    | DropTrigger(oid: Oid, name: string)
    | DropFunction(name: string)
    | CreateFunction(name: string, text: string)
    | RevokeExecute(name: string)
    | CommentFunction(name: string, marker: string)
    | CreateTrigger(oid: Oid, name: string, executes: string, text: string)
    | CommentTrigger(oid: Oid, name: string, marker: string)

  predicate Executed(db: Database, name: string) {
    exists place :: place in db.triggers && db.triggers[place].executes == name
  }

  /** One statement: nothing is hedged, so a drop of what is not there fails, as does a function a
      trigger still executes, and a trigger that already stands. CREATE OR REPLACE keeps a comment. */
  function Execute(db: Database, s: Statement): Option<Database> {
    match s
    case DropTrigger(oid, name) =>
      if Place(oid, name) in db.triggers then Some(db.(triggers := db.triggers - {Place(oid, name)})) else None
    case DropFunction(name) =>
      if name in db.functions && !Executed(db, name) then Some(db.(functions := db.functions - {name})) else None
    case CreateFunction(name, text) =>
      Some(db.(functions := db.functions[name := Function(if name in db.functions then db.functions[name].marker else None, text)]))
    case RevokeExecute(name) => if name in db.functions then Some(db) else None
    case CommentFunction(name, marker) =>
      if name in db.functions then Some(db.(functions := db.functions[name := db.functions[name].(marker := Some(marker))])) else None
    case CreateTrigger(oid, name, executes, text) =>
      if oid in db.tables && Place(oid, name) !in db.triggers && executes in db.functions
      then Some(db.(triggers := db.triggers[Place(oid, name) := Trigger(executes, None, text)])) else None
    case CommentTrigger(oid, name, marker) =>
      var place := Place(oid, name);
      if place in db.triggers then Some(db.(triggers := db.triggers[place := db.triggers[place].(marker := Some(marker))])) else None
  }

  function ExecuteAll(db: Database, statements: seq<Statement>): Option<Database>
    decreases |statements|
  {
    if statements == [] then Some(db)
    else
      var next := Execute(db, statements[0]);
      if next.None? then None else ExecuteAll(next.value, statements[1..])
  }

  /** The inventory of one action: what it drops and what it creates, both under one name. */
  datatype ApplyObject = ApplyObject(target: Target, name: string, drop: bool, creates: seq<Statement>)

  function Drops(o: ApplyObject): seq<Statement> {
    [DropTrigger(o.target.oid, o.name), DropFunction(o.name)]
  }

  /** The generator's five statements for one pair. */
  function Creates(oid: Oid, name: string, marker: string, functionText: string, triggerText: string): seq<Statement> {
    [CreateFunction(name, functionText), RevokeExecute(name), CommentFunction(name, marker),
     CreateTrigger(oid, name, name, triggerText), CommentTrigger(oid, name, marker)]
  }

  datatype Step = Step(item: ApplyObject, creating: bool) {
    function Statements(): seq<Statement> {
      if creating then item.creates else Drops(item)
    }
  }

  function RunSteps(db: Database, steps: seq<Step>): Option<Database>
    decreases |steps|
  {
    if steps == [] then Some(db)
    else
      var next := ExecuteAll(db, steps[0].Statements());
      if next.None? then None else RunSteps(next.value, steps[1..])
  }

  // ----- grouping ----------------------------------------------------------------------------------

  function Of(objects: seq<ApplyObject>, table: string): seq<ApplyObject> {
    if objects == [] then []
    else
      var last := objects[|objects| - 1];
      Of(objects[..|objects| - 1], table) + if last.target.table.name == table then [last] else []
  }

  function DropSteps(objects: seq<ApplyObject>): seq<Step> {
    if objects == [] then []
    else
      var last := objects[|objects| - 1];
      DropSteps(objects[..|objects| - 1]) + if last.drop then [Step(last, false)] else []
  }

  function CreateSteps(objects: seq<ApplyObject>): seq<Step> {
    if objects == [] then []
    else
      var last := objects[|objects| - 1];
      CreateSteps(objects[..|objects| - 1]) + if last.creates != [] then [Step(last, true)] else []
  }

  function GroupSteps(objects: seq<ApplyObject>, table: string): seq<Step> {
    DropSteps(Of(objects, table)) + CreateSteps(Of(objects, table))
  }

  function StepsOver(objects: seq<ApplyObject>, tables: seq<string>): seq<Step> {
    if tables == [] then []
    else StepsOver(objects, tables[..|tables| - 1]) + GroupSteps(objects, tables[|tables| - 1])
  }

  /** The steps of a whole apply, in the order of the target names. */
  ghost predicate IsSchedule(objects: seq<ApplyObject>, steps: seq<Step>) {
    exists tables :: IsTableOrder(objects, tables) && steps == StepsOver(objects, tables)
  }

  ghost predicate IsTableOrder(objects: seq<ApplyObject>, tables: seq<string>) {
    StrictlySorted(tables, Less) && forall t :: t in tables <==> exists o :: o in objects && o.target.table.name == t
  }

  predicate DistinctNames(objects: seq<ApplyObject>) {
    forall i, j :: 0 <= i < j < |objects| ==> objects[i].name != objects[j].name
  }

  // ----- what a schedule holds ---------------------------------------------------------------------

  lemma {:induction false} MembersOfGroup(objects: seq<ApplyObject>, table: string)
    ensures forall o :: o in Of(objects, table) <==> o in objects && o.target.table.name == table
    ensures DistinctNames(objects) ==> DistinctNames(Of(objects, table))
    decreases |objects|
  {
    if objects != [] {
      var front, last := objects[..|objects| - 1], objects[|objects| - 1];
      assert objects == front + [last];
      MembersOfGroup(front, table);
    }
  }

  lemma {:induction false} MembersOfDrops(objects: seq<ApplyObject>)
    ensures forall s :: s in DropSteps(objects) <==> !s.creating && s.item in objects && s.item.drop
    decreases |objects|
  {
    if objects != [] {
      var front, last := objects[..|objects| - 1], objects[|objects| - 1];
      assert objects == front + [last];
      MembersOfDrops(front);
    }
  }

  lemma {:induction false} MembersOfCreates(objects: seq<ApplyObject>)
    ensures forall s :: s in CreateSteps(objects) <==> s.creating && s.item in objects && s.item.creates != []
    decreases |objects|
  {
    if objects != [] {
      var front, last := objects[..|objects| - 1], objects[|objects| - 1];
      assert objects == front + [last];
      MembersOfCreates(front);
    }
  }

  predicate IsStepOf(s: Step, objects: seq<ApplyObject>) {
    s.item in objects && if s.creating then s.item.creates != [] else s.item.drop
  }

  lemma MembersOfGroupSteps(objects: seq<ApplyObject>, table: string)
    ensures forall s :: s in GroupSteps(objects, table) <==> IsStepOf(s, objects) && s.item.target.table.name == table
  {
    MembersOfGroup(objects, table);
    MembersOfDrops(Of(objects, table));
    MembersOfCreates(Of(objects, table));
  }

  lemma {:induction false} MembersOfSchedule(objects: seq<ApplyObject>, tables: seq<string>)
    ensures forall s :: s in StepsOver(objects, tables) <==> IsStepOf(s, objects) && s.item.target.table.name in tables
    decreases |tables|
  {
    if tables != [] {
      var front, last := tables[..|tables| - 1], tables[|tables| - 1];
      assert tables == front + [last];
      MembersOfSchedule(objects, front);
      MembersOfGroupSteps(objects, last);
    }
  }

  /** Two steps under one name are one object's drop and then its create. */
  predicate DropsFirst(steps: seq<Step>) {
    forall i, j :: 0 <= i < j < |steps| && steps[i].item.name == steps[j].item.name ==> !steps[i].creating && steps[j].creating
  }

  predicate Apart(a: seq<Step>, b: seq<Step>) {
    forall s, t :: s in a && t in b ==> s.item.name != t.item.name || (!s.creating && t.creating)
  }

  lemma DropsFirstInBoth(a: seq<Step>, b: seq<Step>)
    requires DropsFirst(a) && DropsFirst(b) && Apart(a, b)
    ensures DropsFirst(a + b)
  {
    var all := a + b;
    forall i, j | 0 <= i < j < |all| && all[i].item.name == all[j].item.name ensures !all[i].creating && all[j].creating {
      if j < |a| {
        assert all[i] == a[i] && all[j] == a[j];
      } else if i >= |a| {
        assert all[i] == b[i - |a|] && all[j] == b[j - |a|];
      } else {
        assert all[i] in a && all[j] in b;
      }
    }
  }

  lemma {:induction false} DropStepsAreDistinct(objects: seq<ApplyObject>)
    requires DistinctNames(objects)
    ensures DropsFirst(DropSteps(objects)) && DropsFirst(CreateSteps(objects))
    decreases |objects|
  {
    if objects != [] {
      var front, last := objects[..|objects| - 1], objects[|objects| - 1];
      assert objects == front + [last];
      DropStepsAreDistinct(front);
      MembersOfDrops(front);
      MembersOfCreates(front);
      forall o | o in front ensures o.name != last.name {
        var k :| 0 <= k < |front| && front[k] == o;
        assert objects[k] == o;
      }
      DropsFirstInBoth(DropSteps(front), if last.drop then [Step(last, false)] else []);
      DropsFirstInBoth(CreateSteps(front), if last.creates != [] then [Step(last, true)] else []);
    }
  }

  lemma GroupDropsFirst(objects: seq<ApplyObject>, table: string)
    requires DistinctNames(objects)
    ensures DropsFirst(GroupSteps(objects, table))
  {
    var group := Of(objects, table);
    MembersOfGroup(objects, table);
    DropStepsAreDistinct(group);
    MembersOfDrops(group);
    MembersOfCreates(group);
    DropsFirstInBoth(DropSteps(group), CreateSteps(group));
  }

  lemma SameNameIsSameObject(objects: seq<ApplyObject>, o: ApplyObject, p: ApplyObject)
    requires DistinctNames(objects) && o in objects && p in objects && o.name == p.name
    ensures o == p
  {
    var i :| 0 <= i < |objects| && objects[i] == o;
    var j :| 0 <= j < |objects| && objects[j] == p;
  }

  lemma {:induction false} ScheduleDropsFirst(objects: seq<ApplyObject>, tables: seq<string>)
    requires DistinctNames(objects) && forall i, j :: 0 <= i < j < |tables| ==> tables[i] != tables[j]
    ensures DropsFirst(StepsOver(objects, tables))
    decreases |tables|
  {
    if tables != [] {
      var front, last := tables[..|tables| - 1], tables[|tables| - 1];
      ScheduleDropsFirst(objects, front);
      GroupDropsFirst(objects, last);
      MembersOfSchedule(objects, front);
      MembersOfGroupSteps(objects, last);
      var a, b := StepsOver(objects, front), GroupSteps(objects, last);
      forall s, t | s in a && t in b ensures s.item.name != t.item.name {
        if s.item.name == t.item.name {
          SameNameIsSameObject(objects, s.item, t.item);
        }
      }
      DropsFirstInBoth(a, b);
    }
  }

  /** Of one object a schedule holds a drop exactly if it drops and then a create exactly if it
      creates, and no other object's steps are under its name. */
  lemma ScheduleFacts(objects: seq<ApplyObject>, steps: seq<Step>)
    requires DistinctNames(objects) && IsSchedule(objects, steps)
    ensures DropsFirst(steps) && forall s :: s in steps <==> IsStepOf(s, objects)
  {
    var tables :| IsTableOrder(objects, tables) && steps == StepsOver(objects, tables);
    LessIsOrder();
    forall i, j | 0 <= i < j < |tables| ensures tables[i] != tables[j] {
      assert Less(tables[i], tables[j]);
    }
    ScheduleDropsFirst(objects, tables);
    MembersOfSchedule(objects, tables);
  }

  // ----- what a step changes -----------------------------------------------------------------------

  /** Everything but the objects under one name, on one relation. */
  ghost predicate OnlyTouches(db: Database, db': Database, oid: Oid, name: string) {
    && db'.tables == db.tables && db'.names == db.names && db'.listeners == db.listeners && db'.rows == db.rows
    && (forall n :: n != name ==> (n in db'.functions <==> n in db.functions) && (n in db.functions ==> db'.functions[n] == db.functions[n]))
    && (forall p :: p != Place(oid, name) ==> (p in db'.triggers <==> p in db.triggers) && (p in db.triggers ==> db'.triggers[p] == db.triggers[p]))
  }

  predicate IsUnder(s: Statement, oid: Oid, name: string) {
    match s
    case DropTrigger(o, n) => o == oid && n == name
    case DropFunction(n) => n == name
    case CreateFunction(n, _) => n == name
    case RevokeExecute(n) => n == name
    case CommentFunction(n, _) => n == name
    case CreateTrigger(o, n, _, _) => o == oid && n == name
    case CommentTrigger(o, n, _) => o == oid && n == name
  }

  lemma StatementTouches(db: Database, s: Statement, oid: Oid, name: string)
    requires IsUnder(s, oid, name) && Execute(db, s).Some?
    ensures OnlyTouches(db, Execute(db, s).value, oid, name)
  {}

  lemma TouchesTwice(a: Database, b: Database, c: Database, oid: Oid, name: string)
    requires OnlyTouches(a, b, oid, name) && OnlyTouches(b, c, oid, name)
    ensures OnlyTouches(a, c, oid, name)
  {}

  lemma {:induction false} StatementsTouch(db: Database, statements: seq<Statement>, oid: Oid, name: string)
    requires ExecuteAll(db, statements).Some? && forall s :: s in statements ==> IsUnder(s, oid, name)
    ensures OnlyTouches(db, ExecuteAll(db, statements).value, oid, name)
    decreases |statements|
  {
    if statements != [] {
      var next := Execute(db, statements[0]).value;
      StatementTouches(db, statements[0], oid, name);
      StatementsTouch(next, statements[1..], oid, name);
      TouchesTwice(db, next, ExecuteAll(db, statements).value, oid, name);
    }
  }

  /** An object's creates are all under its own name and on its own relation. */
  predicate Scoped(o: ApplyObject) {
    forall s :: s in o.creates ==> IsUnder(s, o.target.oid, o.name)
  }

  lemma StepTouches(db: Database, step: Step)
    requires Scoped(step.item) && ExecuteAll(db, step.Statements()).Some?
    ensures OnlyTouches(db, ExecuteAll(db, step.Statements()).value, step.item.target.oid, step.item.name)
  {
    StatementsTouch(db, step.Statements(), step.item.target.oid, step.item.name);
  }

  /** What stands under one name: the function, and the trigger on one relation. */
  ghost predicate SameUnder(db: Database, db': Database, oid: Oid, name: string) {
    && (name in db'.functions <==> name in db.functions) && (name in db.functions ==> db'.functions[name] == db.functions[name])
    && (Place(oid, name) in db'.triggers <==> Place(oid, name) in db.triggers)
    && (Place(oid, name) in db.triggers ==> db'.triggers[Place(oid, name)] == db.triggers[Place(oid, name)])
  }

  predicate AllScoped(steps: seq<Step>) {
    forall s :: s in steps ==> Scoped(s.item)
  }

  /** Steps under other names leave what stands under this one as it is, and none touches a table or
      the registry. */
  lemma {:induction false} OtherStepsKeep(db: Database, steps: seq<Step>, oid: Oid, name: string)
    requires RunSteps(db, steps).Some? && AllScoped(steps)
    requires forall s :: s in steps ==> s.item.name != name
    ensures SameUnder(db, RunSteps(db, steps).value, oid, name)
    decreases |steps|
  {
    if steps != [] {
      assert steps[0] in steps;
      StepTouches(db, steps[0]);
      OtherStepsKeep(ExecuteAll(db, steps[0].Statements()).value, steps[1..], oid, name);
    }
  }

  lemma {:induction false} StepsKeepRegistry(db: Database, steps: seq<Step>)
    requires RunSteps(db, steps).Some? && AllScoped(steps)
    ensures var db' := RunSteps(db, steps).value;
            db'.tables == db.tables && db'.names == db.names && db'.listeners == db.listeners && db'.rows == db.rows
    decreases |steps|
  {
    if steps != [] {
      assert steps[0] in steps;
      StepTouches(db, steps[0]);
      StepsKeepRegistry(ExecuteAll(db, steps[0].Statements()).value, steps[1..]);
    }
  }

  lemma {:induction false} RunSplits(db: Database, a: seq<Step>, b: seq<Step>)
    ensures RunSteps(db, a + b) == var mid := RunSteps(db, a); if mid.None? then None else RunSteps(mid.value, b)
    decreases |a|
  {
    if a == [] {
      assert a + b == b;
    } else {
      assert (a + b)[1..] == a[1..] + b;
      var next := ExecuteAll(db, a[0].Statements());
      if next.Some? {
        RunSplits(next.value, a[1..], b);
      }
    }
  }

  /** The last step under a name decides what stands there. */
  lemma LastStepDecides(db: Database, steps: seq<Step>, k: nat, oid: Oid) returns (before: Database)
    requires RunSteps(db, steps).Some? && AllScoped(steps) && k < |steps|
    requires forall j :: k < j < |steps| ==> steps[j].item.name != steps[k].item.name
    ensures ExecuteAll(before, steps[k].Statements()).Some?
    ensures SameUnder(ExecuteAll(before, steps[k].Statements()).value, RunSteps(db, steps).value, oid, steps[k].item.name)
  {
    var a, b := steps[..k], steps[k + 1..];
    assert steps == a + ([steps[k]] + b);
    RunSplits(db, a, [steps[k]] + b);
    before := RunSteps(db, a).value;
    assert ([steps[k]] + b)[1..] == b;
    OtherStepsKeep(ExecuteAll(before, steps[k].Statements()).value, b, oid, steps[k].item.name);
  }

  /** After the five create statements the trigger and its function stand with their texts and
      markers, whatever stood there. */
  lemma CreatesInstall(db: Database, oid: Oid, name: string, marker: string, functionText: string, triggerText: string)
    requires ExecuteAll(db, Creates(oid, name, marker, functionText, triggerText)).Some?
    ensures var db' := ExecuteAll(db, Creates(oid, name, marker, functionText, triggerText)).value;
            && Place(oid, name) in db'.triggers && db'.triggers[Place(oid, name)] == Trigger(name, Some(marker), triggerText)
            && name in db'.functions && db'.functions[name] == Function(Some(marker), functionText)
  {
    var s0, s1, s2 := CreateFunction(name, functionText), RevokeExecute(name), CommentFunction(name, marker);
    var s3, s4 := CreateTrigger(oid, name, name, triggerText), CommentTrigger(oid, name, marker);
    assert Creates(oid, name, marker, functionText, triggerText) == [s0] + ([s1] + ([s2] + ([s3] + ([s4] + []))));
    ExecuteFirst(db, s0, [s1] + ([s2] + ([s3] + ([s4] + []))));
    var d1 := Execute(db, s0).value;
    ExecuteFirst(d1, s1, [s2] + ([s3] + ([s4] + [])));
    ExecuteFirst(d1, s2, [s3] + ([s4] + []));
    var d2 := Execute(d1, s2).value;
    ExecuteFirst(d2, s3, [s4] + []);
    ExecuteFirst(Execute(d2, s3).value, s4, []);
  }

  lemma ExecuteFirst(db: Database, s: Statement, rest: seq<Statement>)
    ensures ExecuteAll(db, [s] + rest) == var next := Execute(db, s); if next.None? then None else ExecuteAll(next.value, rest)
  {
    assert ([s] + rest)[1..] == rest;
  }

  lemma DropsRemove(db: Database, o: ApplyObject)
    requires ExecuteAll(db, Drops(o)).Some?
    ensures Place(o.target.oid, o.name) in db.triggers
    ensures Place(o.target.oid, o.name) !in ExecuteAll(db, Drops(o)).value.triggers
    ensures o.name !in ExecuteAll(db, Drops(o)).value.functions
  {
    var s0, s1 := DropTrigger(o.target.oid, o.name), DropFunction(o.name);
    assert Drops(o) == [s0] + ([s1] + []);
    ExecuteFirst(db, s0, [s1] + []);
    ExecuteFirst(Execute(db, s0).value, s1, []);
  }

  /** The last step under a name, and that nothing after it is. */
  lemma LastUnder(steps: seq<Step>, s: Step) returns (k: nat)
    requires DropsFirst(steps) && s in steps
    requires s.creating || forall t :: t in steps && t.item.name == s.item.name ==> !t.creating
    ensures k < |steps| && steps[k] == s && forall j :: k < j < |steps| ==> steps[j].item.name != s.item.name
  {
    k :| 0 <= k < |steps| && steps[k] == s;
    forall j | k < j < |steps| ensures steps[j].item.name != s.item.name {
      assert steps[j] in steps;
    }
  }

  /** What an object creates stands when its schedule has run. */
  lemma CreateStepInstalls(db: Database, steps: seq<Step>, o: ApplyObject, marker: string, functionText: string, triggerText: string)
    requires RunSteps(db, steps).Some? && DropsFirst(steps) && AllScoped(steps) && Step(o, true) in steps
    requires o.creates == Creates(o.target.oid, o.name, marker, functionText, triggerText)
    ensures var db' := RunSteps(db, steps).value;
            && Place(o.target.oid, o.name) in db'.triggers
            && db'.triggers[Place(o.target.oid, o.name)] == Trigger(o.name, Some(marker), triggerText)
            && o.name in db'.functions && db'.functions[o.name] == Function(Some(marker), functionText)
  {
    var k := LastUnder(steps, Step(o, true));
    var before := LastStepDecides(db, steps, k, o.target.oid);
    CreatesInstall(before, o.target.oid, o.name, marker, functionText, triggerText);
  }

  /** What an object only drops, or finds already gone, is gone when its schedule has run. */
  lemma DropStepRemoves(db: Database, steps: seq<Step>, o: ApplyObject)
    requires RunSteps(db, steps).Some? && DropsFirst(steps) && AllScoped(steps)
    requires forall t :: t in steps && t.item.name == o.name ==> t == Step(o, false)
    requires if o.drop then Step(o, false) in steps else Place(o.target.oid, o.name) !in db.triggers
    ensures Place(o.target.oid, o.name) !in RunSteps(db, steps).value.triggers
    ensures o.drop ==> o.name !in RunSteps(db, steps).value.functions
  {
    if Step(o, false) in steps {
      var k := LastUnder(steps, Step(o, false));
      var before := LastStepDecides(db, steps, k, o.target.oid);
      DropsRemove(before, o);
    } else {
      OtherStepsKeep(db, steps, o.target.oid, o.name);
    }
  }
}
