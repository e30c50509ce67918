/** Exactly when a plan without refusals commits: whether its statements run (internal/reconcile applytx.go). */
module ReconcileSchedule {
  import opened Options
  import opened ReconcileNames
  import opened ReconcileModel
  import opened ReconcileDiff
  import opened ReconcileRead
  import opened ReconcileStatements
  import opened ReconcileApply
  import opened ReconcileEffects
  import opened ReconcileConvergence
  import opened ReconcileTheorems

  function OwnPlace(o: ApplyObject): Place {
    Place(o.target.oid, o.name)
  }

  /** No trigger but the object's own executes the function it drops. */
  ghost predicate Unshared(db: Database, o: ApplyObject) {
    forall place :: place in db.triggers && place != OwnPlace(o) ==> db.triggers[place].executes != o.name
  }

  ghost predicate CreatesOwn(o: ApplyObject) {
    exists marker, functionText, triggerText :: o.creates == Creates(o.target.oid, o.name, marker, functionText, triggerText)
  }

  /** An object drops its own trigger and function only where both stand, and creates only where no trigger
      stands or it drops the one that does. */
  ghost predicate Ready(db: Database, o: ApplyObject) {
    && o.target.oid in db.tables
    && (o.drop ==> OwnPlace(o) in db.triggers && db.triggers[OwnPlace(o)].executes == o.name && o.name in db.functions)
    && (o.creates != [] ==> CreatesOwn(o) && (OwnPlace(o) in db.triggers ==> o.drop))
  }

  ghost predicate AllReady(db: Database, steps: seq<Step>) {
    forall s :: s in steps ==> Ready(db, s.item) && Scoped(s.item) && if s.creating then s.item.creates != [] else s.item.drop
  }

  // ----- one step ----------------------------------------------------------------------------------

  lemma DropsRunIff(db: Database, o: ApplyObject)
    requires OwnPlace(o) in db.triggers && o.name in db.functions
    ensures ExecuteAll(db, Drops(o)).Some? <==> Unshared(db, o)
  {
    var s0, s1 := DropTrigger(o.target.oid, o.name), DropFunction(o.name);
    assert Drops(o) == [s0] + ([s1] + []);
    ExecuteFirst(db, s0, [s1] + []);
    var next := Execute(db, s0).value;
    ExecuteFirst(next, s1, []);
    assert forall place :: place in next.triggers <==> place in db.triggers && place != OwnPlace(o);
  }

  lemma CreatesRun(db: Database, oid: Oid, name: string, marker: string, functionText: string, triggerText: string)
    requires oid in db.tables && Place(oid, name) !in db.triggers
    ensures ExecuteAll(db, Creates(oid, name, marker, functionText, triggerText)).Some?
  {
    var s0, s1, s2 := CreateFunction(name, functionText), RevokeExecute(name), CommentFunction(name, marker);
    var s3, s4 := CreateTrigger(oid, name, name, triggerText), CommentTrigger(oid, name, marker);
    assert Creates(oid, name, marker, functionText, triggerText) == [s0] + ([s1] + ([s2] + ([s3] + ([s4] + []))));
    ExecuteFirst(db, s0, [s1] + ([s2] + ([s3] + ([s4] + []))));
    var d1 := Execute(db, s0).value;
    ExecuteFirst(d1, s1, [s2] + ([s3] + ([s4] + [])));
    ExecuteFirst(d1, s2, [s3] + ([s4] + []));
    var d2 := Execute(d1, s2).value;
    ExecuteFirst(d2, s3, [s4] + []);
    ExecuteFirst(Execute(d2, s3).value, s4, []);
  }

  // ----- the triggers after some steps -------------------------------------------------------------

  ghost predicate StandsAs(db: Database, cur: Database, place: Place) {
    place in db.triggers && place in cur.triggers && cur.triggers[place] == db.triggers[place]
  }

  ghost predicate Touches(steps: seq<Step>, name: string) {
    exists s :: s in steps && s.item.name == name
  }

  /** A trigger that stands after some steps is one that stood before them, or one of theirs, which executes
      the function of its own name. */
  lemma {:induction false} TriggersAfter(db: Database, steps: seq<Step>, place: Place)
    requires RunSteps(db, steps).Some? && AllScoped(steps) && (forall s :: s in steps && s.creating ==> CreatesOwn(s.item))
    requires place in RunSteps(db, steps).value.triggers
    ensures StandsAs(db, RunSteps(db, steps).value, place)
            || (Touches(steps, place.name) && RunSteps(db, steps).value.triggers[place].executes == place.name)
    decreases |steps|
  {
    if steps != [] {
      var front, last := steps[..|steps| - 1], steps[|steps| - 1];
      assert steps == front + [last] && last in steps && [last][1..] == [];
      RunSplits(db, front, [last]);
      var mid := RunSteps(db, front).value;
      StepTouches(mid, last);
      if place == OwnPlace(last.item) {
        LastTrigger(mid, last);
      } else {
        TriggersAfter(db, front, place);
        assert Touches(front, place.name) ==> Touches(steps, place.name);
      }
    }
  }

  lemma LastTrigger(mid: Database, s: Step)
    requires ExecuteAll(mid, s.Statements()).Some? && (s.creating ==> CreatesOwn(s.item))
    ensures var cur := ExecuteAll(mid, s.Statements()).value;
            OwnPlace(s.item) in cur.triggers ==> cur.triggers[OwnPlace(s.item)].executes == s.item.name
  {
    if s.creating {
      var marker, functionText, triggerText :| s.item.creates == Creates(s.item.target.oid, s.item.name, marker, functionText, triggerText);
      CreatesInstall(mid, s.item.target.oid, s.item.name, marker, functionText, triggerText);
    } else {
      DropsRemove(mid, s.item);
    }
  }

  // ----- one step in its place ---------------------------------------------------------------------

  /** The steps of a schedule over distinct objects, and the steps before the k-th. */
  ghost predicate Scheduled(db: Database, steps: seq<Step>) {
    && AllReady(db, steps) && DropsFirst(steps)
    && (forall s, t :: s in steps && t in steps && s.item.name == t.item.name ==> s.item == t.item)
    && forall s :: s in steps && s.item.drop ==> Step(s.item, false) in steps
  }

  lemma FirstUnderItsName(db: Database, steps: seq<Step>, k: nat)
    requires Scheduled(db, steps) && k < |steps| && (!steps[k].creating || !steps[k].item.drop)
    ensures !Touches(steps[..k], steps[k].item.name)
  {
    forall i | 0 <= i < k ensures steps[i].item.name != steps[k].item.name {
      assert steps[i] in steps && steps[k] in steps;
    }
  }

  lemma NotTouchedIsSame(db: Database, before: seq<Step>, oid: Oid, name: string)
    requires RunSteps(db, before).Some? && AllScoped(before) && !Touches(before, name)
    ensures SameUnder(db, RunSteps(db, before).value, oid, name)
  {
    OtherStepsKeep(db, before, oid, name);
  }

  lemma BeforeIsReady(db: Database, steps: seq<Step>, k: nat)
    requires AllReady(db, steps) && k <= |steps|
    ensures AllReady(db, steps[..k]) && AllScoped(steps[..k])
    ensures forall s :: s in steps[..k] && s.creating ==> CreatesOwn(s.item)
  {
    assert forall s :: s in steps[..k] ==> s in steps;
  }

  /** A trigger that executes a dropped object's function is nobody's in the schedule but its own. */
  lemma ExecutorIsUntouched(db: Database, before: seq<Step>, o: ApplyObject, place: Place)
    requires AllReady(db, before) && AllScoped(before) && RunSteps(db, before).Some?
    requires !Touches(before, o.name) && place in db.triggers && db.triggers[place].executes == o.name
    ensures StandsAs(db, RunSteps(db, before).value, place)
  {
    forall s | s in before ensures OwnPlace(s.item) != place {
      assert Ready(db, s.item);
    }
    OtherPlacesKeep(db, before, place);
  }

  lemma DropStepRunsIff(db: Database, before: seq<Step>, o: ApplyObject)
    requires AllReady(db, before) && AllScoped(before) && RunSteps(db, before).Some?
    requires forall s :: s in before && s.creating ==> CreatesOwn(s.item)
    requires !Touches(before, o.name) && Ready(db, o) && o.drop
    ensures ExecuteAll(RunSteps(db, before).value, Drops(o)).Some? <==> Unshared(db, o)
  {
    var cur := RunSteps(db, before).value;
    NotTouchedIsSame(db, before, o.target.oid, o.name);
    DropsRunIff(cur, o);
    forall place | place in db.triggers && db.triggers[place].executes == o.name ensures StandsAs(db, cur, place) {
      ExecutorIsUntouched(db, before, o, place);
    }
    forall place | place in cur.triggers && cur.triggers[place].executes == o.name ensures StandsAs(db, cur, place) {
      TriggersAfter(db, before, place);
    }
  }

  lemma {:induction false} TablesAfter(db: Database, before: seq<Step>)
    requires RunSteps(db, before).Some? && AllScoped(before)
    ensures RunSteps(db, before).value.tables == db.tables
  {
    StepsKeepRegistry(db, before);
  }

  lemma CreateStepRuns(db: Database, steps: seq<Step>, k: nat)
    requires Scheduled(db, steps) && k < |steps| && steps[k].creating && RunSteps(db, steps[..k]).Some?
    ensures ExecuteAll(RunSteps(db, steps[..k]).value, steps[k].Statements()).Some?
  {
    var o, cur := steps[k].item, RunSteps(db, steps[..k]).value;
    BeforeIsReady(db, steps, k);
    TablesAfter(db, steps[..k]);
    assert steps[k] in steps && Ready(db, o);
    if o.drop {
      DroppedBefore(db, steps, k);
    } else {
      FirstUnderItsName(db, steps, k);
      NotTouchedIsSame(db, steps[..k], o.target.oid, o.name);
    }
    var marker, functionText, triggerText :| o.creates == Creates(o.target.oid, o.name, marker, functionText, triggerText);
    CreatesRun(cur, o.target.oid, o.name, marker, functionText, triggerText);
  }

  /** An object's drop has run before its create, and nothing between the two is under its name. */
  lemma DroppedBefore(db: Database, steps: seq<Step>, k: nat)
    requires Scheduled(db, steps) && k < |steps| && steps[k].creating && steps[k].item.drop && RunSteps(db, steps[..k]).Some?
    ensures OwnPlace(steps[k].item) !in RunSteps(db, steps[..k]).value.triggers
  {
    var o := steps[k].item;
    assert steps[k] in steps;
    var j :| 0 <= j < |steps| && steps[j] == Step(o, false);
    assert j < k;
    var before := steps[..k];
    BeforeIsReady(db, steps, k);
    forall i | j < i < |before| ensures before[i].item.name != o.name {
      assert before[i] == steps[i];
    }
    assert before[j] == Step(o, false);
    var mid := LastStepDecides(db, before, j, o.target.oid);
    DropsRemove(mid, o);
  }

  // ----- the whole schedule ------------------------------------------------------------------------

  ghost predicate DropsUnshared(db: Database, steps: seq<Step>) {
    forall s :: s in steps && !s.creating ==> Unshared(db, s.item)
  }

  /** The next step of a schedule fails only where it drops a shared function. */
  lemma StepRunsIff(db: Database, steps: seq<Step>, k: nat)
    requires Scheduled(db, steps) && k < |steps| && RunSteps(db, steps[..k]).Some?
    ensures ExecuteAll(RunSteps(db, steps[..k]).value, steps[k].Statements()).Some? <==> steps[k].creating || Unshared(db, steps[k].item)
  {
    if steps[k].creating {
      CreateStepRuns(db, steps, k);
    } else {
      BeforeIsReady(db, steps, k);
      FirstUnderItsName(db, steps, k);
      DropStepRunsIff(db, steps[..k], steps[k].item);
    }
  }

  lemma {:induction false} ScheduleRunsUpToIff(db: Database, steps: seq<Step>, k: nat)
    requires Scheduled(db, steps) && k <= |steps|
    ensures RunSteps(db, steps[..k]).Some? <==> DropsUnshared(db, steps[..k])
    decreases k
  {
    if k > 0 {
      var before, s := steps[..k - 1], steps[k - 1];
      ScheduleRunsUpToIff(db, steps, k - 1);
      assert steps[..k] == before + [s] && [s][1..] == [] && s in steps;
      RunSplits(db, before, [s]);
      if RunSteps(db, before).Some? {
        StepRunsIff(db, steps, k - 1);
      }
    }
  }

  /** A schedule runs to its end if and only if no trigger but its own executes a function it drops. */
  lemma ScheduleRunsIff(db: Database, steps: seq<Step>)
    requires Scheduled(db, steps)
    ensures RunSteps(db, steps).Some? <==> DropsUnshared(db, steps)
  {
    ScheduleRunsUpToIff(db, steps, |steps|);
    assert steps[..|steps|] == steps;
  }
}
