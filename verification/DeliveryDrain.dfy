/** What a Drain's verdict is worth. */
module DeliveryDrain {
  import opened DeliveryState
  import opened DeliveryProtocol
  import opened DeliveryOrder
  import opened DeliveryAccounting
  import opened DeliveryConservation

  // ----- stopping is for good ------------------------------------------------------------------------

  /** From one state to the next: stopping stays set, under it the tracked ids only shrink, the
      generation only grows, and it grows whenever something is untracked. */
  predicate Winds(sh: Shared, sh': Shared) {
    && (sh.stopping ==> sh'.stopping && sh'.tracked <= sh.tracked)
    && sh.generation <= sh'.generation
    && (sh.generation == sh'.generation ==> sh.tracked <= sh'.tracked)
  }

  lemma AdmissionWinds(c: Config, sh: Shared, e: Event, pc: PollAt)
    ensures Winds(sh, AdmissionShared(c, sh, e, pc))
  {
    match pc
    case AcquiringGlobal =>
    case AcquiringListener =>
    case ReleasingGlobal =>
    case Counting =>
    case Tracking =>
    case Uncounting =>
    case UnwindingGlobal =>
    case UnwindingListener =>
    case _ =>
  }

  lemma BatchWinds(c: Config, s: State, o: Oracle)
    requires PollAllowed(c, s, o) && VisitsFront(s) && !IsAdmission(s.poll.pc)
    ensures Winds(s.shared, PollStep(c, s, o).shared)
  {
    if IsVisit(s.poll.pc) {
      VisitKeepsCounts(c, s, o);
    } else {
      RunOnceKeepsCounts(c, s, o);
    }
  }

  lemma GoWinds(c: Config, sh: Shared, g: Goroutine)
    ensures Winds(sh, GoShared(c, sh, g))
  {
    match g.pc
    case Settled =>
    case Untracked =>
    case Finished =>
    case Left =>
    case ListenerFreed =>
    case _ =>
  }

  lemma StepWinds(c: Config, s: State, a: Action)
    requires Allowed(c, s, a)
    ensures Winds(s.shared, Apply(c, s, a).shared)
  {
    match a
    case PollMoves(o) =>
      if IsAdmission(s.poll.pc) {
        AdmissionWinds(c, s.shared, s.poll.current, s.poll.pc);
      } else {
        BatchWinds(c, s, o);
      }
    case GoMoves(i) => GoWinds(c, s.shared, s.goroutines[i]);
    case DrainMoves(d, o) => DrainWinds(s.shared, s.drains[d]);
    case DrainStarts =>
  }

  lemma DrainWinds(sh: Shared, me: Drain)
    ensures Winds(sh, DrainShared(sh, me))
  {}

  // ----- what a drain knows --------------------------------------------------------------------------

  predicate Knows(sh: Shared, me: Drain) {
    && (!me.pc.Called? ==> sh.stopping)
    && (me.pc.Called? || me.pc.Checking? || me.pc.Blocked? ==> !me.timedOut)
    && (me.pc.Blocked? ==> me.pc.channel <= sh.generation && (me.pc.channel == sh.generation ==> |sh.tracked| > 0))
    && (!me.pc.Called? && !me.pc.Checking? && !me.pc.Blocked? && !me.timedOut ==> |sh.tracked| == 0)
    && (me.pc.Releasing? || me.pc.Joining? || me.pc.Recording? || me.pc.Returned? ==> (me.timedOut ==> TimedOut in me.errors))
  }

  lemma SmallerIsSmaller(a: multiset<Id>, b: multiset<Id>)
    requires a <= b
    ensures |a| <= |b|
  {
    assert b == a + (b - a);
  }

  /** What one drain knows, no step of another thread makes false. */
  lemma KnowledgeLasts(sh: Shared, sh': Shared, me: Drain)
    requires Winds(sh, sh') && Knows(sh, me)
    ensures Knows(sh', me)
  {
    if sh.stopping {
      SmallerIsSmaller(sh'.tracked, sh.tracked);
    }
    if sh.generation == sh'.generation {
      SmallerIsSmaller(sh.tracked, sh'.tracked);
    }
  }

  lemma DrainLearns(sh: Shared, me: Drain, o: Oracle)
    requires Knows(sh, me)
    ensures Knows(DrainShared(sh, me), DrainNext(sh, me, o))
  {}

  ghost predicate Informed(s: State) {
    forall d :: 0 <= d < |s.drains| ==> Knows(s.shared, s.drains[d])
  }

  lemma StepInforms(c: Config, s: State, a: Action)
    requires Informed(s) && Allowed(c, s, a)
    ensures Informed(Apply(c, s, a))
  {
    var t := Apply(c, s, a);
    StepWinds(c, s, a);
    OldDrains(c, s, a);
    forall d | 0 <= d < |t.drains| ensures Knows(t.shared, t.drains[d]) {
      if a.DrainMoves? && a.d == d {
        DrainLearns(s.shared, s.drains[d], a.o);
      } else if d < |s.drains| {
        KnowledgeLasts(s.shared, t.shared, s.drains[d]);
      }
    }
  }

  /** A drain moves only itself, and nothing else moves one. */
  lemma OldDrains(c: Config, s: State, a: Action)
    requires Allowed(c, s, a)
    ensures var t := Apply(c, s, a);
            t.drains == match a
                        case DrainStarts => s.drains + [Drain(Called, false, {}, {}, {})]
                        case DrainMoves(d, o) => s.drains[d := DrainNext(s.shared, s.drains[d], o)]
                        case _ => s.drains
  {
    if a.PollMoves? {
      if IsAdmission(s.poll.pc) {
      } else if IsVisit(s.poll.pc) {
        VisitMoves(c, s, a.o);
      } else {
        RunOnceKeepsDrains(c, s, a.o);
      }
    }
  }

  lemma RunOnceKeepsDrains(c: Config, s: State, o: Oracle)
    requires PollAllowed(c, s, o)
    ensures RunOnceStep(c, s, o).drains == s.drains
  {}

  lemma {:induction false} RunIsInformed(c: Config, run: seq<State>, actions: seq<Action>, k: nat)
    requires IsRun(c, run, actions) && k < |run|
    ensures Informed(run[k])
  {
    if k > 0 {
      RunIsInformed(c, run, actions, k - 1);
      StepInforms(c, run[k - 1], actions[k - 1]);
    }
  }

  // ----- a clean drain is final ----------------------------------------------------------------------

  /** Nothing is tracked and nothing will be. */
  predicate Quiet(s: State) {
    s.shared.stopping && |s.shared.tracked| == 0
  }

  ghost predicate Winding(run: seq<State>) {
    forall k :: 0 <= k < |run| - 1 ==> Winds(run[k].shared, run[k + 1].shared)
  }

  lemma RunIsWinding(c: Config, run: seq<State>, actions: seq<Action>)
    requires IsRun(c, run, actions)
    ensures Winding(run)
  {
    forall k | 0 <= k < |run| - 1 ensures Winds(run[k].shared, run[k + 1].shared) {
      StepWinds(c, run[k], actions[k]);
    }
  }

  lemma {:induction false} WoundDown(run: seq<State>, j: nat, k: nat)
    requires Winding(run) && j <= k < |run| && run[j].shared.stopping
    ensures run[k].shared.stopping && run[k].shared.tracked <= run[j].shared.tracked
    decreases k
  {
    if j < k {
      WoundDown(run, j, k - 1);
      assert Winds(run[k - 1].shared, run[k - 1 + 1].shared);
    }
  }

  /** Once stopping is set it stays set, and the tracked ids only shrink. */
  lemma StoppingOnlyShrinks(c: Config, run: seq<State>, actions: seq<Action>, j: nat, k: nat)
    requires IsRun(c, run, actions) && j <= k < |run| && run[j].shared.stopping
    ensures run[k].shared.stopping && run[k].shared.tracked <= run[j].shared.tracked
  {
    RunIsWinding(c, run, actions);
    WoundDown(run, j, k);
  }

  lemma NobodyIsTracked(s: State, id: Id)
    requires |s.shared.tracked| == 0
    ensures Resource(s.shared, TrackedAs(id)) == 0
  {}

  lemma HolderIsCounted(gs: seq<Goroutine>, i: nat, role: Role)
    requires i < |gs|
    ensures Plays(gs[i], role) ==> Holders(gs, role) >= 1
  {
    if Plays(gs[i], role) {
      SomeHolder(gs, i, role);
    }
  }

  lemma QuietMeansNoRequest(c: Config, run: seq<State>, actions: seq<Action>, k: nat)
    requires IsRun(c, run, actions) && k < |run| && Quiet(run[k])
    ensures forall i :: 0 <= i < |run[k].goroutines| ==> !run[k].goroutines[i].pc.Delivering?
    ensures !run[k].poll.pc.Spawning?
  {
    RunIsAccounted(c, run, actions, k);
    var s := run[k];
    NobodyIsTracked(s, s.poll.current.id);
    assert !PollPlays(s.poll, TrackedAs(s.poll.current.id));
    forall i | 0 <= i < |s.goroutines| ensures !s.goroutines[i].pc.Delivering? {
      var role := TrackedAs(s.goroutines[i].event.id);
      NobodyIsTracked(s, role.id);
      HolderIsCounted(s.goroutines, i, role);
      assert !Plays(s.goroutines[i], role);
    }
  }

  /** Past its wait without a timeout, and so in particular where its verdict is Clean. */
  predicate Waited(me: Drain) {
    !me.pc.Called? && !me.pc.Checking? && !me.pc.Blocked? && !me.timedOut
  }

  /** A clean drain is final: from the moment a drain's wait ended without a timeout, no request is
      running, none is about to start, and none ever will be. */
  lemma CleanDrainIsFinal(c: Config, run: seq<State>, actions: seq<Action>, j: nat, d: nat, k: nat)
    requires IsRun(c, run, actions) && j <= k < |run| && d < |run[j].drains| && Waited(run[j].drains[d])
    ensures Quiet(run[k])
    ensures forall i :: 0 <= i < |run[k].goroutines| ==> !run[k].goroutines[i].pc.Delivering?
    ensures !run[k].poll.pc.Spawning?
  {
    RunIsInformed(c, run, actions, j);
    assert Knows(run[j].shared, run[j].drains[d]);
    StoppingOnlyShrinks(c, run, actions, j, k);
    SmallerIsSmaller(run[k].shared.tracked, run[j].shared.tracked);
    QuietMeansNoRequest(c, run, actions, k);
  }

  /** The verdict is honest: the error a drain returns is empty exactly when it reports Clean, and then it has
      waited without a timeout. */
  lemma CleanVerdictHasWaited(c: Config, run: seq<State>, actions: seq<Action>, k: nat, d: nat)
    requires IsRun(c, run, actions) && k < |run| && d < |run[k].drains|
    ensures run[k].drains[d].pc.Returned? ==> (run[k].drains[d].Clean() <==> run[k].drains[d].errors == {})
    ensures run[k].drains[d].pc.Returned? && run[k].drains[d].errors == {} ==> Waited(run[k].drains[d])
  {
    RunIsInformed(c, run, actions, k);
    assert Knows(run[k].shared, run[k].drains[d]);
  }

  /** No lost wake-up: a waiter whose tracked set has become empty holds a closed channel, so it
      can go on without its timer. */
  lemma NoWakeUpIsLost(c: Config, run: seq<State>, actions: seq<Action>, k: nat, d: nat, o: Oracle)
    requires IsRun(c, run, actions) && k < |run| && d < |run[k].drains| && run[k].drains[d].pc.Blocked?
    requires |run[k].shared.tracked| == 0
    ensures run[k].drains[d].pc.channel < run[k].shared.generation
    ensures Allowed(c, run[k], DrainMoves(d, o))
  {
    RunIsInformed(c, run, actions, k);
    assert Knows(run[k].shared, run[k].drains[d]);
  }

  // ----- a failed release is never forgotten ---------------------------------------------------------

  /** The drain has not read the recorded error yet, or it has what was recorded. */
  predicate HasHeard(me: Drain, fault: Fault) {
    me.pc.Recording? || me.pc.Returned? ==> fault in me.errors
  }

  lemma StepRemembers(c: Config, s: State, a: Action, fault: Fault)
    requires Tidy(s) && Allowed(c, s, a) && fault in s.shared.sticky
    ensures fault in Apply(c, s, a).shared.sticky
  {
    match a
    case PollMoves(o) =>
      if IsAdmission(s.poll.pc) {
        AdmissionKeepsSticky(c, s.shared, s.poll.current, s.poll.pc);
      } else if IsVisit(s.poll.pc) {
        VisitMoves(c, s, o);
      } else {
        RunOnceKeepsTidy(c, s, o);
      }
    case GoMoves(i) => GoKeepsSticky(c, s.shared, s.goroutines[i]);
    case DrainMoves(d, o) => DrainStaysTidy(s.shared, s.drains[d], o);
    case DrainStarts =>
  }

  lemma DrainHears(sh: Shared, me: Drain, o: Oracle, fault: Fault)
    requires fault in sh.sticky && HasHeard(me, fault)
    ensures HasHeard(DrainNext(sh, me, o), fault)
  {}

  /** One step loses no recorded failure and lets every drain that has joined know of it. */
  ghost predicate Heard(s: State, t: State, fault: Fault) {
    fault in s.shared.sticky ==>
      && fault in t.shared.sticky && |s.drains| <= |t.drains|
      && forall d :: 0 <= d < |t.drains| && (d < |s.drains| ==> HasHeard(s.drains[d], fault)) ==> HasHeard(t.drains[d], fault)
  }

  lemma StepHears(c: Config, s: State, a: Action, fault: Fault)
    requires Tidy(s) && Allowed(c, s, a)
    ensures Heard(s, Apply(c, s, a), fault)
  {
    OldDrains(c, s, a);
    if fault in s.shared.sticky {
      StepRemembers(c, s, a, fault);
      if a.DrainMoves? && HasHeard(s.drains[a.d], fault) {
        DrainHears(s.shared, s.drains[a.d], a.o, fault);
      }
    }
  }

  lemma {:induction false} AllHeard(run: seq<State>, j: nat, k: nat, d: nat, fault: Fault)
    requires j <= k < |run| && (forall m :: 0 <= m < |run| - 1 ==> Heard(run[m], run[m + 1], fault))
    requires fault in run[j].shared.sticky && (d < |run[j].drains| ==> HasHeard(run[j].drains[d], fault))
    ensures fault in run[k].shared.sticky && (d < |run[k].drains| ==> HasHeard(run[k].drains[d], fault))
    decreases k
  {
    if j < k {
      AllHeard(run, j, k - 1, d, fault);
      assert Heard(run[k - 1], run[k - 1 + 1], fault);
    }
  }

  /** A failure recorded before a drain joined the recorded error is in that drain's verdict: a
      later drain with nothing left to release still does not report Clean. */
  lemma FailuresReachEveryLaterDrain(c: Config, run: seq<State>, actions: seq<Action>, j: nat, k: nat, d: nat, fault: Fault)
    requires IsRun(c, run, actions) && j <= k < |run| && fault in run[j].shared.sticky
    requires d < |run[k].drains| && (d < |run[j].drains| ==> HasHeard(run[j].drains[d], fault))
    ensures fault in run[k].shared.sticky
    ensures run[k].drains[d].pc.Returned? ==> !run[k].drains[d].Clean()
  {
    forall m | 0 <= m < |run| - 1 ensures Heard(run[m], run[m + 1], fault) {
      RunIsTidy(c, run, actions, m);
      StepHears(c, run[m], actions[m], fault);
    }
    AllHeard(run, j, k, d, fault);
  }

  // ----- what a drain leaves pending -----------------------------------------------------------------

  /** Nothing is pending under stopping, and the loop is not past retainPending's draining() with
      events in its hands. */
  predicate Swept(s: State) {
    && s.shared.stopping && Ids(s.shared.pending) == {}
    && (s.poll.pc.Storing? ==> Ids(s.poll.hands) == {})
  }

  lemma StepKeepsSwept(c: Config, s: State, a: Action)
    requires Fronted(s) && Swept(s) && Allowed(c, s, a)
    ensures Swept(Apply(c, s, a))
  {
    StepWinds(c, s, a);
    NoIds(map[]);
    if a.PollMoves? {
      if IsAdmission(s.poll.pc) {
        AdmissionKeepsQueues(c, s);
      } else if IsVisit(s.poll.pc) {
        VisitMoves(c, s, a.o);
      } else {
        RunOnceKeepsSwept(c, s, a.o);
      }
    } else {
      OthersMoveNothing(c, s, a);
    }
  }

  lemma RunOnceKeepsSwept(c: Config, s: State, o: Oracle)
    requires Swept(s) && PollAllowed(c, s, o) && !IsVisit(s.poll.pc) && !IsAdmission(s.poll.pc)
    ensures Ids(RunOnceStep(c, s, o).shared.pending) == {} && !RunOnceStep(c, s, o).poll.pc.Storing?
  {
    NoIds(map[]);
    if s.poll.pc.Storing? {
      IdsOfAppended(s.shared.pending, s.poll.hands);
    }
  }

  lemma {:induction false} SweptStays(c: Config, run: seq<State>, actions: seq<Action>, j: nat, k: nat)
    requires IsRun(c, run, actions) && j <= k < |run| && Swept(run[j])
    ensures Swept(run[k])
    decreases k
  {
    if j < k {
      SweptStays(c, run, actions, j, k - 1);
      RunIsFronted(c, run, actions, k - 1);
      StepKeepsSwept(c, run[k - 1], actions[k - 1]);
    }
  }

  /** A sweep outside the store window leaves the worker swept. */
  lemma SweepLeavesSwept(c: Config, run: seq<State>, actions: seq<Action>, j: nat, d: nat, o: Oracle)
    requires IsRun(c, run, actions) && j < |actions| && actions[j] == DrainMoves(d, o) && run[j].drains[d].pc.Sweeping?
    requires !(run[j].poll.pc.Storing? && Ids(run[j].poll.hands) != {})
    ensures Swept(run[j + 1])
  {
    RunIsInformed(c, run, actions, j);
    assert Knows(run[j].shared, run[j].drains[d]);
    NoIds(map[]);
  }

  /** Within it the loop may store what it holds as its next step. */
  lemma StoreAfterTheSweep(c: Config, run: seq<State>, actions: seq<Action>, j: nat, d: nat, o: Oracle)
    requires IsRun(c, run, actions) && j < |actions| && actions[j] == DrainMoves(d, o) && run[j].drains[d].pc.Sweeping?
    requires run[j].poll.pc.Storing?
    ensures Allowed(c, run[j + 1], PollMoves(o))
    ensures Ids(PollStep(c, run[j + 1], o).shared.pending) == Ids(run[j].poll.hands)
    ensures PollStep(c, run[j + 1], o).poll.pc.Idle?
  {
    NoIds(map[]);
    IdsOfAppended(map[], run[j].poll.hands);
  }


  /** A drain's takeHeldForDrain strands nothing, now or ever, exactly when the loop does not stand
      between retainPending's draining() test and its store with events in its hands: in that
      window the loop's own next step leaves them pending after the sweep. */
  lemma SweepStrandsNothingIff(c: Config, run: seq<State>, actions: seq<Action>, j: nat, d: nat, o: Oracle)
    requires IsRun(c, run, actions) && j < |actions| && actions[j] == DrainMoves(d, o) && run[j].drains[d].pc.Sweeping?
    ensures !(run[j].poll.pc.Storing? && Ids(run[j].poll.hands) != {}) ==>
              forall k :: j < k < |run| ==> Ids(run[k].shared.pending) == {}
    ensures run[j].poll.pc.Storing? && Ids(run[j].poll.hands) != {} ==>
              && Allowed(c, run[j + 1], PollMoves(o))
              && Ids(PollStep(c, run[j + 1], o).shared.pending) == Ids(run[j].poll.hands)
              && PollStep(c, run[j + 1], o).poll.pc.Idle?
  {
    if run[j].poll.pc.Storing? && Ids(run[j].poll.hands) != {} {
      StoreAfterTheSweep(c, run, actions, j, d, o);
    } else {
      SweepLeavesSwept(c, run, actions, j, d, o);
      forall k | j < k < |run| ensures Ids(run[k].shared.pending) == {} {
        SweptStays(c, run, actions, j + 1, k);
      }
    }
  }
}
