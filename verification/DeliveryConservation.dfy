/** No claimed event vanishes, in any interleaving. */
module DeliveryConservation {
  import opened DeliveryState
  import opened DeliveryProtocol
  import opened DeliveryOrder

  predicate InTheAir(gs: seq<Goroutine>, id: Id) {
    exists i :: 0 <= i < |gs| && gs[i].pc.Delivering? && gs[i].event.id == id
  }

  predicate InADrain(drains: seq<Drain>, id: Id) {
    exists d :: 0 <= d < |drains| && id in drains[d].todo
  }

  predicate InTheLoop(p: Poll, id: Id) {
    id in Ids(p.hands) || id in p.todo
  }

  /** Since its latest claim: handed to a settlement call, given back, disowned by the source, or abandoned
      as expired. */
  predicate Over(h: History, id: Id) {
    id in h.settled || id in h.released || id in h.disowned || id in h.abandoned
  }

  /** The failure of the id's Nack is on its way to the error every drain reports, or stands in it. */
  predicate Recorded(s: State, id: Id) {
    NackFailed(id) in s.poll.failed || InErrors(s.drains, id) || NackFailed(id) in s.shared.sticky
  }

  predicate InErrors(drains: seq<Drain>, id: Id) {
    exists d :: 0 <= d < |drains| && NackFailed(id) in drains[d].errors
  }

  /** Where an id is, or how its latest claim ended. */
  predicate Located(s: State, id: Id) {
    || InTheLoop(s.poll, id) || id in Ids(s.shared.pending) || InTheAir(s.goroutines, id)
    || InADrain(s.drains, id) || Over(s.history, id) || id in s.history.failed
  }

  ghost predicate Conserved(s: State) {
    forall id :: id in s.history.claimed ==> Located(s, id)
  }

  /** No failed Nack goes unrecorded. */
  ghost predicate FailuresRecorded(s: State) {
    forall id :: id in s.history.failed ==> Recorded(s, id)
  }

  /** Each list of ids to give back, and each of failures, is filled only where it is worked off. */
  predicate TidyPoll(p: Poll) {
    && (!p.pc.Nacking? ==> p.todo == {})
    && (!p.pc.Nacking? && !p.pc.Noting? ==> p.failed == {})
  }

  predicate BeforeSweeping(pc: DrainAt) {
    pc.Called? || pc.Checking? || pc.Blocked? || pc.Collecting?
  }

  predicate TidyDrain(me: Drain, sticky: set<Fault>) {
    && (!me.pc.Sweeping? && !me.pc.Releasing? ==> me.todo == {})
    && (BeforeSweeping(me.pc) || me.pc.Sweeping? ==> me.errors == {})
    && (me.pc.Returned? ==> me.errors <= sticky)
  }

  ghost predicate Tidy(s: State) {
    && TidyPoll(s.poll)
    && forall d :: 0 <= d < |s.drains| ==> TidyDrain(s.drains[d], s.shared.sticky)
  }

  lemma PollKeepsTidy(c: Config, s: State, o: Oracle)
    requires Tidy(s) && Allowed(c, s, PollMoves(o))
    ensures Tidy(PollStep(c, s, o))
  {
    if IsAdmission(s.poll.pc) {
      AdmissionKeepsQueues(c, s);
      AdmissionKeepsSticky(c, s.shared, s.poll.current, s.poll.pc);
    } else if IsVisit(s.poll.pc) {
      VisitMoves(c, s, o);
    } else {
      RunOnceKeepsTidy(c, s, o);
    }
  }

  lemma RunOnceKeepsTidy(c: Config, s: State, o: Oracle)
    requires TidyPoll(s.poll) && PollAllowed(c, s, o) && !IsVisit(s.poll.pc) && !IsAdmission(s.poll.pc)
    ensures var t := RunOnceStep(c, s, o);
            TidyPoll(t.poll) && t.drains == s.drains && s.shared.sticky <= t.shared.sticky && t.goroutines == s.goroutines
  {}

  lemma GoKeepsSticky(c: Config, sh: Shared, g: Goroutine)
    ensures GoShared(c, sh, g).sticky == sh.sticky && GoShared(c, sh, g).stopping == sh.stopping
  {}

  lemma DrainStaysTidy(sh: Shared, me: Drain, o: Oracle)
    requires TidyDrain(me, sh.sticky) && (me.pc.Releasing? ==> me.todo == {} || o.id in me.todo)
    ensures TidyDrain(DrainNext(sh, me, o), DrainShared(sh, me).sticky)
    ensures sh.sticky <= DrainShared(sh, me).sticky
  {}

  lemma StepKeepsTidy(c: Config, s: State, a: Action)
    requires Tidy(s) && Allowed(c, s, a)
    ensures Tidy(Apply(c, s, a))
  {
    match a
    case PollMoves(o) => PollKeepsTidy(c, s, o);
    case GoMoves(i) => GoKeepsSticky(c, s.shared, s.goroutines[i]);
    case DrainMoves(d, o) => DrainStaysTidy(s.shared, s.drains[d], o);
    case DrainStarts =>
  }

  // ----- one step loses nothing ----------------------------------------------------------------------

  lemma AdmissionLosesNothing(c: Config, s: State, id: Id)
    requires IsAdmission(s.poll.pc) && Located(s, id)
    ensures Located(AdmissionStep(c, s), id)
  {
    AdmissionKeepsQueues(c, s);
    AdmissionKeepsSticky(c, s.shared, s.poll.current, s.poll.pc);
  }

  lemma AdmissionKeepsSticky(c: Config, sh: Shared, e: Event, pc: PollAt)
    ensures AdmissionShared(c, sh, e, pc).sticky == sh.sticky
    ensures AdmissionShared(c, sh, e, pc).stopping == sh.stopping
  {
    match pc
    case AcquiringGlobal =>
    case AcquiringListener =>
    case ReleasingGlobal =>
    case Counting =>
    case Tracking =>
    case Uncounting =>
    case UnwindingGlobal =>
    case UnwindingListener =>
    case _ =>
  }

  /** The current event leaves the hands only for a goroutine or a settlement call. */
  lemma VisitLosesNothing(c: Config, s: State, o: Oracle, id: Id)
    requires Fronted(s) && PollAllowed(c, s, o) && IsVisit(s.poll.pc) && Located(s, id)
    ensures Located(VisitStep(c, s, o), id)
  {
    var t := VisitStep(c, s, o);
    VisitMoves(c, s, o);
    if VisitTakes(s, o) {
      IdsOfPopped(s.poll.hands, s.poll.current.listener);
    }
    if InTheAir(s.goroutines, id) {
      var i :| 0 <= i < |s.goroutines| && s.goroutines[i].pc.Delivering? && s.goroutines[i].event.id == id;
      assert t.goroutines[i] == s.goroutines[i];
    } else if id == s.poll.current.id && s.poll.pc.Spawning? {
      assert t.goroutines[|s.goroutines|] == Goroutine(Delivering, s.poll.current);
    }
  }

  lemma VisitMoves(c: Config, s: State, o: Oracle)
    requires VisitsFront(s) && PollAllowed(c, s, o) && IsVisit(s.poll.pc)
    ensures var t := VisitStep(c, s, o);
            && t.shared.pending == s.shared.pending && t.shared.sticky == s.shared.sticky && t.drains == s.drains
            && t.poll.todo == s.poll.todo && t.poll.failed == s.poll.failed
            && t.goroutines == (if s.poll.pc.Spawning? then s.goroutines + [Goroutine(Delivering, s.poll.current)] else s.goroutines)
            && t.poll.hands == (if VisitTakes(s, o) then Popped(s.poll.hands, s.poll.current.listener) else s.poll.hands)
            && t.history.(taken := s.history.taken) ==
               if VisitTakes(s, o) && !s.poll.pc.Spawning? then s.history.(settled := s.history.settled + {s.poll.current.id}) else s.history
  {}

  lemma RunOnceLosesNothing(c: Config, s: State, o: Oracle, id: Id)
    requires Fronted(s) && PollAllowed(c, s, o) && !IsVisit(s.poll.pc) && !IsAdmission(s.poll.pc)
    requires TidyPoll(s.poll) && Located(s, id)
    ensures Located(RunOnceStep(c, s, o), id)
  {
    var t := RunOnceStep(c, s, o);
    RunOnceKeepsTidy(c, s, o);
    match s.poll.pc
    case Taking => NoIds(s.poll.hands);
    case Dropping => IdsOfKept(s.poll.hands, o.dropped);
    case Claiming => MembersOfJoined(s.poll.hands, o.events);
    case Storing => IdsOfAppended(s.shared.pending, s.poll.hands);
    case _ =>
  }

  lemma NoIds(q: Queues)
    requires AllEmpty(q)
    ensures Ids(q) == {}
  {}

  lemma PollLosesNothing(c: Config, s: State, o: Oracle, id: Id)
    requires Fronted(s) && TidyPoll(s.poll) && PollAllowed(c, s, o) && Located(s, id)
    ensures Located(PollStep(c, s, o), id)
  {
    if IsAdmission(s.poll.pc) {
      AdmissionLosesNothing(c, s, id);
    } else if IsVisit(s.poll.pc) {
      VisitLosesNothing(c, s, o, id);
    } else {
      RunOnceLosesNothing(c, s, o, id);
    }
  }

  /** Only a claim adds to what has been claimed, and it adds it to the loop's hands. */
  lemma PollClaims(c: Config, s: State, o: Oracle, id: Id)
    requires Fronted(s) && PollAllowed(c, s, o) && id in PollStep(c, s, o).history.claimed && id !in s.history.claimed
    ensures Located(PollStep(c, s, o), id)
  {
    if IsVisit(s.poll.pc) {
      VisitMoves(c, s, o);
    } else if s.poll.pc.Claiming? {
      MembersOfJoined(s.poll.hands, o.events);
    }
  }

  lemma GoLosesNothing(c: Config, s: State, i: nat, id: Id)
    requires i < |s.goroutines| && Located(s, id)
    ensures Located(GoStep(c, s, i), id)
  {
    var t := GoStep(c, s, i);
    GoKeepsPending(c, s.shared, s.goroutines[i]);
    if InTheAir(s.goroutines, id) {
      var j :| 0 <= j < |s.goroutines| && s.goroutines[j].pc.Delivering? && s.goroutines[j].event.id == id;
      assert j != i ==> t.goroutines[j] == s.goroutines[j];
    }
  }

  predicate Keeps(me: Drain, id: Id) {
    id in me.todo
  }

  /** What a drain holds, or takes from the pending queues, it holds on to until a Nack answered. */
  lemma DrainKeepsItsOwn(sh: Shared, me: Drain, o: Oracle, id: Id)
    requires TidyDrain(me, sh.sticky)
    ensures Keeps(me, id) ==> Keeps(DrainNext(sh, me, o), id) || (Nacks(me) && o.id == id)
    ensures me.pc.Sweeping? && id in Ids(sh.pending) ==> Keeps(DrainNext(sh, me, o), id)
    ensures !me.pc.Sweeping? ==> DrainShared(sh, me).pending == sh.pending
  {}

  lemma DrainLosesNothing(s: State, d: nat, o: Oracle, id: Id)
    requires Tidy(s) && DrainAllowed(s, d, o) && Located(s, id)
    ensures Located(DrainStep(s, d, o), id)
  {
    var t, me := DrainStep(s, d, o), s.drains[d];
    DrainKeepsItsOwn(s.shared, me, o, id);
    DrainStaysTidy(s.shared, me, o);
    assert t.drains[d] == DrainNext(s.shared, me, o);
    if InADrain(s.drains, id) {
      var k :| 0 <= k < |s.drains| && id in s.drains[k].todo;
      assert k != d ==> t.drains[k] == s.drains[k];
    }
  }

  // ----- every run -----------------------------------------------------------------------------------

  lemma StepConserves(c: Config, s: State, a: Action)
    requires Fronted(s) && Tidy(s) && Conserved(s) && Allowed(c, s, a)
    ensures Conserved(Apply(c, s, a))
  {
    var t := Apply(c, s, a);
    forall id | id in t.history.claimed ensures Located(t, id) {
      match a
      case PollMoves(o) =>
        if id in s.history.claimed {
          PollLosesNothing(c, s, o, id);
        } else {
          PollClaims(c, s, o, id);
        }
      case GoMoves(i) => GoLosesNothing(c, s, i, id);
      case DrainMoves(d, o) => DrainLosesNothing(s, d, o, id);
      case DrainStarts => StartLosesNothing(s, id);
    }
  }

  lemma StartLosesNothing(s: State, id: Id)
    requires Located(s, id)
    ensures Located(s.(drains := s.drains + [Drain(Called, false, {}, {}, {})]), id)
  {
    if InADrain(s.drains, id) {
      var k :| 0 <= k < |s.drains| && id in s.drains[k].todo;
      assert (s.drains + [Drain(Called, false, {}, {}, {})])[k] == s.drains[k];
    }
  }

  lemma {:induction false} RunIsTidy(c: Config, run: seq<State>, actions: seq<Action>, k: nat)
    requires IsRun(c, run, actions) && k < |run|
    ensures Tidy(run[k])
  {
    if k > 0 {
      RunIsTidy(c, run, actions, k - 1);
      StepKeepsTidy(c, run[k - 1], actions[k - 1]);
    }
  }

  // ----- every failed Nack is recorded ---------------------------------------------------------------

  lemma PollRecords(c: Config, s: State, o: Oracle, id: Id)
    requires Fronted(s) && PollAllowed(c, s, o) && (id in s.history.failed ==> Recorded(s, id))
    ensures var t := PollStep(c, s, o); id in t.history.failed ==> Recorded(t, id)
  {
    var t := PollStep(c, s, o);
    if IsAdmission(s.poll.pc) {
      AdmissionKeepsSticky(c, s.shared, s.poll.current, s.poll.pc);
    } else if IsVisit(s.poll.pc) {
      VisitMoves(c, s, o);
      assert t.history.failed == t.history.(taken := s.history.taken).failed;
    } else {
      RunOnceRecords(c, s, o, id);
    }
  }

  lemma RunOnceRecords(c: Config, s: State, o: Oracle, id: Id)
    requires PollAllowed(c, s, o) && (id in s.history.failed ==> Recorded(s, id)) && !IsVisit(s.poll.pc) && !IsAdmission(s.poll.pc)
    ensures var t := RunOnceStep(c, s, o); id in t.history.failed ==> Recorded(t, id)
  {}

  lemma DrainRecords(s: State, d: nat, o: Oracle, id: Id)
    requires Tidy(s) && DrainAllowed(s, d, o) && (id in s.history.failed ==> Recorded(s, id))
    ensures var t := DrainStep(s, d, o); id in t.history.failed ==> Recorded(t, id)
  {
    var t, me := DrainStep(s, d, o), s.drains[d];
    DrainStaysTidy(s.shared, me, o);
    DrainKeepsErrors(s.shared, me, o, id);
    assert t.drains[d] == DrainNext(s.shared, me, o);
    if InErrors(s.drains, id) {
      var k :| 0 <= k < |s.drains| && NackFailed(id) in s.drains[k].errors;
      assert k != d ==> t.drains[k] == s.drains[k];
    }
  }

  lemma DrainKeepsErrors(sh: Shared, me: Drain, o: Oracle, id: Id)
    requires TidyDrain(me, sh.sticky)
    ensures NackFailed(id) in me.errors ==> NackFailed(id) in DrainNext(sh, me, o).errors
    ensures Nacks(me) && o.id == id && o.answer == Failed ==> NackFailed(id) in DrainNext(sh, me, o).errors
  {}

  lemma StartRecords(s: State, id: Id)
    requires Recorded(s, id)
    ensures Recorded(s.(drains := s.drains + [Drain(Called, false, {}, {}, {})]), id)
  {
    if InErrors(s.drains, id) {
      var k :| 0 <= k < |s.drains| && NackFailed(id) in s.drains[k].errors;
      assert (s.drains + [Drain(Called, false, {}, {}, {})])[k] == s.drains[k];
    }
  }

  lemma StepRecords(c: Config, s: State, a: Action)
    requires Fronted(s) && Tidy(s) && FailuresRecorded(s) && Allowed(c, s, a)
    ensures FailuresRecorded(Apply(c, s, a))
  {
    var t := Apply(c, s, a);
    forall id | id in t.history.failed ensures Recorded(t, id) {
      match a
      case PollMoves(o) => PollRecords(c, s, o, id);
      case GoMoves(i) => GoKeepsSticky(c, s.shared, s.goroutines[i]);
      case DrainMoves(d, o) => DrainRecords(s, d, o, id);
      case DrainStarts => StartRecords(s, id);
    }
  }

  // ----- the main results ----------------------------------------------------------------------------

  /** Event conservation: at every moment of every run, each claimed id is in the loop's hands, pending, in
      flight or in a drain's hands, or its latest claim has ended: it was handed to a settlement call, given
      back, disowned by the source, abandoned as expired, or its Nack failed and that failure is recorded. */
  lemma {:induction false} NoEventVanishes(c: Config, run: seq<State>, actions: seq<Action>, k: nat)
    requires IsRun(c, run, actions) && k < |run|
    ensures Conserved(run[k]) && FailuresRecorded(run[k])
  {
    if k > 0 {
      NoEventVanishes(c, run, actions, k - 1);
      RunIsFronted(c, run, actions, k - 1);
      RunIsTidy(c, run, actions, k - 1);
      StepConserves(c, run[k - 1], actions[k - 1]);
      StepRecords(c, run[k - 1], actions[k - 1]);
    }
  }

  predicate AtRest(s: State) {
    && s.poll.pc.Idle? && (forall g :: g in s.goroutines ==> g.pc.Gone?) && (forall d :: d in s.drains ==> d.pc.Returned?)
  }

  /** Once every thread is done, the latest claim of each claimed id is over, or the id is still pending, or
      its Nack failed and the failure stands in the error every later drain reports. */
  lemma AtRestEveryEventIsAccountedFor(c: Config, run: seq<State>, actions: seq<Action>, k: nat, id: Id)
    requires IsRun(c, run, actions) && k < |run| && AtRest(run[k]) && id in run[k].history.claimed
    ensures || Over(run[k].history, id) || id in Ids(run[k].shared.pending)
            || (id in run[k].history.failed && NackFailed(id) in run[k].shared.sticky)
  {
    NoEventVanishes(c, run, actions, k);
    RunIsFronted(c, run, actions, k);
    RunIsTidy(c, run, actions, k);
    NoIds(run[k].poll.hands);
  }
}
