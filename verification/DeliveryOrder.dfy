/** What the poll loop keeps: the event it visits is the front of its queue, and each listener's
    events are taken in the order the source handed them out. */
module DeliveryOrder {
  import opened DeliveryState
  import opened DeliveryProtocol

  predicate IsVisiting(pc: PollAt) {
    || pc.Admitting? || pc.Sizing? || pc.AcquiringGlobal? || pc.AcquiringListener? || pc.ReleasingGlobal?
    || pc.Counting? || pc.Tracking? || pc.Uncounting? || pc.UnwindingGlobal? || pc.UnwindingListener?
    || pc.Spawning? || pc.DroppingUnknownHold? || pc.SettlingUnknown?
  }

  /** The loop holds a batch, or it holds nothing and what it retained is pending. */
  predicate Fronted(s: State) {
    && Grouped(s.poll.hands) && Grouped(s.shared.pending)
    && (IsVisiting(s.poll.pc) ==>
          var q := Queue(s.poll.hands, s.poll.current.listener); q != [] && q[0] == s.poll.current)
    && (s.poll.pc.Idle? || s.poll.pc.Taking? || s.poll.pc.Nacking? || s.poll.pc.Noting? ==> AllEmpty(s.poll.hands))
    && (!s.poll.pc.Idle? && !s.poll.pc.Taking? ==> AllEmpty(s.shared.pending))
  }

  lemma PoppedIsGrouped(q: Queues, listener: Name)
    requires Grouped(q) && Queue(q, listener) != []
    ensures Grouped(Popped(q, listener))
  {
    var p := Popped(q, listener);
    forall l: Name, e: Event | l in p && e in p[l] ensures e.listener == l {
      assert e in q[l];
    }
  }

  lemma KeptIsGrouped(q: Queues, dropped: set<nat>)
    requires Grouped(q)
    ensures Grouped(Kept(q, dropped))
  {
    var k := Kept(q, dropped);
    forall l: Name, e: Event | l in k && e in k[l] ensures e.listener == l {
      MembersOfWithout(q[l], dropped);
      assert e in q[l];
    }
  }

  lemma AppendedIsGrouped(p: Queues, q: Queues)
    requires Grouped(p) && Grouped(q)
    ensures Grouped(Appended(p, q))
  {
    var r := Appended(p, q);
    forall l: Name, e: Event | l in r && e in r[l] ensures e.listener == l {
      assert e in Queue(p, l) || e in Queue(q, l);
    }
  }

  lemma PollKeepsFronted(c: Config, s: State, o: Oracle)
    requires Fronted(s) && Allowed(c, s, PollMoves(o))
    ensures Fronted(PollStep(c, s, o))
  {
    if IsAdmission(s.poll.pc) {
      AdmissionKeepsQueues(c, s);
    } else if IsVisit(s.poll.pc) {
      VisitKeepsFronted(c, s, o);
    } else {
      RunOnceKeepsFronted(c, s, o);
    }
  }

  lemma AdmissionKeepsQueues(c: Config, s: State)
    requires IsAdmission(s.poll.pc)
    ensures var t := AdmissionStep(c, s);
            && t.poll == s.poll.(pc := t.poll.pc) && t.shared.pending == s.shared.pending
            && (IsVisiting(t.poll.pc) || t.poll.pc.Dispatching?)
            && t.history == s.history && t.goroutines == s.goroutines && t.drains == s.drains
  {
    AdmissionKeepsPending(c, s.shared, s.poll.current, s.poll.pc);
  }

  lemma AdmissionKeepsPending(c: Config, sh: Shared, e: Event, pc: PollAt)
    ensures AdmissionShared(c, sh, e, pc).pending == sh.pending
    ensures IsAdmission(pc) ==> var pc' := AdmissionNext(c, sh, e, pc); IsVisiting(pc') || pc'.Dispatching?
  {
    match pc
    case AcquiringGlobal =>
    case AcquiringListener =>
    case ReleasingGlobal =>
    case Counting =>
    case Tracking =>
    case Uncounting =>
    case UnwindingGlobal =>
    case UnwindingListener =>
    case _ =>
  }

  lemma VisitKeepsFronted(c: Config, s: State, o: Oracle)
    requires Fronted(s) && PollAllowed(c, s, o) && IsVisit(s.poll.pc)
    ensures Fronted(VisitStep(c, s, o))
  {
    if VisitTakes(s, o) {
      PoppedIsGrouped(s.poll.hands, s.poll.current.listener);
    } else if s.poll.pc.Dispatching? && !o.flag {
      assert Queue(s.poll.hands, o.listener)[0] in s.poll.hands[o.listener];
    }
  }

  /** The steps that hand the current event over. */
  predicate VisitTakes(s: State, o: Oracle) {
    (s.poll.pc.Sizing? && o.flag) || s.poll.pc.Spawning? || s.poll.pc.SettlingUnknown?
  }

  lemma RunOnceKeepsFronted(c: Config, s: State, o: Oracle)
    requires Fronted(s) && PollAllowed(c, s, o) && !IsVisit(s.poll.pc) && !IsAdmission(s.poll.pc)
    ensures Fronted(RunOnceStep(c, s, o))
  {
    RunOnceKeepsGrouped(c, s, o);
  }

  lemma RunOnceKeepsGrouped(c: Config, s: State, o: Oracle)
    requires Grouped(s.poll.hands) && Grouped(s.shared.pending) && PollAllowed(c, s, o)
    ensures var t := RunOnceStep(c, s, o); Grouped(t.poll.hands) && Grouped(t.shared.pending)
  {
    match s.poll.pc
    case Dropping => KeptIsGrouped(s.poll.hands, o.dropped);
    case Claiming => MembersOfJoined(s.poll.hands, o.events);
    case Storing => AppendedIsGrouped(s.shared.pending, s.poll.hands);
    case _ =>
  }

  /** A goroutine never touches a queue, and a drain can only empty the pending ones. */
  lemma OthersMoveNothing(c: Config, s: State, a: Action)
    requires Allowed(c, s, a) && !a.PollMoves?
    ensures var t := Apply(c, s, a);
            && t.poll == s.poll && t.history.taken == s.history.taken && t.history.tags == s.history.tags
            && (t.shared.pending == s.shared.pending || t.shared.pending == map[])
  {
    match a
    case GoMoves(i) => GoKeepsPending(c, s.shared, s.goroutines[i]);
    case DrainMoves(d, o) => DrainMayEmptyPending(s.shared, s.drains[d]);
    case DrainStarts =>
  }

  lemma GoKeepsPending(c: Config, sh: Shared, g: Goroutine)
    ensures GoShared(c, sh, g).pending == sh.pending
  {}

  lemma DrainMayEmptyPending(sh: Shared, me: Drain)
    ensures DrainShared(sh, me).pending == sh.pending || DrainShared(sh, me).pending == map[]
  {}

  lemma StepKeepsFronted(c: Config, s: State, a: Action)
    requires Fronted(s) && Allowed(c, s, a)
    ensures Fronted(Apply(c, s, a))
  {
    if a.PollMoves? {
      PollKeepsFronted(c, s, a.o);
    } else {
      OthersMoveNothing(c, s, a);
    }
  }

  lemma {:induction false} RunIsFronted(c: Config, run: seq<State>, actions: seq<Action>, k: nat)
    requires IsRun(c, run, actions) && k < |run|
    ensures Fronted(run[k])
  {
    if k > 0 {
      RunIsFronted(c, run, actions, k - 1);
      StepKeepsFronted(c, run[k - 1], actions[k - 1]);
    }
  }

  // ----- claim order -------------------------------------------------------------------------------

  predicate Increasing(events: seq<Event>) {
    forall i, j :: 0 <= i < j < |events| ==> events[i].tag < events[j].tag
  }

  predicate Below(events: seq<Event>, tags: nat) {
    forall i :: 0 <= i < |events| ==> events[i].tag < tags
  }

  /** One listener's events: those taken, those in the loop's hands, those pending. */
  function Line(s: State, listener: Name): seq<Event> {
    Queue(s.history.taken, listener) + Queue(s.poll.hands, listener) + Queue(s.shared.pending, listener)
  }

  predicate InOrder(events: seq<Event>, tags: nat) {
    Increasing(events) && Below(events, tags)
  }

  ghost predicate Ordered(s: State) {
    forall l :: InOrder(Line(s, l), s.history.tags)
  }

  lemma SkippingIsInOrder(before: seq<Event>, e: Event, after: seq<Event>, tags: nat)
    requires InOrder(before + ([e] + after), tags)
    ensures InOrder(before + after, tags)
  {
    var all, rest := before + ([e] + after), before + after;
    forall i | 0 <= i < |rest| ensures rest[i] == all[if i < |before| then i else i + 1] {}
  }

  lemma {:induction false} WithoutIsInOrder(before: seq<Event>, events: seq<Event>, dropped: set<nat>, tags: nat)
    requires InOrder(before + events, tags)
    ensures InOrder(before + Without(events, dropped), tags)
    decreases |events|
  {
    if events != [] {
      var e, rest := events[0], events[1..];
      assert events == [e] + rest;
      if e.tag in dropped {
        SkippingIsInOrder(before, e, rest, tags);
        WithoutIsInOrder(before, rest, dropped, tags);
        assert Without(events, dropped) == Without(rest, dropped);
      } else {
        assert before + events == (before + [e]) + rest;
        WithoutIsInOrder(before + [e], rest, dropped, tags);
        assert before + Without(events, dropped) == (before + [e]) + Without(rest, dropped);
      }
    }
  }

  lemma {:induction false} ClaimIsInOrder(line: seq<Event>, events: seq<Event>, listener: Name, tags: nat)
    requires InOrder(line, tags) && forall k :: 0 <= k < |events| ==> events[k].tag == tags + k
    ensures InOrder(line + Of(events, listener), tags + |events|)
    decreases |events|
  {
    if events == [] {
      assert line + [] == line;
    } else if events[0].listener == listener {
      ClaimIsInOrder(line + [events[0]], events[1..], listener, tags + 1);
      assert line + Of(events, listener) == (line + [events[0]]) + Of(events[1..], listener);
    } else {
      ClaimIsInOrder(line, events[1..], listener, tags + 1);
      assert Of(events, listener) == Of(events[1..], listener);
    }
  }

  lemma PrefixIsInOrder(events: seq<Event>, rest: seq<Event>, tags: nat)
    requires InOrder(events + rest, tags)
    ensures InOrder(events, tags)
  {
    assert forall i :: 0 <= i < |events| ==> events[i] == (events + rest)[i];
  }

  /** Taking the front of a queue leaves its listener's line as it is. */
  lemma TakingKeepsLines(s: State, pc: PollAt, l: Name)
    requires Fronted(s) && IsVisiting(s.poll.pc)
    ensures Line(Took(s, pc), l) == Line(s, l)
  {
    if l == s.poll.current.listener {
      var q := s.poll.hands[l];
      assert q == [q[0]] + q[1..];
      var t := Queue(s.history.taken, l);
      assert (t + [q[0]]) + q[1..] == t + q;
    }
  }

  lemma VisitKeepsLines(c: Config, s: State, o: Oracle, l: Name)
    requires Fronted(s) && PollAllowed(c, s, o) && IsVisit(s.poll.pc)
    ensures Line(VisitStep(c, s, o), l) == Line(s, l)
    ensures VisitStep(c, s, o).history.tags == s.history.tags
  {
    if VisitTakes(s, o) {
      TakingKeepsLines(s, DroppingHold, l);
    }
  }

  lemma DroppingKeepsOrder(s: State, t: State, dropped: set<nat>, l: Name)
    requires AllEmpty(s.shared.pending) && InOrder(Line(s, l), s.history.tags)
    requires t.poll.hands == Kept(s.poll.hands, dropped) && t.shared.pending == s.shared.pending
    requires t.history.taken == s.history.taken && t.history.tags == s.history.tags
    ensures InOrder(Line(t, l), t.history.tags)
  {
    var taken, hands := Queue(s.history.taken, l), Queue(s.poll.hands, l);
    assert Line(s, l) == taken + hands;
    WithoutIsInOrder(taken, hands, dropped, s.history.tags);
    assert Line(t, l) == taken + Without(hands, dropped);
  }

  lemma ClaimingKeepsOrder(s: State, t: State, events: seq<Event>, l: Name)
    requires AllEmpty(s.shared.pending) && InOrder(Line(s, l), s.history.tags) && FreshlyTagged(s, events)
    requires t.poll.hands == Joined(s.poll.hands, events) && t.shared.pending == s.shared.pending
    requires t.history.taken == s.history.taken && t.history.tags == s.history.tags + |events|
    ensures InOrder(Line(t, l), t.history.tags)
  {
    ClaimIsInOrder(Line(s, l), events, l, s.history.tags);
    QueueOfJoined(s.poll.hands, events, l);
    Regrouped(Queue(s.history.taken, l), Queue(s.poll.hands, l), Of(events, l));
  }

  lemma Regrouped(a: seq<Event>, b: seq<Event>, c: seq<Event>)
    ensures a + b + [] + c == a + (b + c) + []
  {}

  /** A step that moves a whole queue, or gives it away, keeps a front part of each line. */
  lemma MovingKeepsOrder(s: State, t: State, l: Name)
    requires InOrder(Line(s, l), s.history.tags)
    requires t.history.taken == s.history.taken && t.history.tags == s.history.tags
    requires var hands, pending := Queue(s.poll.hands, l), Queue(s.shared.pending, l);
             var hands', pending' := Queue(t.poll.hands, l), Queue(t.shared.pending, l);
             || (hands' == hands && (pending' == pending || pending' == []))
             || (hands == [] && hands' == pending && pending' == [])
             || (pending == [] && hands' == [] && (pending' == hands || pending' == []))
    ensures InOrder(Line(t, l), t.history.tags)
  {
    var taken, hands, pending := Queue(s.history.taken, l), Queue(s.poll.hands, l), Queue(s.shared.pending, l);
    assert Line(t, l) <= Line(s, l);
    assert Line(s, l) == Line(t, l) + Line(s, l)[|Line(t, l)|..];
    PrefixIsInOrder(Line(t, l), Line(s, l)[|Line(t, l)|..], s.history.tags);
  }

  lemma RunOnceMoves(c: Config, s: State, o: Oracle)
    requires Fronted(s) && PollAllowed(c, s, o) && !IsVisit(s.poll.pc) && !IsAdmission(s.poll.pc)
    requires !s.poll.pc.Dropping? && !(s.poll.pc.Claiming? && o.flag)
    ensures var t := RunOnceStep(c, s, o);
            && t.history.taken == s.history.taken && t.history.tags == s.history.tags
            && (|| (t.poll.hands == s.poll.hands && t.shared.pending == s.shared.pending)
                || (AllEmpty(s.poll.hands) && t.poll.hands == s.shared.pending && t.shared.pending == map[])
                || (AllEmpty(s.shared.pending) && t.poll.hands == map[] &&
                    (t.shared.pending == s.shared.pending || t.shared.pending == Appended(s.shared.pending, s.poll.hands))))
  {}

  lemma RunOnceKeepsOrder(c: Config, s: State, o: Oracle, l: Name)
    requires Fronted(s) && PollAllowed(c, s, o) && !IsVisit(s.poll.pc) && !IsAdmission(s.poll.pc)
    requires InOrder(Line(s, l), s.history.tags)
    ensures var t := RunOnceStep(c, s, o); InOrder(Line(t, l), t.history.tags)
  {
    var t := RunOnceStep(c, s, o);
    if s.poll.pc.Dropping? {
      DroppingKeepsOrder(s, t, o.dropped, l);
    } else if s.poll.pc.Claiming? && o.flag {
      ClaimingKeepsOrder(s, t, o.events, l);
    } else {
      RunOnceMoves(c, s, o);
      MovingKeepsOrder(s, t, l);
    }
  }

  lemma PollKeepsOrder(c: Config, s: State, o: Oracle, l: Name)
    requires Fronted(s) && PollAllowed(c, s, o) && InOrder(Line(s, l), s.history.tags)
    ensures var t := PollStep(c, s, o); InOrder(Line(t, l), t.history.tags)
  {
    if IsAdmission(s.poll.pc) {
      AdmissionKeepsQueues(c, s);
    } else if IsVisit(s.poll.pc) {
      VisitKeepsLines(c, s, o, l);
    } else {
      RunOnceKeepsOrder(c, s, o, l);
    }
  }

  lemma StepKeepsOrder(c: Config, s: State, a: Action)
    requires Fronted(s) && Ordered(s) && Allowed(c, s, a)
    ensures Ordered(Apply(c, s, a))
  {
    var t := Apply(c, s, a);
    if a.PollMoves? {
      forall l ensures InOrder(Line(t, l), t.history.tags) {
        PollKeepsOrder(c, s, a.o, l);
      }
    } else {
      OthersMoveNothing(c, s, a);
      forall l ensures InOrder(Line(t, l), t.history.tags) {
        MovingKeepsOrder(s, t, l);
      }
    }
  }

  lemma {:induction false} RunIsOrdered(c: Config, run: seq<State>, actions: seq<Action>, k: nat)
    requires IsRun(c, run, actions) && k < |run|
    ensures Ordered(run[k])
  {
    if k > 0 {
      RunIsOrdered(c, run, actions, k - 1);
      RunIsFronted(c, run, actions, k - 1);
      StepKeepsOrder(c, run[k - 1], actions[k - 1]);
    }
  }

  /** In every reachable state a listener's events have been taken in the order they were claimed,
      and none still with the worker was claimed before one that was taken. */
  lemma EventsAreTakenInClaimOrder(c: Config, run: seq<State>, actions: seq<Action>, k: nat, listener: Name)
    requires IsRun(c, run, actions) && k < |run|
    ensures Increasing(Queue(run[k].history.taken, listener))
    ensures forall e, later :: e in Queue(run[k].history.taken, listener)
              && (later in Queue(run[k].poll.hands, listener) || later in Queue(run[k].shared.pending, listener))
              ==> e.tag < later.tag
  {
    RunIsOrdered(c, run, actions, k);
    var s := run[k];
    var taken, rest := Queue(s.history.taken, listener), Queue(s.poll.hands, listener) + Queue(s.shared.pending, listener);
    assert Line(s, listener) == taken + rest;
    assert InOrder(taken + rest, s.history.tags);
    PrefixIsInOrder(taken, rest, s.history.tags);
    forall e, later | e in taken && later in rest ensures e.tag < later.tag {
      var i :| 0 <= i < |taken| && taken[i] == e;
      var j :| 0 <= j < |rest| && rest[j] == later;
      assert (taken + rest)[i] == e && (taken + rest)[|taken| + j] == later;
    }
  }

  /** tryDispatch and consumeUnknown are only ever reached with the event at the front of its queue:
      asking for it excludes no run. */
  lemma TheCurrentEventIsTheFront(c: Config, run: seq<State>, actions: seq<Action>, k: nat)
    requires IsRun(c, run, actions) && k < |run|
    ensures VisitsFront(run[k])
    ensures IsVisiting(run[k].poll.pc) ==>
              var q := Queue(run[k].poll.hands, run[k].poll.current.listener); q != [] && q[0] == run[k].poll.current
  {
    RunIsFronted(c, run, actions, k);
  }
}
