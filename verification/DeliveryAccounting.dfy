/** Slot accounting: in every reachable state each counter of the worker stands at exactly the number
    of threads that owe it a release. */
module DeliveryAccounting {
  import opened DeliveryState
  import opened DeliveryProtocol

  /** What a thread can hold: a slot of a semaphore, or an entry of a count it will take back. */
  datatype Role = GlobalSlot | ListenerSlot(listener: Name) | TrackedAs(id: Id) | InFlightAs(id: Id) | Running

  function Resource(sh: Shared, role: Role): nat {
    match role
    case GlobalSlot => sh.global
    case ListenerSlot(listener) => Slots(sh.slots, listener)
    case TrackedAs(id) => sh.tracked[id]
    case InFlightAs(id) => sh.inFlight[id]
    case Running => sh.running
  }

  predicate Plays(g: Goroutine, role: Role) {
    match role
    case GlobalSlot => !g.pc.Gone?
    case ListenerSlot(listener) => g.event.listener == listener && !g.pc.ListenerFreed? && !g.pc.Gone?
    case TrackedAs(id) => g.event.id == id && (g.pc.Delivering? || g.pc.Settled?)
    case InFlightAs(id) => g.event.id == id && (g.pc.Delivering? || g.pc.Settled? || g.pc.Untracked?)
    case Running => (g.pc.Delivering? || g.pc.Settled? || g.pc.Untracked? || g.pc.Finished?)
  }

  predicate PollPlays(p: Poll, role: Role) {
    match role
    case GlobalSlot =>
      (p.pc.AcquiringListener? || p.pc.ReleasingGlobal? || p.pc.Counting? || p.pc.Tracking? || p.pc.Uncounting? || p.pc.UnwindingGlobal? || p.pc.Spawning?)
    case ListenerSlot(listener) =>
      p.current.listener == listener && (p.pc.Counting? || p.pc.Tracking? || p.pc.Uncounting? || p.pc.UnwindingGlobal? || p.pc.UnwindingListener? || p.pc.Spawning?)
    case TrackedAs(id) => p.current.id == id && p.pc == Spawning
    case InFlightAs(id) => p.current.id == id && (p.pc.Tracking? || p.pc.Uncounting? || p.pc.Spawning?)
    case Running => p.pc == Spawning
  }

  function One(b: bool): nat {
    if b then 1 else 0
  }

  /** How many goroutines hold it. */
  function Holders(gs: seq<Goroutine>, role: Role): nat {
    if gs == [] then 0 else One(Plays(gs[|gs| - 1], role)) + Holders(gs[..|gs| - 1], role)
  }

  predicate Counted(c: Config, role: Role) {
    role.ListenerSlot? ==> role.listener in c.caps
  }

  ghost predicate Accounted(c: Config, s: State) {
    && (forall role :: Counted(c, role) ==>
          Resource(s.shared, role) == Holders(s.goroutines, role) + One(PollPlays(s.poll, role)))
    && s.shared.global <= c.globalCap
    && forall l :: l in c.caps ==> Slots(s.shared.slots, l) <= c.caps[l]
  }

  // ----- counting ----------------------------------------------------------------------------------

  lemma {:induction false} HoldersAfterMove(gs: seq<Goroutine>, i: nat, g: Goroutine, role: Role)
    requires i < |gs|
    ensures Holders(gs[i := g], role) + One(Plays(gs[i], role)) == Holders(gs, role) + One(Plays(g, role))
    decreases |gs|
  {
    var last, moved := |gs| - 1, gs[i := g];
    if i < last {
      HoldersAfterMove(gs[..last], i, g, role);
      assert moved[..last] == gs[..last][i := g];
    } else {
      assert moved[..last] == gs[..last];
    }
  }

  lemma HoldersAfterSpawn(gs: seq<Goroutine>, g: Goroutine, role: Role)
    ensures Holders(gs + [g], role) == Holders(gs, role) + One(Plays(g, role))
  {
    assert (gs + [g])[..|gs|] == gs;
  }

  lemma {:induction false} SomeHolder(gs: seq<Goroutine>, i: nat, role: Role)
    requires i < |gs| && Plays(gs[i], role)
    ensures Holders(gs, role) >= 1
    decreases |gs|
  {
    if i < |gs| - 1 {
      SomeHolder(gs[..|gs| - 1], i, role);
    }
  }

  lemma {:induction false} NoHolder(gs: seq<Goroutine>, role: Role)
    requires forall g :: g in gs ==> !Plays(g, role)
    ensures Holders(gs, role) == 0
    decreases |gs|
  {
    if gs != [] {
      NoHolder(gs[..|gs| - 1], role);
    }
  }

  predicate NoAdmission(p: Poll) {
    (!p.pc.AcquiringListener? && !p.pc.ReleasingGlobal? && !p.pc.Counting? && !p.pc.Tracking? && !p.pc.Uncounting? && !p.pc.UnwindingGlobal? && !p.pc.UnwindingListener? && !p.pc.Spawning?)
  }

  // ----- every step keeps the books ----------------------------------------------------------------

  /** What tryDispatch does to a count is what it does to the loop's own holding. */
  lemma AdmissionMovesResource(c: Config, sh: Shared, p: Poll, role: Role)
    requires IsAdmission(p.pc) && Counted(c, role) && Resource(sh, role) >= One(PollPlays(p, role))
    ensures Resource(AdmissionShared(c, sh, p.current, p.pc), role) + One(PollPlays(p, role)) ==
            Resource(sh, role) + One(PollPlays(p.(pc := AdmissionNext(c, sh, p.current, p.pc)), role))
  {
    if role.TrackedAs? {
      AdmissionMovesTracked(c, sh, p, role);
    } else if role.InFlightAs? {
      AdmissionMovesInFlight(c, sh, p, role);
    } else {
      AdmissionMovesSlot(c, sh, p, role);
    }
  }

  lemma AdmissionMovesSlot(c: Config, sh: Shared, p: Poll, role: Role)
    requires IsAdmission(p.pc) && Counted(c, role) && Resource(sh, role) >= One(PollPlays(p, role))
    requires !role.TrackedAs? && !role.InFlightAs?
    ensures Resource(AdmissionShared(c, sh, p.current, p.pc), role) + One(PollPlays(p, role)) ==
            Resource(sh, role) + One(PollPlays(p.(pc := AdmissionNext(c, sh, p.current, p.pc)), role))
  {}

  lemma AdmissionMovesTracked(c: Config, sh: Shared, p: Poll, role: Role)
    requires IsAdmission(p.pc) && Resource(sh, role) >= One(PollPlays(p, role))
    requires role.TrackedAs?
    ensures Resource(AdmissionShared(c, sh, p.current, p.pc), role) + One(PollPlays(p, role)) ==
            Resource(sh, role) + One(PollPlays(p.(pc := AdmissionNext(c, sh, p.current, p.pc)), role))
  {}

  lemma AdmissionMovesInFlight(c: Config, sh: Shared, p: Poll, role: Role)
    requires IsAdmission(p.pc) && Resource(sh, role) >= One(PollPlays(p, role))
    requires role.InFlightAs?
    ensures Resource(AdmissionShared(c, sh, p.current, p.pc), role) + One(PollPlays(p, role)) ==
            Resource(sh, role) + One(PollPlays(p.(pc := AdmissionNext(c, sh, p.current, p.pc)), role))
  {}

  predicate SameCounts(sh: Shared, sh': Shared) {
    && sh.global == sh'.global && sh.slots == sh'.slots && sh.tracked == sh'.tracked
    && sh.inFlight == sh'.inFlight && sh.running == sh'.running
  }

  lemma VisitKeepsCounts(c: Config, s: State, o: Oracle)
    requires PollAllowed(c, s, o) && VisitsFront(s) && IsVisit(s.poll.pc)
    ensures var t := VisitStep(c, s, o);
            && SameCounts(s.shared, t.shared) && NoAdmission(t.poll)
            && (!s.poll.pc.Spawning? ==> t.goroutines == s.goroutines)
  {}

  lemma RunOnceKeepsCounts(c: Config, s: State, o: Oracle)
    requires PollAllowed(c, s, o) && !IsVisit(s.poll.pc) && !IsAdmission(s.poll.pc)
    ensures var t := RunOnceStep(c, s, o);
            SameCounts(s.shared, t.shared) && NoAdmission(t.poll) && t.goroutines == s.goroutines
  {}

  lemma PollKeepsRole(c: Config, s: State, o: Oracle, role: Role)
    requires Allowed(c, s, PollMoves(o)) && Counted(c, role)
    requires Resource(s.shared, role) == Holders(s.goroutines, role) + One(PollPlays(s.poll, role))
    ensures var t := PollStep(c, s, o);
            Resource(t.shared, role) == Holders(t.goroutines, role) + One(PollPlays(t.poll, role))
  {
    if IsAdmission(s.poll.pc) {
      AdmissionMovesResource(c, s.shared, s.poll, role);
    } else if IsVisit(s.poll.pc) {
      VisitKeepsRole(c, s, o, role);
    } else {
      RunOnceKeepsCounts(c, s, o);
    }
  }

  lemma VisitKeepsRole(c: Config, s: State, o: Oracle, role: Role)
    requires PollAllowed(c, s, o) && VisitsFront(s) && IsVisit(s.poll.pc)
    requires Resource(s.shared, role) == Holders(s.goroutines, role) + One(PollPlays(s.poll, role))
    ensures var t := VisitStep(c, s, o);
            Resource(t.shared, role) == Holders(t.goroutines, role) + One(PollPlays(t.poll, role))
  {
    VisitKeepsCounts(c, s, o);
    var t := VisitStep(c, s, o);
    SameResource(s.shared, t.shared, role);
    if s.poll.pc.Spawning? {
      var g := Goroutine(Delivering, s.poll.current);
      assert t.goroutines == s.goroutines + [g];
      HoldersAfterSpawn(s.goroutines, g, role);
      HandedOver(s.poll, g, role);
    }
    HoldsNothing(t.poll, role);
  }

  lemma SameResource(sh: Shared, sh': Shared, role: Role)
    requires SameCounts(sh, sh')
    ensures Resource(sh, role) == Resource(sh', role)
  {}

  lemma HandedOver(p: Poll, g: Goroutine, role: Role)
    requires p.pc.Spawning? && g == Goroutine(Delivering, p.current)
    ensures PollPlays(p, role) == Plays(g, role)
  {}

  lemma HoldsNothing(p: Poll, role: Role)
    requires NoAdmission(p)
    ensures !PollPlays(p, role)
  {}

  lemma PollKeepsCaps(c: Config, s: State, o: Oracle)
    requires Accounted(c, s) && Allowed(c, s, PollMoves(o))
    ensures var t := PollStep(c, s, o);
            t.shared.global <= c.globalCap && forall l :: l in c.caps ==> Slots(t.shared.slots, l) <= c.caps[l]
  {
    if IsVisit(s.poll.pc) {
      VisitKeepsCounts(c, s, o);
    } else if !IsAdmission(s.poll.pc) {
      RunOnceKeepsCounts(c, s, o);
    }
  }

  lemma PollKeepsAccounts(c: Config, s: State, o: Oracle)
    requires Accounted(c, s) && Allowed(c, s, PollMoves(o))
    ensures Accounted(c, PollStep(c, s, o))
  {
    var t := PollStep(c, s, o);
    forall role | Counted(c, role)
      ensures Resource(t.shared, role) == Holders(t.goroutines, role) + One(PollPlays(t.poll, role))
    {
      PollKeepsRole(c, s, o, role);
    }
    PollKeepsCaps(c, s, o);
  }

  lemma GoMovesResource(c: Config, sh: Shared, g: Goroutine, role: Role)
    requires Counted(c, role) && Resource(sh, role) >= One(Plays(g, role))
    ensures Resource(GoShared(c, sh, g), role) + One(Plays(g, role)) == Resource(sh, role) + One(Plays(Moved(g), role))
  {
    if role.TrackedAs? {
      GoMovesTracked(c, sh, g, role);
    } else if role.InFlightAs? {
      GoMovesInFlight(c, sh, g, role);
    } else {
      GoMovesSlot(c, sh, g, role);
    }
  }

  lemma GoMovesSlot(c: Config, sh: Shared, g: Goroutine, role: Role)
    requires Counted(c, role) && Resource(sh, role) >= One(Plays(g, role)) && !role.TrackedAs? && !role.InFlightAs?
    ensures Resource(GoShared(c, sh, g), role) + One(Plays(g, role)) == Resource(sh, role) + One(Plays(Moved(g), role))
  {}

  lemma GoMovesTracked(c: Config, sh: Shared, g: Goroutine, role: Role)
    requires Resource(sh, role) >= One(Plays(g, role)) && role.TrackedAs?
    ensures Resource(GoShared(c, sh, g), role) + One(Plays(g, role)) == Resource(sh, role) + One(Plays(Moved(g), role))
  {}

  lemma GoMovesInFlight(c: Config, sh: Shared, g: Goroutine, role: Role)
    requires Resource(sh, role) >= One(Plays(g, role)) && role.InFlightAs?
    ensures Resource(GoShared(c, sh, g), role) + One(Plays(g, role)) == Resource(sh, role) + One(Plays(Moved(g), role))
  {}

  lemma GoKeepsAccounts(c: Config, s: State, i: nat)
    requires Accounted(c, s) && i < |s.goroutines|
    ensures Accounted(c, GoStep(c, s, i))
  {
    var t := GoStep(c, s, i);
    forall role | Counted(c, role)
      ensures Resource(t.shared, role) == Holders(t.goroutines, role) + One(PollPlays(t.poll, role))
    {
      if Plays(s.goroutines[i], role) {
        SomeHolder(s.goroutines, i, role);
      }
      GoMovesResource(c, s.shared, s.goroutines[i], role);
      HoldersAfterMove(s.goroutines, i, Moved(s.goroutines[i]), role);
    }
  }

  lemma DrainKeepsAccounts(c: Config, s: State, d: nat, o: Oracle)
    requires Accounted(c, s) && DrainAllowed(s, d, o)
    ensures Accounted(c, DrainStep(s, d, o))
  {
    var t := DrainStep(s, d, o);
    forall role ensures Resource(t.shared, role) == Resource(s.shared, role) {}
  }

  lemma {:induction false} RunIsAccounted(c: Config, run: seq<State>, actions: seq<Action>, k: nat)
    requires IsRun(c, run, actions) && k < |run|
    ensures Accounted(c, run[k])
  {
    if k > 0 {
      RunIsAccounted(c, run, actions, k - 1);
      match actions[k - 1]
      case PollMoves(o) => PollKeepsAccounts(c, run[k - 1], o);
      case GoMoves(i) => GoKeepsAccounts(c, run[k - 1], i);
      case DrainStarts =>
      case DrainMoves(d, o) => DrainKeepsAccounts(c, run[k - 1], d, o);
    }
  }

  // ----- what that gives ---------------------------------------------------------------------------

  /** Whether the step takes something back: a slot from a semaphore, or an entry from a count. */
  predicate Releases(s: State, a: Action, role: Role) {
    match a
    case PollMoves(_) =>
      && PollPlays(s.poll, role)
      && (match s.poll.pc
          case ReleasingGlobal | UnwindingGlobal => role == GlobalSlot
          case UnwindingListener => role.ListenerSlot?
          case Uncounting => role.InFlightAs?
          case _ => false)
    case GoMoves(i) => i < |s.goroutines| && Plays(s.goroutines[i], role) &&
                       !Plays(Moved(s.goroutines[i]), role)
    case _ => false
  }

  /** No release ever finds its semaphore empty or its count at zero: the arm of `release` that
      ignores a double release is never taken, and the WaitGroup never goes negative. */
  lemma NoReleaseIsIgnored(c: Config, run: seq<State>, actions: seq<Action>, k: nat, role: Role)
    requires IsRun(c, run, actions) && k < |actions| && Counted(c, role) && Releases(run[k], actions[k], role)
    ensures Resource(run[k].shared, role) >= 1
    ensures Resource(run[k + 1].shared, role) == Resource(run[k].shared, role) - 1
  {
    RunIsAccounted(c, run, actions, k);
    match actions[k]
    case PollMoves(o) => AdmissionMovesResource(c, run[k].shared, run[k].poll, role);
    case GoMoves(i) =>
      SomeHolder(run[k].goroutines, i, role);
      GoMovesResource(c, run[k].shared, run[k].goroutines[i], role);
    case _ =>
  }

  /** When no goroutine is live and the loop is not in the middle of an admission, every slot is
      free and both counts are empty. */
  lemma EverythingIsFreeAtRest(c: Config, run: seq<State>, actions: seq<Action>, k: nat)
    requires IsRun(c, run, actions) && k < |run|
    requires NoAdmission(run[k].poll) && forall g :: g in run[k].goroutines ==> g.pc == Gone
    ensures var sh := run[k].shared;
            && sh.global == 0 && sh.running == 0
            && sh.tracked == multiset{} && sh.inFlight == multiset{}
            && forall l :: l in c.caps ==> Slots(sh.slots, l) == 0
  {
    RunIsAccounted(c, run, actions, k);
    var s := run[k];
    forall role | Counted(c, role) ensures Resource(s.shared, role) == 0 {
      NoHolder(s.goroutines, role);
    }
    forall id ensures s.shared.tracked[id] == 0 && s.shared.inFlight[id] == 0 {
      assert Resource(s.shared, TrackedAs(id)) == 0 && Resource(s.shared, InFlightAs(id)) == 0;
    }
    assert s.shared.tracked == multiset{} && s.shared.inFlight == multiset{};
    assert Resource(s.shared, GlobalSlot) == 0 && Resource(s.shared, Running) == 0;
    assert forall l :: l in c.caps ==> Slots(s.shared.slots, l) == Resource(s.shared, ListenerSlot(l));
  }

  /** At most as many requests are in the air as either cap allows. */
  lemma RequestsStayUnderTheCaps(c: Config, run: seq<State>, actions: seq<Action>, k: nat)
    requires IsRun(c, run, actions) && k < |run|
    ensures Holders(run[k].goroutines, GlobalSlot) <= c.globalCap
    ensures forall l :: l in c.caps ==> Holders(run[k].goroutines, ListenerSlot(l)) <= c.caps[l]
  {
    RunIsAccounted(c, run, actions, k);
    assert Counted(c, GlobalSlot) && Resource(run[k].shared, GlobalSlot) <= c.globalCap;
    forall l | l in c.caps ensures Holders(run[k].goroutines, ListenerSlot(l)) <= c.caps[l] {
      assert Counted(c, ListenerSlot(l)) && Resource(run[k].shared, ListenerSlot(l)) <= c.caps[l];
    }
  }
}
