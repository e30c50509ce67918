/** A run in which a drain reports Clean and leaves a claimed event pending behind it, and what a caller can
    do about it (internal/delivery drain.go, hold.go). */
module DeliverySweep {
  import opened DeliveryState
  import opened DeliveryProtocol
  import opened DeliveryDrain

  const FIRST := Event(1, "orders", 0)
  const SECOND := Event(2, "orders", 1)
  const NONE := Event(0, "", 0)

  /** One request at a time. */
  const ONE_AT_A_TIME := Config(1, map[], {"orders"}, 10)

  const BOTH: Queues := map["orders" := [FIRST, SECOND]]
  const REST: Queues := map["orders" := [SECOND]]

  function Answering(flag: bool, events: seq<Event>): Oracle {
    Oracle(flag, 0, {}, events, "orders", 0, Granted)
  }

  const YES := PollMoves(Answering(true, []))
  const NO := PollMoves(Answering(false, []))
  const DRAINS := DrainMoves(0, Answering(false, []))

  function Loop(pc: PollAt, hands: Queues, current: Event): Poll {
    Poll(pc, hands, current, {}, {})
  }

  // ----- the first event is taken up ---------------------------------------------------------------

  const CLAIMED := History({1, 2}, {}, {}, {}, {}, {}, 2, map[])
  const TAKEN := CLAIMED.(taken := map["orders" := [FIRST]])

  function Counted(inFlight: multiset<Id>, tracked: multiset<Id>): Shared {
    DeliveryState.Idle().(global := 1, inFlight := inFlight, tracked := tracked, running := |tracked|)
  }

  function Taking1(n: nat): State
    requires n <= 14
  {
    var idle, one := DeliveryState.Idle(), Counted(multiset{}, multiset{});
    match n
    case 0 => Initial()
    case 1 => At(Initial(), Taking)
    case 2 => At(Initial(), Dropping)
    case 3 => At(Initial(), Reclaiming)
    case 4 => At(Initial(), Probing)
    case 5 => At(Initial(), Claiming)
    case 6 => State(idle, Loop(Dispatching, BOTH, NONE), [], [], CLAIMED)
    case 7 => State(idle, Loop(Admitting, BOTH, FIRST), [], [], CLAIMED)
    case 8 => State(idle, Loop(Sizing, BOTH, FIRST), [], [], CLAIMED)
    case 9 => State(idle, Loop(AcquiringGlobal, BOTH, FIRST), [], [], CLAIMED)
    case 10 => State(one, Loop(AcquiringListener, BOTH, FIRST), [], [], CLAIMED)
    case 11 => State(one, Loop(Counting, BOTH, FIRST), [], [], CLAIMED)
    case 12 => State(Counted(multiset{1}, multiset{}), Loop(Tracking, BOTH, FIRST), [], [], CLAIMED)
    case 13 => State(Counted(multiset{1}, multiset{1}), Loop(Spawning, BOTH, FIRST), [], [], CLAIMED)
    case _ => State(Counted(multiset{1}, multiset{1}), Loop(DroppingHold, REST, FIRST), [Goroutine(Delivering, FIRST)], [], TAKEN)
  }

  function Move1(n: nat): Action {
    if n == 5 then PollMoves(Answering(true, [FIRST, SECOND])) else if n <= 4 then YES else NO
  }

  predicate Step(s: State, a: Action, t: State) {
    Allowed(ONE_AT_A_TIME, s, a) && Apply(ONE_AT_A_TIME, s, a) == t
  }

  lemma BothAreQueued()
    ensures Joined(map[], [FIRST, SECOND]) == BOTH && Pushed(map[], FIRST) == map["orders" := [FIRST]]
  {
    var none: Queues := map[];
    assert Queue(none, "orders") + [FIRST] == [FIRST];
    var one := Pushed(none, FIRST);
    assert one["orders"] + [SECOND] == [FIRST, SECOND];
    assert Pushed(one, SECOND) == BOTH;
    assert [FIRST, SECOND][1..] == [SECOND] && [SECOND][1..] == [];
    assert Joined(one, [SECOND]) == Joined(Pushed(one, SECOND), []);
  }

  lemma ThePollStarts(n: nat)
    requires n < 5
    ensures Step(Taking1(n), Move1(n), Taking1(n + 1))
  {
    assert Kept(map[], {}) == map[] && DroppedIds(map[], {}) == {};
  }

  lemma ThePollClaims()
    ensures Step(Taking1(5), Move1(5), Taking1(6))
  {
    BothAreQueued();
    assert (set e | e in [FIRST, SECOND] :: e.id) == {1, 2};
  }

  lemma TheFirstIsTaken(n: nat)
    requires 6 <= n < 14
    ensures Step(Taking1(n), Move1(n), Taking1(n + 1))
  {
    BothAreQueued();
    assert Popped(BOTH, "orders") == REST;
  }

  // ----- the second finds no slot, and the drain comes between ------------------------------------

  const GONE := TAKEN.(settled := {1})

  /** The first event's slot stays taken: its goroutine has untracked it and has yet to give the slot back. */
  const UNTRACKED := Counted(multiset{1}, multiset{}).(generation := 1, running := 1)

  function Waiting2(pc: PollAt, current: Event): State {
    State(Counted(multiset{1}, multiset{1}), Loop(pc, REST, current), [Goroutine(Delivering, FIRST)], [], TAKEN)
  }

  function Drained(sh: Shared, poll: Poll, pc: DrainAt): State {
    State(sh.(stopping := true), poll, [Goroutine(Untracked, FIRST)], [Drain(pc, false, {}, {}, {})], GONE)
  }

  const STORED := UNTRACKED.(pending := REST, held := map[2 := 0])
  const WINDOW := Loop(Storing, REST, SECOND)
  const OUT := Loop(PollAt.Idle, map[], SECOND)

  function Draining2(n: nat): State
    requires 14 <= n <= 32
  {
    match n
    case 14 => Waiting2(DroppingHold, FIRST)
    case 15 => Waiting2(Dispatching, FIRST)
    case 16 => Waiting2(Admitting, SECOND)
    case 17 => Waiting2(Sizing, SECOND)
    case 18 => Waiting2(AcquiringGlobal, SECOND)
    case 19 => Waiting2(Dispatching, SECOND)
    case 20 => Waiting2(Retaining, SECOND)
    case 21 => Waiting2(Storing, SECOND)
    case 22 => State(Counted(multiset{1}, multiset{1}), WINDOW, [Goroutine(Settled, FIRST)], [], GONE)
    case 23 => State(UNTRACKED, WINDOW, [Goroutine(Untracked, FIRST)], [], GONE)
    case 24 => State(UNTRACKED, WINDOW, [Goroutine(Untracked, FIRST)], [Drain(Called, false, {}, {}, {})], GONE)
    case 25 => Drained(UNTRACKED, WINDOW, Checking)
    case 26 => Drained(UNTRACKED, WINDOW, Collecting)
    case 27 => Drained(UNTRACKED, WINDOW, Sweeping)
    case 28 => Drained(UNTRACKED, WINDOW, Releasing)
    case 29 => Drained(STORED, OUT, Releasing)
    case 30 => Drained(STORED, OUT, Joining)
    case 31 => Drained(STORED, OUT, Recording)
    case _ => Drained(STORED, OUT, Returned)
  }

  function Move2(n: nat): Action {
    if n == 19 then YES
    else if n <= 20 then NO
    else if n <= 22 then GoMoves(0)
    else if n == 23 then DrainStarts
    else if n == 28 then NO
    else DRAINS
  }

  lemma TheSecondIsTried(n: nat)
    requires 14 <= n < 18
    ensures Step(Draining2(n), Move2(n), Draining2(n + 1))
  {}

  lemma TheSecondIsBlocked(n: nat)
    requires 18 <= n < 21
    ensures Step(Draining2(n), Move2(n), Draining2(n + 1))
  {}

  lemma TheFirstIsSettled(n: nat)
    requires 21 <= n < 24
    ensures Step(Draining2(n), Move2(n), Draining2(n + 1))
  {}

  lemma TheDrainSweeps(n: nat)
    requires 24 <= n < 28
    ensures Step(Draining2(n), Move2(n), Draining2(n + 1))
  {
    assert UNTRACKED.tracked == multiset{} && (set id | id in UNTRACKED.tracked) == {};
    assert {} + Ids(UNTRACKED.pending) == {};
  }

  lemma OneIsLeft()
    ensures Ids(REST) == {2} && Appended(map[], REST) == REST
  {
    var none: Queues := map[];
    assert SECOND in REST["orders"];
    assert Queue(none, "orders") + Queue(REST, "orders") == [SECOND];
  }

  lemma TheStore(sh: Shared)
    requires sh.pending == map[] && sh.held == map[]
    ensures sh.AfterStore(REST, 0) == sh.(pending := REST, held := map[2 := 0])
  {
    OneIsLeft();
    assert (map id | id in Ids(REST) :: 0) + map[] == map[2 := 0];
  }

  lemma TheLoopMayStore()
    ensures Allowed(ONE_AT_A_TIME, Draining2(28), Move2(28))
  {}

  lemma TheLoopStores()
    ensures Step(Draining2(28), Move2(28), Draining2(29))
  {
    TheLoopMayStore();
    TheStore(Draining2(28).shared);
  }

  lemma TheDrainReturns(n: nat)
    requires 29 <= n < 32
    ensures Step(Draining2(n), Move2(n), Draining2(n + 1))
  {
    var none: set<Fault> := {};
    assert none + none == none;
  }

  function Stage(n: nat): State
    requires n <= 32
  {
    if n <= 14 then Taking1(n) else Draining2(n)
  }

  function Move(n: nat): Action {
    if n < 14 then Move1(n) else Move2(n)
  }

  lemma EveryStepIsAllowed(n: nat)
    requires n < 32
    ensures Step(Stage(n), Move(n), Stage(n + 1))
  {
    if n < 5 {
      ThePollStarts(n);
    } else if n == 5 {
      ThePollClaims();
    } else if n < 14 {
      TheFirstIsTaken(n);
    } else if n < 18 {
      TheSecondIsTried(n);
    } else if n < 21 {
      TheSecondIsBlocked(n);
    } else if n < 24 {
      TheFirstIsSettled(n);
    } else if n < 28 {
      TheDrainSweeps(n);
    } else if n == 28 {
      TheLoopStores();
    } else {
      TheDrainReturns(n);
    }
  }

  function Stages(): seq<State> {
    seq(33, n requires 0 <= n < 33 => Stage(n))
  }

  function Moves(): seq<Action> {
    seq(32, n requires 0 <= n < 32 => Move(n))
  }

  lemma StagesAreARun()
    ensures IsRun(ONE_AT_A_TIME, Stages(), Moves())
  {
    var run, actions := Stages(), Moves();
    forall k | 0 <= k < |actions|
      ensures Allowed(ONE_AT_A_TIME, run[k], actions[k]) && run[k + 1] == Apply(ONE_AT_A_TIME, run[k], actions[k])
    {
      EveryStepIsAllowed(k);
    }
  }


  /** The store window is real: in this run a drain sweeps while the loop stands before its store with an
      event in hand, returns Clean, and the event is left pending with the loop stopped for good. */
  lemma ACleanDrainCanLeaveAnEventPending() returns (run: seq<State>, actions: seq<Action>, j: nat)
    ensures IsRun(ONE_AT_A_TIME, run, actions) && j < |actions|
    ensures actions[j] == DRAINS && run[j].drains[0].pc.Sweeping?
    ensures run[j].poll.pc.Storing? && Ids(run[j].poll.hands) != {}
    ensures var s := run[|run| - 1]; |s.drains| == 1 && s.drains[0].pc.Returned? && s.drains[0].Clean() && s.poll.pc.Idle? && SECOND.id in Ids(s.shared.pending)
  {
    run, actions := Stages(), Moves();
    j := 27;
    StagesAreARun();
    OneIsLeft();
  }

  // ----- what a caller can do ----------------------------------------------------------------------

  /** A drain called once Run has returned, so that no poll is under way, strands nothing, now or ever. That
      is the order in which the command line drains: after the loop's own drain. */
  lemma SweepAfterTheLoopStrandsNothing(c: Config, run: seq<State>, actions: seq<Action>, j: nat, d: nat, o: Oracle, k: nat)
    requires IsRun(c, run, actions) && j < |actions| && actions[j] == DrainMoves(d, o) && run[j].drains[d].pc.Sweeping?
    requires run[j].poll.pc.Idle? && j < k < |run|
    ensures Ids(run[k].shared.pending) == {}
  {
    SweepStrandsNothingIff(c, run, actions, j, d, o);
  }
}
