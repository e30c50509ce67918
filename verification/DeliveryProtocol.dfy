/** The worker as an interleaving of one poll loop, its delivery goroutines and any number of Drain
    calls. Every critical section, channel operation and port call is one step; what the clock, the
    timers and the event source answer is left open in each step's Oracle. */
module DeliveryProtocol {
  import opened DeliveryState

  // ----- the poll loop: RunOnce and all it calls -----------------------------------------------------

  datatype PollAt =
    | Idle                 // between two polls
    | Taking               // draining() answered no
    | Dropping             // dropExpiredHeld
    | Reclaiming           // ReclaimExpired
    | Probing              // global.hasCapacity()
    | Claiming             // Claim
    | Dispatching          // dispatchBatch, choosing what to visit
    | Admitting            // tryDispatch's own draining()
    | Sizing               // checkPayloadSize
    | AcquiringGlobal
    | AcquiringListener
    | ReleasingGlobal      // the listener was full
    | Counting             // inFlight++
    | Tracking             // track
    | Uncounting           // track refused: finish
    | UnwindingGlobal
    | UnwindingListener
    | Spawning             // go func()
    | DroppingHold         // releaseHold after the event left its queue
    | DroppingUnknownHold  // releaseHold before consumeUnknown
    | SettlingUnknown      // consumeUnknown
    | Retaining            // retainPending's draining()
    | Storing              // retainPending's own section
    | Nacking              // retainPending's releaseHeld
    | Noting               // noteDrainError

  /** `hands` are the batch's queues, `current` the event being visited, `todo` and `failed` what
      releaseHeld has still to give back and could not. */
  datatype Poll = Poll(pc: PollAt, hands: Queues, current: Event, todo: set<Id>, failed: set<Fault>)

  // ----- a delivery goroutine ------------------------------------------------------------------------

  datatype GoAt = Delivering | Settled | Untracked | Finished | Left | ListenerFreed | Gone

  datatype Goroutine = Goroutine(pc: GoAt, event: Event)

  // ----- a Drain call --------------------------------------------------------------------------------

  datatype DrainAt =
    | Called
    | Checking                 // waitForActivity's section
    | Blocked(channel: nat)    // its select on that generation's channel
    | Collecting               // activityEvents
    | Sweeping                 // takeHeldForDrain
    | Releasing                // releaseHeld
    | Joining                  // joining state.releaseErr
    | Recording                // noteDrainError
    | Returned

  datatype Drain = Drain(pc: DrainAt, timedOut: bool, todo: set<Id>, released: set<Id>, errors: set<Fault>) {
    /** DrainResult.Clean. */
    predicate Clean() {
      !timedOut && errors == {}
    }
  }

  // ----- the whole -----------------------------------------------------------------------------------

  /** What has happened to claimed events; nothing in the worker reads it. `claimed` and `taken` are of the
      whole run. The other sets tell of an id what has happened since it was last claimed: a retried event
      is claimed again under the id it had. */
  datatype History = History(
    claimed: set<Id>, settled: set<Id>, released: set<Id>, disowned: set<Id>, abandoned: set<Id>, failed: set<Id>,
    tags: nat, taken: Queues)
  {
    /** The ids are claimed: what happened to them under an earlier claim no longer counts. */
    function Claims(ids: set<Id>, events: nat): History {
      History(claimed + ids, settled - ids, released - ids, disowned - ids, abandoned - ids, failed - ids, tags + events, taken)
    }
  }

  datatype State = State(shared: Shared, poll: Poll, goroutines: seq<Goroutine>, drains: seq<Drain>, history: History)

  datatype Oracle = Oracle(flag: bool, now: Time, dropped: set<nat>, events: seq<Event>, listener: Name, id: Id, answer: Answer)

  datatype Action = PollMoves(o: Oracle) | GoMoves(i: nat) | DrainStarts | DrainMoves(d: nat, o: Oracle)

  function Initial(): State {
    State(DeliveryState.Idle(), Poll(Idle, map[], Event(0, "", 0), {}, {}), [], [],
          History({}, {}, {}, {}, {}, {}, 0, map[]))
  }

  // ----- steps of the poll loop ----------------------------------------------------------------------

  predicate Expired(c: Config, s: State, e: Event, now: Time) {
    e.id in s.shared.held && now - s.shared.held[e.id] >= c.holdLimit
  }

  /** Every dropped event is expired, and every expired id loses an event. The first of a batch
      takes the id's hold with it, so a second event of that id is kept. */
  predicate DropAllowed(c: Config, s: State, o: Oracle) {
    var q := s.poll.hands;
    && (forall l, e :: l in q && e in q[l] && e.tag in o.dropped ==> Expired(c, s, e, o.now))
    && (forall l, e :: l in q && e in q[l] && Expired(c, s, e, o.now) ==> e.id in DroppedIds(q, o.dropped))
  }

  predicate FreshlyTagged(s: State, events: seq<Event>) {
    forall k :: 0 <= k < |events| ==> events[k].tag == s.history.tags + k
  }

  predicate PollAllowed(c: Config, s: State, o: Oracle) {
    match s.poll.pc
    case Dropping => DropAllowed(c, s, o)
    case Claiming => o.flag ==> FreshlyTagged(s, o.events)
    case Dispatching => o.flag || Queue(s.poll.hands, o.listener) != []
    case Nacking => s.poll.todo == {} || o.id in s.poll.todo
    case _ => true
  }

  function At(s: State, pc: PollAt): State {
    s.(poll := s.poll.(pc := pc))
  }

  /** The current event leaves its queue for good: it was accepted or consumed. */
  function Took(s: State, pc: PollAt): State
    requires Queue(s.poll.hands, s.poll.current.listener) != []
  {
    s.(poll := s.poll.(pc := pc, hands := Popped(s.poll.hands, s.poll.current.listener)),
       history := s.history.(taken := Pushed(s.history.taken, s.poll.current)))
  }

  function SettledNow(s: State, id: Id): State {
    s.(history := s.history.(settled := s.history.settled + {id}))
  }

  /** One Nack of releaseHeld. */
  function Answered(h: History, id: Id, answer: Answer): History {
    match answer
    case Granted => h.(released := h.released + {id})
    case NotClaimed => h.(disowned := h.disowned + {id})
    case Failed => h.(failed := h.failed + {id})
  }

  function Faults(id: Id, answer: Answer): set<Fault> {
    if answer == Failed then {NackFailed(id)} else {}
  }

  predicate VisitsFront(s: State) {
    (s.poll.pc.Sizing? || s.poll.pc.Spawning? || s.poll.pc.SettlingUnknown?) ==> Queue(s.poll.hands, s.poll.current.listener) != []
  }

  /** Where tryDispatch goes next: back to the batch where it answers blocked. */
  function AdmissionNext(c: Config, sh: Shared, e: Event, pc: PollAt): PollAt {
    match pc
    case Admitting => if sh.stopping then Dispatching else Sizing
    case AcquiringGlobal => if sh.global < c.globalCap then AcquiringListener else Dispatching
    case AcquiringListener =>
      if e.listener !in c.caps || Slots(sh.slots, e.listener) < c.caps[e.listener] then Counting else ReleasingGlobal
    case ReleasingGlobal => Dispatching
    case Counting => Tracking
    case Tracking => if sh.stopping then Uncounting else Spawning
    case Uncounting => UnwindingGlobal
    case UnwindingGlobal => UnwindingListener
    case _ => Dispatching
  }

  /** What tryDispatch does to the shared state on the way. */
  function AdmissionShared(c: Config, sh: Shared, e: Event, pc: PollAt): Shared {
    match pc
    case AcquiringGlobal => if sh.global < c.globalCap then sh.(global := sh.global + 1) else sh
    case AcquiringListener =>
      if e.listener in c.caps && Slots(sh.slots, e.listener) < c.caps[e.listener] then
        sh.(slots := sh.slots[e.listener := Slots(sh.slots, e.listener) + 1])
      else sh
    case ReleasingGlobal => sh.AfterFreeGlobal()
    case Counting => sh.(inFlight := sh.inFlight + multiset{e.id})
    case Tracking => sh.AfterTrack(e.id)
    case Uncounting => sh.AfterFinish(e.id)
    case UnwindingGlobal => sh.AfterFreeGlobal()
    case UnwindingListener => sh.AfterFreeListener(c, e.listener)
    case _ => sh
  }

  predicate IsAdmission(pc: PollAt) {
    || pc.Admitting? || pc.AcquiringGlobal? || pc.AcquiringListener? || pc.ReleasingGlobal? || pc.Counting?
    || pc.Tracking? || pc.Uncounting? || pc.UnwindingGlobal? || pc.UnwindingListener?
  }

  function AdmissionStep(c: Config, s: State): State {
    var p := s.poll;
    At(s.(shared := AdmissionShared(c, s.shared, p.current, p.pc)), AdmissionNext(c, s.shared, p.current, p.pc))
  }

  predicate IsVisit(pc: PollAt) {
    pc.Dispatching? || pc.Sizing? || pc.Spawning? || pc.DroppingHold? || pc.DroppingUnknownHold? || pc.SettlingUnknown?
  }

  /** dispatchBatch and the parts of tryDispatch that hand the event over. */
  function VisitStep(c: Config, s: State, o: Oracle): State
    requires PollAllowed(c, s, o) && VisitsFront(s)
  {
    var sh, p := s.shared, s.poll;
    match p.pc
    case Dispatching =>
      if o.flag then At(s, if AllEmpty(p.hands) then Idle else Retaining)
      else s.(poll := p.(pc := if c.Known(o.listener) then Admitting else DroppingUnknownHold,
                         current := Queue(p.hands, o.listener)[0]))
    case Sizing => if o.flag then SettledNow(Took(s, DroppingHold), p.current.id) else At(s, AcquiringGlobal)
    case Spawning => Took(s.(goroutines := s.goroutines + [Goroutine(Delivering, p.current)]), DroppingHold)
    case DroppingHold => At(s.(shared := sh.AfterReleaseHold(p.current.id)), Dispatching)
    case DroppingUnknownHold => At(s.(shared := sh.AfterReleaseHold(p.current.id)), SettlingUnknown)
    case SettlingUnknown => SettledNow(Took(s, Dispatching), p.current.id)
    case _ => s
  }

  /** RunOnce up to its dispatch, and retainPending after it. */
  function RunOnceStep(c: Config, s: State, o: Oracle): State
    requires PollAllowed(c, s, o)
  {
    var sh, p := s.shared, s.poll;
    match p.pc
    case Idle => if sh.stopping then s else At(s, Taking)
    case Taking => s.(shared := sh.AfterTakePending(), poll := p.(pc := Dropping, hands := sh.pending))
    case Dropping =>
      var lost := DroppedIds(p.hands, o.dropped);
      s.(shared := sh.AfterDrop(p.hands, o.dropped),
         poll := p.(pc := if lost != {} then Dispatching else Reclaiming, hands := Kept(p.hands, o.dropped)),
         history := s.history.(abandoned := s.history.abandoned + lost))
    case Reclaiming => At(s, if o.flag then Probing else Retaining)
    case Probing => At(s, if sh.global < c.globalCap then Claiming else Dispatching)
    case Claiming =>
      if !o.flag then At(s, Retaining)
      else s.(poll := p.(pc := Dispatching, hands := Joined(p.hands, o.events)),
              history := s.history.Claims(set e | e in o.events :: e.id, |o.events|))
    case Retaining =>
      if sh.stopping then s.(poll := p.(pc := Nacking, hands := map[], todo := Ids(p.hands)))
      else At(s, Storing)
    case Storing => s.(shared := sh.AfterStore(p.hands, o.now), poll := p.(pc := Idle, hands := map[]))
    case Nacking =>
      if p.todo == {} then At(s, Noting)
      else s.(poll := p.(todo := p.todo - {o.id}, failed := p.failed + Faults(o.id, o.answer)),
              history := Answered(s.history, o.id, o.answer))
    case Noting => s.(shared := sh.AfterNote(p.failed), poll := p.(pc := Idle, failed := {}))
    case _ => s
  }

  function PollStep(c: Config, s: State, o: Oracle): State
    requires PollAllowed(c, s, o) && VisitsFront(s)
  {
    if IsAdmission(s.poll.pc) then AdmissionStep(c, s) else if IsVisit(s.poll.pc) then VisitStep(c, s, o) else RunOnceStep(c, s, o)
  }

  // ----- steps of a goroutine ------------------------------------------------------------------------

  function NextGo(pc: GoAt): GoAt {
    match pc
    case Delivering => Settled
    case Settled => Untracked
    case Untracked => Finished
    case Finished => Left
    case Left => ListenerFreed
    case _ => Gone
  }

  function Moved(g: Goroutine): Goroutine {
    g.(pc := NextGo(g.pc))
  }

  /** The deferred calls in the order they run: untrack, finish, wg.Done, then the two semaphores. */
  function GoShared(c: Config, sh: Shared, g: Goroutine): Shared {
    match g.pc
    case Settled => sh.AfterUntrack(g.event.id)
    case Untracked => sh.AfterFinish(g.event.id)
    case Finished => sh.(running := Freed(sh.running))
    case Left => sh.AfterFreeListener(c, g.event.listener)
    case ListenerFreed => sh.AfterFreeGlobal()
    case _ => sh
  }

  function GoStep(c: Config, s: State, i: nat): State
    requires i < |s.goroutines|
  {
    var g := s.goroutines[i];
    State(GoShared(c, s.shared, g), s.poll, s.goroutines[i := Moved(g)], s.drains,
          if g.pc == Delivering then s.history.(settled := s.history.settled + {g.event.id}) else s.history)
  }

  // ----- steps of a drain ----------------------------------------------------------------------------

  predicate DrainAllowed(s: State, d: nat, o: Oracle) {
    && d < |s.drains|
    && match s.drains[d].pc
       case Blocked(channel) => o.flag || channel < s.shared.generation
       case Releasing => s.drains[d].todo == {} || o.id in s.drains[d].todo
       case _ => true
  }

  function DrainShared(sh: Shared, me: Drain): Shared {
    match me.pc
    case Called => sh.(stopping := true)
    case Sweeping => sh.AfterTakeHeld()
    case Recording => sh.AfterNote(me.errors)
    case _ => sh
  }

  function DrainNext(sh: Shared, me: Drain, o: Oracle): Drain {
    match me.pc
    case Called => me.(pc := Checking)
    case Checking => me.(pc := if |sh.tracked| == 0 then Collecting else Blocked(sh.generation))
    case Blocked(_) => if o.flag then me.(pc := Collecting, timedOut := true) else me.(pc := Checking)
    case Collecting => me.(pc := Sweeping, todo := set id | id in sh.tracked)
    case Sweeping =>
      me.(pc := Releasing, todo := me.todo + Ids(sh.pending), errors := if me.timedOut then {TimedOut} else {})
    case Releasing =>
      if me.todo == {} then me.(pc := Joining)
      else me.(todo := me.todo - {o.id}, errors := me.errors + Faults(o.id, o.answer),
               released := if o.answer == Granted then me.released + {o.id} else me.released)
    case Joining => me.(pc := Recording, errors := me.errors + sh.sticky)
    case Recording => me.(pc := Returned)
    case Returned => me
  }

  predicate Nacks(me: Drain) {
    me.pc.Releasing? && me.todo != {}
  }

  function DrainStep(s: State, d: nat, o: Oracle): State
    requires DrainAllowed(s, d, o)
  {
    var me := s.drains[d];
    State(DrainShared(s.shared, me), s.poll, s.goroutines, s.drains[d := DrainNext(s.shared, me, o)],
          if Nacks(me) then Answered(s.history, o.id, o.answer) else s.history)
  }

  // ----- runs ----------------------------------------------------------------------------------------

  predicate Allowed(c: Config, s: State, a: Action) {
    match a
    case PollMoves(o) => PollAllowed(c, s, o) && VisitsFront(s)
    case GoMoves(i) => i < |s.goroutines|
    case DrainStarts => true
    case DrainMoves(d, o) => DrainAllowed(s, d, o)
  }

  function Apply(c: Config, s: State, a: Action): State
    requires Allowed(c, s, a)
  {
    match a
    case PollMoves(o) => PollStep(c, s, o)
    case GoMoves(i) => GoStep(c, s, i)
    case DrainStarts => s.(drains := s.drains + [Drain(Called, false, {}, {}, {})])
    case DrainMoves(d, o) => DrainStep(s, d, o)
  }

  /** A run from the initial state, one action at a time. */
  ghost predicate IsRun(c: Config, run: seq<State>, actions: seq<Action>) {
    && c.Valid()
    && |run| == |actions| + 1
    && run[0] == Initial()
    && forall k :: 0 <= k < |actions| ==> Allowed(c, run[k], actions[k]) && run[k + 1] == Apply(c, run[k], actions[k])
  }
}
