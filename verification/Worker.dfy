/** The worker's own sections (internal/delivery drain.go, hold.go, dispatch.go, semaphore.go) as the
    object whose fields they update. Each is proved to be the step of the protocol of that name. */
module Worker {
  import opened DeliveryState
  import opened DeliveryBatch
  import Protocol = DeliveryProtocol

  /** A channel semaphore: how many of its slots are filled. */
  class Semaphore {
    const capacity: nat
    var taken: nat

    predicate Valid()
      reads this
    {
      1 <= capacity && taken <= capacity
    }

    constructor (capacity: int)
      ensures Valid() && taken == 0 && this.capacity == if capacity <= 0 then 1 else capacity
    {
      this.capacity := if capacity <= 0 then 1 else capacity;
      taken := 0;
    }

    method TryAcquire() returns (ok: bool)
      requires Valid()
      modifies this
      ensures Valid() && ok == (old(taken) < capacity)
      ensures taken == old(taken) + if ok then 1 else 0
    {
      ok := taken < capacity;
      if ok {
        taken := taken + 1;
      }
    }

    method Release()
      requires Valid()
      modifies this
      ensures Valid() && taken == Freed(old(taken))
    {
      if taken > 0 {
        taken := taken - 1;
      }
    }
  }

  function IdsOf(events: seq<Event>): set<Id> {
    set e | e in events :: e.id
  }

  function Failures(ids: set<Id>, answers: Id -> Answer): set<Fault> {
    set id | id in ids && answers(id) == Failed :: NackFailed(id)
  }

  // ----- what the fields stand for -----------------------------------------------------------------

  /** The lists by id hold as many events of each id as the multiset counts. */
  predicate Lists(counted: multiset<Id>, lists: map<Id, seq<Event>>) {
    && (forall id :: id in lists ==> lists[id] != [] && counted[id] == |lists[id]|)
    && (forall id :: id in counted ==> id in lists)
  }

  predicate Numbers(counted: multiset<Id>, numbers: map<Id, nat>) {
    && (forall id :: id in numbers ==> numbers[id] >= 1 && counted[id] == numbers[id])
    && (forall id :: id in counted ==> id in numbers)
  }

  predicate Filled(queues: Queues) {
    Grouped(queues) && forall l :: l in queues ==> queues[l] != []
  }

  function Holding(held: map<Id, Time>, ids: set<Id>, now: Time): map<Id, Time> {
    (map id | id in ids :: now) + held
  }

  predicate Due(e: Event, held: map<Id, Time>, now: Time, limit: int) {
    e.id in held && now - held[e.id] >= limit
  }

  class Worker {
    const global: Semaphore
    const listeners: map<Name, Semaphore?>
    const holdLimit: int
    // guarded by activity.mu
    var stopping: bool
    var events: map<Id, seq<Event>>
    var generation: nat
    var releaseErr: set<Fault>
    // guarded by mu
    var inFlight: map<Id, nat>
    var pending: Queues
    var held: map<Id, Time>
    // the WaitGroup
    var running: nat
    // what the two maps above count
    ghost var tracked: multiset<Id>
    ghost var flying: multiset<Id>

    ghost predicate Valid()
      reads this
    {
      Lists(tracked, events) && Numbers(flying, inFlight) && Filled(pending)
    }

    /** The state the sections guard; no section touches a semaphore. */
    ghost function Sections(): Shared
      reads this
    {
      Shared(stopping, tracked, generation, releaseErr, flying, pending, held, running, 0, map[])
    }

    constructor (globalConcurrency: int, listeners: map<Name, Semaphore?>, holdLimit: int)
      ensures Valid() && Sections() == Idle()
      ensures fresh(global) && global.Valid() && global.taken == 0
    {
      global := new Semaphore(globalConcurrency);
      this.listeners, this.holdLimit := listeners, holdLimit;
      stopping, events, generation, releaseErr := false, map[], 0, {};
      inFlight, pending, held, running := map[], map[], map[], 0;
      tracked, flying := multiset{}, multiset{};
    }

    // ----- activity.mu ---------------------------------------------------------------------------

    method Track(event: Event) returns (ok: bool)
      requires Valid()
      modifies `events, `tracked, `running
      ensures Valid() && Sections() == old(Sections()).AfterTrack(event.id)
      ensures ok == !old(stopping)
    {
      if stopping {
        return false;
      }
      var queued := if event.id in events then events[event.id] else [];
      events := events[event.id := queued + [event]];
      tracked := tracked + multiset{event.id};
      running := running + 1;
      return true;
    }

    /** The map shrinks, the channel is replaced and the old one closed. */
    method UntrackSection(event: Event)
      requires Valid()
      modifies `events, `tracked, `generation
      ensures Valid() && Sections() == old(Sections()).AfterUntrack(event.id)
    {
      Unlist(event.id);
      generation := generation + 1;
    }

    method Unlist(id: Id)
      requires Lists(tracked, events)
      modifies `events, `tracked
      ensures Lists(tracked, events) && tracked == old(tracked) - multiset{id}
    {
      OneListedLess(tracked, events, id);
      var queued := if id in events then events[id] else [];
      if |queued| <= 1 {
        events := events - {id};
      } else {
        events := events[id := queued[1..]];
      }
      tracked := tracked - multiset{id};
    }

    method Finish(id: Id)
      requires Valid()
      modifies `inFlight, `flying
      ensures Valid() && Sections() == old(Sections()).AfterFinish(id)
    {
      Uncount(id);
    }

    /** The id's count goes down by one, and its entry with the last one. */
    method Uncount(id: Id)
      requires Numbers(flying, inFlight)
      modifies `inFlight, `flying
      ensures Numbers(flying, inFlight) && flying == old(flying) - multiset{id}
    {
      var count := if id in inFlight then inFlight[id] else 0;
      if count <= 1 {
        LastNumberGoes(flying, inFlight, id);
        inFlight := inFlight - {id};
      } else {
        OneNumberLess(flying, inFlight, id);
        inFlight := inFlight[id := count - 1];
      }
      flying := flying - multiset{id};
    }

    method NoteDrainError(faults: set<Fault>)
      requires Valid()
      modifies `releaseErr
      ensures Valid() && Sections() == old(Sections()).AfterNote(faults)
    {
      if faults != {} {
        releaseErr := releaseErr + faults;
      }
    }

    // ----- mu --------------------------------------------------------------------------------------

    method CountInFlight(id: Id)
      requires Valid()
      modifies `inFlight, `flying
      ensures Valid()
      ensures Sections() == old(Sections()).(inFlight := old(flying) + multiset{id})
    {
      inFlight := inFlight[id := if id in inFlight then inFlight[id] + 1 else 1];
      flying := flying + multiset{id};
    }

    /** The queues in the map's own order, one listener after another. */
    method TakePending() returns (taken: seq<Event>)
      requires Valid()
      modifies `pending
      ensures Valid() && Sections() == old(Sections()).AfterTakePending()
      ensures forall l: Name :: Of(taken, l) == Queue(old(pending), l)
    {
      taken := [];
      var left := pending.Keys;
      while left != {}
        invariant left <= pending.Keys && Valid() && Sections() == old(Sections())
        invariant forall l: Name :: Of(taken, l) == if l in left then [] else Queue(pending, l)
        decreases left
      {
        var name :| name in left;
        left := left - {name};
        forall l: Name ensures Of(taken + pending[name], l) == if l in left then [] else Queue(pending, l) {
          OfConcat(taken, pending[name], l);
          OfOne(pending[name], name, l);
        }
        taken := taken + pending[name];
      }
      pending := map[];
    }

    method TakeHeldForDrain() returns (taken: seq<Event>)
      requires Valid()
      modifies `pending, `held
      ensures Valid() && Sections() == old(Sections()).AfterTakeHeld()
      ensures forall l: Name :: Of(taken, l) == Queue(old(pending), l)
    {
      taken := TakePending();
      held := map[];
    }

    /** The slice is filtered in place; the first overdue event of an id takes its hold with it. */
    method DropExpiredHeld(a: array<Event>, now: Time) returns (n: nat, expired: bool)
      requires Valid()
      modifies `held, a
      ensures Valid() && Sections() == old(Sections()).(held := held)
      ensures var scan := Scanned(old(a[..]), old(held), now, holdLimit);
              n <= a.Length && a[..n] == scan.kept && held == scan.held && expired == (scan.dropped != {})
    {
      n, expired := 0, false;
      ghost var was, before := a[..], held;
      for k := 0 to a.Length
        invariant Scanning(a[..], was, k, n, before, held, expired, now, holdLimit)
      {
        ScanTurn(a[..], was, k, n, before, held, expired, now, holdLimit);
        var event := a[k];
        if event.id in held && now - held[event.id] >= holdLimit {
          held := held - {event.id};
          expired := true;
        } else {
          a[n] := event;
          n := n + 1;
        }
      }
      assert was[..a.Length] == was;
    }

    method ReleaseHold(id: Id)
      requires Valid()
      modifies `held
      ensures Valid() && Sections() == old(Sections()).AfterReleaseHold(id)
    {
      held := held - {id};
    }

    /** retainPending under stopping gives everything back; otherwise it stores it, and an event's
        hold runs from the first time it was retained. */
    method RetainPending(queues: Queues, now: Time, answers: Id -> Answer)
      requires Valid() && Grouped(queues)
      modifies `pending, `held, `releaseErr
      ensures Valid()
      ensures old(stopping) ==> Sections() == old(Sections()).AfterNote(Failures(Ids(queues), answers))
      ensures !old(stopping) ==> Sections() == old(Sections()).AfterStore(queues, now)
    {
      if stopping {
        var all := Flattened(queues);
        var _, faults := ReleaseHeld(all, {}, answers);
        NoteDrainError(faults);
      } else {
        Store(queues, now);
      }
    }

    method Store(queues: Queues, now: Time)
      requires Valid() && Grouped(queues)
      modifies `pending, `held
      ensures Valid() && Sections() == old(Sections()).AfterStore(queues, now)
    {
      var left := queues.Keys;
      ghost var was, before, done := pending, held, map[];
      while left != {}
        invariant Valid() && Storing(queues, was, before, now, left, done, pending, held)
        decreases left
      {
        var name :| name in left;
        StoresOneMore(queues, was, before, now, left, done, pending, held, name);
        StoreQueue(queues[name], now);
        left, done := left - {name}, done[name := queues[name]];
      }
      AllDone(done, queues, pending, was);
    }

    method StoreQueue(queued: seq<Event>, now: Time)
      requires Valid()
      modifies `pending, `held
      ensures Valid() && Stored(pending, old(pending), held, old(held), queued, now)
    {
      ghost var was, before := pending, held;
      for k := 0 to |queued|
        invariant Valid() && Stored(pending, was, held, before, queued[..k], now)
      {
        var event := queued[k];
        assert queued[..k + 1] == queued[..k] + [event];
        StoredOneMore(pending, was, held, before, queued[..k], event, now);
        StoreEvent(event, now);
      }
      assert queued[..|queued|] == queued;
    }

    method StoreEvent(event: Event, now: Time)
      requires Valid()
      modifies `pending, `held
      ensures Valid()
      ensures pending == Pushed(old(pending), event)
      ensures held == if event.id in old(held) then old(held) else old(held)[event.id := now]
    {
      PushedIsFilled(pending, event);
      if event.id !in held {
        held := held[event.id := now];
      }
      pending := Pushed(pending, event);
    }

    // ----- admission -------------------------------------------------------------------------------

    /** tryDispatch, with a Drain that may set stopping while it runs. Blocked or consumed, it leaves
        every slot and every count as it found them; accepted, it holds one of each for the
        goroutine it starts. */
    method TryDispatch(event: Event, sem: Semaphore?, oversized: bool, drained: bool) returns (result: DispatchResult)
      requires Valid() && global.Valid() && sem != global && (sem != null ==> sem.Valid())
      modifies this, global, sem
      ensures Valid() && global.Valid() && (sem != null ==> sem.Valid())
      ensures Sections() == if result == Accepted
                then old(Sections()).(inFlight := old(flying) + multiset{event.id}).AfterTrack(event.id)
                else old(Sections()).(stopping := stopping)
      ensures var one := if result == Accepted then 1 else 0;
              global.taken == old(global.taken) + one && (sem != null ==> sem.taken == old(sem.taken) + one)
      ensures result == Accepted <==>
                && !stopping && !oversized && old(global.taken) < global.capacity
                && (sem != null ==> old(sem.taken) < sem.capacity)
      ensures result == Consumed <==> !old(stopping) && oversized
      ensures old(stopping) ==> stopping
    {
      if stopping {
        return Blocked;
      }
      if oversized {
        return Consumed;
      }
      var free := global.TryAcquire();
      if !free {
        return Blocked;
      }
      if sem != null {
        free := sem.TryAcquire();
      }
      if !free {
        global.Release();
        return Blocked;
      }
      var ok := Admit(event, drained);
      if !ok {
        global.Release();
        if sem != null {
          sem.Release();
        }
        return Blocked;
      }
      return Accepted;
    }

    /** The in-flight count goes up before track can refuse, and comes back down if it does. */
    method Admit(event: Event, drained: bool) returns (ok: bool)
      requires Valid() && !stopping
      modifies this
      ensures Valid() && ok == !drained && stopping == drained
      ensures ok ==> Sections() == old(Sections()).(inFlight := old(flying) + multiset{event.id}).AfterTrack(event.id)
      ensures !ok ==> Sections() == old(Sections()).(stopping := true)
    {
      CountInFlight(event.id);
      stopping := drained;
      ok := TrackOrWithdraw(event, old(flying));
    }

    /** The event is tracked, or the count that was just added for it is taken back. */
    method TrackOrWithdraw(event: Event, ghost before: multiset<Id>) returns (ok: bool)
      requires Valid() && flying == before + multiset{event.id}
      modifies `events, `tracked, `running, `inFlight, `flying
      ensures Valid() && ok == !stopping
      ensures Sections() == if ok then old(Sections()).AfterTrack(event.id) else old(Sections()).(inFlight := before)
    {
      ok := Track(event);
      if !ok {
        Withdraw(event.id, before);
      }
    }

    /** Takes back the count that was just added. */
    method Withdraw(id: Id, ghost before: multiset<Id>)
      requires Numbers(flying, inFlight) && flying == before + multiset{id}
      modifies `inFlight, `flying
      ensures Numbers(flying, inFlight) && flying == before
    {
      Uncount(id);
      assert before + multiset{id} - multiset{id} == before;
    }
  }

  // ----- releaseHeld -------------------------------------------------------------------------------

  /** One Nack per distinct id, however often it stands in the list; an id the source no longer
      knows as ours is neither released nor an error. */
  method ReleaseHeld(events: seq<Event>, prior: set<Fault>, answers: Id -> Answer)
    returns (released: seq<Id>, faults: set<Fault>)
    ensures forall id :: id in released <==> id in IdsOf(events) && answers(id) == Granted
    ensures forall i, j :: 0 <= i < j < |released| ==> released[i] != released[j]
    ensures faults == prior + Failures(IdsOf(events), answers)
  {
    var seen: set<Id> := {};
    released, faults := [], prior;
    for k := 0 to |events|
      invariant seen == IdsOf(events[..k])
      invariant forall id :: id in released <==> id in seen && answers(id) == Granted
      invariant forall i, j :: 0 <= i < j < |released| ==> released[i] != released[j]
      invariant faults == prior + Failures(seen, answers)
    {
      var event := events[k];
      assert events[..k + 1] == events[..k] + [event];
      if event.id !in seen {
        seen := seen + {event.id};
        match answers(event.id)
        case Granted => released := released + [event.id];
        case NotClaimed =>
        case Failed => faults := faults + {NackFailed(event.id)};
      }
    }
    assert events[..|events|] == events;
  }

  method Flattened(queues: Queues) returns (all: seq<Event>)
    ensures IdsOf(all) == Ids(queues)
  {
    all := [];
    var left := queues.Keys;
    while left != {}
      invariant left <= queues.Keys
      invariant forall e :: e in all <==> exists l :: l in queues && l !in left && e in queues[l]
      decreases left
    {
      var name :| name in left;
      left := left - {name};
      all := all + queues[name];
    }
    forall id ensures id in IdsOf(all) <==> id in Ids(queues) {}
  }

  // ----- sequences of events -----------------------------------------------------------------------

  lemma {:induction false} OfConcat(a: seq<Event>, b: seq<Event>, l: Name)
    ensures Of(a + b, l) == Of(a, l) + Of(b, l)
  {
    if a == [] {
      assert a + b == b;
    } else {
      var e, rest := a[0], a[1..];
      assert a + b == [e] + (rest + b);
      OfFirst(e, rest + b, l);
      OfConcat(rest, b, l);
      ConcatFirst(if e.listener == l then [e] else [], Of(rest, l), Of(b, l));
    }
  }

  lemma {:induction false} OfOne(queue: seq<Event>, name: Name, l: Name)
    requires forall e :: e in queue ==> e.listener == name
    ensures Of(queue, l) == if l == name then queue else []
  {
    if queue != [] {
      OfOne(queue[1..], name, l);
    }
  }

  lemma ConcatFirst(a: seq<Event>, b: seq<Event>, c: seq<Event>)
    ensures a + (b + c) == (a + b) + c
  {}

  lemma OfFirst(e: Event, rest: seq<Event>, l: Name)
    ensures Of([e] + rest, l) == (if e.listener == l then [e] else []) + Of(rest, l)
  {
    assert ([e] + rest)[1..] == rest;
  }

  lemma WithoutFirst(e: Event, rest: seq<Event>, dropped: set<nat>)
    ensures Without([e] + rest, dropped) == (if e.tag in dropped then [] else [e]) + Without(rest, dropped)
  {
    assert ([e] + rest)[1..] == rest;
  }

  /** Filtering the flat batch is filtering each listener's queue. */
  lemma {:induction false} DroppingIsPerListener(events: seq<Event>, dropped: set<nat>, l: Name)
    ensures Of(Without(events, dropped), l) == Without(Of(events, l), dropped)
  {
    if events != [] {
      var e, rest := events[0], events[1..];
      DroppingIsPerListener(rest, dropped, l);
      if e.tag !in dropped {
        assert Without(events, dropped) == [e] + Without(rest, dropped);
        OfFirst(e, Without(rest, dropped), l);
      } else {
        assert Without(events, dropped) == Without(rest, dropped);
      }
      if e.listener == l {
        assert Of(events, l) == [e] + Of(rest, l);
        WithoutFirst(e, Of(rest, l), dropped);
      } else {
        assert Of(events, l) == Of(rest, l);
      }
    }
  }

  function LostIds(events: seq<Event>, dropped: set<nat>): set<Id> {
    set e | e in events && e.tag in dropped :: e.id
  }

  lemma {:induction false} WithoutPushed(events: seq<Event>, e: Event, dropped: set<nat>)
    ensures Without(events + [e], dropped) == Without(events, dropped) + if e.tag in dropped then [] else [e]
  {
    if events == [] {
      assert events + [e] == [e];
    } else {
      WithoutPushed(events[1..], e, dropped);
      assert (events + [e])[1..] == events[1..] + [e];
    }
  }

  /** Dropping a tag no event carries changes nothing. */
  lemma {:induction false} WithoutOther(events: seq<Event>, dropped: set<nat>, tag: nat)
    requires tag !in Tags(events)
    ensures Without(events, dropped + {tag}) == Without(events, dropped)
  {
    if events != [] {
      assert events[0] in events && Tags(events[1..]) <= Tags(events);
      WithoutOther(events[1..], dropped, tag);
    }
  }

  // ----- dropExpiredHeld ---------------------------------------------------------------------------

  /** `dropped` are the tags of the events dropped, `lost` their ids. */
  datatype Scan = Scan(kept: seq<Event>, held: map<Id, Time>, dropped: set<nat>, lost: set<Id>)

  function Scanned(events: seq<Event>, held: map<Id, Time>, now: Time, limit: int): (s: Scan)
    ensures s.held == held - s.lost
    ensures s.dropped <= Tags(events) && |s.kept| <= |events|
  {
    if events == [] then Scan([], held, {}, {})
    else
      var n := |events| - 1;
      var s, e := Scanned(events[..n], held, now, limit), events[n];
      assert events == events[..n] + [e];
      if Due(e, s.held, now, limit) then Scan(s.kept, s.held - {e.id}, s.dropped + {e.tag}, s.lost + {e.id})
      else s.(kept := s.kept + [e])
  }

  lemma ScanOneMore(seen: seq<Event>, e: Event, held: map<Id, Time>, now: Time, limit: int)
    ensures var s := Scanned(seen, held, now, limit);
            Scanned(seen + [e], held, now, limit) ==
            if Due(e, s.held, now, limit) then Scan(s.kept, s.held - {e.id}, s.dropped + {e.tag}, s.lost + {e.id})
            else s.(kept := s.kept + [e])
  {
    assert (seen + [e])[..|seen|] == seen;
  }

  /** The filter in place after `k` events: the kept ones stand in front, the unread ones where they stood. */
  ghost predicate Scanning(events: seq<Event>, was: seq<Event>, k: nat, n: nat, before: map<Id, Time>, held: map<Id, Time>,
                           expired: bool, now: Time, limit: int) {
    && n <= k <= |events| == |was| && events[k..] == was[k..]
    && var scan := Scanned(was[..k], before, now, limit);
       events[..n] == scan.kept && held == scan.held && expired == (scan.dropped != {})
  }

  lemma ScanTurn(events: seq<Event>, was: seq<Event>, k: nat, n: nat, before: map<Id, Time>, held: map<Id, Time>,
                 expired: bool, now: Time, limit: int)
    requires Scanning(events, was, k, n, before, held, expired, now, limit) && k < |events|
    ensures if Due(events[k], held, now, limit) then Scanning(events, was, k + 1, n, before, held - {events[k].id}, true, now, limit)
            else Scanning(events[n := events[k]], was, k + 1, n + 1, before, held, expired, now, limit)
  {
    var event := events[k];
    assert event == events[k..][0] == was[k] && was[..k + 1] == was[..k] + [event];
    assert events[k + 1..] == events[k..][1..] == was[k + 1..];
    ScanOneMore(was[..k], event, before, now, limit);
    if !Due(event, held, now, limit) {
      assert events[n := event][k + 1..] == events[k + 1..];
      assert events[n := event][..n + 1] == events[..n] + [event];
    }
  }

  function Tags(events: seq<Event>): set<nat> {
    set e | e in events :: e.tag
  }

  predicate Distinct(events: seq<Event>) {
    forall i, j :: 0 <= i < j < |events| ==> events[i].tag != events[j].tag
  }

  lemma LastIsFresh(events: seq<Event>)
    requires Distinct(events) && events != []
    ensures Distinct(events[..|events| - 1]) && events[|events| - 1].tag !in Tags(events[..|events| - 1])
  {}

  /** What is kept is what is not dropped, and what is lost is what the dropped events held. */
  lemma {:induction false} ScanKeepsTheRest(events: seq<Event>, held: map<Id, Time>, now: Time, limit: int)
    requires Distinct(events)
    ensures var s := Scanned(events, held, now, limit);
            s.kept == Without(events, s.dropped) && s.lost == LostIds(events, s.dropped)
    decreases |events|
  {
    if events != [] {
      var front, e := events[..|events| - 1], events[|events| - 1];
      var s := Scanned(front, held, now, limit);
      LastIsFresh(events);
      ScanKeepsTheRest(front, held, now, limit);
      assert events == front + [e];
      if Due(e, s.held, now, limit) {
        WithoutPushed(front, e, s.dropped + {e.tag});
        WithoutOther(front, s.dropped, e.tag);
        LostPushed(front, e, s.dropped);
      } else {
        WithoutPushed(front, e, s.dropped);
        KeptPushed(front, e, s.dropped);
      }
    }
  }

  /** Only due events are dropped, and every due id is. */
  lemma {:induction false} ScanDropsTheDue(events: seq<Event>, held: map<Id, Time>, now: Time, limit: int, k: nat)
    requires Distinct(events) && k < |events|
    ensures var s := Scanned(events, held, now, limit);
            && (events[k].tag in s.dropped ==> Due(events[k], held, now, limit))
            && (Due(events[k], held, now, limit) ==> events[k].id in s.lost)
    decreases |events|
  {
    LastIsFresh(events);
    if k < |events| - 1 {
      ScanDropsTheDue(events[..|events| - 1], held, now, limit, k);
    }
  }

  lemma {:induction false} MembersOfOf(events: seq<Event>, l: Name)
    ensures forall e :: e in Of(events, l) <==> e in events && e.listener == l
  {
    if events != [] {
      MembersOfOf(events[1..], l);
      assert events == [events[0]] + events[1..];
    }
  }

  /** dropExpiredHeld over the flat batch is the protocol's drop over its queues: the same events are
      kept, listener by listener, only due ones go, and each due id loses one. */
  lemma ScanIsTheProtocolsDrop(c: Config, s: Protocol.State, o: Protocol.Oracle, events: seq<Event>)
    requires Distinct(events) && Grouped(s.poll.hands) && forall l: Name :: Of(events, l) == Queue(s.poll.hands, l)
    requires o.dropped == Scanned(events, s.shared.held, o.now, c.holdLimit).dropped
    ensures Protocol.DropAllowed(c, s, o)
    ensures forall l: Name :: Queue(Kept(s.poll.hands, o.dropped), l) == Of(Scanned(events, s.shared.held, o.now, c.holdLimit).kept, l)
    ensures DroppedIds(s.poll.hands, o.dropped) == LostIds(events, o.dropped)
  {
    var q, scan := s.poll.hands, Scanned(events, s.shared.held, o.now, c.holdLimit);
    ScanKeepsTheRest(events, s.shared.held, o.now, c.holdLimit);
    SameMembers(q, events);
    forall l: Name ensures Queue(Kept(q, o.dropped), l) == Of(scan.kept, l) {
      DroppingIsPerListener(events, o.dropped, l);
      assert Of(events, l) == Queue(q, l);
    }
    assert DroppedIds(q, o.dropped) == LostIds(events, o.dropped);
    forall l: Name, e: Event | l in q && e in q[l]
      ensures e.tag in o.dropped ==> Protocol.Expired(c, s, e, o.now)
      ensures Protocol.Expired(c, s, e, o.now) ==> e.id in scan.lost
    {
      assert e in events;
      var k :| 0 <= k < |events| && events[k] == e;
      ScanDropsTheDue(events, s.shared.held, o.now, c.holdLimit, k);
    }
  }

  lemma SameMembers(q: Queues, events: seq<Event>)
    requires Grouped(q) && forall l: Name :: Of(events, l) == Queue(q, l)
    ensures forall l, e :: l in q && e in q[l] ==> e in events
    ensures forall e :: e in events ==> e.listener in q && e in q[e.listener]
  {
    forall l: Name ensures forall e :: e in Queue(q, l) <==> e in events && e.listener == l {
      MembersOfOf(events, l);
      assert Of(events, l) == Queue(q, l);
    }
    forall e | e in events ensures e.listener in q && e in q[e.listener] {
      assert e in Queue(q, e.listener);
    }
    forall l: Name, e: Event | l in q && e in q[l] ensures e in events {
      assert e in Queue(q, l);
    }
  }

  lemma LostPushed(events: seq<Event>, e: Event, dropped: set<nat>)
    requires e.tag !in Tags(events)
    ensures LostIds(events + [e], dropped + {e.tag}) == LostIds(events, dropped) + {e.id}
  {
    assert e in events + [e];
    forall x | x in events ensures x in events + [e] && x.tag != e.tag {
      assert x.tag in Tags(events);
    }
  }

  lemma KeptPushed(events: seq<Event>, e: Event, dropped: set<nat>)
    requires e.tag !in dropped
    ensures LostIds(events + [e], dropped) == LostIds(events, dropped)
  {}

  // ----- retainPending -----------------------------------------------------------------------------

  /** The queues no longer left to do. */
  predicate PartOf(done: Queues, queues: Queues, left: set<Name>) {
    && (forall l :: l in done ==> l in queues && l !in left && done[l] == queues[l])
    && forall l :: l in queues && l !in left ==> l in done
  }

  lemma PartOfMore(done: Queues, queues: Queues, left: set<Name>, name: Name)
    requires name in queues && name !in left && PartOf(done, queues, left + {name})
    ensures PartOf(done[name := queues[name]], queues, left)
  {}

  lemma AllDone(done: Queues, queues: Queues, p: Queues, was: Queues)
    requires PartOf(done, queues, {}) && Appends(p, was, done) && Filled(p) && Filled(was)
    ensures done == queues && p == Appended(was, queues)
  {
    assert done == queues;
    SameQueues(p, Appended(was, queues));
  }

  /** Those of the queues that are not left are stored: appended to what was pending, and held. */
  ghost predicate Storing(queues: Queues, was: Queues, before: map<Id, Time>, now: Time, left: set<Name>, done: Queues,
                          pending: Queues, held: map<Id, Time>) {
    && left <= queues.Keys && PartOf(done, queues, left)
    && held == Holding(before, Ids(done), now) && Appends(pending, was, done)
  }

  lemma StoresOneMore(queues: Queues, was: Queues, before: map<Id, Time>, now: Time, left: set<Name>, done: Queues,
                      pending: Queues, held: map<Id, Time>, name: Name)
    requires Storing(queues, was, before, now, left, done, pending, held) && Grouped(queues) && name in left
    ensures Storing(queues, was, before, now, left - {name}, done[name := queues[name]],
                    Joined(pending, queues[name]), Holding(held, IdsOf(queues[name]), now))
  {
    assert left - {name} + {name} == left;
    AppendsOneMore(pending, was, done, name, queues[name]);
    PartOfMore(done, queues, left - {name}, name);
    IdsOfOneMore(done, name, queues[name]);
    HoldingTwice(before, Ids(done), IdsOf(queues[name]), now);
  }

  ghost predicate Appends(p: Queues, was: Queues, done: Queues) {
    forall l: Name :: Queue(p, l) == Queue(was, l) + Queue(done, l)
  }

  lemma AppendsOneMore(p: Queues, was: Queues, done: Queues, name: Name, queued: seq<Event>)
    requires Appends(p, was, done) && name !in done && forall e :: e in queued ==> e.listener == name
    ensures Appends(Joined(p, queued), was, done[name := queued])
  {
    forall l: Name ensures Queue(Joined(p, queued), l) == Queue(was, l) + Queue(done[name := queued], l) {
      QueueOfJoined(p, queued, l);
      OfOne(queued, name, l);
      AppendedAt(Queue(was, l), Queue(done, l), if l == name then queued else []);
    }
  }

  lemma AppendedAt(was: seq<Event>, done: seq<Event>, more: seq<Event>)
    requires done == [] || more == []
    ensures (was + done) + more == was + if done == [] then more else done
  {}

  lemma HoldingTwice(held: map<Id, Time>, a: set<Id>, b: set<Id>, now: Time)
    ensures Holding(Holding(held, a, now), b, now) == Holding(held, a + b, now)
  {}

  lemma IdsOfOneMore(done: Queues, name: Name, queued: seq<Event>)
    requires name !in done
    ensures Ids(done[name := queued]) == Ids(done) + IdsOf(queued)
  {
    var more := done[name := queued];
    forall id | id in Ids(done) ensures id in Ids(more) {
      var l, e := HolderOf(done, id);
      assert l in more && e in more[l];
    }
    forall id | id in IdsOf(queued) ensures id in Ids(more) {
      var e :| e in queued && e.id == id;
      assert name in more && e in more[name];
    }
  }

  // ----- counts ------------------------------------------------------------------------------------

  function Unlisted(lists: map<Id, seq<Event>>, id: Id): map<Id, seq<Event>> {
    if id in lists && |lists[id]| > 1 then lists[id := lists[id][1..]] else lists - {id}
  }

  lemma OneListedLess(counted: multiset<Id>, lists: map<Id, seq<Event>>, id: Id)
    requires Lists(counted, lists)
    ensures Lists(counted - multiset{id}, Unlisted(lists, id))
  {}

  lemma OneNumberLess(counted: multiset<Id>, numbers: map<Id, nat>, id: Id)
    requires Numbers(counted, numbers) && id in numbers && numbers[id] > 1
    ensures Numbers(counted - multiset{id}, numbers[id := numbers[id] - 1])
  {}

  lemma LastNumberGoes(counted: multiset<Id>, numbers: map<Id, nat>, id: Id)
    requires Numbers(counted, numbers) && (id in numbers ==> numbers[id] == 1)
    ensures Numbers(counted - multiset{id}, numbers - {id})
  {}

  // ----- queues ------------------------------------------------------------------------------------

  lemma {:induction false} JoinedPushed(q: Queues, events: seq<Event>, e: Event)
    ensures Joined(q, events + [e]) == Pushed(Joined(q, events), e)
    decreases |events|
  {
    if events == [] {
      assert events + [e] == [e];
    } else {
      assert (events + [e])[1..] == events[1..] + [e];
      JoinedPushed(Pushed(q, events[0]), events[1..], e);
    }
  }

  lemma PushedIsFilled(q: Queues, e: Event)
    requires Filled(q)
    ensures Filled(Pushed(q, e))
  {
    IdsOfPushed(q, e);
  }

  predicate Stored(p: Queues, was: Queues, held: map<Id, Time>, before: map<Id, Time>, events: seq<Event>, now: Time) {
    p == Joined(was, events) && held == Holding(before, IdsOf(events), now)
  }

  lemma StoredOneMore(p: Queues, was: Queues, held: map<Id, Time>, before: map<Id, Time>, events: seq<Event>, e: Event, now: Time)
    requires Stored(p, was, held, before, events, now)
    ensures Stored(Pushed(p, e), was, if e.id in held then held else held[e.id := now], before, events + [e], now)
  {
    JoinedPushed(was, events, e);
    HoldingOneMore(before, events, e, now);
  }

  lemma HoldingOneMore(held: map<Id, Time>, events: seq<Event>, e: Event, now: Time)
    ensures var h := Holding(held, IdsOf(events), now);
            Holding(held, IdsOf(events + [e]), now) == if e.id in h then h else h[e.id := now]
  {
    assert IdsOf(events + [e]) == IdsOf(events) + {e.id};
  }

  lemma SameQueues(p: Queues, q: Queues)
    requires forall l: Name :: Queue(p, l) == Queue(q, l)
    requires (forall l :: l in p ==> p[l] != []) && forall l :: l in q ==> q[l] != []
    ensures p == q
  {
    forall l: Name ensures l in p <==> l in q {
      assert Queue(p, l) == Queue(q, l);
    }
    forall l | l in p ensures p[l] == q[l] {
      assert Queue(p, l) == Queue(q, l);
    }
  }
}
