/** The delivery worker's shared state (internal/delivery) and what each critical section does to it. */
module DeliveryState {
  type Id = int
  type Name = string
  type Time = int

  /** A claimed event. `tag` numbers the claims in the order the source handed them out. */
  datatype Event = Event(id: Id, listener: Name, tag: nat)

  type Queues = map<Name, seq<Event>>

  function Queue(q: Queues, listener: Name): seq<Event> {
    if listener in q then q[listener] else []
  }

  function Ids(q: Queues): set<Id> {
    set listener, e | listener in q && e in q[listener] :: e.id
  }

  predicate Grouped(q: Queues) {
    forall listener, e :: listener in q && e in q[listener] ==> e.listener == listener
  }

  predicate AllEmpty(q: Queues) {
    forall listener :: listener in q ==> q[listener] == []
  }

  /** The events of one listener, in the order they stand in. */
  function Of(events: seq<Event>, listener: Name): seq<Event> {
    if events == [] then []
    else (if events[0].listener == listener then [events[0]] else []) + Of(events[1..], listener)
  }

  function Pushed(q: Queues, e: Event): Queues {
    q[e.listener := Queue(q, e.listener) + [e]]
  }

  /** Each event appended to the queue of its listener. */
  function Joined(q: Queues, events: seq<Event>): Queues
    decreases |events|
  {
    if events == [] then q else Joined(Pushed(q, events[0]), events[1..])
  }

  function Popped(q: Queues, listener: Name): Queues
    requires Queue(q, listener) != []
  {
    q[listener := q[listener][1..]]
  }

  /** Each queue of `q` appended to that of `p`; a listener without events has no entry. */
  function Appended(p: Queues, q: Queues): Queues {
    map listener | listener in p.Keys + q.Keys && Queue(p, listener) + Queue(q, listener) != [] ::
      Queue(p, listener) + Queue(q, listener)
  }

  function Without(events: seq<Event>, dropped: set<nat>): seq<Event> {
    if events == [] then []
    else (if events[0].tag in dropped then [] else [events[0]]) + Without(events[1..], dropped)
  }

  function Kept(q: Queues, dropped: set<nat>): Queues {
    map listener | listener in q :: Without(q[listener], dropped)
  }

  function DroppedIds(q: Queues, dropped: set<nat>): set<Id> {
    set listener, e | listener in q && e in q[listener] && e.tag in dropped :: e.id
  }

  /** One error a drain can report. errors.Join is the union of what was joined, and nil is none. */
  datatype Fault = TimedOut | NackFailed(id: Id)

  /** What the source answers a Nack: it gave the event back, it no longer counts it as ours, or it failed. */
  datatype Answer = Granted | NotClaimed | Failed

  datatype Config = Config(globalCap: nat, caps: map<Name, nat>, uncapped: set<Name>, holdLimit: int) {
    predicate Valid() {
      globalCap >= 1 && (forall n :: n in caps ==> caps[n] >= 1 && n !in uncapped)
    }

    predicate Known(listener: Name) {
      listener in caps || listener in uncapped
    }
  }

  /** A channel semaphore by how many slots are taken. */
  function Freed(taken: nat): nat {
    if taken > 0 then taken - 1 else 0
  }

  function Slots(slots: map<Name, nat>, listener: Name): nat {
    if listener in slots then slots[listener] else 0
  }

  /** `generation` stands for the channel in `changed`: it is open, and every earlier one is closed. */
  datatype Shared = Shared(
    stopping: bool, tracked: multiset<Id>, generation: nat, sticky: set<Fault>,
    inFlight: multiset<Id>, pending: Queues, held: map<Id, Time>,
    running: nat, global: nat, slots: map<Name, nat>)
  {
    function AfterTrack(id: Id): Shared {
      if stopping then this else this.(tracked := tracked + multiset{id}, running := running + 1)
    }

    function AfterUntrack(id: Id): Shared {
      this.(tracked := tracked - multiset{id}, generation := generation + 1)
    }

    function AfterFinish(id: Id): Shared {
      this.(inFlight := inFlight - multiset{id})
    }

    function AfterTakePending(): Shared {
      this.(pending := map[])
    }

    function AfterDrop(queues: Queues, dropped: set<nat>): Shared {
      this.(held := held - DroppedIds(queues, dropped))
    }

    function AfterStore(queues: Queues, now: Time): Shared {
      this.(pending := Appended(pending, queues),
            held := (map id | id in Ids(queues) :: now) + held)
    }

    function AfterReleaseHold(id: Id): Shared {
      this.(held := held - {id})
    }

    function AfterTakeHeld(): Shared {
      this.(pending := map[], held := map[])
    }

    function AfterNote(faults: set<Fault>): Shared {
      this.(sticky := sticky + faults)
    }

    function AfterFreeGlobal(): Shared {
      this.(global := Freed(global))
    }

    function AfterFreeListener(config: Config, listener: Name): Shared {
      if listener in config.caps then this.(slots := slots[listener := Freed(Slots(slots, listener))]) else this
    }
  }

  function Idle(): Shared {
    Shared(false, multiset{}, 0, {}, multiset{}, map[], map[], 0, 0, map[])
  }

  // ----- queues ------------------------------------------------------------------------------------

  lemma HolderOf(q: Queues, id: Id) returns (listener: Name, e: Event)
    requires id in Ids(q)
    ensures listener in q && e in q[listener] && e.id == id
  {
    listener, e :| listener in q && e in q[listener] && e.id == id;
  }

  lemma IdsOfPopped(q: Queues, listener: Name)
    requires Queue(q, listener) != []
    ensures Ids(q) == Ids(Popped(q, listener)) + {q[listener][0].id}
  {
    var p := Popped(q, listener);
    assert q[listener] == [q[listener][0]] + q[listener][1..];
    forall id | id in Ids(q) ensures id in Ids(p) + {q[listener][0].id} {
      var l, e := HolderOf(q, id);
      assert l in p;
      assert l != listener ==> e in p[l];
    }
    forall id | id in Ids(p) ensures id in Ids(q) {
      var l, e := HolderOf(p, id);
      assert l in q && e in q[l];
    }
    assert q[listener][0] in q[listener];
  }

  lemma IdsOfAppended(p: Queues, q: Queues)
    ensures Ids(Appended(p, q)) == Ids(p) + Ids(q)
  {
    var r := Appended(p, q);
    forall id | id in Ids(r) ensures id in Ids(p) + Ids(q) {
      var l, e := HolderOf(r, id);
      assert e in Queue(p, l) || e in Queue(q, l);
    }
    forall id | id in Ids(p) + Ids(q) ensures id in Ids(r) {
      if id in Ids(p) {
        var l, e := HolderOf(p, id);
        assert l in r && e in r[l];
      } else {
        var l, e := HolderOf(q, id);
        assert l in r && e in r[l];
      }
    }
  }

  lemma {:induction false} MembersOfWithout(events: seq<Event>, dropped: set<nat>)
    ensures forall e :: e in Without(events, dropped) <==> e in events && e.tag !in dropped
  {
    if events != [] {
      MembersOfWithout(events[1..], dropped);
      assert events == [events[0]] + events[1..];
    }
  }

  lemma IdsOfKept(q: Queues, dropped: set<nat>)
    ensures Ids(q) == Ids(Kept(q, dropped)) + DroppedIds(q, dropped)
  {
    var k := Kept(q, dropped);
    forall id | id in Ids(q) ensures id in Ids(k) + DroppedIds(q, dropped) {
      var l, e := HolderOf(q, id);
      MembersOfWithout(q[l], dropped);
      assert l in k;
      assert e.tag !in dropped ==> e in k[l];
    }
    forall id | id in Ids(k) ensures id in Ids(q) {
      var l, e := HolderOf(k, id);
      MembersOfWithout(q[l], dropped);
      assert l in q && e in q[l];
    }
  }

  lemma {:induction false} QueueOfJoined(q: Queues, events: seq<Event>, listener: Name)
    ensures Queue(Joined(q, events), listener) == Queue(q, listener) + Of(events, listener)
    decreases |events|
  {
    if events != [] {
      QueueOfJoined(Pushed(q, events[0]), events[1..], listener);
    }
  }

  lemma IdsOfPushed(q: Queues, e: Event)
    ensures Ids(Pushed(q, e)) == Ids(q) + {e.id}
    ensures Grouped(q) ==> Grouped(Pushed(q, e))
  {
    var p := Pushed(q, e);
    forall id | id in Ids(p) ensures id in Ids(q) + {e.id} {
      var l, x := HolderOf(p, id);
      assert x == e || (l in q && x in q[l]);
    }
    forall id | id in Ids(q) ensures id in Ids(p) {
      var l, x := HolderOf(q, id);
      assert l in p && x in p[l];
    }
    assert e in p[e.listener];
  }

  lemma {:induction false} MembersOfJoined(q: Queues, events: seq<Event>)
    ensures Ids(Joined(q, events)) == Ids(q) + (set e | e in events :: e.id)
    ensures Grouped(q) ==> Grouped(Joined(q, events))
    decreases |events|
  {
    if events != [] {
      IdsOfPushed(q, events[0]);
      MembersOfJoined(Pushed(q, events[0]), events[1..]);
      assert events == [events[0]] + events[1..];
    }
  }
}
