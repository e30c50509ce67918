/** dispatchBatch and listenerNames (internal/delivery dispatch.go and ports.go), run on one batch,
    whatever each tryDispatch answers. */
module DeliveryBatch {
  import opened DeliveryState
  import opened TextOrder
  import opened Sorting

  datatype DispatchResult = Blocked | Consumed | Accepted

  // ----- each event once -----------------------------------------------------------------------------

  lemma {:induction false} CountOf(events: seq<Event>, e: Event)
    ensures multiset(Of(events, e.listener))[e] == multiset(events)[e]
  {
    if events != [] {
      CountOf(events[1..], e);
      assert events == [events[0]] + events[1..];
    }
  }

  lemma {:induction false} OfPushed(events: seq<Event>, e: Event, listener: Name)
    ensures Of(events + [e], listener) == Of(events, listener) + if e.listener == listener then [e] else []
  {
    if events == [] {
      assert events + [e] == [e];
    } else {
      OfPushed(events[1..], e, listener);
      assert (events + [e])[1..] == events[1..] + [e];
    }
  }

  /** What has left the queues and what is still in them is, listener by listener, the batch. */
  ghost predicate Splits(events: seq<Event>, handled: seq<Event>, queues: Queues) {
    forall l: Name :: Of(events, l) == Of(handled, l) + Queue(queues, l)
  }

  lemma SplitsMultiset(events: seq<Event>, handled: seq<Event>, queues: Queues, e: Event)
    requires Splits(events, handled, queues)
    ensures multiset(events)[e] == multiset(handled)[e] + multiset(Queue(queues, e.listener))[e]
  {
    CountOf(events, e);
    CountOf(handled, e);
    assert Of(events, e.listener) == Of(handled, e.listener) + Queue(queues, e.listener);
  }

  lemma HandledFits(events: seq<Event>, handled: seq<Event>, queues: Queues)
    requires Splits(events, handled, queues)
    ensures |handled| <= |events|
  {
    forall e: Event ensures multiset(handled)[e] <= multiset(events)[e] {
      SplitsMultiset(events, handled, queues, e);
    }
    assert multiset(handled) <= multiset(events);
    assert multiset(events) == multiset(handled) + (multiset(events) - multiset(handled));
    assert |multiset(handled)| <= |multiset(events)|;
  }

  lemma SplitsPopped(events: seq<Event>, handled: seq<Event>, queues: Queues, listener: Name)
    requires Splits(events, handled, queues) && Grouped(queues) && Queue(queues, listener) != []
    ensures Splits(events, handled + [queues[listener][0]], Popped(queues, listener))
    ensures Grouped(Popped(queues, listener))
  {
    var e, popped := queues[listener][0], Popped(queues, listener);
    assert e in queues[listener];
    forall l: Name ensures Of(events, l) == Of(handled + [e], l) + Queue(popped, l) {
      OfPushed(handled, e, l);
      FrontMoved(Of(handled, l), Queue(queues, l), Queue(popped, l), if l == listener then [e] else []);
    }
    forall l: Name, x: Event | l in popped && x in popped[l] ensures x.listener == l {
      assert x in queues[l];
    }
  }

  lemma FrontMoved(before: seq<Event>, queue: seq<Event>, rest: seq<Event>, front: seq<Event>)
    requires queue == front + rest
    ensures before + queue == (before + front) + rest
  {}

  // ----- the order of a batch ------------------------------------------------------------------------

  method GroupByListener(events: seq<Event>) returns (queues: Queues)
    ensures Splits(events, [], queues) && Grouped(queues)
    ensures forall l :: l in queues ==> queues[l] != []
  {
    queues := map[];
    for k := 0 to |events|
      invariant forall l: Name :: Of(events[..k], l) == Queue(queues, l)
      invariant Grouped(queues) && forall l :: l in queues ==> queues[l] != []
    {
      var e := events[k];
      IdsOfPushedGrouped(queues, e);
      forall l: Name ensures Of(events[..k + 1], l) == Queue(Pushed(queues, e), l) {
        assert events[..k + 1] == events[..k] + [e];
        OfPushed(events[..k], e, l);
        assert Of(events[..k], l) == Queue(queues, l);
      }
      queues := Pushed(queues, e);
    }
    assert events[..|events|] == events;
    forall l: Name ensures Of(events, l) == Of([], l) + Queue(queues, l) {
      assert Of(events[..|events|], l) == Queue(queues, l);
    }
  }

  lemma IdsOfPushedGrouped(q: Queues, e: Event)
    requires Grouped(q)
    ensures Grouped(Pushed(q, e))
  {
    IdsOfPushed(q, e);
  }

  /** The visiting order: the configured names, then every other name in the batch, sorted, so it
      does not depend on how the map was ranged over. */
  ghost predicate IsOrder(configured: seq<Name>, names: set<Name>, order: seq<Name>) {
    && |configured| <= |order| && order[..|configured|] == configured
    && StrictlySorted(order[|configured|..], Less)
    && forall n :: n in order[|configured|..] <==> n in names && n !in configured
  }

  method ListenerNames(configured: seq<Name>, queues: Queues) returns (order: seq<Name>)
    ensures IsOrder(configured, queues.Keys, order)
  {
    var unknown: seq<Name> := [];
    var left := queues.Keys;
    while left != {}
      invariant left <= queues.Keys
      invariant forall n :: n in unknown <==> n in queues.Keys - left && n !in configured
      invariant forall i, j :: 0 <= i < j < |unknown| ==> unknown[i] != unknown[j]
      decreases left
    {
      var name :| name in left;
      left := left - {name};
      if name !in configured {
        unknown := unknown + [name];
      }
    }
    SortedNames(unknown);
    var sorted := Sorted(unknown, Less);
    order := configured + sorted;
    assert order[|configured|..] == sorted;
  }

  lemma SortedNames(names: seq<Name>)
    requires forall i, j :: 0 <= i < j < |names| ==> names[i] != names[j]
    ensures StrictlySorted(Sorted(names, Less), Less)
    ensures forall n :: n in Sorted(names, Less) <==> n in names
  {
    LessIsOrder();
    SortedIsSorted(names, Less);
    MembersOf(Sorted(names, Less), names);
  }

  lemma OrderIsUnique(configured: seq<Name>, names: set<Name>, order: seq<Name>, order': seq<Name>)
    requires IsOrder(configured, names, order) && IsOrder(configured, names, order')
    ensures order == order'
  {
    LessIsOrder();
    SortedIsUnique(order[|configured|..], order'[|configured|..], Less);
    assert order == order[..|configured|] + order[|configured|..];
    assert order' == order'[..|configured|] + order'[|configured|..];
  }

  // ----- dispatchBatch -------------------------------------------------------------------------------

  predicate AllQueuesEmpty(queues: Queues) {
    forall l :: l in queues ==> queues[l] == []
  }

  /** The queues of one batch, what has left them so far, and how. */
  datatype Batch = Batch(handled: seq<Event>, results: seq<DispatchResult>, accepted: nat, tried: nat, queues: Queues)

  function Accepts(results: seq<DispatchResult>): nat {
    if results == [] then 0
    else Accepts(results[..|results| - 1]) + if results[|results| - 1] == Accepted then 1 else 0
  }

  /** How many names of the order have events waiting. */
  function Waiting(order: seq<Name>, queues: Queues): nat {
    if order == [] then 0
    else Waiting(order[..|order| - 1], queues) + if Queue(queues, order[|order| - 1]) != [] then 1 else 0
  }

  /** An event leaves its queue accepted or consumed, and never blocked; one of a listener that is
      not configured leaves it consumed. */
  ghost predicate Rightly(configured: seq<Name>, b: Batch) {
    && |b.results| == |b.handled| && b.accepted == Accepts(b.results)
    && forall k :: 0 <= k < |b.results| ==>
         b.results[k] != Blocked && (b.handled[k].listener !in configured ==> b.results[k] == Consumed)
  }

  ghost predicate Sound(configured: seq<Name>, events: seq<Event>, names: set<Name>, b: Batch) {
    Splits(events, b.handled, b.queues) && Grouped(b.queues) && b.queues.Keys == names && Rightly(configured, b)
  }

  predicate AllBlocked(tries: nat -> DispatchResult, from: nat, to: nat) {
    forall n :: from <= n < to ==> tries(n) == Blocked
  }

  /** The front event of one listener is tried. An unconfigured listener's is always consumed. */
  method Visit(configured: seq<Name>, name: Name, tries: nat -> DispatchResult, ghost events: seq<Event>, b: Batch)
    returns (next: Batch)
    requires Sound(configured, events, b.queues.Keys, b)
    ensures Sound(configured, events, b.queues.Keys, next)
    ensures |next.handled| == |b.handled| + 1 || next == b.(tried := next.tried)
    ensures |next.handled| == |b.handled| ==>
              && (name !in configured ==> Queue(b.queues, name) == [])
              && next.tried == b.tried + (if Queue(b.queues, name) != [] then 1 else 0)
              && AllBlocked(tries, b.tried, next.tried)
  {
    var pending := Queue(b.queues, name);
    if pending == [] {
      return b;
    }
    var known := name in configured;
    var result := if known then tries(b.tried) else Consumed;
    var tried := if known then b.tried + 1 else b.tried;
    if result == Blocked {
      return b.(tried := tried);
    }
    SplitsPopped(events, b.handled, b.queues, name);
    assert pending[0] in b.queues[name];
    assert (b.results + [result])[..|b.results|] == b.results;
    return Batch(b.handled + [pending[0]], b.results + [result], if result == Accepted then b.accepted + 1 else b.accepted,
                 tried, Popped(b.queues, name));
  }

  /** A round without progress found every waiting event blocked, and none of them unconfigured. */
  ghost predicate Stuck(configured: seq<Name>, order: seq<Name>, tries: nat -> DispatchResult, b: Batch, next: Batch) {
    && next == b.(tried := next.tried) && next.tried == b.tried + Waiting(order, b.queues)
    && AllBlocked(tries, b.tried, next.tried)
    && forall n :: n in order && n !in configured ==> Queue(b.queues, n) == []
  }

  method Round(configured: seq<Name>, order: seq<Name>, tries: nat -> DispatchResult, ghost events: seq<Event>, b: Batch)
    returns (next: Batch)
    requires Sound(configured, events, b.queues.Keys, b)
    ensures Sound(configured, events, b.queues.Keys, next)
    ensures |next.handled| > |b.handled| || Stuck(configured, order, tries, b, next)
  {
    next := b;
    for k := 0 to |order|
      invariant Sound(configured, events, b.queues.Keys, next) && |next.handled| >= |b.handled|
      invariant |next.handled| > |b.handled| || Stuck(configured, order[..k], tries, b, next)
    {
      assert order[..k + 1] == order[..k] + [order[k]];
      assert order[..k + 1][..k] == order[..k];
      next := Visit(configured, order[k], tries, events, next);
    }
    assert order[..|order|] == order;
  }

  /** Rounds over the order, an event of each listener at a time, until a round makes no progress or
      nothing is left, whatever the n-th tryDispatch answers. Each event of the batch has left its
      queue once or is retained once, each listener's in the order of the batch; nothing of an
      unconfigured listener is retained; and what is retained was blocked in the last round. */
  method DispatchBatch(configured: seq<Name>, events: seq<Event>, tries: nat -> DispatchResult)
    returns (b: Batch)
    ensures forall l: Name :: Of(events, l) == Of(b.handled, l) + Queue(b.queues, l)
    ensures forall e: Event :: multiset(events)[e] == multiset(b.handled)[e] + multiset(Queue(b.queues, e.listener))[e]
    ensures Rightly(configured, b)
    ensures forall l :: l in b.queues && l !in configured ==> b.queues[l] == []
    ensures AllQueuesEmpty(b.queues) ||
            exists order, start :: IsOrder(configured, b.queues.Keys, order) && Stuck(configured, order, tries, start, b)
  {
    var queues := GroupByListener(events);
    ghost var names := queues.Keys;
    var order := ListenerNames(configured, queues);
    b := Batch([], [], 0, 0, queues);
    ghost var start := b;
    var progress := true;
    while progress && !AllQueuesEmpty(b.queues)
      invariant Sound(configured, events, names, b)
      invariant !progress ==> Stuck(configured, order, tries, start, b)
      decreases |events| - |b.handled|, progress
    {
      var next := Round(configured, order, tries, events, b);
      HandledFits(events, next.handled, next.queues);
      progress := |next.handled| > |b.handled|;
      start, b := b, next;
    }
    UnknownIsVisited(configured, names, order);
    forall e: Event ensures multiset(events)[e] == multiset(b.handled)[e] + multiset(Queue(b.queues, e.listener))[e] {
      SplitsMultiset(events, b.handled, b.queues, e);
    }
  }

  lemma UnknownIsVisited(configured: seq<Name>, names: set<Name>, order: seq<Name>)
    requires IsOrder(configured, names, order)
    ensures forall n :: n in names && n !in configured ==> n in order
  {
    forall n | n in names && n !in configured ensures n in order {
      assert n in order[|configured|..];
    }
  }
}
