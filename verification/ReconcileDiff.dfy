/** The three-source join and the plan it yields (internal/reconcile diff.go and plan.go). */
module ReconcileDiff {
  import opened Options
  import opened TextOrder
  import opened Sorting
  import opened ReconcileNames
  import opened ReconcileModel

  datatype DesiredListener = DesiredListener(name: string, specHash: string, enabled: bool, specificationKnown: bool, changed: map<string, bool>)

  datatype DiffInput = DiffInput(
    desired: seq<Desired>, recorded: seq<Recorded>, observed: seq<Observed>, listeners: seq<DesiredListener>,
    targets: map<string, Resolution>, instance: string)

  datatype Verdict = Clean | ChangesPending | Error

  datatype PlanResult = PlanResult(actions: seq<Action>, examined: nat, refusals: seq<Refusal>, verdict: Verdict)

  // ----- the join ----------------------------------------------------------------------------------

  function LatestDesired(items: seq<Desired>, p: Pair): Desired {
    if items == [] then NOT_DESIRED
    else if items[|items| - 1].pair == p then items[|items| - 1]
    else LatestDesired(items[..|items| - 1], p)
  }

  function LatestRecorded(items: seq<Recorded>, p: Pair): Recorded {
    if items == [] then NOT_RECORDED
    else if items[|items| - 1].pair == p then items[|items| - 1]
    else LatestRecorded(items[..|items| - 1], p)
  }

  function LatestObserved(items: seq<Observed>, p: Pair): Observed {
    if items == [] then NOT_OBSERVED
    else if items[|items| - 1].pair == p then items[|items| - 1]
    else LatestObserved(items[..|items| - 1], p)
  }

  function LatestListener(items: seq<DesiredListener>, name: string): Option<DesiredListener> {
    if items == [] then None
    else if items[|items| - 1].name == name then Some(items[|items| - 1])
    else LatestListener(items[..|items| - 1], name)
  }

  function WithListener(desired: Desired, p: Pair, listener: Option<DesiredListener>): Desired {
    if listener.None? then desired
    else
      var l := listener.value;
      desired.(listenerPresent := true, enabled := l.enabled, specHash := l.specHash,
               specificationChanged := p.operation in l.changed && l.changed[p.operation],
               specificationKnown := l.specificationKnown, pair := p)
  }

  function DesiredPairs(input: DiffInput): set<Pair> {
    set d | d in input.desired :: d.pair
  }

  function RecordedPairs(input: DiffInput): set<Pair> {
    set r | r in input.recorded :: r.pair
  }

  function ObservedPairs(input: DiffInput): set<Pair> {
    set o | o in input.observed :: o.pair
  }

  /** Every pair a source names. */
  function AllPairs(input: DiffInput): set<Pair> {
    DesiredPairs(input) + RecordedPairs(input) + ObservedPairs(input)
  }

  /** What the three sources say of one pair. */
  function Collected(input: DiffInput, p: Pair): PairSources {
    PairSources(WithListener(LatestDesired(input.desired, p), p, LatestListener(input.listeners, p.listener)),
                LatestRecorded(input.recorded, p), LatestObserved(input.observed, p), NO_TARGET, "")
  }

  const NO_SOURCES := PairSources(NOT_DESIRED, NOT_RECORDED, NOT_OBSERVED, NO_TARGET, "")

  function Held(sources: map<Pair, PairSources>, p: Pair): PairSources {
    if p in sources then sources[p] else NO_SOURCES
  }

  lemma LatestDesiredMore(items: seq<Desired>, more: Desired)
    ensures forall p :: LatestDesired(items + [more], p) == if more.pair == p then more else LatestDesired(items, p)
  {
    assert (items + [more])[..|items|] == items;
  }

  lemma LatestRecordedMore(items: seq<Recorded>, more: Recorded)
    ensures forall p :: LatestRecorded(items + [more], p) == if more.pair == p then more else LatestRecorded(items, p)
  {
    assert (items + [more])[..|items|] == items;
  }

  lemma LatestObservedMore(items: seq<Observed>, more: Observed)
    ensures forall p :: LatestObserved(items + [more], p) == if more.pair == p then more else LatestObserved(items, p)
  {
    assert (items + [more])[..|items|] == items;
  }

  method CollectPairSources(input: DiffInput) returns (sources: map<Pair, PairSources>)
    ensures sources.Keys == AllPairs(input)
    ensures forall p :: p in sources ==> sources[p] == Collected(input, p)
  {
    sources := CollectDesired(input.desired);
    sources := CollectRecorded(sources, input.recorded);
    sources := CollectObserved(sources, input.observed);
    sources := ApplyDesiredListeners(sources, input.listeners);
  }

  method CollectDesired(items: seq<Desired>) returns (sources: map<Pair, PairSources>)
    ensures sources.Keys == set d | d in items :: d.pair
    ensures forall p :: Held(sources, p) == NO_SOURCES.(desired := LatestDesired(items, p))
  {
    sources := map[];
    for k := 0 to |items|
      invariant sources.Keys == set d | d in items[..k] :: d.pair
      invariant forall p :: Held(sources, p) == NO_SOURCES.(desired := LatestDesired(items[..k], p))
    {
      assert items[..k + 1] == items[..k] + [items[k]];
      LatestDesiredMore(items[..k], items[k]);
      sources := sources[items[k].pair := Held(sources, items[k].pair).(desired := items[k])];
    }
    assert items[..|items|] == items;
  }

  method CollectRecorded(from: map<Pair, PairSources>, items: seq<Recorded>) returns (sources: map<Pair, PairSources>)
    requires forall p :: Held(from, p).recorded == NOT_RECORDED
    ensures sources.Keys == from.Keys + set r | r in items :: r.pair
    ensures forall p :: Held(sources, p) == Held(from, p).(recorded := LatestRecorded(items, p))
  {
    sources := from;
    for k := 0 to |items|
      invariant sources.Keys == from.Keys + set r | r in items[..k] :: r.pair
      invariant forall p :: Held(sources, p) == Held(from, p).(recorded := LatestRecorded(items[..k], p))
    {
      assert items[..k + 1] == items[..k] + [items[k]];
      LatestRecordedMore(items[..k], items[k]);
      sources := sources[items[k].pair := Held(sources, items[k].pair).(recorded := items[k])];
    }
    assert items[..|items|] == items;
  }

  method CollectObserved(from: map<Pair, PairSources>, items: seq<Observed>) returns (sources: map<Pair, PairSources>)
    requires forall p :: Held(from, p).observed == NOT_OBSERVED
    ensures sources.Keys == from.Keys + set o | o in items :: o.pair
    ensures forall p :: Held(sources, p) == Held(from, p).(observed := LatestObserved(items, p))
  {
    sources := from;
    for k := 0 to |items|
      invariant sources.Keys == from.Keys + set o | o in items[..k] :: o.pair
      invariant forall p :: Held(sources, p) == Held(from, p).(observed := LatestObserved(items[..k], p))
    {
      assert items[..k + 1] == items[..k] + [items[k]];
      LatestObservedMore(items[..k], items[k]);
      sources := sources[items[k].pair := Held(sources, items[k].pair).(observed := items[k])];
    }
    assert items[..|items|] == items;
  }

  method ApplyDesiredListeners(from: map<Pair, PairSources>, listeners: seq<DesiredListener>)
    returns (sources: map<Pair, PairSources>)
    ensures sources.Keys == from.Keys
    ensures forall p :: p in from ==>
              sources[p] == from[p].(desired := WithListener(from[p].desired, p, LatestListener(listeners, p.listener)))
  {
    var byName: map<string, DesiredListener> := map[];
    for k := 0 to |listeners|
      invariant forall n :: LatestListener(listeners[..k], n) == if n in byName then Some(byName[n]) else None
    {
      assert listeners[..k + 1][..k] == listeners[..k];
      byName := byName[listeners[k].name := listeners[k]];
    }
    assert listeners[..|listeners|] == listeners;

    sources := from;
    var left := from.Keys;
    while left != {}
      invariant left <= from.Keys && sources.Keys == from.Keys
      invariant forall p :: p in left ==> sources[p] == from[p]
      invariant forall p :: p in from && p !in left ==>
        sources[p] == from[p].(desired := WithListener(from[p].desired, p, LatestListener(listeners, p.listener)))
      decreases left
    {
      var pair :| pair in left;
      left := left - {pair};
      var found := if pair.listener in byName then Some(byName[pair.listener]) else None;
      sources := sources[pair := sources[pair].(desired := WithListener(sources[pair].desired, pair, found))];
    }
  }

  /** A specification no recorded section could be compared with changed if its hash did. */
  function ShortCircuited(s: PairSources): PairSources {
    if s.desired.specificationKnown then s
    else s.(desired := s.desired.(specificationChanged :=
              s.recorded.listener.Some? && s.desired.specHash != s.recorded.listener.value.specHash))
  }

  /** One pair with the run-wide facts its classification needs. */
  function Prepared(input: DiffInput, p: Pair): PairSources {
    var target := if p.listener in input.targets then input.targets[p.listener] else NO_TARGET;
    ShortCircuited(Collected(input, p).(instance := input.instance, target := target))
  }

  function Classified(env: Env, input: DiffInput, p: Pair): Classification {
    ClassifyPair(env, Prepared(input, p))
  }

  // ----- the order of a plan -----------------------------------------------------------------------

  predicate PairLess(p: Pair, q: Pair) {
    Less(p.listener, q.listener) || (p.listener == q.listener && Less(p.operation, q.operation))
  }

  lemma PairLessIsOrder()
    ensures StrictOrder(PairLess)
    ensures forall p, q :: p != q ==> PairLess(p, q) || PairLess(q, p)
  {
    LessIsOrder();
  }

  function KindText(kind: ActionKind): string {
    match kind
    case Create => "create"
    case Replace => "replace"
    case Drop => "drop"
    case Rename => "rename"
    case Disable => "disable"
  }

  predicate ActionLess(a: Action, b: Action) {
    PairLess(a.pair, b.pair) || (a.pair == b.pair && Less(KindText(a.kind), KindText(b.kind)))
  }

  lemma ActionLessIsStrict()
    ensures StrictOrder(ActionLess)
  {
    LessIsOrder();
    PairLessIsOrder();
  }

  // ----- the plan ----------------------------------------------------------------------------------

  type Classifier = Pair -> Classification

  function ClassifierOf(env: Env, input: DiffInput): Classifier {
    (p: Pair) => Classified(env, input, p)
  }

  function RefusalsOver(f: Classifier, order: seq<Pair>): seq<Refusal> {
    if order == [] then []
    else
      var last := f(order[|order| - 1]);
      RefusalsOver(f, order[..|order| - 1]) + if last.Refuse? then [last.refusal] else []
  }

  function ActionsOver(f: Classifier, order: seq<Pair>): seq<Action> {
    if order == [] then []
    else
      var last := f(order[|order| - 1]);
      ActionsOver(f, order[..|order| - 1]) + if last.Act? then [last.action] else []
  }

  function Finalised(actions: seq<Action>, examined: nat, refusals: seq<Refusal>): PlanResult {
    if refusals != [] then PlanResult([], examined, refusals, Error)
    else if actions == [] then PlanResult([], examined, [], Clean)
    else PlanResult(actions, examined, [], ChangesPending)
  }

  ghost predicate IsOrderOf(order: seq<Pair>, pairs: set<Pair>) {
    StrictlySorted(order, PairLess) && forall p :: p in order <==> p in pairs
  }

  function PlanOver(f: Classifier, order: seq<Pair>): PlanResult {
    Finalised(Sorted(ActionsOver(f, order), ActionLess), |order|, RefusalsOver(f, order))
  }

  /** The plan of the pairs in their one order. */
  ghost predicate IsPlan(env: Env, input: DiffInput, result: PlanResult) {
    IsPlanOf(ClassifierOf(env, input), AllPairs(input), result)
  }

  ghost predicate IsPlanOf(f: Classifier, pairs: set<Pair>, result: PlanResult) {
    exists order :: IsOrderOf(order, pairs) && result == PlanOver(f, order)
  }

  method OrderedPairs(pairs: set<Pair>) returns (order: seq<Pair>)
    ensures IsOrderOf(order, pairs) && |order| == |pairs|
  {
    order := [];
    var left := pairs;
    while left != {}
      invariant left <= pairs && |order| + |left| == |pairs|
      invariant forall p :: p in order <==> p in pairs - left
      invariant forall i, j :: 0 <= i < j < |order| ==> order[i] != order[j]
      decreases left
    {
      var p :| p in left;
      assert p !in order;
      left := left - {p};
      order := order + [p];
    }
    PairLessIsOrder();
    SortedIsSorted(order, PairLess);
    MembersOf(Sorted(order, PairLess), order);
    order := Sorted(order, PairLess);
  }

  method Diff(env: Env, input: DiffInput) returns (result: PlanResult)
    ensures IsPlan(env, input, result)
    ensures result.examined == |AllPairs(input)|
  {
    var sources := CollectPairSources(input);
    var pairs := OrderedPairs(sources.Keys);
    var actions, refusals := Walk(env, input, sources, pairs);
    assert IsOrderOf(pairs, AllPairs(input));
    var ordered := Sorted(actions, ActionLess);
    SortedIsEmptyIff(actions);
    if refusals != [] {
      result := PlanResult([], |pairs|, refusals, Error);
    } else if ordered == [] {
      result := PlanResult([], |pairs|, [], Clean);
    } else {
      result := PlanResult(ordered, |pairs|, [], ChangesPending);
    }
    assert result == PlanOver(ClassifierOf(env, input), pairs);
  }

  method Walk(env: Env, input: DiffInput, sources: map<Pair, PairSources>, pairs: seq<Pair>)
    returns (actions: seq<Action>, refusals: seq<Refusal>)
    requires forall p :: p in pairs ==> p in sources
    requires forall p :: p in sources ==> sources[p] == Collected(input, p)
    ensures actions == ActionsOver(ClassifierOf(env, input), pairs) && refusals == RefusalsOver(ClassifierOf(env, input), pairs)
  {
    ghost var f := ClassifierOf(env, input);
    actions, refusals := [], [];
    for k := 0 to |pairs|
      invariant actions == ActionsOver(f, pairs[..k]) && refusals == RefusalsOver(f, pairs[..k])
    {
      var classification := ClassifyPair(env, PreparedPairSource(input, sources, pairs[k]));
      assert pairs[..k + 1][..k] == pairs[..k];
      if classification.Refuse? {
        refusals := refusals + [classification.refusal];
      } else if classification.Act? {
        actions := actions + [classification.action];
      }
    }
    assert pairs[..|pairs|] == pairs;
  }

  function PreparedPairSource(input: DiffInput, sources: map<Pair, PairSources>, p: Pair): (s: PairSources)
    requires p in sources
    ensures sources[p] == Collected(input, p) ==> s == Prepared(input, p)
  {
    var target := if p.listener in input.targets then input.targets[p.listener] else NO_TARGET;
    ShortCircuited(sources[p].(instance := input.instance, target := target))
  }

  lemma SortedIsEmptyIff(actions: seq<Action>)
    ensures Sorted(actions, ActionLess) == [] <==> actions == []
  {
    MembersOf(Sorted(actions, ActionLess), actions);
  }

  // ----- what a plan holds -------------------------------------------------------------------------

  lemma LatestIsThatPair(input: DiffInput, p: Pair)
    ensures LatestDesired(input.desired, p).pair in {p, NO_PAIR}
    ensures LatestRecorded(input.recorded, p).pair in {p, NO_PAIR}
    ensures LatestObserved(input.observed, p).pair in {p, NO_PAIR}
    ensures p in AllPairs(input) ==>
              p in {LatestDesired(input.desired, p).pair, LatestRecorded(input.recorded, p).pair, LatestObserved(input.observed, p).pair}
  {
    LatestDesiredPair(input.desired, p);
    LatestRecordedPair(input.recorded, p);
    LatestObservedPair(input.observed, p);
  }

  lemma {:induction false} LatestDesiredPair(items: seq<Desired>, p: Pair)
    ensures LatestDesired(items, p).pair in {p, NO_PAIR}
    ensures (exists d :: d in items && d.pair == p) ==> LatestDesired(items, p).pair == p
    ensures (forall d :: d in items ==> d.pair != p) ==> LatestDesired(items, p) == NOT_DESIRED
  {
    if items != [] {
      LatestDesiredPair(items[..|items| - 1], p);
      assert items == items[..|items| - 1] + [items[|items| - 1]];
    }
  }

  lemma {:induction false} LatestRecordedPair(items: seq<Recorded>, p: Pair)
    ensures LatestRecorded(items, p).pair in {p, NO_PAIR}
    ensures (exists r :: r in items && r.pair == p) ==> LatestRecorded(items, p).pair == p
    ensures (forall r :: r in items ==> r.pair != p) ==> LatestRecorded(items, p) == NOT_RECORDED
  {
    if items != [] {
      LatestRecordedPair(items[..|items| - 1], p);
      assert items == items[..|items| - 1] + [items[|items| - 1]];
    }
  }

  lemma {:induction false} LatestObservedPair(items: seq<Observed>, p: Pair)
    ensures LatestObserved(items, p).pair in {p, NO_PAIR}
    ensures (exists o :: o in items && o.pair == p) ==> LatestObserved(items, p).pair == p
    ensures (forall o :: o in items ==> o.pair != p) ==> LatestObserved(items, p) == NOT_OBSERVED
  {
    if items != [] {
      LatestObservedPair(items[..|items| - 1], p);
      assert items == items[..|items| - 1] + [items[|items| - 1]];
    }
  }

  /** No pair is named for the empty listener, as configuration and registry names are never empty. */
  ghost predicate Named(input: DiffInput) {
    forall p :: p in AllPairs(input) ==> p.listener != ""
  }

  /** An action is planned for the pair it was classified for. */
  lemma ActionIsForItsPair(env: Env, input: DiffInput, p: Pair)
    requires p.listener != "" && p in AllPairs(input) && Classified(env, input, p).Act?
    ensures Classified(env, input, p).action.pair == p
  {
    LatestIsThatPair(input, p);
    ActIsForActionPair(env, Prepared(input, p));
  }

  lemma ActIsForActionPair(env: Env, s: PairSources)
    requires ClassifyPair(env, s).Act?
    ensures ClassifyPair(env, s).action.pair == s.ActionPair()
  {}

  lemma {:induction false} ActionsOverMembers(f: Classifier, order: seq<Pair>, a: Action)
    ensures a in ActionsOver(f, order) <==> exists p :: p in order && f(p) == Act(a)
    decreases |order|
  {
    if order != [] {
      var front, last := order[..|order| - 1], order[|order| - 1];
      ActionsOverMembers(f, front, a);
      assert order == front + [last];
    }
  }

  lemma {:induction false} RefusalsOverMembers(f: Classifier, order: seq<Pair>)
    ensures RefusalsOver(f, order) == [] <==> forall p :: p in order ==> !f(p).Refuse?
    decreases |order|
  {
    if order != [] {
      var front, last := order[..|order| - 1], order[|order| - 1];
      RefusalsOverMembers(f, front);
      assert order == front + [last];
    }
  }

  predicate ByPair(a: Action, b: Action) {
    PairLess(a.pair, b.pair)
  }

  predicate OwnActions(f: Classifier, order: seq<Pair>) {
    forall p :: p in order && f(p).Act? ==> f(p).action.pair == p
  }

  lemma {:induction false} ActionsOverSorted(f: Classifier, order: seq<Pair>)
    requires StrictlySorted(order, PairLess) && OwnActions(f, order)
    ensures StrictlySorted(ActionsOver(f, order), ByPair)
    ensures forall a :: a in ActionsOver(f, order) ==> a.pair in order
    decreases |order|
  {
    if order != [] {
      var front, last := order[..|order| - 1], order[|order| - 1];
      assert order == front + [last];
      ActionsOverSorted(f, front);
      forall a | a in ActionsOver(f, front) ensures PairLess(a.pair, last) {
        var k :| 0 <= k < |front| && front[k] == a.pair;
        assert order[k] == a.pair;
      }
    }
  }

  /** A plan over an order of the pairs, whatever classified them. */
  lemma PlanFacts(f: Classifier, pairs: set<Pair>, result: PlanResult)
    requires IsPlanOf(f, pairs, result) && forall p :: p in pairs && f(p).Act? ==> f(p).action.pair == p
    ensures && StrictlySorted(result.actions, ByPair) && result.examined == |pairs|
            && (result.refusals == [] <==> forall p :: p in pairs ==> !f(p).Refuse?)
            && (result.refusals != [] ==> result.actions == [] && result.verdict == Error)
            && (result.refusals == [] ==>
                  && (forall a :: a in result.actions <==> a.pair in pairs && f(a.pair) == Act(a))
                  && result.verdict == if result.actions == [] then Clean else ChangesPending)
  {
    var order :| IsOrderOf(order, pairs) && result == PlanOver(f, order);
    OrderLength(order, pairs);
    RefusalsOverMembers(f, order);
    ActionsOverSorted(f, order);
    AlreadySorted(ActionsOver(f, order));
    ActionsOverAre(f, order, pairs);
  }

  lemma ActionsOverAre(f: Classifier, order: seq<Pair>, pairs: set<Pair>)
    requires (forall p :: p in order <==> p in pairs) && OwnActions(f, order)
    ensures forall a :: a in ActionsOver(f, order) <==> a.pair in pairs && f(a.pair) == Act(a)
  {
    forall a: Action ensures a in ActionsOver(f, order) <==> a.pair in pairs && f(a.pair) == Act(a) {
      ActionsOverMembers(f, order, a);
    }
  }

  /** A plan without refusals holds exactly the classified actions, at most one per pair, in strictly
      increasing order of the pairs, and it examined exactly the pairs any source names. */
  lemma PlanIsTheClassification(env: Env, input: DiffInput, result: PlanResult)
    requires Named(input) && IsPlan(env, input, result)
    ensures StrictlySorted(result.actions, ByPair)
    ensures result.examined == |AllPairs(input)|
    ensures result.refusals == [] <==> forall p :: p in AllPairs(input) ==> !ClassifierOf(env, input)(p).Refuse?
    ensures result.refusals != [] ==> result.actions == [] && result.verdict == Error
    ensures result.refusals == [] ==>
              && (forall a :: a in result.actions <==> a.pair in AllPairs(input) && ClassifierOf(env, input)(a.pair) == Act(a))
              && result.verdict == if result.actions == [] then Clean else ChangesPending
  {
    var f := ClassifierOf(env, input);
    forall p | p in AllPairs(input) && f(p).Act? ensures f(p).action.pair == p {
      ActionIsForItsPair(env, input, p);
    }
    PlanFacts(f, AllPairs(input), result);
  }

  lemma {:induction false} OrderLength(order: seq<Pair>, pairs: set<Pair>)
    requires IsOrderOf(order, pairs)
    ensures |order| == |pairs|
    decreases |order|
  {
    PairLessIsOrder();
    if order == [] {
      assert pairs == {};
    } else {
      var front, last := order[..|order| - 1], order[|order| - 1];
      assert order == front + [last];
      forall p ensures p in front <==> p in pairs - {last} {
        if p in front {
          assert p in order;
        }
      }
      OrderLength(front, pairs - {last});
    }
  }

  /** What stands in strictly increasing order is its own sorted copy. */
  lemma AlreadySorted(actions: seq<Action>)
    requires StrictlySorted(actions, ByPair)
    ensures Sorted(actions, ActionLess) == actions
  {
    ActionLessIsStrict();
    forall i, j | 0 <= i < j < |actions| ensures ActionLess(actions[i], actions[j]) {
      assert ByPair(actions[i], actions[j]);
    }
    SortedIsSorted(actions, ActionLess);
    MembersOf(Sorted(actions, ActionLess), actions);
    SortedIsUnique(Sorted(actions, ActionLess), actions, ActionLess);
  }

  // ----- determinism -------------------------------------------------------------------------------

  predicate DistinctDesired(items: seq<Desired>) {
    forall i, j :: 0 <= i < j < |items| ==> items[i].pair != items[j].pair
  }

  predicate DistinctRecorded(items: seq<Recorded>) {
    forall i, j :: 0 <= i < j < |items| ==> items[i].pair != items[j].pair
  }

  predicate DistinctObserved(items: seq<Observed>) {
    forall i, j :: 0 <= i < j < |items| ==> items[i].pair != items[j].pair
  }

  predicate DistinctListeners(items: seq<DesiredListener>) {
    forall i, j :: 0 <= i < j < |items| ==> items[i].name != items[j].name
  }

  predicate Distinct(input: DiffInput) {
    DistinctDesired(input.desired) && DistinctRecorded(input.recorded)
    && DistinctObserved(input.observed) && DistinctListeners(input.listeners)
  }

  lemma {:induction false} TheDesired(items: seq<Desired>, d: Desired)
    requires DistinctDesired(items) && d in items
    ensures LatestDesired(items, d.pair) == d
    decreases |items|
  {
    var front, last := items[..|items| - 1], items[|items| - 1];
    assert items == front + [last];
    if d != last {
      TheDesired(front, d);
    }
  }

  lemma {:induction false} TheRecorded(items: seq<Recorded>, r: Recorded)
    requires DistinctRecorded(items) && r in items
    ensures LatestRecorded(items, r.pair) == r
    decreases |items|
  {
    var front, last := items[..|items| - 1], items[|items| - 1];
    assert items == front + [last];
    if r != last {
      TheRecorded(front, r);
    }
  }

  lemma {:induction false} TheObserved(items: seq<Observed>, o: Observed)
    requires DistinctObserved(items) && o in items
    ensures LatestObserved(items, o.pair) == o
    decreases |items|
  {
    var front, last := items[..|items| - 1], items[|items| - 1];
    assert items == front + [last];
    if o != last {
      TheObserved(front, o);
    }
  }

  lemma {:induction false} TheListener(items: seq<DesiredListener>, l: DesiredListener)
    requires DistinctListeners(items) && l in items
    ensures LatestListener(items, l.name) == Some(l)
    decreases |items|
  {
    var front, last := items[..|items| - 1], items[|items| - 1];
    assert items == front + [last];
    if l != last {
      TheListener(front, l);
    }
  }

  lemma {:induction false} ListenerIsOneOf(items: seq<DesiredListener>, name: string)
    ensures LatestListener(items, name).Some? ==> LatestListener(items, name).value in items && LatestListener(items, name).value.name == name
    ensures LatestListener(items, name).None? ==> forall l :: l in items ==> l.name != name
    decreases |items|
  {
    if items != [] {
      ListenerIsOneOf(items[..|items| - 1], name);
      assert items == items[..|items| - 1] + [items[|items| - 1]];
    }
  }

  ghost predicate Permuted(input: DiffInput, other: DiffInput) {
    && (forall d :: d in input.desired <==> d in other.desired)
    && (forall r :: r in input.recorded <==> r in other.recorded)
    && (forall o :: o in input.observed <==> o in other.observed)
    && (forall l :: l in input.listeners <==> l in other.listeners)
    && input.targets == other.targets && input.instance == other.instance
  }

  lemma SameDesired(items: seq<Desired>, others: seq<Desired>, p: Pair)
    requires DistinctDesired(items) && DistinctDesired(others) && forall d :: d in items <==> d in others
    ensures LatestDesired(items, p) == LatestDesired(others, p)
  {
    if d :| d in items && d.pair == p {
      TheDesired(items, d);
      TheDesired(others, d);
    } else {
      LatestDesiredPair(items, p);
      LatestDesiredPair(others, p);
    }
  }

  lemma SameRecorded(items: seq<Recorded>, others: seq<Recorded>, p: Pair)
    requires DistinctRecorded(items) && DistinctRecorded(others) && forall r :: r in items <==> r in others
    ensures LatestRecorded(items, p) == LatestRecorded(others, p)
  {
    if r :| r in items && r.pair == p {
      TheRecorded(items, r);
      TheRecorded(others, r);
    } else {
      LatestRecordedPair(items, p);
      LatestRecordedPair(others, p);
    }
  }

  lemma SameObserved(items: seq<Observed>, others: seq<Observed>, p: Pair)
    requires DistinctObserved(items) && DistinctObserved(others) && forall o :: o in items <==> o in others
    ensures LatestObserved(items, p) == LatestObserved(others, p)
  {
    if o :| o in items && o.pair == p {
      TheObserved(items, o);
      TheObserved(others, o);
    } else {
      LatestObservedPair(items, p);
      LatestObservedPair(others, p);
    }
  }

  lemma SameListener(items: seq<DesiredListener>, others: seq<DesiredListener>, name: string)
    requires DistinctListeners(items) && DistinctListeners(others) && forall l :: l in items <==> l in others
    ensures LatestListener(items, name) == LatestListener(others, name)
  {
    ListenerIsOneOf(items, name);
    ListenerIsOneOf(others, name);
    if LatestListener(items, name).Some? {
      TheListener(others, LatestListener(items, name).value);
    }
  }

  lemma SameClassification(env: Env, input: DiffInput, other: DiffInput, p: Pair)
    requires Distinct(input) && Distinct(other) && Permuted(input, other)
    ensures Classified(env, input, p) == Classified(env, other, p)
  {
    SameDesired(input.desired, other.desired, p);
    SameRecorded(input.recorded, other.recorded, p);
    SameObserved(input.observed, other.observed, p);
    SameListener(input.listeners, other.listeners, p.listener);
    assert Collected(input, p) == Collected(other, p);
    assert Prepared(input, p) == Prepared(other, p);
  }

  /** Plan determinism: with distinct pairs in each source, permuting the lists leaves the whole plan
      as it is, refusals and their order included. */
  lemma PlanIsDeterministic(env: Env, input: DiffInput, other: DiffInput, result: PlanResult, result': PlanResult)
    requires Distinct(input) && Distinct(other) && Permuted(input, other)
    requires IsPlan(env, input, result) && IsPlan(env, other, result')
    ensures result == result'
  {
    SamePairs(input, other);
    var f, f' := ClassifierOf(env, input), ClassifierOf(env, other);
    SameClassifiers(env, input, other);
    SamePlan(f, f', AllPairs(input), result, result');
  }

  lemma SamePairs(input: DiffInput, other: DiffInput)
    requires Permuted(input, other)
    ensures AllPairs(input) == AllPairs(other)
  {
    assert DesiredPairs(input) == DesiredPairs(other);
    assert RecordedPairs(input) == RecordedPairs(other);
    assert ObservedPairs(input) == ObservedPairs(other);
  }

  lemma SameClassifiers(env: Env, input: DiffInput, other: DiffInput)
    requires Distinct(input) && Distinct(other) && Permuted(input, other)
    ensures forall p :: ClassifierOf(env, input)(p) == ClassifierOf(env, other)(p)
  {
    forall p ensures ClassifierOf(env, input)(p) == ClassifierOf(env, other)(p) {
      SameClassification(env, input, other, p);
    }
  }

  lemma SamePlan(f: Classifier, f': Classifier, pairs: set<Pair>, result: PlanResult, result': PlanResult)
    requires forall p :: p in pairs ==> f(p) == f'(p)
    requires IsPlanOf(f, pairs, result) && IsPlanOf(f', pairs, result')
    ensures result == result'
  {
    var order :| IsOrderOf(order, pairs) && result == PlanOver(f, order);
    var order' :| IsOrderOf(order', pairs) && result' == PlanOver(f', order');
    OrderIsUnique(order, order', pairs);
    SameOver(f, f', order);
  }

  lemma OrderIsUnique(order: seq<Pair>, order': seq<Pair>, pairs: set<Pair>)
    requires IsOrderOf(order, pairs) && IsOrderOf(order', pairs)
    ensures order == order'
  {
    PairLessIsOrder();
    SortedIsUnique(order, order', PairLess);
  }

  lemma {:induction false} SameOver(f: Classifier, f': Classifier, order: seq<Pair>)
    requires forall p :: p in order ==> f(p) == f'(p)
    ensures ActionsOver(f, order) == ActionsOver(f', order) && RefusalsOver(f, order) == RefusalsOver(f', order)
    decreases |order|
  {
    if order != [] {
      assert order == order[..|order| - 1] + [order[|order| - 1]];
      SameOver(f, f', order[..|order| - 1]);
    }
  }

  lemma PlanTransfers(f: Classifier, f': Classifier, pairs: set<Pair>, result: PlanResult)
    requires (forall p :: p in pairs ==> f(p) == f'(p)) && IsPlanOf(f, pairs, result)
    ensures IsPlanOf(f', pairs, result)
  {
    var order :| IsOrderOf(order, pairs) && result == PlanOver(f, order);
    SameOver(f, f', order);
  }
}
