/** Stage E of the configuration loader (internal/config normalize.go, mergekey.go, anchor.go,
    listsugar.go): the one shape every spelling of a document is reduced to. */
module Normalize {
  import opened Options

  // ----- the tree the parser yields ----------------------------------------------------------------

  /** `Text` and `Scalar` are the scalars that hold text and those that hold another value;
      `Explicit` is the `?` a key may carry, and `MergeMark` the key `<<`. */
  datatype Node =
    | Text(text: string)
    | Scalar(kind: string, value: string)
    | Mapping(entries: seq<Entry>)
    | Sequence(elements: seq<Node>)
    | Tag(tag: string, tagged: Node)
    | Anchor(name: string, anchored: Node)
    | Alias(target: string)
    | Explicit(key: Node)
    | MergeMark

  datatype Entry = Entry(key: Node, value: Node)

  /** The value a node carries beneath its anchor and its tags. */
  function Beneath(n: Node): Node {
    match n
    case Anchor(_, v) => Beneath(v)
    case Tag(_, v) => Beneath(v)
    case _ => n
  }

  function BeneathKey(n: Node): Node {
    match n
    case Anchor(_, v) => BeneathKey(v)
    case Tag(_, v) => BeneathKey(v)
    case Explicit(k) => BeneathKey(k)
    case _ => n
  }

  /** What makes two keys the same key: the value beneath whatever the key is written inside. */
  datatype KeyId = TextId(text: string) | ScalarId(kind: string, value: string) | OtherId(node: Node)

  function KeyIdentity(key: Node): KeyId {
    match BeneathKey(key)
    case Text(t) => TextId(t)
    case Scalar(kind, value) => ScalarId(kind, value)
    case other => OtherId(other)
  }

  predicate IsMergeKey(key: Node) {
    BeneathKey(key).MergeMark?
  }

  const OPERATIONS_KEY := "operations"

  predicate IsOperations(key: Node) {
    BeneathKey(key) == Text(OPERATIONS_KEY)
  }

  // ----- the state of a run ------------------------------------------------------------------------

  datatype Fault =
    | UndefinedAlias | SelfReferentialAnchor | NonMappingMergeSource
    | UnnameableOperation | RepeatedOperation | ReferenceInKey | UnreadableKey | UnreducibleShape

  datatype State = State(anchors: map<string, Node>, reducing: set<string>, diags: seq<Fault>) {
    function Report(fault: Fault): State {
      this.(diags := diags + [fault])
    }

    function Unresolvable(name: string): Fault {
      if name in reducing then SelfReferentialAnchor else UndefinedAlias
    }
  }

  const START := State(map[], {}, [])

  /** Every anchor a key position declares. */
  function RememberAnchoredKey(key: Node, anchors: map<string, Node>): map<string, Node> {
    match key
    case Anchor(name, v) => RememberAnchoredKey(v, anchors[name := v])
    case Tag(_, v) => RememberAnchoredKey(v, anchors)
    case Explicit(k) => RememberAnchoredKey(k, anchors)
    case _ => anchors
  }

  // ----- merge keys --------------------------------------------------------------------------------

  function Identities(entries: seq<Entry>): set<KeyId> {
    set e | e in entries :: KeyIdentity(e.key)
  }

  /** The entries a source adds to what is held, and what is held then. */
  function Inherited(source: seq<Entry>, held: set<KeyId>): (seq<Entry>, set<KeyId>) {
    if source == [] then ([], held)
    else
      var (before, held) := Inherited(source[..|source| - 1], held);
      var e := source[|source| - 1];
      if KeyIdentity(e.key) in held then (before, held) else (before + [e], held + {KeyIdentity(e.key)})
  }

  function InheritedAll(sources: seq<seq<Entry>>, held: set<KeyId>): (seq<Entry>, set<KeyId>) {
    if sources == [] then ([], held)
    else
      var (before, held) := InheritedAll(sources[..|sources| - 1], held);
      var (more, held) := Inherited(sources[|sources| - 1], held);
      (before + more, held)
  }

  function ExpandedWith(direct: seq<Entry>, sources: seq<seq<Entry>>): seq<Entry> {
    direct + InheritedAll(sources, Identities(direct)).0
  }

  /** The mappings a resolved merge value names: itself, or every element of a list of mappings. */
  function ListedSources(elements: seq<Node>): Option<seq<seq<Entry>>> {
    if elements == [] then Some([])
    else
      var before, last := ListedSources(elements[..|elements| - 1]), elements[|elements| - 1];
      if before.None? then None
      else if last.Alias? then before
      else if Beneath(last).Mapping? then Some(before.value + [Beneath(last).entries])
      else None
  }

  function MergeSourcesOf(held: Node): Option<seq<seq<Entry>>> {
    match held
    case Mapping(entries) => Some([entries])
    case Sequence(elements) => ListedSources(elements)
    case _ => None
  }

  // ----- the operations list -----------------------------------------------------------------------

  predicate HoldsReference(text: string) {
    exists k :: 0 <= k < |text| - 1 && text[k] == '$' && text[k + 1] == '{'
  }

  /** Why a list element cannot become a key. */
  function OperationKeyFault(element: Node): Option<Fault> {
    if element.Mapping? || element.Sequence? then Some(UnnameableOperation)
    else match BeneathKey(element)
      case Text(t) => if HoldsReference(t) then Some(ReferenceInKey) else None
      case Scalar(_, _) => None
      case _ => Some(UnreadableKey)
  }

  datatype Folding = Folding(entries: seq<Entry>, named: set<KeyId>, complete: bool, state: State)

  function OperationEntriesOf(elements: seq<Node>, st: State): (f: Folding)
    ensures |st.diags| <= |f.state.diags|
  {
    if elements == [] then Folding([], {}, true, st)
    else
      var f, last := OperationEntriesOf(elements[..|elements| - 1], st), elements[|elements| - 1];
      if last.Alias? then f.(complete := false)
      else if OperationKeyFault(last).Some? then f.(complete := false, state := f.state.Report(OperationKeyFault(last).value))
      else if KeyIdentity(last) in f.named then f.(complete := false, state := f.state.Report(RepeatedOperation))
      else f.(entries := f.entries + [Entry(last, Mapping([]))], named := f.named + {KeyIdentity(last)})
  }

  function FoldedOperations(key: Node, value: Node, st: State): (r: (Node, State))
    ensures |st.diags| <= |r.1.diags|
  {
    if !IsOperations(key) || !Beneath(value).Sequence? then (value, st)
    else
      var f := OperationEntriesOf(Beneath(value).elements, st);
      (if f.complete then Mapping(f.entries) else value, f.state)
  }

  // ----- the walk ----------------------------------------------------------------------------------

  function Size(n: Node): nat
    decreases n
  {
    match n
    case Mapping(entries) => 1 + SizeOfEntries(entries)
    case Sequence(elements) => 1 + SizeOfElements(elements)
    case Tag(_, v) => 1 + Size(v)
    case Anchor(_, v) => 1 + Size(v)
    case _ => 1
  }

  function SizeOfEntries(entries: seq<Entry>): nat
    decreases entries
  {
    if entries == [] then 0 else SizeOfEntries(entries[..|entries| - 1]) + 1 + SizeOfValue(entries[|entries| - 1])
  }

  function SizeOfValue(e: Entry): (size: nat)
    ensures size == Size(e.value)
    decreases e
  {
    Size(e.value)
  }

  function SizeOfElements(elements: seq<Node>): nat
    decreases elements
  {
    if elements == [] then 0 else SizeOfElements(elements[..|elements| - 1]) + 1 + Size(elements[|elements| - 1])
  }

  function ReduceValue(n: Node, st: State): (r: (Node, State))
    ensures |st.diags| <= |r.1.diags|
    decreases Size(n), 1
  {
    match n
    case Alias(name) => if name in st.anchors then (st.anchors[name], st) else (n, st.Report(st.Unresolvable(name)))
    case Anchor(name, v) =>
      var (r, after) := ReduceValue(v, st.(reducing := st.reducing + {name}));
      (r, after.(anchors := after.anchors[name := r], reducing := after.reducing - {name}))
    case _ => ReduceWithin(n, st)
  }

  function ReduceWithin(n: Node, st: State): (r: (Node, State))
    ensures |st.diags| <= |r.1.diags|
    decreases Size(n), 0
  {
    match n
    case Text(_) => (n, st)
    case Scalar(_, _) => (n, st)
    case Mapping(entries) =>
      var walk := WalkEntries(entries, st);
      (Mapping(if |walk.direct| == |entries| then walk.direct else ExpandedWith(walk.direct, walk.sources)), walk.state)
    case Sequence(elements) =>
      var (reduced, after) := ReduceElements(elements, st);
      (Sequence(reduced), after)
    case Tag(tag, v) =>
      var (r, after) := ReduceValue(v, st);
      (Tag(tag, r), after)
    case _ => (n, st.Report(UnreducibleShape))
  }

  function ReduceElements(elements: seq<Node>, st: State): (r: (seq<Node>, State))
    ensures |st.diags| <= |r.1.diags|
    decreases SizeOfElements(elements), 0
  {
    if elements == [] then ([], st)
    else
      var (before, mid) := ReduceElements(elements[..|elements| - 1], st);
      var (r, after) := ReduceValue(elements[|elements| - 1], mid);
      (before + [r], after)
  }

  /** The entries read so far: those written directly, and the sources the merge keys named. */
  datatype Walk = Walk(direct: seq<Entry>, sources: seq<seq<Entry>>, state: State)

  function WalkEntries(entries: seq<Entry>, st: State): (w: Walk)
    ensures |st.diags| <= |w.state.diags|
    decreases SizeOfEntries(entries), 0
  {
    if entries == [] then Walk([], [], st)
    else
      var w, e := WalkEntries(entries[..|entries| - 1], st), entries[|entries| - 1];
      var mid := w.state.(anchors := RememberAnchoredKey(e.key, w.state.anchors));
      if IsMergeKey(e.key) then
        var (more, after) := MergedMappings(e.value, mid);
        Walk(w.direct, w.sources + more, after)
      else
        var (r, reduced) := ReduceValue(e.value, mid);
        var (folded, after) := FoldedOperations(e.key, r, reduced);
        Walk(w.direct + [Entry(e.key, folded)], w.sources, after)
  }

  function MergedMappings(named: Node, st: State): (r: (seq<seq<Entry>>, State))
    ensures |st.diags| <= |r.1.diags|
    decreases Size(named), 2
  {
    if named.Alias? && named.target !in st.anchors then ([], st.Report(st.Unresolvable(named.target)))
    else
      var (r, after) := if named.Alias? then (st.anchors[named.target], st) else ReduceValue(named, st);
      var sources := MergeSourcesOf(Beneath(r));
      if sources.None? then ([], after.Report(NonMappingMergeSource)) else (sources.value, after)
  }

  function Normalized(root: Node): (Node, State) {
    ReduceWithin(root, START)
  }
}
