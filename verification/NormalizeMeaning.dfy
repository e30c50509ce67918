/** What a document denotes, by the stage's own rule for anchors and by YAML's, and what its reduced tree
    denotes by reading it off. */
module NormalizeMeaning {
  import opened Options
  import opened Normalize

  // ----- what a document denotes -------------------------------------------------------------------

  /** A value, with every spelling of it gone. A mapping is a map from what its keys identify; `DOpen` is what
      a name stands for while the value it is written on is still being read. */
  datatype Doc =
    | DText(text: string)
    | DScalar(kind: string, value: string)
    | DMap(held: map<KeyId, Doc>)
    | DSeq(items: seq<Doc>)
    | DTag(tag: string, tagged: Doc)
    | DOpen
    | DBad

  type Names = map<string, Doc>

  function BeneathDoc(d: Doc): Doc {
    match d
    case DTag(_, v) => BeneathDoc(v)
    case _ => d
  }

  /** What a key written as an anchored scalar makes its anchor name. */
  function KeyDoc(key: Node): Doc {
    match key
    case Text(t) => DText(t)
    case Scalar(kind, value) => DScalar(kind, value)
    case Tag(tag, v) => DTag(tag, KeyDoc(v))
    case _ => DBad
  }

  function NamesOfKey(key: Node, names: Names): Names {
    match key
    case Anchor(name, v) => NamesOfKey(v, names[name := KeyDoc(v)])
    case Tag(_, v) => NamesOfKey(v, names)
    case Explicit(k) => NamesOfKey(k, names)
    case _ => names
  }

  /** The identity a list element has as a key. */
  function DocIdentity(d: Doc): KeyId {
    match BeneathDoc(d)
    case DText(t) => TextId(t)
    case DScalar(kind, value) => ScalarId(kind, value)
    case _ => OtherId(MergeMark)
  }

  function ListedOperations(items: seq<Doc>): map<KeyId, Doc> {
    if items == [] then map[]
    else ListedOperations(items[..|items| - 1])[DocIdentity(items[|items| - 1]) := DMap(map[])]
  }

  /** `operations: [a, b]` says what `operations: {a: {}, b: {}}` says. */
  function WithoutSugar(key: Node, d: Doc): Doc {
    if IsOperations(key) && BeneathDoc(d).DSeq? then DMap(ListedOperations(BeneathDoc(d).items)) else d
  }

  /** The mappings of a list, the earlier one winning. */
  function MergedList(items: seq<Doc>): map<KeyId, Doc> {
    if items == [] then map[]
    else
      var last := BeneathDoc(items[|items| - 1]);
      (if last.DMap? then last.held else map[]) + MergedList(items[..|items| - 1])
  }

  function Merged(d: Doc): map<KeyId, Doc> {
    match BeneathDoc(d)
    case DMap(held) => held
    case DSeq(items) => MergedList(items)
    case _ => map[]
  }

  /** When an anchor comes to name its value. In this stage it does once the value is complete. In YAML an
      alias names the most recent anchor before it (sections 3.2.2.2 and 7.1 of YAML 1.2.2), and an anchor is
      written before its value. */
  datatype Rule = AtEnd | AtStart

  function Inside(names: Names, name: string, rule: Rule): Names {
    if rule.AtStart? then names[name := DOpen] else names
  }

  /** The names after an anchored value. By YAML's rule an anchor of the same name within it is the more
      recent one. */
  function Completed(names: Names, name: string, d: Doc, rule: Rule): Names {
    if rule.AtEnd? || (name in names && names[name].DOpen?) then names[name := d] else names
  }

  /** What a node denotes where the names above it denote what `names` says, and the names after it. */
  function Denote(n: Node, names: Names, rule: Rule): (Doc, Names)
    decreases Size(n), 1
  {
    match n
    case Text(t) => (DText(t), names)
    case Scalar(kind, value) => (DScalar(kind, value), names)
    case Alias(name) => (if name in names then names[name] else DBad, names)
    case Anchor(name, v) =>
      var (d, after) := Denote(v, Inside(names, name, rule), rule);
      (d, Completed(after, name, d, rule))
    case Tag(tag, v) =>
      var (d, after) := Denote(v, names, rule);
      (DTag(tag, d), after)
    case Sequence(elements) =>
      var (items, after) := DenoteElements(elements, names, rule);
      (DSeq(items), after)
    case Mapping(entries) =>
      var e := DenoteEntries(entries, names, rule);
      // What is written in the mapping wins over what is merged into it, wherever the `<<` stands.
      (DMap(e.merged + e.direct), e.names)
    case _ => (DBad, names)
  }

  function DenoteElements(elements: seq<Node>, names: Names, rule: Rule): (seq<Doc>, Names)
    decreases SizeOfElements(elements), 0
  {
    if elements == [] then ([], names)
    else
      var (before, mid) := DenoteElements(elements[..|elements| - 1], names, rule);
      var (d, after) := Denote(elements[|elements| - 1], mid, rule);
      (before + [d], after)
  }

  datatype Denoted = Denoted(direct: map<KeyId, Doc>, merged: map<KeyId, Doc>, names: Names)

  function DenoteEntries(entries: seq<Entry>, names: Names, rule: Rule): Denoted
    decreases SizeOfEntries(entries), 0
  {
    if entries == [] then Denoted(map[], map[], names)
    else
      var w, e := DenoteEntries(entries[..|entries| - 1], names, rule), entries[|entries| - 1];
      var (d, after) := Denote(e.value, NamesOfKey(e.key, w.names), rule);
      if IsMergeKey(e.key) then Denoted(w.direct, Merged(d) + w.merged, after)
      else Denoted(w.direct[KeyIdentity(e.key) := WithoutSugar(e.key, d)], w.merged, after)
  }

  // ----- reading a reduced tree off ----------------------------------------------------------------

  /** A tree with no alias, no anchor and no merge entry in a value position, and no operations list. */
  predicate Clean(n: Node) {
    match n
    case Text(_) => true
    case Scalar(_, _) => true
    case Tag(_, v) => Clean(v)
    case Sequence(elements) => CleanElements(elements)
    case Mapping(entries) => CleanEntries(entries)
    case _ => false
  }

  predicate CleanElements(elements: seq<Node>) {
    forall i :: 0 <= i < |elements| ==> Clean(elements[i])
  }

  /** No key is written twice, and every entry is one the later stages expect. */
  predicate CleanEntries(entries: seq<Entry>) {
    DistinctKeys(entries) && forall i :: 0 <= i < |entries| ==> CleanEntry(entries[i])
  }

  predicate DistinctKeys(entries: seq<Entry>) {
    forall i, j :: 0 <= i < j < |entries| ==> KeyIdentity(entries[i].key) != KeyIdentity(entries[j].key)
  }

  predicate CleanEntry(e: Entry) {
    !IsMergeKey(e.key) && LegalKey(e.key) && Clean(e.value) && !(IsOperations(e.key) && Beneath(e.value).Sequence?)
  }

  /** A scalar beneath tags. */
  predicate TaggedScalar(n: Node) {
    match n
    case Text(_) => true
    case Scalar(_, _) => true
    case Tag(_, v) => TaggedScalar(v)
    case _ => false
  }

  /** The keys a document can write: a scalar or the merge mark, beneath a `?`, tags and at most one
      anchor; an alias in a key position was refused by the stage before. */
  predicate LegalKey(key: Node) {
    match key
    case Text(_) => true
    case Scalar(_, _) => true
    case MergeMark => true
    case Tag(_, v) => LegalKey(v)
    case Explicit(k) => LegalKey(k)
    case Anchor(_, v) => TaggedScalar(v)
    case _ => false
  }

  predicate Parsed(n: Node) {
    match n
    case Tag(_, v) => Parsed(v)
    case Anchor(_, v) => Parsed(v)
    case Sequence(elements) => forall i :: 0 <= i < |elements| ==> Parsed(elements[i])
    case Mapping(entries) => ParsedEntries(entries)
    case _ => true
  }

  /** The parser refused a mapping whose author wrote one key twice. */
  predicate ParsedEntries(entries: seq<Entry>) {
    && (forall i :: 0 <= i < |entries| ==> ParsedEntry(entries[i]))
    && forall i, j :: 0 <= i < j < |entries| && !IsMergeKey(entries[i].key) && !IsMergeKey(entries[j].key) ==>
         KeyIdentity(entries[i].key) != KeyIdentity(entries[j].key)
  }

  predicate ParsedEntry(e: Entry) {
    LegalKey(e.key) && Parsed(e.value)
  }

  function Plain(n: Node): Doc
    decreases Size(n)
  {
    match n
    case Text(t) => DText(t)
    case Scalar(kind, value) => DScalar(kind, value)
    case Tag(tag, v) => DTag(tag, Plain(v))
    case Sequence(elements) => DSeq(PlainElements(elements))
    case Mapping(entries) => DMap(PlainEntries(entries))
    case _ => DBad
  }

  function PlainElements(elements: seq<Node>): seq<Doc>
    decreases SizeOfElements(elements)
  {
    if elements == [] then [] else PlainElements(elements[..|elements| - 1]) + [Plain(elements[|elements| - 1])]
  }

  function PlainEntries(entries: seq<Entry>): map<KeyId, Doc>
    decreases SizeOfEntries(entries)
  {
    if entries == [] then map[]
    else
      var e := entries[|entries| - 1];
      PlainEntries(entries[..|entries| - 1])[KeyIdentity(e.key) := Plain(e.value)]
  }
}
