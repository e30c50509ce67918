/** What stage E promises of every document it reports nothing about. */
module NormalizeTheorems {
  import opened Options
  import opened Normalize
  import opened NormalizeMeaning
  import opened NormalizeMerge

  // ----- the names in force ------------------------------------------------------------------------

  /** Nothing is reported, and every anchor is held with a reduced tree that says what its name
      denotes. */
  ghost predicate Faithful(st: State, names: Names) {
    st.diags == [] && Holding(st.anchors, names)
  }

  ghost predicate Holding(anchors: map<string, Node>, names: Names) {
    && anchors.Keys == names.Keys
    && forall name :: name in anchors ==> Means(anchors[name], names[name])
  }

  ghost predicate Means(n: Node, d: Doc) {
    Clean(n) && Plain(n) == d
  }

  lemma Remembered(anchors: map<string, Node>, names: Names, name: string, n: Node, d: Doc)
    requires Holding(anchors, names) && Means(n, d)
    ensures Holding(anchors[name := n], names[name := d])
  {}

  /** An anchor written on a key names the key's own scalar. */
  lemma {:induction false} KeyAnchorsMean(key: Node, anchors: map<string, Node>, names: Names)
    requires (LegalKey(key) || TaggedScalar(key)) && Holding(anchors, names)
    ensures Holding(RememberAnchoredKey(key, anchors), NamesOfKey(key, names))
    decreases key
  {
    match key
    case Anchor(name, v) =>
      TaggedScalarIsClean(v);
      Remembered(anchors, names, name, v, KeyDoc(v));
      KeyAnchorsMean(v, anchors[name := v], names[name := KeyDoc(v)]);
    case Tag(_, v) => KeyAnchorsMean(v, anchors, names);
    case Explicit(k) => KeyAnchorsMean(k, anchors, names);
    case _ =>
  }

  // ----- the operations list -----------------------------------------------------------------------

  /** A list element that became a key is a scalar, known as a key by what it denotes. */
  lemma {:induction false} ElementAsKey(n: Node)
    requires Clean(n) && OperationKeyFault(n).None?
    ensures TaggedScalar(n) && LegalKey(n) && BeneathKey(n) == Beneath(n) && !IsMergeKey(n)
    ensures DocIdentity(Plain(n)) == KeyIdentity(n)
    decreases n
  {
    if n.Tag? {
      ElementAsKey(n.tagged);
    }
  }

  lemma ListedMore(items: seq<Doc>, d: Doc)
    ensures ListedOperations(items + [d]) == ListedOperations(items)[DocIdentity(d) := DMap(map[])]
  {
    assert (items + [d])[..|items|] == items;
  }

  lemma {:induction false} FoldMeans(elements: seq<Node>, st: State)
    requires CleanElements(elements)
    ensures var f := OperationEntriesOf(elements, st);
            f.complete ==>
              && CleanEntries(f.entries) && f.named == Identities(f.entries) && f.state == st
              && PlainEntries(f.entries) == ListedOperations(PlainElements(elements))
    ensures var f := OperationEntriesOf(elements, st); !f.complete ==> f.state.diags != []
    decreases |elements|
  {
    if elements != [] {
      var front, last := elements[..|elements| - 1], elements[|elements| - 1];
      assert CleanElements(front) && Clean(last) && !last.Alias?;
      FoldMeans(front, st);
      var f := OperationEntriesOf(front, st);
      if f.complete && OperationKeyFault(last).None? && KeyIdentity(last) !in f.named {
        ElementAsKey(last);
        var e := Entry(last, Mapping([]));
        PlainMore(f.entries, e);
        ListedMore(PlainElements(front), Plain(last));
        CleanMore(f.entries, e);
        IdentitiesMore(f.entries, e);
      }
    }
  }

  /** The folded value is no list any more, and says what the list said. */
  lemma FoldedMeans(key: Node, value: Node, st: State)
    requires Clean(value) && LegalKey(key) && !IsMergeKey(key) && FoldedOperations(key, value, st).1.diags == []
    ensures CleanEntry(Entry(key, FoldedOperations(key, value, st).0))
    ensures Plain(FoldedOperations(key, value, st).0) == WithoutSugar(key, Plain(value))
    ensures FoldedOperations(key, value, st).1 == st
  {
    if IsOperations(key) {
      BeneathPlain(value);
      if Beneath(value).Sequence? {
        FoldMeans(Beneath(value).elements, st);
      }
    }
  }

  // ----- the walk ----------------------------------------------------------------------------------

  function DirectKeys(entries: seq<Entry>): set<KeyId> {
    set e | e in entries && !IsMergeKey(e.key) :: KeyIdentity(e.key)
  }

  lemma DirectMore(front: seq<Entry>, e: Entry)
    ensures DirectKeys(front + [e]) == DirectKeys(front) + if IsMergeKey(e.key) then {} else {KeyIdentity(e.key)}
  {
    assert e in front + [e];
  }

  lemma ParsedFront(entries: seq<Entry>)
    requires ParsedEntries(entries) && entries != []
    ensures ParsedEntries(entries[..|entries| - 1]) && ParsedEntry(entries[|entries| - 1])
    ensures !IsMergeKey(entries[|entries| - 1].key) ==>
              KeyIdentity(entries[|entries| - 1].key) !in DirectKeys(entries[..|entries| - 1])
  {}

  /** What the walk over a mapping's entries has built. */
  ghost predicate WalkMeans(entries: seq<Entry>, w: Walk, d: Denoted) {
    && CleanEntries(w.direct) && CleanSources(w.sources)
    && Identities(w.direct) == DirectKeys(entries)
    && PlainEntries(w.direct) == d.direct && SourcesMap(w.sources) == d.merged
    && (|w.direct| == |entries| ==> w.sources == []) && |w.direct| <= |entries|
    && Faithful(w.state, d.names)
  }

  lemma {:induction false} ValueMeans(n: Node, st: State, names: Names)
    requires Parsed(n) && Faithful(st, names) && ReduceValue(n, st).1.diags == []
    ensures Means(ReduceValue(n, st).0, Denote(n, names, AtEnd).0)
    ensures Faithful(ReduceValue(n, st).1, Denote(n, names, AtEnd).1)
    decreases Size(n), 1
  {
    match n
    case Alias(name) =>
    case Anchor(name, v) =>
      var inside := st.(reducing := st.reducing + {name});
      ValueMeans(v, inside, names);
      Remembered(ReduceValue(v, inside).1.anchors, Denote(v, names, AtEnd).1, name, ReduceValue(v, inside).0, Denote(v, names, AtEnd).0);
    case _ => WithinMeans(n, st, names);
  }

  lemma {:induction false} WithinMeans(n: Node, st: State, names: Names)
    requires Parsed(n) && Faithful(st, names) && ReduceWithin(n, st).1.diags == []
    ensures Means(ReduceWithin(n, st).0, Denote(n, names, AtEnd).0)
    ensures Faithful(ReduceWithin(n, st).1, Denote(n, names, AtEnd).1)
    decreases Size(n), 0
  {
    match n
    case Mapping(entries) =>
      EntriesMean(entries, st, names);
      var w := WalkEntries(entries, st);
      ExpansionMeans(w.direct, w.sources);
      if |w.direct| == |entries| {
        assert ExpandedWith(w.direct, []) == w.direct;
      }
    case Sequence(elements) => ElementsMean(elements, st, names);
    case Tag(_, v) => ValueMeans(v, st, names);
    case _ =>
  }

  lemma {:induction false} ElementsMean(elements: seq<Node>, st: State, names: Names)
    requires (forall i :: 0 <= i < |elements| ==> Parsed(elements[i]))
    requires Faithful(st, names) && ReduceElements(elements, st).1.diags == []
    ensures CleanElements(ReduceElements(elements, st).0)
    ensures PlainElements(ReduceElements(elements, st).0) == DenoteElements(elements, names, AtEnd).0
    ensures Faithful(ReduceElements(elements, st).1, DenoteElements(elements, names, AtEnd).1)
    decreases SizeOfElements(elements), 0
  {
    if elements != [] {
      var front, last := elements[..|elements| - 1], elements[|elements| - 1];
      var (before, mid) := ReduceElements(front, st);
      ElementsMean(front, st, names);
      ValueMeans(last, mid, DenoteElements(front, names, AtEnd).1);
      PlainElementsMore(before, ReduceValue(last, mid).0);
    }
  }

  lemma {:induction false} EntriesMean(entries: seq<Entry>, st: State, names: Names)
    requires ParsedEntries(entries) && Faithful(st, names) && WalkEntries(entries, st).state.diags == []
    ensures WalkMeans(entries, WalkEntries(entries, st), DenoteEntries(entries, names, AtEnd))
    decreases SizeOfEntries(entries), 0
  {
    if entries != [] {
      var front, e := entries[..|entries| - 1], entries[|entries| - 1];
      assert entries == front + [e];
      ParsedFront(entries);
      DirectMore(front, e);
      var w, d := WalkEntries(front, st), DenoteEntries(front, names, AtEnd);
      EntriesMean(front, st, names);
      KeyAnchorsMean(e.key, w.state.anchors, d.names);
      var mid := w.state.(anchors := RememberAnchoredKey(e.key, w.state.anchors));
      if IsMergeKey(e.key) {
        MergeMeans(e.value, mid, NamesOfKey(e.key, d.names));
        SourcesTogether(w.sources, MergedMappings(e.value, mid).0);
      } else {
        ValueMeans(e.value, mid, NamesOfKey(e.key, d.names));
        var (r, reduced) := ReduceValue(e.value, mid);
        FoldedMeans(e.key, r, reduced);
        var entry := Entry(e.key, FoldedOperations(e.key, r, reduced).0);
        PlainMore(w.direct, entry);
        CleanMore(w.direct, entry);
        IdentitiesMore(w.direct, entry);
      }
    }
  }

  lemma {:induction false} MergeMeans(named: Node, st: State, names: Names)
    requires Parsed(named) && Faithful(st, names) && MergedMappings(named, st).1.diags == []
    ensures CleanSources(MergedMappings(named, st).0)
    ensures SourcesMap(MergedMappings(named, st).0) == Merged(Denote(named, names, AtEnd).0)
    ensures Faithful(MergedMappings(named, st).1, Denote(named, names, AtEnd).1)
    decreases Size(named), 2
  {
    if named.Alias? {
      MergeSourcesMean(st.anchors[named.target]);
    } else {
      ValueMeans(named, st, names);
      MergeSourcesMean(ReduceValue(named, st).0);
    }
  }

  // ----- the main results --------------------------------------------------------------------------

  /** When stage E reports nothing, the tree holds no alias, no anchor, no merge entry and no operations
      list in a value position, holds no key twice, and says exactly what the document said by the stage's
      own rule for anchors. */
  lemma NormalizationSaysTheSame(root: Node)
    requires Parsed(root) && Normalized(root).1.diags == []
    ensures Clean(Normalized(root).0)
    ensures Plain(Normalized(root).0) == Denote(root, map[], AtEnd).0
  {
    WithinMeans(root, START, map[]);
  }

  /** Looking a key up: the value written directly, else the first source's that holds it. */
  lemma LookupPrecedence(direct: seq<Entry>, sources: seq<seq<Entry>>, i: nat, k: KeyId)
    requires CleanEntries(direct) && CleanSources(sources)
    ensures k in PlainEntries(direct) ==>
              k in PlainEntries(ExpandedWith(direct, sources))
              && PlainEntries(ExpandedWith(direct, sources))[k] == PlainEntries(direct)[k]
    ensures i < |sources| && k !in PlainEntries(direct) && k in PlainEntries(sources[i])
            && (forall j :: 0 <= j < i ==> k !in PlainEntries(sources[j])) ==>
              k in PlainEntries(ExpandedWith(direct, sources))
              && PlainEntries(ExpandedWith(direct, sources))[k] == PlainEntries(sources[i])[k]
    ensures k !in PlainEntries(direct) && (forall j :: 0 <= j < |sources| ==> k !in PlainEntries(sources[j])) ==>
              k !in PlainEntries(ExpandedWith(direct, sources))
  {
    ExpansionMeans(direct, sources);
    if k !in PlainEntries(direct) {
      FirstSourceHolds(sources, i, k);
    }
  }

  lemma {:induction false} FirstSourceHolds(sources: seq<seq<Entry>>, i: nat, k: KeyId)
    ensures i < |sources| && k in PlainEntries(sources[i]) && (forall j :: 0 <= j < i ==> k !in PlainEntries(sources[j])) ==>
              k in SourcesMap(sources) && SourcesMap(sources)[k] == PlainEntries(sources[i])[k]
    ensures (forall j :: 0 <= j < |sources| ==> k !in PlainEntries(sources[j])) ==> k !in SourcesMap(sources)
    decreases |sources|
  {
    if sources != [] {
      var front := sources[..|sources| - 1];
      FirstSourceHolds(front, i, k);
      if i == |front| && (forall j :: 0 <= j < i ==> k !in PlainEntries(sources[j])) {
        assert forall j :: 0 <= j < |front| ==> front[j] == sources[j];
      }
    }
  }

  // ----- normalizing again -------------------------------------------------------------------------

  lemma {:induction false} CleanIsKept(n: Node, st: State)
    requires Clean(n)
    ensures ReduceValue(n, st).0 == n && ReduceValue(n, st).1.diags == st.diags
    ensures ReduceWithin(n, st) == ReduceValue(n, st)
    decreases Size(n), 1
  {
    match n
    case Mapping(entries) => CleanEntriesAreKept(entries, st);
    case Sequence(elements) => CleanElementsAreKept(elements, st);
    case Tag(_, v) => CleanIsKept(v, st);
    case _ =>
  }

  lemma {:induction false} CleanElementsAreKept(elements: seq<Node>, st: State)
    requires CleanElements(elements)
    ensures ReduceElements(elements, st).0 == elements && ReduceElements(elements, st).1.diags == st.diags
    decreases SizeOfElements(elements), 0
  {
    if elements != [] {
      var front, last := elements[..|elements| - 1], elements[|elements| - 1];
      CleanElementsAreKept(front, st);
      CleanIsKept(last, ReduceElements(front, st).1);
      assert elements == front + [last];
    }
  }

  lemma {:induction false} CleanEntriesAreKept(entries: seq<Entry>, st: State)
    requires CleanEntries(entries)
    ensures WalkEntries(entries, st).direct == entries && WalkEntries(entries, st).state.diags == st.diags
    decreases SizeOfEntries(entries), 0
  {
    if entries != [] {
      var front, e := entries[..|entries| - 1], entries[|entries| - 1];
      CleanFront(entries);
      CleanEntriesAreKept(front, st);
      var w := WalkEntries(front, st);
      CleanIsKept(e.value, w.state.(anchors := RememberAnchoredKey(e.key, w.state.anchors)));
      assert entries == front + [e];
    }
  }

  /** A second run of the stage changes nothing and reports nothing. */
  lemma NormalizingAgainChangesNothing(root: Node)
    requires Parsed(root) && Normalized(root).1.diags == []
    ensures Normalized(Normalized(root).0).0 == Normalized(root).0
    ensures Normalized(Normalized(root).0).1.diags == []
  {
    NormalizationSaysTheSame(root);
    CleanIsKept(Normalized(root).0, START);
  }
}
