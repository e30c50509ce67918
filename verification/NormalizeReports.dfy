/** Exactly which documents stage E reports nothing about, said of what the document denotes. */
module NormalizeReports {
  import opened Options
  import opened Normalize
  import opened NormalizeMeaning
  import opened NormalizeMerge
  import opened NormalizeTheorems

  // ----- what a document must be -------------------------------------------------------------------

  predicate MergeableItems(items: seq<Doc>) {
    forall i :: 0 <= i < |items| ==> BeneathDoc(items[i]).DMap?
  }

  /** What may stand behind a `<<`: a mapping, or a list of mappings. */
  predicate Mergeable(d: Doc) {
    BeneathDoc(d).DMap? || (BeneathDoc(d).DSeq? && MergeableItems(BeneathDoc(d).items))
  }

  /** What may stand in an operations list: a scalar that holds no reference. */
  predicate Nameable(d: Doc) {
    match BeneathDoc(d)
    case DText(t) => !HoldsReference(t)
    case DScalar(_, _) => true
    case _ => false
  }

  predicate NamesEachOnce(items: seq<Doc>) {
    && (forall i :: 0 <= i < |items| ==> Nameable(items[i]))
    && forall i, j :: 0 <= i < j < |items| ==> DocIdentity(items[i]) != DocIdentity(items[j])
  }

  predicate Foldable(key: Node, d: Doc) {
    IsOperations(key) && BeneathDoc(d).DSeq? ==> NamesEachOnce(BeneathDoc(d).items)
  }

  /** Every alias names an anchor whose value is complete above it, every merge value is mergeable and
      every operations list names each operation once. */
  predicate Legible(n: Node, names: Names)
    decreases Size(n), 1
  {
    match n
    case Text(_) => true
    case Scalar(_, _) => true
    case Alias(name) => name in names
    case Anchor(_, v) => Legible(v, names)
    case Tag(_, v) => Legible(v, names)
    case Sequence(elements) => LegibleElements(elements, names)
    case Mapping(entries) => LegibleEntries(entries, names)
    case _ => false
  }

  predicate LegibleElements(elements: seq<Node>, names: Names)
    decreases SizeOfElements(elements), 0
  {
    elements == []
    || var front := elements[..|elements| - 1];
       LegibleElements(front, names) && Legible(elements[|elements| - 1], DenoteElements(front, names, AtEnd).1)
  }

  predicate LegibleEntries(entries: seq<Entry>, names: Names)
    decreases SizeOfEntries(entries), 0
  {
    entries == []
    || var front, e := entries[..|entries| - 1], entries[|entries| - 1];
       var above := NamesOfKey(e.key, DenoteEntries(front, names, AtEnd).names);
       && LegibleEntries(front, names) && Legible(e.value, above)
       && if IsMergeKey(e.key) then Mergeable(Denote(e.value, above, AtEnd).0) else Foldable(e.key, Denote(e.value, above, AtEnd).0)
  }

  // ----- the parts ---------------------------------------------------------------------------------

  lemma {:induction false} BeneathAsKey(n: Node)
    requires Clean(n)
    ensures BeneathKey(n) == Beneath(n)
    decreases n
  {
    if n.Tag? {
      BeneathAsKey(n.tagged);
    }
  }

  lemma ElementNameable(n: Node)
    requires Clean(n)
    ensures OperationKeyFault(n).None? <==> Nameable(Plain(n))
  {
    BeneathAsKey(n);
    BeneathPlain(n);
  }

  lemma NamesMore(items: seq<Doc>, d: Doc)
    ensures NamesEachOnce(items + [d]) <==> NamesEachOnce(items) && Nameable(d) && DocIdentity(d) !in ListedOperations(items)
  {
    ListedKeys(items);
    var all := items + [d];
    if NamesEachOnce(all) {
      assert all[|items|] == d;
      forall i | 0 <= i < |items| ensures Nameable(items[i]) && DocIdentity(items[i]) != DocIdentity(d) {
        assert all[i] == items[i];
      }
      forall i, j | 0 <= i < j < |items| ensures DocIdentity(items[i]) != DocIdentity(items[j]) {
        assert all[i] == items[i] && all[j] == items[j];
      }
    }
  }

  lemma {:induction false} ListedKeys(items: seq<Doc>)
    ensures forall k :: k in ListedOperations(items) <==> exists i :: 0 <= i < |items| && DocIdentity(items[i]) == k
    decreases |items|
  {
    if items != [] {
      var front := items[..|items| - 1];
      ListedKeys(front);
      forall k | k in ListedOperations(front) ensures exists i :: 0 <= i < |items| && DocIdentity(items[i]) == k {
        var i :| 0 <= i < |front| && DocIdentity(front[i]) == k;
        assert items[i] == front[i];
      }
    }
  }

  lemma {:induction false} FoldCompletesIff(elements: seq<Node>, st: State)
    requires CleanElements(elements)
    ensures OperationEntriesOf(elements, st).complete <==> NamesEachOnce(PlainElements(elements))
    decreases |elements|
  {
    if elements != [] {
      var front, last := elements[..|elements| - 1], elements[|elements| - 1];
      assert CleanElements(front) && Clean(last) && !last.Alias?;
      FoldCompletesIff(front, st);
      FoldMeans(front, st);
      ElementNameable(last);
      NamesMore(PlainElements(front), Plain(last));
      if OperationKeyFault(last).None? {
        ElementAsKey(last);
      }
      PlainKeys(OperationEntriesOf(front, st).entries);
    }
  }

  lemma FoldReportsIff(key: Node, value: Node, st: State)
    requires Clean(value) && st.diags == []
    ensures FoldedOperations(key, value, st).1.diags == [] <==> Foldable(key, Plain(value))
  {
    BeneathPlain(value);
    if IsOperations(key) && Beneath(value).Sequence? {
      FoldCompletesIff(Beneath(value).elements, st);
      FoldMeans(Beneath(value).elements, st);
    }
  }

  lemma MergeableMore(items: seq<Doc>, d: Doc)
    ensures MergeableItems(items + [d]) <==> MergeableItems(items) && BeneathDoc(d).DMap?
  {
    var all := items + [d];
    assert all[|items|] == d;
    if MergeableItems(all) {
      forall i | 0 <= i < |items| ensures BeneathDoc(items[i]).DMap? {
        assert all[i] == items[i];
      }
    }
  }

  lemma {:induction false} ListedSourcesIff(elements: seq<Node>)
    requires CleanElements(elements)
    ensures ListedSources(elements).Some? <==> MergeableItems(PlainElements(elements))
    decreases |elements|
  {
    if elements != [] {
      var front, last := elements[..|elements| - 1], elements[|elements| - 1];
      assert CleanElements(front) && Clean(last) && !last.Alias?;
      ListedSourcesIff(front);
      BeneathPlain(last);
      MergeableMore(PlainElements(front), Plain(last));
    }
  }

  lemma SourcesIff(r: Node)
    requires Clean(r)
    ensures MergeSourcesOf(Beneath(r)).Some? <==> Mergeable(Plain(r))
  {
    BeneathPlain(r);
    if Beneath(r).Sequence? {
      ListedSourcesIff(Beneath(r).elements);
    }
  }

  // ----- the walk ----------------------------------------------------------------------------------

  lemma {:induction false} ReportsIff(n: Node, st: State, names: Names)
    requires Parsed(n) && Faithful(st, names)
    ensures ReduceValue(n, st).1.diags == [] <==> Legible(n, names)
    decreases Size(n), 1
  {
    match n
    case Alias(name) =>
    case Anchor(name, v) => ReportsIff(v, st.(reducing := st.reducing + {name}), names);
    case _ => ReportsWithinIff(n, st, names);
  }

  lemma {:induction false} ReportsWithinIff(n: Node, st: State, names: Names)
    requires Parsed(n) && Faithful(st, names) && !n.Alias? && !n.Anchor?
    ensures ReduceWithin(n, st).1.diags == [] <==> Legible(n, names)
    decreases Size(n), 0
  {
    match n
    case Mapping(entries) => EntriesReportIff(entries, st, names);
    case Sequence(elements) => ElementsReportIff(elements, st, names);
    case Tag(_, v) => ReportsIff(v, st, names);
    case _ =>
  }

  lemma {:induction false} ElementsReportIff(elements: seq<Node>, st: State, names: Names)
    requires (forall i :: 0 <= i < |elements| ==> Parsed(elements[i])) && Faithful(st, names)
    ensures ReduceElements(elements, st).1.diags == [] <==> LegibleElements(elements, names)
    decreases SizeOfElements(elements), 0
  {
    if elements != [] {
      var front := elements[..|elements| - 1];
      ElementsReportIff(front, st, names);
      if ReduceElements(front, st).1.diags == [] {
        ElementsMean(front, st, names);
        ReportsIff(elements[|elements| - 1], ReduceElements(front, st).1, DenoteElements(front, names, AtEnd).1);
      }
    }
  }

  lemma {:induction false} EntriesReportIff(entries: seq<Entry>, st: State, names: Names)
    requires ParsedEntries(entries) && Faithful(st, names)
    ensures WalkEntries(entries, st).state.diags == [] <==> LegibleEntries(entries, names)
    decreases SizeOfEntries(entries), 0
  {
    if entries != [] {
      var front, e := entries[..|entries| - 1], entries[|entries| - 1];
      ParsedFront(entries);
      EntriesReportIff(front, st, names);
      var w, d := WalkEntries(front, st), DenoteEntries(front, names, AtEnd);
      if w.state.diags == [] {
        EntriesMean(front, st, names);
        KeyAnchorsMean(e.key, w.state.anchors, d.names);
        EntryReportsIff(e, w.state.(anchors := RememberAnchoredKey(e.key, w.state.anchors)), NamesOfKey(e.key, d.names));
      }
    }
  }

  lemma {:induction false} EntryReportsIff(e: Entry, st: State, names: Names)
    requires ParsedEntry(e) && Faithful(st, names)
    ensures IsMergeKey(e.key) ==>
              (MergedMappings(e.value, st).1.diags == [] <==> Legible(e.value, names) && Mergeable(Denote(e.value, names, AtEnd).0))
    ensures !IsMergeKey(e.key) ==>
              var (r, after) := ReduceValue(e.value, st);
              (FoldedOperations(e.key, r, after).1.diags == [] <==> Legible(e.value, names) && Foldable(e.key, Denote(e.value, names, AtEnd).0))
    decreases Size(e.value), 2
  {
    ReportsIff(e.value, st, names);
    if Legible(e.value, names) {
      ValueMeans(e.value, st, names);
      var (r, after) := ReduceValue(e.value, st);
      SourcesIff(r);
      FoldReportsIff(e.key, r, after);
    }
  }

  /** The stage reports nothing about a document exactly when it is legible. */
  lemma ReportsNothingIff(root: Node)
    requires Parsed(root) && !root.Alias? && !root.Anchor?
    ensures Normalized(root).1.diags == [] <==> Legible(root, map[])
  {
    ReportsWithinIff(root, START, map[]);
  }
}
