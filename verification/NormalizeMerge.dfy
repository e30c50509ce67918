/** The precedence rule of merge keys: what the expansion of a mapping holds. */
module NormalizeMerge {
  import opened Options
  import opened Normalize
  import opened NormalizeMeaning

  // ----- reading entries off -----------------------------------------------------------------------

  lemma {:induction false} PlainTogether(a: seq<Entry>, b: seq<Entry>)
    ensures PlainEntries(a + b) == PlainEntries(a) + PlainEntries(b)
    decreases |b|
  {
    if b == [] {
      assert a + b == a;
    } else {
      PlainTogether(a, b[..|b| - 1]);
      assert (a + b)[..|a + b| - 1] == a + b[..|b| - 1];
    }
  }

  lemma {:induction false} PlainKeys(entries: seq<Entry>)
    ensures PlainEntries(entries).Keys == Identities(entries)
    decreases |entries|
  {
    if entries != [] {
      PlainKeys(entries[..|entries| - 1]);
      assert entries == entries[..|entries| - 1] + [entries[|entries| - 1]];
    }
  }

  lemma PlainMore(entries: seq<Entry>, e: Entry)
    ensures PlainEntries(entries + [e]) == PlainEntries(entries)[KeyIdentity(e.key) := Plain(e.value)]
  {
    assert (entries + [e])[..|entries|] == entries;
  }

  lemma PlainElementsMore(elements: seq<Node>, n: Node)
    ensures PlainElements(elements + [n]) == PlainElements(elements) + [Plain(n)]
  {
    assert (elements + [n])[..|elements|] == elements;
  }

  lemma {:induction false} PlainLength(elements: seq<Node>)
    ensures |PlainElements(elements)| == |elements|
    decreases |elements|
  {
    if elements != [] {
      PlainLength(elements[..|elements| - 1]);
    }
  }

  /** Beneath the tags of a reduced value is a reduced value, and reading off commutes with peeling. */
  lemma {:induction false} BeneathPlain(n: Node)
    requires Clean(n)
    ensures Clean(Beneath(n)) && !Beneath(n).Tag? && BeneathDoc(Plain(n)) == Plain(Beneath(n))
    decreases n
  {
    if n.Tag? {
      BeneathPlain(n.tagged);
    }
  }

  lemma {:induction false} TaggedScalarIsClean(n: Node)
    requires TaggedScalar(n)
    ensures Clean(n) && Plain(n) == KeyDoc(n)
    decreases n
  {
    if n.Tag? {
      TaggedScalarIsClean(n.tagged);
    }
  }

  // ----- merge keys --------------------------------------------------------------------------------

  /** The sources together, the earlier one winning. */
  function SourcesMap(sources: seq<seq<Entry>>): map<KeyId, Doc> {
    if sources == [] then map[] else PlainEntries(sources[|sources| - 1]) + SourcesMap(sources[..|sources| - 1])
  }

  predicate CleanSources(sources: seq<seq<Entry>>) {
    forall i :: 0 <= i < |sources| ==> CleanEntries(sources[i])
  }

  lemma OverridesTogether(a: map<KeyId, Doc>, b: map<KeyId, Doc>, c: map<KeyId, Doc>)
    ensures a + (b + c) == (a + b) + c
  {}

  lemma {:induction false} SourcesTogether(a: seq<seq<Entry>>, b: seq<seq<Entry>>)
    ensures SourcesMap(a + b) == SourcesMap(b) + SourcesMap(a)
    decreases |b|
  {
    if b == [] {
      assert a + b == a;
    } else {
      var front, last := b[..|b| - 1], b[|b| - 1];
      assert a + b == (a + front) + [last] && b == front + [last];
      SourcesTogether(a, front);
      SourcesMore(a + front, last);
      SourcesMore(front, last);
      OverridesTogether(PlainEntries(last), SourcesMap(front), SourcesMap(a));
    }
  }

  lemma MergedListMore(items: seq<Doc>, d: Doc)
    ensures MergedList(items + [d]) == (if BeneathDoc(d).DMap? then BeneathDoc(d).held else map[]) + MergedList(items)
  {
    assert (items + [d])[..|items|] == items;
  }

  lemma SourcesMore(sources: seq<seq<Entry>>, source: seq<Entry>)
    ensures SourcesMap(sources + [source]) == PlainEntries(source) + SourcesMap(sources)
  {
    assert (sources + [source])[..|sources|] == sources;
  }

  lemma MappingBeneath(n: Node)
    requires Clean(n) && Beneath(n).Mapping?
    ensures CleanEntries(Beneath(n).entries) && BeneathDoc(Plain(n)) == DMap(PlainEntries(Beneath(n).entries))
  {
    BeneathPlain(n);
  }

  lemma {:induction false} ListedMeans(elements: seq<Node>)
    requires CleanElements(elements) && ListedSources(elements).Some?
    ensures CleanSources(ListedSources(elements).value)
    ensures SourcesMap(ListedSources(elements).value) == MergedList(PlainElements(elements))
    decreases |elements|
  {
    if elements != [] {
      var front, last := elements[..|elements| - 1], elements[|elements| - 1];
      assert Clean(last) && !last.Alias?;
      ListedMeans(front);
      MappingBeneath(last);
      MergedListMore(PlainElements(front), Plain(last));
      SourcesMore(ListedSources(front).value, Beneath(last).entries);
    }
  }

  /** The sources a merge value names hold together what the value denotes as a merge. */
  lemma MergeSourcesMean(r: Node)
    requires Clean(r) && MergeSourcesOf(Beneath(r)).Some?
    ensures CleanSources(MergeSourcesOf(Beneath(r)).value)
    ensures SourcesMap(MergeSourcesOf(Beneath(r)).value) == Merged(Plain(r))
  {
    BeneathPlain(r);
    var held := Beneath(r);
    if held.Mapping? {
      assert [held.entries][..0] == [];
    } else {
      ListedMeans(held.elements);
    }
  }

  // ----- what the expansion holds ------------------------------------------------------------------

  predicate Apart(entries: seq<Entry>, held: set<KeyId>) {
    forall i :: 0 <= i < |entries| ==> KeyIdentity(entries[i].key) !in held
  }

  lemma IdentitiesMore(entries: seq<Entry>, e: Entry)
    ensures Identities(entries + [e]) == Identities(entries) + {KeyIdentity(e.key)}
  {
    assert e in entries + [e];
  }

  lemma CleanMore(entries: seq<Entry>, e: Entry)
    requires CleanEntries(entries) && CleanEntry(e) && KeyIdentity(e.key) !in Identities(entries)
    ensures CleanEntries(entries + [e])
  {
    forall k | 0 <= k < |entries| ensures KeyIdentity(entries[k].key) != KeyIdentity(e.key) {
      assert entries[k] in entries;
    }
  }

  lemma CleanFront(entries: seq<Entry>)
    requires CleanEntries(entries) && entries != []
    ensures CleanEntries(entries[..|entries| - 1]) && CleanEntry(entries[|entries| - 1])
    ensures KeyIdentity(entries[|entries| - 1].key) !in Identities(entries[..|entries| - 1])
  {
    FreshInSource(entries[..|entries| - 1], entries[|entries| - 1]);
  }

  lemma {:induction false} InheritedHolds(source: seq<Entry>, held: set<KeyId>)
    requires CleanEntries(source)
    ensures CleanEntries(Inherited(source, held).0) && Apart(Inherited(source, held).0, held)
    ensures Inherited(source, held).1 == held + Identities(Inherited(source, held).0)
    ensures Inherited(source, held).1 == held + Identities(source)
    decreases |source|
  {
    if source != [] {
      var front, e := source[..|source| - 1], source[|source| - 1];
      CleanFront(source);
      InheritedHolds(front, held);
      assert source == front + [e];
      IdentitiesMore(front, e);
      OneMoreHeld(Inherited(front, held).0, e, held, Inherited(front, held).1);
    }
  }

  lemma OneMoreHeld(before: seq<Entry>, e: Entry, held: set<KeyId>, mid: set<KeyId>)
    requires CleanEntries(before) && Apart(before, held) && mid == held + Identities(before) && CleanEntry(e)
    ensures KeyIdentity(e.key) !in mid ==>
              && CleanEntries(before + [e]) && Apart(before + [e], held)
              && mid + {KeyIdentity(e.key)} == held + Identities(before + [e])
  {
    if KeyIdentity(e.key) !in mid {
      CleanMore(before, e);
      IdentitiesMore(before, e);
    }
  }

  lemma MapMore(m: map<KeyId, Doc>, k: KeyId, d: Doc, held: set<KeyId>)
    ensures k in held ==> m[k := d] - held == m - held
    ensures k !in held ==> m[k := d] - held == (m - held)[k := d]
  {}

  /** From each source exactly the keys not held before it, with that source's values. */
  lemma {:induction false} InheritedMeans(source: seq<Entry>, held: set<KeyId>)
    requires CleanEntries(source)
    ensures PlainEntries(Inherited(source, held).0) == PlainEntries(source) - held
    decreases |source|
  {
    if source != [] {
      var front, e := source[..|source| - 1], source[|source| - 1];
      CleanFront(source);
      InheritedHolds(front, held);
      InheritedMeans(front, held);
      PlainMore(Inherited(front, held).0, e);
      MapMore(PlainEntries(front), KeyIdentity(e.key), Plain(e.value), held);
    }
  }

  lemma FreshInSource(front: seq<Entry>, e: Entry)
    requires forall k :: 0 <= k < |front| ==> KeyIdentity(front[k].key) != KeyIdentity(e.key)
    ensures KeyIdentity(e.key) !in Identities(front)
  {}

  lemma DistinctTogether(a: seq<Entry>, b: seq<Entry>)
    requires CleanEntries(a) && CleanEntries(b) && Apart(b, Identities(a))
    ensures CleanEntries(a + b)
  {
    var all := a + b;
    forall i, j | 0 <= i < j < |all| ensures KeyIdentity(all[i].key) != KeyIdentity(all[j].key) {
      if i < |a| <= j {
        assert a[i] in a;
      }
    }
  }

  lemma IdentitiesTogether(a: seq<Entry>, b: seq<Entry>)
    ensures Identities(a + b) == Identities(a) + Identities(b)
  {
    forall k | k in Identities(a) + Identities(b) ensures k in Identities(a + b) {
      var e :| (e in a || e in b) && KeyIdentity(e.key) == k;
      assert e in a + b;
    }
  }

  lemma {:induction false} InheritedAllHolds(sources: seq<seq<Entry>>, held: set<KeyId>)
    requires CleanSources(sources)
    ensures var (more, after) := InheritedAll(sources, held);
            CleanEntries(more) && Apart(more, held) && after == held + Identities(more)
    ensures PlainEntries(InheritedAll(sources, held).0) == SourcesMap(sources) - held
    decreases |sources|
  {
    if sources != [] {
      var front, source := sources[..|sources| - 1], sources[|sources| - 1];
      InheritedAllHolds(front, held);
      var (before, mid) := InheritedAll(front, held);
      var (more, after) := Inherited(source, mid);
      InheritedHolds(source, mid);
      InheritedMeans(source, mid);
      DistinctTogether(before, more);
      IdentitiesTogether(before, more);
      PlainTogether(before, more);
      PlainKeys(before);
      LaterSourceAdds(SourcesMap(front), PlainEntries(source), held, mid);
    }
  }

  lemma LaterSourceAdds(earlier: map<KeyId, Doc>, later: map<KeyId, Doc>, held: set<KeyId>, mid: set<KeyId>)
    requires mid == held + (earlier.Keys - held)
    ensures (earlier - held) + (later - mid) == (later + earlier) - held
  {}

  /** The precedence rule: a key holds the value written directly, wherever the `<<` stood, else the
      first source's that has it; nothing is held twice. */
  lemma ExpansionMeans(direct: seq<Entry>, sources: seq<seq<Entry>>)
    requires CleanEntries(direct) && CleanSources(sources)
    ensures CleanEntries(ExpandedWith(direct, sources))
    ensures PlainEntries(ExpandedWith(direct, sources)) == SourcesMap(sources) + PlainEntries(direct)
  {
    var held := Identities(direct);
    InheritedAllHolds(sources, held);
    var more := InheritedAll(sources, held).0;
    DistinctTogether(direct, more);
    PlainTogether(direct, more);
    PlainKeys(direct);
  }
}
