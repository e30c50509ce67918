/** One run of stage E, with its loops and its two tables (internal/config normalize.go, mergekey.go,
    anchor.go, listsugar.go). */
module NormalizerRun {
  import opened Options
  import N = Normalize
  import opened Nodes = Normalize

  // ----- what makes the walk end -------------------------------------------------------------------

  lemma {:induction false} EntryIsSmaller(entries: seq<Entry>, i: nat)
    requires i < |entries|
    ensures Size(entries[i].value) < SizeOfEntries(entries)
    decreases |entries|
  {
    if i < |entries| - 1 {
      EntryIsSmaller(entries[..|entries| - 1], i);
    }
  }

  lemma {:induction false} ElementIsSmaller(elements: seq<Node>, i: nat)
    requires i < |elements|
    ensures Size(elements[i]) < SizeOfElements(elements)
    decreases |elements|
  {
    if i < |elements| - 1 {
      ElementIsSmaller(elements[..|elements| - 1], i);
    }
  }

  // ----- merge keys --------------------------------------------------------------------------------

  method IdentitiesOf(entries: seq<Entry>) returns (held: set<KeyId>)
    ensures held == Identities(entries)
  {
    held := {};
    for i := 0 to |entries|
      invariant held == Identities(entries[..i])
    {
      assert entries[..i + 1] == entries[..i] + [entries[i]];
      held := held + {KeyIdentity(entries[i].key)};
    }
    assert entries[..|entries|] == entries;
  }

  method Inherit(source: seq<Entry>, expanded: seq<Entry>, held: set<KeyId>) returns (r: seq<Entry>, now: set<KeyId>)
    ensures r == expanded + Inherited(source, held).0 && now == Inherited(source, held).1
  {
    r, now := expanded, held;
    for i := 0 to |source|
      invariant r == expanded + Inherited(source[..i], held).0 && now == Inherited(source[..i], held).1
    {
      assert source[..i + 1][..i] == source[..i];
      var identity := KeyIdentity(source[i].key);
      if identity !in now {
        now := now + {identity};
        r := r + [source[i]];
      }
    }
    assert source[..|source|] == source;
  }

  method Expand(direct: seq<Entry>, sources: seq<seq<Entry>>) returns (expanded: seq<Entry>)
    ensures expanded == ExpandedWith(direct, sources)
  {
    var held := IdentitiesOf(direct);
    ghost var written := held;
    expanded := direct;
    for i := 0 to |sources|
      invariant expanded == direct + InheritedAll(sources[..i], written).0 && held == InheritedAll(sources[..i], written).1
    {
      assert sources[..i + 1][..i] == sources[..i];
      expanded, held := Inherit(sources[i], expanded, held);
    }
    assert sources[..|sources|] == sources;
  }

  method ListSources(elements: seq<Node>) returns (sources: Option<seq<seq<Entry>>>)
    ensures sources == ListedSources(elements)
  {
    var found: seq<seq<Entry>> := [];
    for i := 0 to |elements|
      invariant ListedSources(elements[..i]) == Some(found)
    {
      assert elements[..i + 1][..i] == elements[..i];
      if !elements[i].Alias? {
        var beneath := Beneath(elements[i]);
        if !beneath.Mapping? {
          NoSourcesBeyond(elements, i + 1);
          return None;
        }
        found := found + [beneath.entries];
      }
    }
    assert elements[..|elements|] == elements;
    return Some(found);
  }

  lemma {:induction false} NoSourcesBeyond(elements: seq<Node>, i: nat)
    requires i <= |elements| && ListedSources(elements[..i]).None?
    ensures ListedSources(elements).None?
    decreases |elements| - i
  {
    if i == |elements| {
      assert elements[..i] == elements;
    } else {
      assert elements[..i + 1][..i] == elements[..i];
      NoSourcesBeyond(elements, i + 1);
    }
  }

  // ----- the run -----------------------------------------------------------------------------------

  class Normalizer {
    var anchors: map<string, Node>
    var reducing: set<string>
    var diags: seq<Fault>

    function Now(): State
      reads this
    {
      State(anchors, reducing, diags)
    }

    constructor ()
      ensures Now() == START
    {
      anchors, reducing, diags := map[], {}, [];
    }

    method Report(fault: Fault)
      modifies `diags
      ensures Now() == old(Now()).Report(fault)
    {
      diags := diags + [fault];
    }

    method RememberKey(written: Node)
      modifies `anchors
      ensures Now() == old(Now()).(anchors := RememberAnchoredKey(written, old(anchors)))
    {
      var key := written;
      while key.Anchor? || key.Tag? || key.Explicit?
        invariant RememberAnchoredKey(key, anchors) == RememberAnchoredKey(written, old(anchors))
        invariant reducing == old(reducing) && diags == old(diags)
        decreases key
      {
        match key
        case Anchor(name, v) =>
          anchors := anchors[name := v];
          key := v;
        case Tag(_, v) => key := v;
        case Explicit(k) => key := k;
      }
    }

    method ReduceValue(n: Node) returns (r: Node)
      modifies this
      ensures (r, Now()) == N.ReduceValue(n, old(Now()))
      decreases Size(n), 1
    {
      match n
      case Alias(name) =>
        if name in anchors {
          return anchors[name];
        }
        Report(Now().Unresolvable(name));
        return n;
      case Anchor(name, v) =>
        reducing := reducing + {name};
        r := ReduceValue(v);
        reducing := reducing - {name};
        anchors := anchors[name := r];
      case _ =>
        r := ReduceWithin(n);
    }

    method ReduceWithin(n: Node) returns (r: Node)
      modifies this
      ensures (r, Now()) == N.ReduceWithin(n, old(Now()))
      decreases Size(n), 0
    {
      match n
      case Text(_) => r := n;
      case Scalar(_, _) => r := n;
      case Mapping(entries) =>
        var reduced := ReduceMapping(entries);
        r := Mapping(reduced);
      case Sequence(elements) =>
        var reduced := ReduceSequence(elements);
        r := Sequence(reduced);
      case Tag(tag, v) =>
        var reduced := ReduceValue(v);
        r := Tag(tag, reduced);
      case _ =>
        Report(UnreducibleShape);
        r := n;
    }

    method ReduceMapping(entries: seq<Entry>) returns (r: seq<Entry>)
      modifies this
      ensures (Mapping(r), Now()) == N.ReduceWithin(Mapping(entries), old(Now()))
      decreases SizeOfEntries(entries), 1
    {
      var direct: seq<Entry>, sources: seq<seq<Entry>> := [], [];
      for i := 0 to |entries|
        invariant Walk(direct, sources, Now()) == WalkEntries(entries[..i], old(Now()))
      {
        assert entries[..i + 1][..i] == entries[..i];
        EntryIsSmaller(entries, i);
        var e := entries[i];
        RememberKey(e.key);
        if IsMergeKey(e.key) {
          var more := MergedMappings(e.value);
          sources := sources + more;
        } else {
          var value := ReduceValue(e.value);
          value := FoldedOperations(e.key, value);
          direct := direct + [Entry(e.key, value)];
        }
      }
      assert entries[..|entries|] == entries;
      if |direct| == |entries| {
        return direct;
      }
      r := Expand(direct, sources);
    }

    method ReduceSequence(elements: seq<Node>) returns (r: seq<Node>)
      modifies this
      ensures (r, Now()) == ReduceElements(elements, old(Now()))
      decreases SizeOfElements(elements), 1
    {
      r := [];
      for i := 0 to |elements|
        invariant (r, Now()) == ReduceElements(elements[..i], old(Now()))
      {
        assert elements[..i + 1][..i] == elements[..i];
        ElementIsSmaller(elements, i);
        var reduced := ReduceValue(elements[i]);
        r := r + [reduced];
      }
      assert elements[..|elements|] == elements;
    }

    method MergedMappings(named: Node) returns (sources: seq<seq<Entry>>)
      modifies this
      ensures (sources, Now()) == N.MergedMappings(named, old(Now()))
      decreases Size(named), 2
    {
      var held := named;
      if named.Alias? {
        if named.target !in anchors {
          Report(Now().Unresolvable(named.target));
          return [];
        }
        held := anchors[named.target];
      } else {
        held := ReduceValue(named);
      }
      var beneath := Beneath(held);
      var found := None;
      if beneath.Mapping? {
        found := Some([beneath.entries]);
      } else if beneath.Sequence? {
        found := ListSources(beneath.elements);
      }
      if found.None? {
        Report(NonMappingMergeSource);
        return [];
      }
      return found.value;
    }

    method OperationEntries(elements: seq<Node>) returns (folded: seq<Entry>, complete: bool)
      modifies `diags
      ensures var f := OperationEntriesOf(elements, old(Now()));
              folded == f.entries && complete == f.complete && Now() == f.state
    {
      var named: set<KeyId>;
      folded, named, complete := [], {}, true;
      for i := 0 to |elements|
        invariant Folding(folded, named, complete, Now()) == OperationEntriesOf(elements[..i], old(Now()))
      {
        assert elements[..i + 1][..i] == elements[..i];
        var element := elements[i];
        if element.Alias? {
          complete := false;
          continue;
        }
        var fault := OperationKeyFault(element);
        if fault.Some? {
          Report(fault.value);
          complete := false;
          continue;
        }
        var identity := KeyIdentity(element);
        if identity in named {
          Report(RepeatedOperation);
          complete := false;
          continue;
        }
        named := named + {identity};
        folded := folded + [Entry(element, Mapping([]))];
      }
      assert elements[..|elements|] == elements;
    }

    method FoldedOperations(key: Node, value: Node) returns (r: Node)
      modifies `diags
      ensures (r, Now()) == N.FoldedOperations(key, value, old(Now()))
    {
      if !IsOperations(key) {
        return value;
      }
      var written := Beneath(value);
      if !written.Sequence? {
        return value;
      }
      var folded, complete := OperationEntries(written.elements);
      return if complete then Mapping(folded) else value;
    }
  }

  /** The stage over a whole document. */
  method Run(root: Node) returns (r: Node, faults: seq<Fault>)
    ensures r == Normalized(root).0 && faults == Normalized(root).1.diags
  {
    var pass := new Normalizer();
    r := pass.ReduceWithin(root);
    faults := pass.diags;
  }
}
