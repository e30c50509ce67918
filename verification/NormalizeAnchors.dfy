/** When the stage's rule for anchors is YAML's: an alias must not stand inside the value of the anchor it
    names, nor after one whose value repeats the anchor's name. */
module NormalizeAnchors {
  import opened Options
  import opened Normalize
  import opened NormalizeMeaning
  import opened NormalizeTheorems

  // ----- where a name stands -----------------------------------------------------------------------

  /** `open` are the names whose most recent anchor is still being read; `shadowed` those of a complete
      anchor that holds a more recent one of its own name. */
  datatype Scope = Scope(open: set<string>, shadowed: set<string>)

  const OUTSIDE := Scope({}, {})

  datatype Place = Enclosing | Shadowed

  function NamesAt(s: Scope, place: Place): set<string> {
    if place == Enclosing then s.open else s.shadowed
  }

  function Opened(s: Scope, name: string): Scope {
    Scope(s.open + {name}, s.shadowed - {name})
  }

  function Closed(s: Scope, name: string): Scope {
    if name in s.open then Scope(s.open - {name}, s.shadowed) else Scope(s.open, s.shadowed + {name})
  }

  function ScopeOfKey(key: Node, s: Scope): Scope {
    match key
    case Anchor(name, v) => ScopeOfKey(v, Scope(s.open - {name}, s.shadowed - {name}))
    case Tag(_, v) => ScopeOfKey(v, s)
    case Explicit(k) => ScopeOfKey(k, s)
    case _ => s
  }

  function ScopeAfter(n: Node, s: Scope): Scope
    decreases Size(n), 1
  {
    match n
    case Anchor(name, v) => Closed(ScopeAfter(v, Opened(s, name)), name)
    case Tag(_, v) => ScopeAfter(v, s)
    case Sequence(elements) => ScopeAfterElements(elements, s)
    case Mapping(entries) => ScopeAfterEntries(entries, s)
    case _ => s
  }

  function ScopeAfterElements(elements: seq<Node>, s: Scope): Scope
    decreases SizeOfElements(elements), 0
  {
    if elements == [] then s
    else ScopeAfter(elements[|elements| - 1], ScopeAfterElements(elements[..|elements| - 1], s))
  }

  function ScopeAfterEntries(entries: seq<Entry>, s: Scope): Scope
    decreases SizeOfEntries(entries), 0
  {
    if entries == [] then s
    else
      var e := entries[|entries| - 1];
      ScopeAfter(e.value, ScopeOfKey(e.key, ScopeAfterEntries(entries[..|entries| - 1], s)))
  }

  /** No alias stands where its name is open, or shadowed. */
  predicate Avoids(n: Node, s: Scope, place: Place)
    decreases Size(n), 1
  {
    match n
    case Alias(name) => name !in NamesAt(s, place)
    case Anchor(name, v) => Avoids(v, Opened(s, name), place)
    case Tag(_, v) => Avoids(v, s, place)
    case Sequence(elements) => AvoidsInElements(elements, s, place)
    case Mapping(entries) => AvoidsInEntries(entries, s, place)
    case _ => true
  }

  predicate AvoidsInElements(elements: seq<Node>, s: Scope, place: Place)
    decreases SizeOfElements(elements), 0
  {
    elements == []
    || var front := elements[..|elements| - 1];
       AvoidsInElements(front, s, place) && Avoids(elements[|elements| - 1], ScopeAfterElements(front, s), place)
  }

  predicate AvoidsInEntries(entries: seq<Entry>, s: Scope, place: Place)
    decreases SizeOfEntries(entries), 0
  {
    entries == []
    || var front, e := entries[..|entries| - 1], entries[|entries| - 1];
       AvoidsInEntries(front, s, place) && Avoids(e.value, ScopeOfKey(e.key, ScopeAfterEntries(front, s)), place)
  }

  // ----- documents without a finite value ----------------------------------------------------------

  /** By YAML's rule no alias names a node it stands inside; one that does makes the value infinite. */
  predicate Finite(n: Node, names: Names)
    decreases Size(n), 1
  {
    match n
    case Alias(name) => !(name in names && names[name].DOpen?)
    case Anchor(name, v) => Finite(v, Inside(names, name, AtStart))
    case Tag(_, v) => Finite(v, names)
    case Sequence(elements) => FiniteElements(elements, names)
    case Mapping(entries) => FiniteEntries(entries, names)
    case _ => true
  }

  predicate FiniteElements(elements: seq<Node>, names: Names)
    decreases SizeOfElements(elements), 0
  {
    elements == []
    || var front := elements[..|elements| - 1];
       FiniteElements(front, names) && Finite(elements[|elements| - 1], DenoteElements(front, names, AtStart).1)
  }

  predicate FiniteEntries(entries: seq<Entry>, names: Names)
    decreases SizeOfEntries(entries), 0
  {
    entries == []
    || var front, e := entries[..|entries| - 1], entries[|entries| - 1];
       FiniteEntries(front, names) && Finite(e.value, NamesOfKey(e.key, DenoteEntries(front, names, AtStart).names))
  }

  /** What a document denotes in YAML. */
  function Value(root: Node): Option<Doc> {
    if Finite(root, map[]) then Some(Denote(root, map[], AtStart).0) else None
  }

  /** The scope says which names are still being read. */
  ghost predicate Follows(names: Names, s: Scope) {
    forall name :: name in s.open <==> name in names && names[name].DOpen?
  }

  lemma {:induction false} KeyFollows(key: Node, names: Names, s: Scope)
    requires Follows(names, s)
    ensures Follows(NamesOfKey(key, names), ScopeOfKey(key, s))
    decreases key
  {
    match key
    case Anchor(name, v) =>
      KeyFollows(v, names[name := KeyDoc(v)], Scope(s.open - {name}, s.shadowed - {name}));
    case Tag(_, v) => KeyFollows(v, names, s);
    case Explicit(k) => KeyFollows(k, names, s);
    case _ =>
  }

  lemma {:induction false} FiniteIff(n: Node, names: Names, s: Scope)
    requires Follows(names, s)
    ensures Finite(n, names) <==> Avoids(n, s, Enclosing)
    ensures Finite(n, names) ==> !Denote(n, names, AtStart).0.DOpen? && Follows(Denote(n, names, AtStart).1, ScopeAfter(n, s))
    decreases Size(n), 1
  {
    match n
    case Anchor(name, v) => FiniteIff(v, Inside(names, name, AtStart), Opened(s, name));
    case Tag(_, v) => FiniteIff(v, names, s);
    case Sequence(elements) => ElementsFiniteIff(elements, names, s);
    case Mapping(entries) => EntriesFiniteIff(entries, names, s);
    case _ =>
  }

  lemma {:induction false} ElementsFiniteIff(elements: seq<Node>, names: Names, s: Scope)
    requires Follows(names, s)
    ensures FiniteElements(elements, names) <==> AvoidsInElements(elements, s, Enclosing)
    ensures FiniteElements(elements, names) ==> Follows(DenoteElements(elements, names, AtStart).1, ScopeAfterElements(elements, s))
    decreases SizeOfElements(elements), 0
  {
    if elements != [] {
      var front, last := elements[..|elements| - 1], elements[|elements| - 1];
      ElementsFiniteIff(front, names, s);
      if FiniteElements(front, names) {
        FiniteIff(last, DenoteElements(front, names, AtStart).1, ScopeAfterElements(front, s));
      }
    }
  }

  lemma {:induction false} EntriesFiniteIff(entries: seq<Entry>, names: Names, s: Scope)
    requires Follows(names, s)
    ensures FiniteEntries(entries, names) <==> AvoidsInEntries(entries, s, Enclosing)
    ensures FiniteEntries(entries, names) ==> Follows(DenoteEntries(entries, names, AtStart).names, ScopeAfterEntries(entries, s))
    decreases SizeOfEntries(entries), 0
  {
    if entries != [] {
      var front, e := entries[..|entries| - 1], entries[|entries| - 1];
      EntriesFiniteIff(front, names, s);
      if FiniteEntries(front, names) {
        var w, inner := DenoteEntries(front, names, AtStart).names, ScopeAfterEntries(front, s);
        KeyFollows(e.key, w, inner);
        FiniteIff(e.value, NamesOfKey(e.key, w), ScopeOfKey(e.key, inner));
      }
    }
  }

  // ----- where the two rules agree -----------------------------------------------------------------

  /** Every name that is neither open nor shadowed stands for the same by both rules. */
  ghost predicate Agree(atEnd: Names, atStart: Names, s: Scope) {
    && Follows(atStart, s)
    && forall name :: name !in s.open && name !in s.shadowed ==>
         (name in atEnd <==> name in atStart) && (name in atEnd ==> atEnd[name] == atStart[name])
  }

  predicate AvoidsBoth(n: Node, s: Scope) {
    Avoids(n, s, Enclosing) && Avoids(n, s, Shadowed)
  }

  lemma {:induction false} KeyAgrees(key: Node, atEnd: Names, atStart: Names, s: Scope)
    requires Agree(atEnd, atStart, s)
    ensures Agree(NamesOfKey(key, atEnd), NamesOfKey(key, atStart), ScopeOfKey(key, s))
    decreases key
  {
    match key
    case Anchor(name, v) =>
      KeyAgrees(v, atEnd[name := KeyDoc(v)], atStart[name := KeyDoc(v)], Scope(s.open - {name}, s.shadowed - {name}));
    case Tag(_, v) => KeyAgrees(v, atEnd, atStart, s);
    case Explicit(k) => KeyAgrees(k, atEnd, atStart, s);
    case _ =>
  }

  lemma {:induction false} RulesAgree(n: Node, atEnd: Names, atStart: Names, s: Scope)
    requires Agree(atEnd, atStart, s) && AvoidsBoth(n, s)
    ensures Denote(n, atEnd, AtEnd).0 == Denote(n, atStart, AtStart).0
    ensures Agree(Denote(n, atEnd, AtEnd).1, Denote(n, atStart, AtStart).1, ScopeAfter(n, s))
    decreases Size(n), 1
  {
    match n
    case Anchor(name, v) =>
      RulesAgree(v, atEnd, Inside(atStart, name, AtStart), Opened(s, name));
      FiniteIff(v, Inside(atStart, name, AtStart), Opened(s, name));
    case Tag(_, v) => RulesAgree(v, atEnd, atStart, s);
    case Sequence(elements) => RulesAgreeOnElements(elements, atEnd, atStart, s);
    case Mapping(entries) => RulesAgreeOnEntries(entries, atEnd, atStart, s);
    case _ =>
  }

  lemma {:induction false} RulesAgreeOnElements(elements: seq<Node>, atEnd: Names, atStart: Names, s: Scope)
    requires Agree(atEnd, atStart, s) && AvoidsInElements(elements, s, Enclosing) && AvoidsInElements(elements, s, Shadowed)
    ensures DenoteElements(elements, atEnd, AtEnd).0 == DenoteElements(elements, atStart, AtStart).0
    ensures Agree(DenoteElements(elements, atEnd, AtEnd).1, DenoteElements(elements, atStart, AtStart).1, ScopeAfterElements(elements, s))
    decreases SizeOfElements(elements), 0
  {
    if elements != [] {
      var front, last := elements[..|elements| - 1], elements[|elements| - 1];
      RulesAgreeOnElements(front, atEnd, atStart, s);
      RulesAgree(last, DenoteElements(front, atEnd, AtEnd).1, DenoteElements(front, atStart, AtStart).1, ScopeAfterElements(front, s));
    }
  }

  lemma {:induction false} RulesAgreeOnEntries(entries: seq<Entry>, atEnd: Names, atStart: Names, s: Scope)
    requires Agree(atEnd, atStart, s) && AvoidsInEntries(entries, s, Enclosing) && AvoidsInEntries(entries, s, Shadowed)
    ensures DenoteEntries(entries, atEnd, AtEnd).direct == DenoteEntries(entries, atStart, AtStart).direct
    ensures DenoteEntries(entries, atEnd, AtEnd).merged == DenoteEntries(entries, atStart, AtStart).merged
    ensures Agree(DenoteEntries(entries, atEnd, AtEnd).names, DenoteEntries(entries, atStart, AtStart).names, ScopeAfterEntries(entries, s))
    decreases SizeOfEntries(entries), 0
  {
    if entries != [] {
      var front, e := entries[..|entries| - 1], entries[|entries| - 1];
      RulesAgreeOnEntries(front, atEnd, atStart, s);
      var w, x, inner := DenoteEntries(front, atEnd, AtEnd).names, DenoteEntries(front, atStart, AtStart).names, ScopeAfterEntries(front, s);
      KeyAgrees(e.key, w, x, inner);
      RulesAgree(e.value, NamesOfKey(e.key, w), NamesOfKey(e.key, x), ScopeOfKey(e.key, inner));
    }
  }

  // ----- the main result ---------------------------------------------------------------------------

  /** When stage E reports nothing, the document has a value in YAML if and only if no alias stands inside the
      value of the anchor it names; and the reduced tree says exactly that value unless an alias stands there,
      or after an anchor whose value repeats its name. */
  lemma NormalizationPreservesMeaning(root: Node)
    requires Parsed(root) && Normalized(root).1.diags == []
    ensures Clean(Normalized(root).0)
    ensures Value(root).Some? <==> Avoids(root, OUTSIDE, Enclosing)
    ensures Avoids(root, OUTSIDE, Shadowed) ==> (Value(root) == Some(Plain(Normalized(root).0)) <==> Avoids(root, OUTSIDE, Enclosing))
  {
    NormalizationSaysTheSame(root);
    FiniteIff(root, map[], OUTSIDE);
    if AvoidsBoth(root, OUTSIDE) {
      RulesAgree(root, map[], map[], OUTSIDE);
    }
  }
}
