/** Documents about which stage E reports nothing though its rule for anchors is not YAML's. */
module NormalizeCorners {
  import opened Options
  import opened Normalize
  import opened NormalizeMeaning
  import opened NormalizeAnchors

  // ----- lists of one and of two elements ----------------------------------------------------------

  lemma OneReduced(n: Node, st: State)
    ensures ReduceElements([n], st) == ([ReduceValue(n, st).0], ReduceValue(n, st).1)
  {
    assert [n][..0] == [];
    assert ReduceElements([n][..0], st) == ([], st);
    assert [] + [ReduceValue(n, st).0] == [ReduceValue(n, st).0];
  }

  lemma TwoReduced(n: Node, m: Node, st: State)
    ensures var (r, mid) := ReduceValue(n, st);
            ReduceElements([n, m], st) == ([r, ReduceValue(m, mid).0], ReduceValue(m, mid).1)
  {
    OneReduced(n, st);
    assert [n, m][..1] == [n];
    var (r, mid) := ReduceValue(n, st);
    assert ReduceElements([n, m][..1], st) == ([r], mid);
    assert [r] + [ReduceValue(m, mid).0] == [r, ReduceValue(m, mid).0];
  }

  lemma OneDenoted(n: Node, names: Names)
    ensures DenoteElements([n], names, AtStart) == ([Denote(n, names, AtStart).0], Denote(n, names, AtStart).1)
  {
    assert [n][..0] == [];
    assert DenoteElements([n][..0], names, AtStart) == ([], names);
    assert [] + [Denote(n, names, AtStart).0] == [Denote(n, names, AtStart).0];
  }

  lemma TwoDenoted(n: Node, m: Node, names: Names)
    ensures var (d, mid) := Denote(n, names, AtStart);
            DenoteElements([n, m], names, AtStart) == ([d, Denote(m, mid, AtStart).0], Denote(m, mid, AtStart).1)
  {
    OneDenoted(n, names);
    assert [n, m][..1] == [n];
    var (d, mid) := Denote(n, names, AtStart);
    assert DenoteElements([n, m][..1], names, AtStart) == ([d], mid);
    assert [d] + [Denote(m, mid, AtStart).0] == [d, Denote(m, mid, AtStart).0];
  }

  lemma OneFinite(n: Node, names: Names)
    ensures FiniteElements([n], names) <==> Finite(n, names)
  {
    assert [n][..0] == [];
    assert FiniteElements([n][..0], names) && DenoteElements([n][..0], names, AtStart) == ([], names);
  }

  lemma TwoFinite(n: Node, m: Node, names: Names)
    ensures FiniteElements([n, m], names) <==> Finite(n, names) && Finite(m, Denote(n, names, AtStart).1)
  {
    OneFinite(n, names);
    OneDenoted(n, names);
    assert [n, m][..1] == [n];
    assert FiniteElements([n, m][..1], names) <==> Finite(n, names);
  }

  lemma TwoParsed(n: Node, m: Node)
    requires Parsed(n) && Parsed(m)
    ensures Parsed(Sequence([n, m]))
  {
    var elements := [n, m];
    assert forall i :: 0 <= i < |elements| ==> Parsed(elements[i]);
  }

  // ----- an alias inside its own anchor ------------------------------------------------------------

  const ONE := Anchor("x", Text("1"))
  const ITSELF := Anchor("x", Sequence([Alias("x")]))

  /** `- &x 1` and then `- &x [*x]`. */
  function InsideItself(): Node {
    Sequence([ONE, ITSELF])
  }

  lemma ItselfReads(st: State)
    requires "x" in st.anchors && st.anchors["x"] == Text("1")
    ensures ReduceValue(ITSELF, st).0 == Sequence([Text("1")]) && ReduceValue(ITSELF, st).1.diags == st.diags
  {
    OneReduced(Alias("x"), st.(reducing := st.reducing + {"x"}));
  }

  lemma ItselfIsInfinite(names: Names)
    ensures !Finite(ITSELF, names)
  {
    OneFinite(Alias("x"), Inside(names, "x", AtStart));
  }

  /** In YAML the alias names the list it stands in. The stage reports nothing and takes the earlier value. */
  lemma AnAliasInsideItsAnchor()
    ensures Parsed(InsideItself()) && Normalized(InsideItself()).1.diags == [] && Value(InsideItself()) == None
    ensures Normalized(InsideItself()).0 == Sequence([Text("1"), Sequence([Text("1")])])
  {
    var elements := [Alias("x")];
    assert Parsed(ITSELF);
    TwoParsed(ONE, ITSELF);
    TwoReduced(ONE, ITSELF, START);
    ItselfReads(ReduceValue(ONE, START).1);
    TwoFinite(ONE, ITSELF, map[]);
    ItselfIsInfinite(Denote(ONE, map[], AtStart).1);
  }

  // ----- an alias after an anchor that repeats its name ---------------------------------------------

  const REPEATED := Anchor("x", Sequence([ONE]))

  /** `- &x [&x 1]` and then `- *x`. */
  function RepeatedWithin(): Node {
    Sequence([REPEATED, Alias("x")])
  }

  lemma RepeatedReads(st: State)
    ensures ReduceValue(REPEATED, st).0 == Sequence([Text("1")]) && ReduceValue(REPEATED, st).1.diags == st.diags
    ensures "x" in ReduceValue(REPEATED, st).1.anchors && ReduceValue(REPEATED, st).1.anchors["x"] == Sequence([Text("1")])
  {
    var inside := st.(reducing := st.reducing + {"x"});
    OneReduced(ONE, inside);
    assert ReduceValue(ONE, inside).0 == Text("1") && ReduceValue(ONE, inside).1.diags == st.diags;
    assert ReduceValue(Sequence([ONE]), inside) == ReduceWithin(Sequence([ONE]), inside);
  }

  lemma RepeatedDenotes()
    ensures Finite(REPEATED, map[]) && Denote(REPEATED, map[], AtStart).0 == DSeq([DText("1")])
    ensures "x" in Denote(REPEATED, map[], AtStart).1 && Denote(REPEATED, map[], AtStart).1["x"] == DText("1")
  {
    var inside := Inside(map[], "x", AtStart);
    OneDenoted(ONE, inside);
    OneFinite(ONE, inside);
    assert Denote(ONE, inside, AtStart).0 == DText("1");
  }

  /** In YAML the alias names the inner one, the most recent before it; the stage takes the outer one. */
  lemma AnAliasAfterARepeatedName()
    ensures Parsed(RepeatedWithin()) && Normalized(RepeatedWithin()).1.diags == []
    ensures Value(RepeatedWithin()) == Some(DSeq([DSeq([DText("1")]), DText("1")]))
    ensures Normalized(RepeatedWithin()).0 == Sequence([Sequence([Text("1")]), Sequence([Text("1")])])
  {
    var elements := [ONE];
    assert Parsed(REPEATED);
    TwoParsed(REPEATED, Alias("x"));
    TwoReduced(REPEATED, Alias("x"), START);
    RepeatedReads(START);
    TwoFinite(REPEATED, Alias("x"), map[]);
    TwoDenoted(REPEATED, Alias("x"), map[]);
    RepeatedDenotes();
  }
}
