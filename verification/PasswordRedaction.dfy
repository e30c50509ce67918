/** The spans of a connection string that hold a password, and its text with every one of them replaced
    (internal/config connstring.go, redact.go). */
module PasswordRedaction {
  import opened Options
  import opened TextEdits
  import opened ConnectionSpans
  import Interpolation

  // ----- merging -----------------------------------------------------------------------------------

  /** Spans in the order they start, none past `past`. */
  predicate Ascending(spans: seq<Span>, past: int) {
    spans != [] ==>
      var front, s := spans[..|spans| - 1], spans[|spans| - 1];
      s.from <= s.to <= past && Ascending(front, past) && (front != [] ==> front[|front| - 1].from <= s.from)
  }

  /** Spans in order, no two of which overlap or touch. */
  predicate Apart(spans: seq<Span>, past: int) {
    spans != [] ==>
      var s := spans[|spans| - 1];
      s.from <= s.to <= past && Apart(spans[..|spans| - 1], s.from - 1)
  }

  predicate Covers(spans: seq<Span>, k: nat) {
    exists s :: s in spans && s.from <= k < s.to
  }

  /** The span stands whole within one of the spans. */
  predicate Holds(spans: seq<Span>, s: Span) {
    exists m :: m in spans && m.from <= s.from && s.to <= m.to
  }

  function Joined(merged: seq<Span>, next: Span): seq<Span> {
    if merged != [] && next.from <= merged[|merged| - 1].to then
      var last := merged[|merged| - 1];
      merged[..|merged| - 1] + [Span(last.from, if last.to < next.to then next.to else last.to)]
    else merged + [next]
  }

  function Merged(spans: seq<Span>): seq<Span> {
    if spans == [] then [] else Joined(Merged(spans[..|spans| - 1]), spans[|spans| - 1])
  }

  method MergedSpans(ascending: seq<Span>) returns (merged: seq<Span>)
    ensures merged == Merged(ascending)
  {
    merged := [];
    for i := 0 to |ascending|
      invariant merged == Merged(ascending[..i])
    {
      assert ascending[..i + 1][..i] == ascending[..i];
      var next, last := ascending[i], |merged| - 1;
      if last >= 0 && next.from <= merged[last].to {
        merged := merged[last := Span(merged[last].from, if merged[last].to < next.to then next.to else merged[last].to)];
        continue;
      }
      merged := merged + [next];
    }
    assert ascending[..|ascending|] == ascending;
  }

  lemma JoinedIsApart(merged: seq<Span>, next: Span, past: int)
    requires Apart(merged, past) && next.from <= next.to <= past && (merged != [] ==> merged[|merged| - 1].from <= next.from)
    ensures Apart(Joined(merged, next), past) && Joined(merged, next)[|Joined(merged, next)| - 1].from <= next.from
  {
    var joined := Joined(merged, next);
    if joined[|joined| - 1] == next {
      assert joined[..|joined| - 1] == merged || joined[..|joined| - 1] == merged[..|merged| - 1];
    } else {
      assert joined[..|joined| - 1] == merged[..|merged| - 1];
    }
  }

  lemma {:induction false} MergedIsApart(spans: seq<Span>, past: int)
    requires Ascending(spans, past)
    ensures Apart(Merged(spans), past)
    ensures spans != [] ==> Merged(spans) != [] && Merged(spans)[|Merged(spans)| - 1].from <= spans[|spans| - 1].from
    decreases |spans|
  {
    if spans != [] {
      MergedIsApart(spans[..|spans| - 1], past);
      JoinedIsApart(Merged(spans[..|spans| - 1]), spans[|spans| - 1], past);
    }
  }

  lemma CoversMore(spans: seq<Span>, s: Span, k: nat)
    ensures Covers(spans + [s], k) <==> Covers(spans, k) || s.from <= k < s.to
  {
    assert s in spans + [s];
  }

  lemma JoinedCovers(merged: seq<Span>, next: Span, k: nat)
    requires merged != [] ==> merged[|merged| - 1].from <= merged[|merged| - 1].to && merged[|merged| - 1].from <= next.from
    requires next.from <= next.to
    ensures Covers(Joined(merged, next), k) <==> Covers(merged, k) || next.from <= k < next.to
  {
    CoversMore(merged, next, k);
    if merged != [] {
      var front, last := merged[..|merged| - 1], merged[|merged| - 1];
      assert merged == front + [last];
      CoversMore(front, last, k);
      CoversMore(front, Span(last.from, if last.to < next.to then next.to else last.to), k);
    }
  }

  /** Merging changes no byte's being covered. */
  lemma {:induction false} MergedCoversTheUnion(spans: seq<Span>, past: int, k: nat)
    requires Ascending(spans, past)
    ensures Covers(Merged(spans), k) <==> Covers(spans, k)
    decreases |spans|
  {
    if spans != [] {
      var front, last := spans[..|spans| - 1], spans[|spans| - 1];
      assert spans == front + [last];
      MergedCoversTheUnion(front, past, k);
      MergedIsApart(front, past);
      JoinedCovers(Merged(front), last, k);
      CoversMore(front, last, k);
    }
  }

  lemma JoinedHolds(merged: seq<Span>, next: Span, s: Span)
    requires merged != [] ==> merged[|merged| - 1].from <= next.from
    ensures Holds(merged, s) || s == next ==> Holds(Joined(merged, next), s)
  {
    var joined := Joined(merged, next);
    assert joined[|joined| - 1] in joined;
    if Holds(merged, s) {
      var m :| m in merged && m.from <= s.from && s.to <= m.to;
      if m != merged[|merged| - 1] {
        assert m in merged[..|merged| - 1];
      }
    }
  }

  /** Every span, an empty one too, stands whole within one merged span. */
  lemma {:induction false} MergedHoldsEach(spans: seq<Span>, past: int, s: Span)
    requires Ascending(spans, past) && s in spans
    ensures Holds(Merged(spans), s)
    decreases |spans|
  {
    var front, last := spans[..|spans| - 1], spans[|spans| - 1];
    assert spans == front + [last] && Merged(spans) == Joined(Merged(front), last);
    MergedIsApart(front, past);
    if s in front {
      MergedHoldsEach(front, past, s);
    }
    JoinedHolds(Merged(front), last, s);
  }

  // ----- the spans of a connection string ----------------------------------------------------------

  const PASSWORD := "password"

  /** What each locator finds: the value of the password keyword with all that follows it, and the
      userinfo's password. */
  function FoundSpans(text: string): (found: seq<Span>)
    ensures |found| <= 2 && forall i :: 0 <= i < |found| ==> found[i].from <= found[i].to <= |text|
  {
    var value := FirstValue(text, PASSWORD, 0);
    var keyword := if value.Some? then [Span(value.value, |text|)] else [];
    var userinfo := UriPasswordSpan(text);
    keyword + if userinfo.Some? then [userinfo.value] else []
  }

  /** At most two spans, in the order they start. */
  function Ordered(found: seq<Span>): (spans: seq<Span>)
    requires |found| <= 2
    ensures forall s :: s in spans <==> s in found
  {
    if |found| == 2 && found[1].from < found[0].from then [found[1], found[0]] else found
  }

  lemma OrderedIsAscending(found: seq<Span>, past: int)
    requires |found| <= 2 && forall i :: 0 <= i < |found| ==> found[i].from <= found[i].to <= past
    ensures Ascending(Ordered(found), past)
  {
    if |found| == 2 {
      assert Ascending(Ordered(found)[..1], past);
    }
  }

  function Reversed(spans: seq<Span>): seq<Span> {
    if spans == [] then [] else [spans[|spans| - 1]] + Reversed(spans[..|spans| - 1])
  }

  function PasswordSpans(text: string): seq<Span> {
    Reversed(Merged(Ordered(FoundSpans(text))))
  }

  method LocatePasswords(text: string) returns (spans: seq<Span>)
    ensures spans == PasswordSpans(text)
  {
    var value := ValueAfterKeyword(text, PASSWORD);
    var found := if value.Some? then [Span(value.value, |text|)] else [];
    var userinfo := UriPasswordSpan(text);
    if userinfo.Some? {
      found := found + [userinfo.value];
    }
    assert found == FoundSpans(text);
    var merged := MergedSpans(Ordered(found));
    spans := Reversed(merged);
  }

  // ----- replacing them ----------------------------------------------------------------------------

  /** A reference with no default holds no secret: what is written down is the reference. */
  predicate IsBareEnvReference(text: string) {
    |text| >= 3 && "${" <= text && text[|text| - 1] == '}' && Interpolation.IsVariableName(text[2..|text| - 1])
  }

  predicate HoldsAReference(text: string, s: Span) {
    s.from <= s.to <= |text| && IsBareEnvReference(text[s.from..s.to])
  }

  function SpanEdits(text: string, spans: seq<Span>): seq<Edit> {
    if spans == [] then []
    else
      var s := spans[|spans| - 1];
      SpanEdits(text, spans[..|spans| - 1]) + if HoldsAReference(text, s) then [] else [Edit(s.from, s.to, PLACEHOLDER)]
  }

  function PasswordEdits(text: string): seq<Edit> {
    SpanEdits(text, PasswordSpans(text))
  }

  lemma AppliedMore(text: string, edits: seq<Edit>, e: Edit)
    ensures Applied(text, edits + [e]) == Replaced(Applied(text, edits), e)
  {
    assert (edits + [e])[..|edits|] == edits;
  }

  method RedactedConnectionStringSpans(text: string) returns (redacted: string, replaced: seq<Edit>)
    ensures replaced == PasswordEdits(text) && redacted == Applied(text, PasswordEdits(text))
  {
    var spans := LocatePasswords(text);
    redacted, replaced := text, [];
    for i := 0 to |spans|
      invariant replaced == SpanEdits(text, spans[..i]) && redacted == Applied(text, replaced)
    {
      assert spans[..i + 1][..i] == spans[..i];
      var password := spans[i];
      if HoldsAReference(text, password) {
        continue;
      }
      var e := Edit(password.from, password.to, PLACEHOLDER);
      AppliedMore(text, replaced, e);
      redacted := Replaced(redacted, e);
      replaced := replaced + [e];
    }
    assert spans[..|spans|] == spans;
  }

  // ----- what is lost ------------------------------------------------------------------------------

  /** Spans from the last to the first, no two of which overlap or touch. */
  predicate Leftward(spans: seq<Span>, least: nat, past: int) {
    spans != [] ==>
      var s := spans[|spans| - 1];
      least <= s.from <= s.to <= past && Leftward(spans[..|spans| - 1], s.to + 1, past)
  }

  lemma {:induction false} PutFirst(s: Span, spans: seq<Span>, least: nat, past: int)
    requires least <= s.from <= s.to <= past && Leftward(spans, least, s.from - 1)
    ensures Leftward([s] + spans, least, past)
    decreases |spans|
  {
    var all := [s] + spans;
    if spans == [] {
      assert all[..0] == [];
    } else {
      var t := spans[|spans| - 1];
      PutFirst(s, spans[..|spans| - 1], t.to + 1, past);
      assert all[..|all| - 1] == [s] + spans[..|spans| - 1];
    }
  }

  lemma {:induction false} ReversedIsLeftward(spans: seq<Span>, past: int)
    requires Apart(spans, past)
    ensures Leftward(Reversed(spans), 0, past)
    decreases |spans|
  {
    if spans != [] {
      var s := spans[|spans| - 1];
      ReversedIsLeftward(spans[..|spans| - 1], s.from - 1);
      PutFirst(s, Reversed(spans[..|spans| - 1]), 0, past);
    }
  }

  lemma {:induction false} EditsAreRightToLeft(text: string, spans: seq<Span>, least: nat)
    requires Leftward(spans, least, |text|) && least <= |text|
    ensures RightToLeft(SpanEdits(text, spans), least, |text|)
    decreases |spans|
  {
    if spans != [] {
      var front, s := spans[..|spans| - 1], spans[|spans| - 1];
      var edits := SpanEdits(text, front);
      if front != [] {
        EditsAreRightToLeft(text, front, s.to + 1);
        Lowered(edits, s.to, s.to + 1, |text|);
        Lowered(edits, least, s.to + 1, |text|);
      } else {
        assert edits == [];
      }
      assert edits + [] == edits;
      assert (edits + [Edit(s.from, s.to, PLACEHOLDER)])[..|edits|] == edits;
    }
  }

  /** The spans a connection string loses never overlap or touch and come right to left, so each edit meets
      the text where its span was found. */
  lemma PasswordEditsAreRightToLeft(text: string)
    ensures Leftward(PasswordSpans(text), 0, |text|) && RightToLeft(PasswordEdits(text), 0, |text|)
  {
    var ordered := Ordered(FoundSpans(text));
    OrderedIsAscending(FoundSpans(text), |text|);
    MergedIsApart(ordered, |text|);
    ReversedIsLeftward(Merged(ordered), |text|);
    EditsAreRightToLeft(text, PasswordSpans(text), 0);
  }

  lemma {:induction false} ReversedHas(spans: seq<Span>, s: Span)
    requires s in spans
    ensures s in Reversed(spans)
    decreases |spans|
  {
    if s != spans[|spans| - 1] {
      ReversedHas(spans[..|spans| - 1], s);
    }
  }

  lemma {:induction false} SpanIsEdited(text: string, spans: seq<Span>, s: Span)
    requires s in spans && !HoldsAReference(text, s)
    ensures Edit(s.from, s.to, PLACEHOLDER) in SpanEdits(text, spans)
    decreases |spans|
  {
    if s != spans[|spans| - 1] {
      SpanIsEdited(text, spans[..|spans| - 1], s);
    }
  }

  /** The span is within what one edit removes, or within a bare reference to the environment. */
  predicate Contained(text: string, s: Span) {
    exists m: Span :: m in PasswordSpans(text) && m.from <= s.from && s.to <= m.to
      && (HoldsAReference(text, m) || Edit(m.from, m.to, PLACEHOLDER) in PasswordEdits(text))
  }

  /** Containment: whatever any locator found is gone, unless all that stands there is a bare reference. */
  lemma EveryFoundPasswordIsRemoved(text: string, s: Span)
    requires s in FoundSpans(text)
    ensures Contained(text, s)
  {
    var ordered := Ordered(FoundSpans(text));
    OrderedIsAscending(FoundSpans(text), |text|);
    MergedHoldsEach(ordered, |text|, s);
    var m :| m in Merged(ordered) && m.from <= s.from && s.to <= m.to;
    ReversedHas(Merged(ordered), m);
    if !HoldsAReference(text, m) {
      SpanIsEdited(text, PasswordSpans(text), m);
    }
  }

  /** The value of every `password=` pair in the text, not only of the first, is contained. */
  lemma EveryPasswordPairIsRemoved(text: string, p: nat, value: nat)
    requires AssignedAt(text, PASSWORD, p, value)
    ensures exists s: Span :: s.from <= value && s.to == |text| && Contained(text, s)
  {
    EveryValueIsReached(text, PASSWORD, p, value);
    var s := Span(FirstValue(text, PASSWORD, 0).value, |text|);
    assert s in FoundSpans(text);
    EveryFoundPasswordIsRemoved(text, s);
  }
}
