/** What the finished copy shows: nothing on a line that a value reached past its own, and on a line that none
    did exactly the edits of its own values. */
module RenderContainment {
  import opened TextEdits
  import opened PlacedEdits
  import opened PasswordRedaction
  import opened FallbackLines
  import opened RenderColumns
  import opened RenderReach
  import opened RenderCopies

  /** The lines as one value's own replacement and the gap above it leave them. */
  function Gapless(source: Source, lines: seq<string>, v: SensitiveValue): seq<string>
    requires |source.lines| == |lines| && 1 <= v.line <= |lines|
  {
    GapBlanked(v, lines[v.line - 1 := OwnLine(source, lines, v).0])
  }

  /** One value covers a line besides its own. */
  predicate Covers(source: Source, lines: seq<string>, v: SensitiveValue, n: nat)
    requires |source.lines| == |lines| && 1 <= v.line <= |lines|
  {
    || InGap(v, lines[v.line - 1 := OwnLine(source, lines, v).0], n)
    || (OwnLine(source, lines, v).1 && InReach(v, source.lines[v.line - 1], Gapless(source, lines, v), source.continues, n))
  }

  /** What one value does to each line. */
  lemma LineAfter(source: Source, lines: seq<string>, v: SensitiveValue, n: nat)
    requires |source.lines| == |lines| && 1 <= v.line <= |lines| && 1 <= n <= |lines|
    ensures if Covers(source, lines, v, n) then n != v.line && CopyAfter(source, lines, v)[n - 1] == Blanked(lines[n - 1])
            else CopyAfter(source, lines, v)[n - 1] == if n == v.line then OwnLine(source, lines, v).0 else lines[n - 1]
  {
    var own := lines[v.line - 1 := OwnLine(source, lines, v).0];
    assert own[n - 1] == if n == v.line then OwnLine(source, lines, v).0 else lines[n - 1];
    GapAt(v, own, n);
    ReachAt(v, source.lines[v.line - 1], Gapless(source, lines, v), source.continues, n);
  }

  /** A value that goes whole leaves a line that shows nothing showing nothing. */
  lemma OwnLineStaysConcealed(source: Source, lines: seq<string>, v: SensitiveValue)
    requires |source.lines| == |lines| && 1 <= v.line <= |lines| && GoesWhole(v) && Concealed(lines[v.line - 1])
    ensures Concealed(OwnLine(source, lines, v).0)
  {
    var copied := lines[v.line - 1];
    var edits := RedactionGeometry(v);
    assert edits != [] ==> edits == [Edit(0, |v.text|, PLACEHOLDER)];
    WholeReplacement(v);
    forall from: nat, past: nat | from <= |copied| && past <= |copied| ensures Concealed(copied[..from] + PLACEHOLDER + copied[past..]) {
      SplicedIsConcealed(copied, from, past);
    }
    forall from: nat | from <= |copied| ensures Concealed(copied[..from] + PLACEHOLDER) {
      SplicedIsConcealed(copied, from, |copied|);
      assert copied[..from] + PLACEHOLDER + copied[|copied|..] == copied[..from] + PLACEHOLDER;
    }
  }

  lemma WholeReplacement(v: SensitiveValue)
    requires GoesWhole(v)
    ensures Replacement(RedactionGeometry, v) == v.text || Replacement(RedactionGeometry, v) == PLACEHOLDER
  {
    var edits := RedactionGeometry(v);
    if edits != [] {
      assert edits[..0] == [];
      assert Applied(v.text, edits) == v.text[..0] + PLACEHOLDER + v.text[|v.text|..];
    }
  }

  // ----- over all the values -----------------------------------------------------------------------

  lemma TakenMore(values: seq<SensitiveValue>, k: nat)
    requires k < |values|
    ensures values[..k + 1] == values[..k] + [values[k]]
  {}

  /** The k-th value covers line `n` when its turn comes. */
  predicate CoversInTurn(source: Source, values: seq<SensitiveValue>, k: nat, n: nat)
    requires OnLines(source, values) && k < |values|
  {
    Covers(source, CopyOf(source, values[..k]), values[k], n)
  }

  /** No connection string is redacted on line `n` from the k-th value on. */
  predicate WholeFrom(values: seq<SensitiveValue>, k: nat, n: nat) {
    forall j :: k <= j < |values| ==> values[j].line == n ==> GoesWhole(values[j])
  }

  lemma StaysConcealed(source: Source, lines: seq<string>, v: SensitiveValue, n: nat)
    requires |source.lines| == |lines| && 1 <= v.line <= |lines| && 1 <= n <= |lines| && Concealed(lines[n - 1])
    requires v.line == n ==> GoesWhole(v)
    ensures Concealed(CopyAfter(source, lines, v)[n - 1])
  {
    LineAfter(source, lines, v, n);
    BlankedIsConcealed(lines[n - 1]);
    if n == v.line {
      OwnLineStaysConcealed(source, lines, v);
    }
  }

  lemma CoveredIsConcealed(source: Source, front: seq<SensitiveValue>, v: SensitiveValue, n: nat)
    requires OnLines(source, front) && 1 <= v.line <= |source.lines| && 1 <= n <= |source.lines|
    requires Covers(source, CopyOf(source, front), v, n)
    ensures OnLines(source, front + [v]) && Concealed(CopyOf(source, front + [v])[n - 1])
  {
    CopyMore(source, front, v);
    LineAfter(source, CopyOf(source, front), v, n);
    BlankedIsConcealed(CopyOf(source, front)[n - 1]);
  }

  lemma OneMoreStaysConcealed(source: Source, front: seq<SensitiveValue>, v: SensitiveValue, n: nat)
    requires OnLines(source, front) && 1 <= v.line <= |source.lines| && 1 <= n <= |source.lines|
    requires Concealed(CopyOf(source, front)[n - 1]) && (v.line == n ==> GoesWhole(v))
    ensures OnLines(source, front + [v]) && Concealed(CopyOf(source, front + [v])[n - 1])
  {
    CopyMore(source, front, v);
    StaysConcealed(source, CopyOf(source, front), v, n);
  }

  lemma TurnStaysConcealed(source: Source, values: seq<SensitiveValue>, k: nat, n: nat)
    requires OnLines(source, values) && k < |values| && 1 <= n <= |source.lines| && (values[k].line == n ==> GoesWhole(values[k]))
    requires Concealed(CopyOf(source, values[..k])[n - 1])
    ensures Concealed(CopyOf(source, values[..k + 1])[n - 1])
  {
    TakenMore(values, k);
    OneMoreStaysConcealed(source, values[..k], values[k], n);
  }

  lemma {:induction false} StaysToTheEnd(source: Source, values: seq<SensitiveValue>, k: nat, n: nat)
    requires OnLines(source, values) && k <= |values| && 1 <= n <= |source.lines| && WholeFrom(values, k, n)
    requires Concealed(CopyOf(source, values[..k])[n - 1])
    ensures Concealed(CopyOf(source, values)[n - 1])
    decreases |values| - k
  {
    if k == |values| {
      assert values[..k] == values;
    } else {
      TurnStaysConcealed(source, values, k, n);
      StaysToTheEnd(source, values, k + 1, n);
    }
  }

  lemma ConcealedInTurn(source: Source, values: seq<SensitiveValue>, k: nat, n: nat)
    requires OnLines(source, values) && k < |values| && 1 <= n <= |source.lines| && CoversInTurn(source, values, k, n)
    ensures Concealed(CopyOf(source, values[..k + 1])[n - 1])
  {
    TakenMore(values, k);
    CoveredIsConcealed(source, values[..k], values[k], n);
  }

  /** Containment across lines: a line that some value covered besides its own shows nothing in the finished
      copy, as long as no connection string comes to stand on it whose public part is shown. */
  lemma CoveredLinesShowNothing(source: Source, values: seq<SensitiveValue>, k: nat, n: nat)
    requires OnLines(source, values) && k < |values| && 1 <= n <= |source.lines|
    requires CoversInTurn(source, values, k, n) && WholeFrom(values, k + 1, n)
    ensures Concealed(CopyOf(source, values)[n - 1])
  {
    ConcealedInTurn(source, values, k, n);
    StaysToTheEnd(source, values, k + 1, n);
  }

  lemma OwnLineIsRedacted(source: Source, lines: seq<string>, front: seq<SensitiveValue>, v: SensitiveValue)
    requires |source.lines| == |lines| && 1 <= v.line <= |lines|
    requires IsItsEdits(source, lines, front, v.line)
    ensures source.Redacted(RedactionGeometry, front + [v], v.line).0 == OwnLine(source, lines, v).0
  {
    SameLineMore(source, front, v);
  }

  /** A line holds exactly what its own values make of it. */
  predicate IsItsEdits(source: Source, lines: seq<string>, values: seq<SensitiveValue>, n: nat)
    requires |source.lines| == |lines| && 1 <= n <= |lines|
  {
    lines[n - 1] == source.Redacted(RedactionGeometry, values, n).0
  }

  lemma OtherIsItsEdits(source: Source, lines: seq<string>, after: seq<string>, front: seq<SensitiveValue>, v: SensitiveValue, n: nat)
    requires |source.lines| == |lines| == |after| && 1 <= n <= |lines| && n != v.line
    requires IsItsEdits(source, lines, front, n) && after[n - 1] == lines[n - 1]
    ensures IsItsEdits(source, after, front + [v], n)
  {
    OtherLineMore(RedactionGeometry, source, front, v, n);
  }

  lemma NextIsItsEdits(source: Source, lines: seq<string>, front: seq<SensitiveValue>, v: SensitiveValue, n: nat)
    requires |source.lines| == |lines| && 1 <= v.line <= |lines| && 1 <= n <= |lines|
    requires IsItsEdits(source, lines, front, n) && !Covers(source, lines, v, n)
    ensures IsItsEdits(source, CopyAfter(source, lines, v), front + [v], n)
  {
    LineAfter(source, lines, v, n);
    if n == v.line {
      OwnLineIsRedacted(source, lines, front, v);
    } else {
      OtherIsItsEdits(source, lines, CopyAfter(source, lines, v), front, v, n);
    }
  }

  /** No value covers line `n` when its turn comes. */
  predicate NoneCovers(source: Source, values: seq<SensitiveValue>, n: nat)
    requires OnLines(source, values)
    decreases |values|
  {
    values == []
    || var front, v := values[..|values| - 1], values[|values| - 1];
       NoneCovers(source, front, n) && !Covers(source, CopyOf(source, front), v, n)
  }

  lemma OneMoreIsItsEdits(source: Source, front: seq<SensitiveValue>, v: SensitiveValue, n: nat)
    requires OnLines(source, front) && 1 <= v.line <= |source.lines| && 1 <= n <= |source.lines|
    requires IsItsEdits(source, CopyOf(source, front), front, n) && !Covers(source, CopyOf(source, front), v, n)
    ensures OnLines(source, front + [v]) && IsItsEdits(source, CopyOf(source, front + [v]), front + [v], n)
  {
    CopyMore(source, front, v);
    NextIsItsEdits(source, CopyOf(source, front), front, v, n);
  }

  /** A line that no value covered besides its own holds exactly what its own values made of it. */
  lemma {:induction false} OtherLinesAreTheirEdits(source: Source, values: seq<SensitiveValue>, n: nat)
    requires OnLines(source, values) && 1 <= n <= |source.lines| && NoneCovers(source, values, n)
    ensures IsItsEdits(source, CopyOf(source, values), values, n)
    decreases |values|
  {
    if values != [] {
      var front, v := values[..|values| - 1], values[|values| - 1];
      assert values == front + [v];
      OtherLinesAreTheirEdits(source, front, n);
      OneMoreIsItsEdits(source, front, v, n);
    }
  }

  /** The value's extent cannot be read off its own line, and it reaches line `n`. */
  predicate ReachesUnread(source: Source, lines: seq<string>, v: SensitiveValue, n: nat)
    requires |source.lines| == |lines| && 1 <= v.line <= |lines|
  {
    && (v.text == "" || !InPlace(source.lines[v.line - 1], v))
    && InReach(v, source.lines[v.line - 1], Gapless(source, lines, v), source.continues, n)
  }

  lemma UnreadCovers(source: Source, lines: seq<string>, v: SensitiveValue, n: nat)
    requires |source.lines| == |lines| && 1 <= v.line <= |lines| && ReachesUnread(source, lines, v, n)
    ensures Covers(source, lines, v, n)
  {
    if v.text != "" {
      UnreadableExtentGoesWhole(RedactionGeometry, lines[v.line - 1], source.lines[v.line - 1], source.ContinuesBelow(v.line), v);
    }
  }

  /** Of a value whose extent cannot be read off its line nothing is shown on any line it reaches. */
  lemma UnreadableExtentIsHidden(source: Source, values: seq<SensitiveValue>, k: nat, n: nat)
    requires OnLines(source, values) && k < |values| && 1 <= n <= |source.lines|
    requires ReachesUnread(source, CopyOf(source, values[..k]), values[k], n) && WholeFrom(values, k + 1, n)
    ensures Concealed(CopyOf(source, values)[n - 1])
  {
    UnreadCovers(source, CopyOf(source, values[..k]), values[k], n);
    CoveredLinesShowNothing(source, values, k, n);
  }
}
