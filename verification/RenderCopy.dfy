/** The render copy: every declared value replaced, the lines it reaches blanked, and the columns of every
    line carried (internal/config sensitivepaths.go, sensitivereach.go, redactiongeometry.go, rendercopy.go). */
module RenderCopies {
  import ConnectionSpans
  import opened FallbackLines
  import opened TextEdits
  import opened PlacedEdits
  import opened PasswordRedaction
  import opened RenderColumns
  import opened RenderReach

  /** A connection string written as a scalar loses its passwords; any other value goes whole, unless all
      that is written down is a reference. */
  function RedactionGeometry(v: SensitiveValue): seq<Edit> {
    if v.kind == UrlPassword && !v.writtenAsAContainer then PasswordEdits(v.text)
    else if IsBareEnvReference(v.text) then []
    else [Edit(0, |v.text|, PLACEHOLDER)]
  }

  lemma GeometryIsWellOrdered()
    ensures WellOrdered(RedactionGeometry)
  {
    forall v: SensitiveValue ensures RightToLeft(RedactionGeometry(v), 0, |v.text|) {
      PasswordEditsAreRightToLeft(v.text);
      assert [Edit(0, |v.text|, PLACEHOLDER)][..0] == [];
    }
  }

  // ----- one line ----------------------------------------------------------------------------------

  function RedactedLine(written: string, values: seq<SensitiveValue>, continuesBelow: bool): (string, seq<Edit>) {
    Rewritten(RedactionGeometry, written, values, continuesBelow)
  }

  /** Redacting a line's values right to left is replacing everything they lose at once. */
  lemma RedactionIsAllAtOnce(written: string, values: seq<SensitiveValue>, continuesBelow: bool)
    requires AllInPlace(written, values, 0)
    ensures var (line, edits) := RedactedLine(written, values, continuesBelow);
            RightToLeft(edits, 0, |written|) && line == AllAtOnce(written, edits, 0)
  {
    GeometryIsWellOrdered();
    RewrittenIsItsEdits(RedactionGeometry, written, values, continuesBelow);
    ValuesAreReplacedAtOnce(RedactionGeometry, written, values);
  }

  /** Every column of the source is carried to where its rune is shown, or to the first rune of the
      placeholder that replaced it. */
  lemma EveryColumnIsShown(written: string, values: seq<SensitiveValue>, continuesBelow: bool, c: nat)
    requires AllInPlace(written, values, 0) && c <= |written|
    ensures var (line, edits) := RedactedLine(written, values, continuesBelow);
            line == Applied(written, edits) && CarriedTo(written, edits, c, CarriedColumn(ShiftsOf(edits), c + 1) - 1)
  {
    GeometryIsWellOrdered();
    RewrittenIsItsEdits(RedactionGeometry, written, values, continuesBelow);
    ColumnsFollowTheText(RedactionGeometry, written, values, c);
  }

  /** Containment on a line: every edit of every value written on it is made where the value stands, unless
      the value is already written as what replaces it. */
  lemma EveryEditIsMade(written: string, values: seq<SensitiveValue>, continuesBelow: bool, v: SensitiveValue, i: nat)
    requires AllInPlace(written, values, 0) && v in values && i < |RedactionGeometry(v)|
    requires Replacement(RedactionGeometry, v) != v.text
    ensures v.column >= 1 && OnTheLine(v, RedactionGeometry(v)[i]) in RedactedLine(written, values, continuesBelow).1
  {
    EditIsMade(RedactionGeometry, written, values, continuesBelow, v, i);
  }

  lemma {:induction false} SpanEditsArePlaceholders(text: string, spans: seq<ConnectionSpans.Span>)
    ensures forall e :: e in SpanEdits(text, spans) ==> e.text == PLACEHOLDER
    decreases |spans|
  {
    if spans != [] {
      SpanEditsArePlaceholders(text, spans[..|spans| - 1]);
    }
  }

  /** Nothing but the placeholder is ever written in a value's place. */
  lemma EditsArePlaceholders(written: string, values: seq<SensitiveValue>, continuesBelow: bool)
    ensures AllPlaceholders(RedactedLine(written, values, continuesBelow).1)
  {
    forall v: SensitiveValue ensures AllPlaceholders(RedactionGeometry(v)) {
      SpanEditsArePlaceholders(v.text, PasswordSpans(v.text));
    }
    RewrittenInPlaceholders(RedactionGeometry, written, values, continuesBelow);
  }

  // ----- the whole copy ----------------------------------------------------------------------------

  /** The values anchored on a line, in the order they are replaced. */
  function ValuesOn(values: seq<SensitiveValue>, number: nat): seq<SensitiveValue> {
    if values == [] then []
    else ValuesOn(values[..|values| - 1], number) + if values[|values| - 1].line == number then [values[|values| - 1]] else []
  }

  datatype Source = Source(lines: seq<string>, continues: seq<bool>) {
    /** Whether the line below is the tail of this one, split off by a lone carriage return. */
    predicate ContinuesBelow(number: nat) {
      number < |continues| && continues[number]
    }

    function Redacted(geometry: Geometry, values: seq<SensitiveValue>, number: nat): (string, seq<Edit>)
      requires 1 <= number <= |lines|
    {
      Rewritten(geometry, lines[number - 1], ValuesOn(values, number), ContinuesBelow(number))
    }
  }

  /** One value's own line, whether the lines it reaches must go too, and the edits to carry. */
  function Redaction(source: Source, copied: string, v: SensitiveValue): (string, bool, seq<Edit>)
    requires 1 <= v.line <= |source.lines|
  {
    RedactValue(RedactionGeometry, copied, source.lines[v.line - 1], source.ContinuesBelow(v.line), v)
  }

  function OwnLine(source: Source, lines: seq<string>, v: SensitiveValue): (string, bool)
    requires |source.lines| == |lines| && 1 <= v.line <= |lines|
  {
    (Redaction(source, lines[v.line - 1], v).0, Redaction(source, lines[v.line - 1], v).1)
  }

  /** The lines after one value: its own rewritten, those its key opened above it blanked, and those it
      reaches below it where its extent does not end on its own. */
  function CopyAfter(source: Source, lines: seq<string>, v: SensitiveValue): (after: seq<string>)
    requires |source.lines| == |lines| && 1 <= v.line <= |lines|
    ensures |after| == |lines|
  {
    var (rewritten, spans) := OwnLine(source, lines, v);
    var gapless := GapBlanked(v, lines[v.line - 1 := rewritten]);
    if spans then ReachBlanked(v, source.lines[v.line - 1], gapless, source.continues) else gapless
  }

  predicate OnLines(source: Source, values: seq<SensitiveValue>) {
    forall i :: 0 <= i < |values| ==> 1 <= values[i].line <= |source.lines|
  }

  function CopyOf(source: Source, values: seq<SensitiveValue>): (copy: seq<string>)
    requires OnLines(source, values)
    ensures |copy| == |source.lines|
  {
    if values == [] then source.lines
    else CopyAfter(source, CopyOf(source, values[..|values| - 1]), values[|values| - 1])
  }

  lemma CopyMore(source: Source, values: seq<SensitiveValue>, v: SensitiveValue)
    requires OnLines(source, values) && 1 <= v.line <= |source.lines|
    ensures OnLines(source, values + [v]) && CopyOf(source, values + [v]) == CopyAfter(source, CopyOf(source, values), v)
  {
    assert (values + [v])[..|values|] == values;
  }

  lemma ValuesOnMore(values: seq<SensitiveValue>, v: SensitiveValue, number: nat)
    ensures ValuesOn(values + [v], number) == if v.line == number then ValuesOn(values, number) + [v] else ValuesOn(values, number)
  {
    assert (values + [v])[..|values|] == values;
  }

  lemma OtherLineMore(geometry: Geometry, source: Source, values: seq<SensitiveValue>, v: SensitiveValue, number: nat)
    requires 1 <= number <= |source.lines| && v.line != number
    ensures source.Redacted(geometry, values + [v], number) == source.Redacted(geometry, values, number)
  {
    ValuesOnMore(values, v, number);
  }

  /** What one value more makes of its own line. */
  lemma SameLineMore(source: Source, values: seq<SensitiveValue>, v: SensitiveValue)
    requires 1 <= v.line <= |source.lines|
    ensures var before, redaction := source.Redacted(RedactionGeometry, values, v.line),
                                     Redaction(source, source.Redacted(RedactionGeometry, values, v.line).0, v);
            && source.Redacted(RedactionGeometry, values + [v], v.line).0 == redaction.0
            && source.Redacted(RedactionGeometry, values + [v], v.line).1 == before.1 + redaction.2
  {
    ValuesOnMore(values, v, v.line);
    RewrittenMore(RedactionGeometry, source.lines[v.line - 1], ValuesOn(values, v.line), source.ContinuesBelow(v.line), v);
  }

  lemma ShiftsMore(edits: seq<Edit>, i: nat)
    requires i < |edits|
    ensures ShiftsOf(edits[..i + 1]) == ShiftsOf(edits[..i]) + [ShiftOf(edits[i])]
  {
    assert edits[..i + 1][..i] == edits[..i];
  }

  predicate Forward(edits: seq<Edit>) {
    forall i :: 0 <= i < |edits| ==> edits[i].from <= edits[i].past
  }

  lemma EditsAreForward(source: Source, copied: string, v: SensitiveValue)
    requires 1 <= v.line <= |source.lines|
    ensures Forward(Redaction(source, copied, v).2)
  {
    GeometryIsWellOrdered();
    forall i | 0 <= i < |RedactionGeometry(v)| ensures RedactionGeometry(v)[i].from <= RedactionGeometry(v)[i].past {
      FromIsWithin(RedactionGeometry(v), 0, |v.text|, i);
    }
  }

  lemma EditsIgnoreTheCopy(source: Source, copied: string, other: string, v: SensitiveValue)
    requires 1 <= v.line <= |source.lines|
    ensures Redaction(source, copied, v).2 == Redaction(source, other, v).2
  {}

  /** The shifts of every line are those of the edits its own values make. */
  ghost predicate CarriesAll(source: Source, values: seq<SensitiveValue>, shifts: seq<seq<ColumnShift>>) {
    && |shifts| == |source.lines|
    && forall n :: 1 <= n <= |shifts| ==> Carries(source, values, shifts, n)
  }

  ghost predicate Carries(source: Source, values: seq<SensitiveValue>, shifts: seq<seq<ColumnShift>>, number: nat)
    requires 1 <= number <= |source.lines| == |shifts|
  {
    shifts[number - 1] == ShiftsOf(source.Redacted(RedactionGeometry, values, number).1)
  }

  lemma CarriesOnItsLine(source: Source, done: seq<SensitiveValue>, shifts: seq<seq<ColumnShift>>, edits: seq<Edit>, copied: string, v: SensitiveValue)
    requires |shifts| == |source.lines| && 1 <= v.line <= |shifts| && Carries(source, done, shifts, v.line)
    requires edits == Redaction(source, copied, v).2
    ensures shifts[v.line - 1] + ShiftsOf(edits) == ShiftsOf(source.Redacted(RedactionGeometry, done + [v], v.line).1)
  {
    var (fold, before) := source.Redacted(RedactionGeometry, done, v.line);
    EditsIgnoreTheCopy(source, copied, fold, v);
    SameLineMore(source, done, v);
    ShiftsTogether(before, edits);
  }

  /** What one value adds to the shifts of its line. */
  lemma CarriesMore(source: Source, done: seq<SensitiveValue>, shifts: seq<seq<ColumnShift>>, edits: seq<Edit>, copied: string, v: SensitiveValue)
    requires CarriesAll(source, done, shifts) && 1 <= v.line <= |shifts| && edits == Redaction(source, copied, v).2
    ensures CarriesAll(source, done + [v], shifts[v.line - 1 := shifts[v.line - 1] + ShiftsOf(edits)])
  {
    var after := shifts[v.line - 1 := shifts[v.line - 1] + ShiftsOf(edits)];
    assert Carries(source, done, shifts, v.line);
    CarriesOnItsLine(source, done, shifts, edits, copied, v);
    forall n | 1 <= n <= |after| ensures Carries(source, done + [v], after, n) {
      if n != v.line {
        OtherLineMore(RedactionGeometry, source, done, v, n);
        assert Carries(source, done, shifts, n);
      }
    }
  }

  /** What redacting these values makes of the copy. */
  ghost predicate Redacts(source: Source, values: seq<SensitiveValue>, lines: seq<string>, shifts: seq<seq<ColumnShift>>) {
    OnLines(source, values) && lines == CopyOf(source, values) && CarriesAll(source, values, shifts)
  }

  class RenderCopy {
    var lines: seq<string>
    var shifts: seq<seq<ColumnShift>>

    constructor (source: Source)
      ensures |lines| == |shifts| == |source.lines|
      ensures lines == source.lines && forall n :: 0 <= n < |shifts| ==> shifts[n] == []
    {
      lines, shifts := source.lines, seq(|source.lines|, _ => []);
    }

    method Rewrite(number: nat, text: string)
      requires 1 <= number <= |lines|
      modifies `lines
      ensures lines == old(lines)[number - 1 := text]
    {
      lines := lines[number - 1 := text];
    }

    /** Records how one replacement carries the columns of its line. */
    method CarryReplacement(number: nat, from: int, past: int, replacementRunes: nat)
      requires 1 <= number <= |shifts|
      modifies `shifts
      ensures shifts == if past < from then old(shifts)
                        else old(shifts)[number - 1 := old(shifts)[number - 1] + [ColumnShift(from, past, replacementRunes - (past - from))]]
    {
      if past < from {
        return;
      }
      shifts := shifts[number - 1 := shifts[number - 1] + [ColumnShift(from, past, replacementRunes - (past - from))]];
    }

    method CarryAll(number: nat, edits: seq<Edit>)
      requires 1 <= number <= |shifts| && Forward(edits)
      modifies `shifts
      ensures shifts == old(shifts)[number - 1 := old(shifts)[number - 1] + ShiftsOf(edits)]
    {
      for i := 0 to |edits|
        invariant |shifts| == |old(shifts)| && shifts[number - 1] == old(shifts)[number - 1] + ShiftsOf(edits[..i])
        invariant forall k :: 0 <= k < |shifts| && k != number - 1 ==> shifts[k] == old(shifts)[k]
      {
        ShiftsMore(edits, i);
        CarryReplacement(number, edits[i].from + 1, edits[i].past + 1, |edits[i].text|);
      }
      assert edits[..|edits|] == edits;
    }

    /** Blanks the lines a value's own key opened above the line its text begins on. */
    method BlankTheOpenerGapAbove(v: SensitiveValue)
      requires v.line <= |lines|
      modifies `lines
      ensures lines == GapBlanked(v, old(lines))
    {
      ghost var was := lines;
      ghost var covered := (i: nat) => InGap(v, was, i + 1);
      if v.reachesBackTo < 1 {
        BlankingStarts(was, covered, |was| + 1);
        BlankingEnds(was, covered, |was| + 1);
        return;
      }
      var number := v.reachesBackTo as nat;
      BlankingStarts(was, covered, number);
      while number < v.line
        invariant 1 <= v.reachesBackTo <= number && lines == Blanking(was, UpTo(covered, number))
        decreases v.line - number
      {
        BlankingOneMore(was, covered, number);
        if !IsBlank(lines[number - 1]) {
          Rewrite(number, Blanked(lines[number - 1]));
        }
        number := number + 1;
      }
      BlankingEnds(was, covered, number);
    }

    /** Blanks up to and including the closing line the parser reported. */
    method BlankThroughClosingLine(anchor: nat, through: int)
      modifies `lines
      ensures lines == Blanking(old(lines), (i: nat) => anchor < i + 1 <= through)
    {
      ghost var was := lines;
      ghost var covered := (i: nat) => anchor < i + 1 <= through;
      var last := if through < |lines| then through else |lines|;
      var number := anchor + 1;
      BlankingStarts(was, covered, number);
      while number <= last
        invariant anchor < number && lines == Blanking(was, UpTo(covered, number))
        decreases last - number
      {
        BlankingOneMore(was, covered, number);
        Rewrite(number, Blanked(lines[number - 1]));
        number := number + 1;
      }
      BlankingEnds(was, covered, number);
    }

    /** Blanks the lines a value occupies after its own, by what it left open and then by indentation. */
    method BlankIndentedContinuation(continues: seq<bool>, anchor: nat, least: nat, opening: Continuation)
      modifies `lines
      ensures lines == Blanking(old(lines), Reached(old(lines), continues, least, anchor + 1, opening))
    {
      ghost var was := lines;
      var open, number := opening, anchor + 1;
      WalkStarts(was, continues, least, number, opening);
      while number <= |lines|
        invariant number >= 0 && WalkedTo(lines, was, continues, least, anchor + 1, opening, number, open)
        decreases |lines| - number
      {
        WalkStep(lines, was, continues, least, anchor + 1, opening, number, open);
        var written := lines[number - 1];
        if IsBlank(written) {
          number := number + 1;
          continue;
        }
        if !open.Open() && IndentWidth(written) < least && !ContinuesAbove(continues, number) {
          return;
        }
        Rewrite(number, Blanked(written));
        open := StillOpened(open, written);
        number := number + 1;
      }
      WalkEnds(lines, was, continues, least, anchor + 1, opening, number, open);
    }

    /** Blanks every line a value reaches past its own. */
    method BlankValueReach(source: Source, v: SensitiveValue)
      requires 1 <= v.line <= |lines| == |source.lines|
      modifies `lines
      ensures lines == ReachBlanked(v, source.lines[v.line - 1], old(lines), source.continues)
    {
      ghost var was := lines;
      var written := source.lines[v.line - 1];
      ghost var covered := (i: nat) => InReach(v, written, was, source.continues, i + 1);
      if v.throughLine > v.line {
        BlankThroughClosingLine(v.line, v.throughLine);
        SameBlanking(was, (i: nat) => v.line < i + 1 <= v.throughLine, covered);
      } else {
        BlankIndentedContinuation(source.continues, v.line, LeastIndent(v, written), LeftOpen(v, written));
        SameBlanking(was, Reached(was, source.continues, LeastIndent(v, written), v.line + 1, LeftOpen(v, written)), covered);
      }
    }

    /** Replaces one value on its own line and carries its columns. */
    method RedactOnItsLine(source: Source, ghost done: seq<SensitiveValue>, v: SensitiveValue) returns (spans: bool)
      requires |source.lines| == |lines| && 1 <= v.line <= |lines| && CarriesAll(source, done, shifts)
      modifies this
      ensures (old(lines)[v.line - 1 := OwnLine(source, old(lines), v).0], OwnLine(source, old(lines), v).1) == (lines, spans)
      ensures CarriesAll(source, done + [v], shifts)
    {
      var (rewritten, reaches, edits) := Redaction(source, lines[v.line - 1], v);
      EditsAreForward(source, lines[v.line - 1], v);
      CarriesMore(source, done, shifts, edits, lines[v.line - 1], v);
      Rewrite(v.line, rewritten);
      CarryAll(v.line, edits);
      return reaches;
    }

    /** Replaces one value, and blanks the lines it covers besides its own. */
    method RedactOne(source: Source, ghost done: seq<SensitiveValue>, v: SensitiveValue)
      requires 1 <= v.line <= |source.lines| && Redacts(source, done, lines, shifts)
      modifies this
      ensures Redacts(source, done + [v], lines, shifts)
    {
      var spans := RedactOnItsLine(source, done, v);
      BlankTheOpenerGapAbove(v);
      if spans {
        BlankValueReach(source, v);
      }
      CopyMore(source, done, v);
    }

    /** Replaces every value in turn: the lines are what the values make of them one after another, and every
        line's shifts are its own values' doing. */
    method RedactDeclaredPaths(source: Source, values: seq<SensitiveValue>)
      requires lines == source.lines && |shifts| == |lines| && forall n :: 0 <= n < |shifts| ==> shifts[n] == []
      requires OnLines(source, values)
      modifies this
      ensures lines == CopyOf(source, values) && CarriesAll(source, values, shifts)
    {
      for i := 0 to |values|
        invariant Redacts(source, values[..i], lines, shifts)
      {
        assert values[..i + 1] == values[..i] + [values[i]];
        RedactOne(source, values[..i], values[i]);
      }
      assert values[..|values|] == values;
    }

    /** Where a column of the source is shown; of a line the copy does not have, where it was. */
    method Column(number: int, original: int) returns (adjusted: int)
      ensures adjusted == if number < 1 || number > |shifts| then original else CarriedColumn(shifts[number - 1], original)
    {
      if number < 1 || number > |shifts| {
        return original;
      }
      var of := shifts[number - 1];
      adjusted := original;
      for i := 0 to |of|
        invariant adjusted == Adjusted(of[..i], original)
      {
        assert of[..i + 1][..i] == of[..i];
        if original >= of[i].past {
          adjusted := adjusted + of[i].delta;
        } else if original >= of[i].from {
          adjusted := adjusted + (of[i].from - original);
        }
      }
      assert of[..|of|] == of;
      if adjusted < 1 {
        adjusted := 1;
      }
    }
  }
}
