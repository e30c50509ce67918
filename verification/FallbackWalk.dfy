/** The fallback redaction of a document that does not parse (internal/config sensitivekeys.go,
    uncoveredline.go, fallbackstate.go, sensitivekeyforms.go): a value is secret because of the key name
    above it. */
module FallbackWalk {
  import opened Options
  import opened FallbackLines
  import opened TextEdits

  // ----- reading one line --------------------------------------------------------------------------

  datatype Token = ReadableKey | UnreadableKey | NoKey

  /** What is asked of a line's text elsewhere: where each sensitive key name ends on it, what token it
      opens with, and whether it holds a flow key that cannot be read. */
  datatype Reading = Reading(
    forms: seq<string -> Option<nat>>,
    token: string -> Token,
    hidesAFlowKey: string -> bool
  )

  /** A match ends within the line it was found on. */
  ghost predicate MatchesWithin(forms: seq<string -> Option<nat>>) {
    forall i, line: string :: 0 <= i < |forms| && forms[i](line).Some? ==> forms[i](line).value <= |line|
  }

  predicate Governs(forms: seq<string -> Option<nat>>, line: string) {
    exists i :: 0 <= i < |forms| && forms[i](line).Some?
  }

  /** Where the earliest sensitive key on the line ends. */
  function EarliestKeyEnd(forms: seq<string -> Option<nat>>, line: string): (r: Option<nat>)
    ensures r.Some? <==> Governs(forms, line)
    ensures r.Some? ==> exists i :: 0 <= i < |forms| && forms[i](line) == r
    ensures forall i :: 0 <= i < |forms| && forms[i](line).Some? ==> r.value <= forms[i](line).value
    decreases |forms|
  {
    if forms == [] then None
    else
      var before, last := EarliestKeyEnd(forms[..|forms| - 1], line), forms[|forms| - 1](line);
      if last.None? then before else if before.None? || last.value < before.value then last else before
  }

  predicate OpensAnItem(text: string) {
    "-" <= text && (|text| == 1 || IsIndent(text[1]))
  }

  function MarkerWidth(content: string): (n: nat)
    ensures n <= |content|
    decreases |content|
  {
    if !OpensAnItem(content) then 0
    else
      var past := 1 + IndentWidth(content[1..]);
      past + MarkerWidth(content[past..])
  }

  /** The value half of a key written in the explicit form, whose name is on another line. */
  predicate OpensAnExplicitKeysValue(content: string) {
    ":" <= content[MarkerWidth(content)..]
  }

  datatype Governance = Ungoverned | ValueOnThisLine(at: nat) | LineAndBlockBelow(at: nat)

  function GovernanceOf(reading: Reading, line: string): Governance {
    if OpensAnExplicitKeysValue(Content(line)) then LineAndBlockBelow(IndentWidth(line))
    else
      var end := EarliestKeyEnd(reading.forms, line);
      if end.Some? then ValueOnThisLine(end.value) else Ungoverned
  }

  /** The characters a value is trimmed of before it is taken for empty. */
  predicate IsSpace(c: char) {
    var n := c as int;
    9 <= n <= 13 || n == 0x20 || n == 0x85 || n == 0xA0 || n == 0x1680 || 0x2000 <= n <= 0x200A
    || n == 0x2028 || n == 0x2029 || n == 0x202F || n == 0x205F || n == 0x3000
  }

  predicate OnlySpaceFrom(line: string, at: nat) {
    forall k :: at <= k < |line| ==> IsSpace(line[k])
  }

  function ValueBlanked(line: string, at: nat): string
    requires at <= |line|
  {
    if OnlySpaceFrom(line, at) then line else line[..at] + " " + PLACEHOLDER
  }

  // ----- the walk ----------------------------------------------------------------------------------

  /** What one line hands to the next: the indentation of the sensitive block still open, and the quote or
      container still unclosed. */
  datatype LineState = LineState(blockIndent: Option<nat>, continuation: Continuation) {
    function Blanked(line: string): LineState {
      LineState(blockIndent, AfterFrom(continuation, line, 0))
    }
  }

  const NO_BLOCK := LineState(None, NO_CONTINUATION)

  /** The lines a block opened at `b` still reaches. */
  predicate Reaches(b: nat, line: string) {
    IndentWidth(line) > b || LooksLikeAComment(Content(line)) || (IndentWidth(line) == b && "-" <= Content(line))
  }

  predicate Covered(blockIndent: Option<nat>, line: string) {
    blockIndent.Some? && !HoldsNothing(Content(line)) && Reaches(blockIndent.value, line)
  }

  predicate KeptVerbatim(token: Token, blockIndent: Option<nat>) {
    token == ReadableKey || (token == NoKey && blockIndent.None?)
  }

  ghost predicate WellRead(reading: Reading) {
    MatchesWithin(reading.forms)
  }

  function OutsideAnyBlock(reading: Reading, line: string, blockIndent: Option<nat>): (string, LineState)
    requires WellRead(reading)
  {
    match GovernanceOf(reading, line)
    case ValueOnThisLine(at) =>
      (ValueBlanked(line, at), LineState(Some(IndentWidth(line)), AfterFrom(NO_CONTINUATION, line, at)))
    case LineAndBlockBelow(at) =>
      (Blanked(line), LineState(Some(IndentWidth(line)), AfterFrom(NO_CONTINUATION, line, at)))
    case Ungoverned =>
      var token := reading.token(Content(line));
      if token == UnreadableKey || reading.hidesAFlowKey(line) then
        (Blanked(line), LineState(Some(IndentWidth(line)), AfterFrom(NO_CONTINUATION, line, 0)))
      else if KeptVerbatim(token, blockIndent) then (line, NO_BLOCK)
      else (Blanked(line), LineState(blockIndent, AfterFrom(NO_CONTINUATION, line, 0)))
  }

  function FallbackLine(reading: Reading, line: string, continuesAbove: bool, state: LineState): (string, LineState)
    requires WellRead(reading)
  {
    if state.continuation.Open() then (Blanked(line), state.Blanked(line))
    else if continuesAbove && !HoldsNothing(Content(line)) then (Blanked(line), state.Blanked(line))
    else if Covered(state.blockIndent, line) then (Blanked(line), state.Blanked(line))
    else if ClosesNoBlock(Content(line)) then (line, LineState(state.blockIndent, NO_CONTINUATION))
    else OutsideAnyBlock(reading, line, state.blockIndent)
  }

  datatype Document = Document(lines: seq<string>, continues: seq<bool>) {
    /** Whether a line is the tail of the physical line above, split off by a lone carriage return. */
    predicate ContinuesAbove(i: nat) {
      i < |continues| && continues[i]
    }
  }

  /** The state before line `n`. */
  function StateAt(reading: Reading, d: Document, n: nat): LineState
    requires WellRead(reading) && n <= |d.lines|
  {
    if n == 0 then NO_BLOCK
    else FallbackLine(reading, d.lines[n - 1], d.ContinuesAbove(n - 1), StateAt(reading, d, n - 1)).1
  }

  function Rendered(reading: Reading, d: Document, i: nat): string
    requires WellRead(reading) && i < |d.lines|
  {
    FallbackLine(reading, d.lines[i], d.ContinuesAbove(i), StateAt(reading, d, i)).0
  }

  method EarliestSensitiveKeyEnd(forms: seq<string -> Option<nat>>, line: string) returns (end: Option<nat>)
    ensures end == EarliestKeyEnd(forms, line)
  {
    end := None;
    for i := 0 to |forms|
      invariant end == EarliestKeyEnd(forms[..i], line)
    {
      assert forms[..i + 1][..i] == forms[..i];
      var past := forms[i](line);
      if past.Some? && (end.None? || past.value < end.value) {
        end := past;
      }
    }
    assert forms[..|forms|] == forms;
  }

  /** The fallback over a whole document: one line rendered for each line read. */
  method RedactBySensitiveKeyName(reading: Reading, d: Document) returns (redacted: seq<string>)
    requires WellRead(reading)
    ensures |redacted| == |d.lines|
    ensures forall i :: 0 <= i < |d.lines| ==> redacted[i] == Rendered(reading, d, i)
  {
    redacted := [];
    var state := NO_BLOCK;
    for number := 0 to |d.lines|
      invariant state == StateAt(reading, d, number)
      invariant |redacted| == number && forall i :: 0 <= i < number ==> redacted[i] == Rendered(reading, d, i)
    {
      var (rewritten, next) := FallbackLine(reading, d.lines[number], d.ContinuesAbove(number), state);
      redacted := redacted + [rewritten];
      state := next;
    }
  }

  // ----- what is hidden ----------------------------------------------------------------------------

  /** The line shows its indentation at most, or had nothing to hide. */
  predicate Hidden(line: string, rendered: string) {
    rendered == Blanked(line) || (HoldsNothing(Content(line)) && rendered == line)
  }

  /** A line that does not end a block opened at `b`: it is within the block's reach or holds nothing, or a
      quote, a container or the physical line above runs on into it. */
  predicate StaysWithin(reading: Reading, d: Document, i: nat, b: nat)
    requires WellRead(reading) && i < |d.lines|
  {
    || HoldsNothing(Content(d.lines[i])) || Reaches(b, d.lines[i])
    || d.ContinuesAbove(i) || StateAt(reading, d, i).continuation.Open()
  }

  ghost predicate AllStayWithin(reading: Reading, d: Document, first: nat, past: nat, b: nat)
    requires WellRead(reading) && past <= |d.lines|
  {
    forall i :: first <= i < past ==> StaysWithin(reading, d, i, b)
  }

  /** One line within the block: it is hidden, and the block stays open. */
  lemma BlockStep(reading: Reading, d: Document, j: nat, b: nat)
    requires WellRead(reading) && j < |d.lines| && StateAt(reading, d, j).blockIndent == Some(b) && StaysWithin(reading, d, j, b)
    ensures StateAt(reading, d, j + 1).blockIndent == Some(b) && Hidden(d.lines[j], Rendered(reading, d, j))
  {}

  lemma {:induction false} BlockStaysOpen(reading: Reading, d: Document, first: nat, j: nat, b: nat)
    requires WellRead(reading) && first <= j <= |d.lines| && StateAt(reading, d, first).blockIndent == Some(b)
    requires AllStayWithin(reading, d, first, j, b)
    ensures StateAt(reading, d, j).blockIndent == Some(b)
    decreases j - first
  {
    if first < j {
      BlockStep(reading, d, first, b);
      BlockStaysOpen(reading, d, first + 1, j, b);
    }
  }

  /** Coverage: once a block is open at `b`, every line up to the first one that ends it is hidden. */
  lemma BlockIsCovered(reading: Reading, d: Document, first: nat, j: nat, b: nat)
    requires WellRead(reading) && first <= j < |d.lines| && StateAt(reading, d, first).blockIndent == Some(b)
    requires AllStayWithin(reading, d, first, j + 1, b)
    ensures Hidden(d.lines[j], Rendered(reading, d, j))
  {
    BlockStaysOpen(reading, d, first, j, b);
    BlockStep(reading, d, j, b);
  }

  /** Nothing covers the line, and its shape is not one that is kept as it stands. */
  predicate ReadOutside(reading: Reading, d: Document, i: nat)
    requires WellRead(reading) && i < |d.lines|
  {
    var state := StateAt(reading, d, i);
    && !state.continuation.Open() && !(d.ContinuesAbove(i) && !HoldsNothing(Content(d.lines[i])))
    && !Covered(state.blockIndent, d.lines[i]) && !ClosesNoBlock(Content(d.lines[i]))
  }

  /** The part of a line that is shown ends at or before `end`, where a sensitive key's value begins. */
  predicate ShownUpTo(line: string, end: nat, rendered: string) {
    || rendered == Blanked(line)
    || (exists at :: 0 <= at <= end && at <= |line| && rendered == line[..at] + " " + PLACEHOLDER)
    || (rendered == line && OnlySpaceFrom(line, end))
  }

  lemma LaterIsOnlySpace(line: string, at: nat, end: nat)
    requires at <= end && OnlySpaceFrom(line, at)
    ensures OnlySpaceFrom(line, end)
  {}

  lemma ValueIsNotShownOutside(reading: Reading, line: string, blockIndent: Option<nat>, form: nat)
    requires WellRead(reading) && form < |reading.forms| && reading.forms[form](line).Some?
    ensures ShownUpTo(line, reading.forms[form](line).value, OutsideAnyBlock(reading, line, blockIndent).0)
  {
    var earliest := EarliestKeyEnd(reading.forms, line);
    if OnlySpaceFrom(line, earliest.value) {
      LaterIsOnlySpace(line, earliest.value, reading.forms[form](line).value);
    }
  }

  lemma ValueIsNotShown(reading: Reading, line: string, continuesAbove: bool, state: LineState, form: nat)
    requires WellRead(reading) && form < |reading.forms| && reading.forms[form](line).Some? && !ClosesNoBlock(Content(line))
    ensures ShownUpTo(line, reading.forms[form](line).value, FallbackLine(reading, line, continuesAbove, state).0)
  {
    ValueIsNotShownOutside(reading, line, state.blockIndent, form);
  }

  /** Whatever covers it or not, a line with a sensitive key on it shows nothing of what that key governs,
      unless it is a comment outside every block. */
  lemma NoSensitiveValueIsShown(reading: Reading, d: Document, i: nat, form: nat)
    requires WellRead(reading) && i < |d.lines| && form < |reading.forms| && reading.forms[form](d.lines[i]).Some?
    requires !ClosesNoBlock(Content(d.lines[i]))
    ensures ShownUpTo(d.lines[i], reading.forms[form](d.lines[i]).value, Rendered(reading, d, i))
  {
    ValueIsNotShown(reading, d.lines[i], d.ContinuesAbove(i), StateAt(reading, d, i), form);
  }

  /** A line read outside every block opens one exactly when a sensitive name, or a name that cannot be
      read, governs it; a plain token below an open block keeps that block, and any other line closes it. */
  lemma BlockOpens(reading: Reading, d: Document, k: nat)
    requires WellRead(reading) && k < |d.lines| && ReadOutside(reading, d, k)
    ensures var line := d.lines[k];
            var governed := OpensAnExplicitKeysValue(Content(line)) || Governs(reading.forms, line)
                            || reading.token(Content(line)) == UnreadableKey || reading.hidesAFlowKey(line);
            StateAt(reading, d, k + 1).blockIndent ==
            if governed then Some(IndentWidth(line))
            else if reading.token(Content(line)) == ReadableKey then None
            else StateAt(reading, d, k).blockIndent
  {}

  lemma SensitiveLineOpens(reading: Reading, d: Document, k: nat, form: nat)
    requires WellRead(reading) && k < |d.lines| && ReadOutside(reading, d, k)
    requires form < |reading.forms| && reading.forms[form](d.lines[k]).Some?
    ensures StateAt(reading, d, k + 1).blockIndent == Some(IndentWidth(d.lines[k]))
  {
    assert Governs(reading.forms, d.lines[k]);
    BlockOpens(reading, d, k);
  }

  /** After a line that names a sensitive key, nothing is shown up to the first line that ends its block; of
      the line itself, NoSensitiveValueIsShown says the same. */
  lemma SensitiveBlockIsHidden(reading: Reading, d: Document, k: nat, form: nat, j: nat)
    requires WellRead(reading) && k < j < |d.lines| && ReadOutside(reading, d, k)
    requires form < |reading.forms| && reading.forms[form](d.lines[k]).Some?
    requires AllStayWithin(reading, d, k + 1, j + 1, IndentWidth(d.lines[k]))
    ensures Hidden(d.lines[j], Rendered(reading, d, j))
  {
    var b := IndentWidth(d.lines[k]);
    SensitiveLineOpens(reading, d, k, form);
    BlockIsCovered(reading, d, k + 1, j, b);
  }

  ghost predicate LeavesOpen(c: Continuation) {
    (c.quote != Unquoted || c.FlowOpen()) && !c.taintedClose
  }

  lemma UnclosedStep(reading: Reading, line: string, continuesAbove: bool, c: Continuation, state: LineState)
    requires WellRead(reading) && LeavesOpen(c) && StillOpen(c, state.continuation) && CannotClose(c, line)
    ensures StillOpen(c, FallbackLine(reading, line, continuesAbove, state).1.continuation)
  {
    LineKeepsOpen(c, state.continuation, line);
  }

  ghost predicate NoneCloses(c: Continuation, d: Document, first: nat, past: nat)
    requires past <= |d.lines|
  {
    forall i :: first <= i < past ==> CannotClose(c, d.lines[i])
  }

  lemma {:induction false} StaysUnclosed(reading: Reading, d: Document, first: nat, j: nat, c: Continuation)
    requires WellRead(reading) && first <= j <= |d.lines| && LeavesOpen(c) && NoneCloses(c, d, first, j)
    requires StateAt(reading, d, first).continuation == c
    ensures StillOpen(c, StateAt(reading, d, j).continuation)
    decreases j
  {
    if first < j {
      StaysUnclosed(reading, d, first, j - 1, c);
      assert CannotClose(c, d.lines[j - 1]);
      UnclosedStep(reading, d.lines[j - 1], d.ContinuesAbove(j - 1), c, StateAt(reading, d, j - 1));
    }
  }

  /** A quote or a container left open on a sensitive line covers every line after it up to one that holds a
      character that could close it, however those lines are indented and whatever key they look like. */
  lemma UnclosedValueIsCovered(reading: Reading, d: Document, first: nat, j: nat, c: Continuation)
    requires WellRead(reading) && first <= j < |d.lines| && LeavesOpen(c) && NoneCloses(c, d, first, j)
    requires StateAt(reading, d, first).continuation == c
    ensures Rendered(reading, d, j) == Blanked(d.lines[j])
  {
    StaysUnclosed(reading, d, first, j, c);
  }

  // ----- what is kept ------------------------------------------------------------------------------

  /** No sensitive name, and no name that cannot be read, stands on the line. */
  predicate Harmless(reading: Reading, d: Document, i: nat)
    requires i < |d.lines|
  {
    var line := d.lines[i];
    && !OpensAnExplicitKeysValue(Content(line)) && !Governs(reading.forms, line)
    && reading.token(Content(line)) != UnreadableKey && !reading.hidesAFlowKey(line) && !d.ContinuesAbove(i)
  }

  /** A document is shown as written up to its first line that names anything sensitive. */
  lemma {:induction false} HarmlessLinesAreShown(reading: Reading, d: Document, n: nat)
    requires WellRead(reading) && n < |d.lines| && forall i :: 0 <= i <= n ==> Harmless(reading, d, i)
    ensures Rendered(reading, d, n) == d.lines[n] && StateAt(reading, d, n + 1) == NO_BLOCK
    decreases n
  {
    if n > 0 {
      HarmlessLinesAreShown(reading, d, n - 1);
    }
    assert Harmless(reading, d, n);
  }
}
