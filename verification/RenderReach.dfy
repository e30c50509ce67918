/** The lines a sensitive value reaches past the one it is anchored on (internal/config sensitivereach.go). */
module RenderReach {
  import opened TextEdits
  import opened FallbackLines
  import opened FallbackWalk
  import opened RenderColumns

  predicate IsBlank(line: string) {
    OnlySpaceFrom(line, 0)
  }

  /** Lines above the value that its own key open, down to the one its text begins on. */
  predicate InGap(v: SensitiveValue, lines: seq<string>, n: nat) {
    1 <= v.reachesBackTo <= n < v.line && n <= |lines| && !IsBlank(lines[n - 1])
  }

  predicate ContinuesAbove(continues: seq<bool>, n: nat) {
    1 <= n <= |continues| && continues[n - 1]
  }

  /** Once what the anchor line open is closed, what a line opens is not asked any more. */
  function StillOpened(open: Continuation, line: string): Continuation {
    if open.Open() then AfterFrom(open, line, 0) else open
  }

  /** The walk from line `at` on comes to line `n` while the value still covers it. */
  predicate Walks(lines: seq<string>, continues: seq<bool>, least: nat, at: nat, open: Continuation, n: nat)
    decreases |lines| - at
  {
    1 <= at <= |lines|
    && var line := lines[at - 1];
       if IsBlank(line) then Walks(lines, continues, least, at + 1, open, n)
       else if !open.Open() && IndentWidth(line) < least && !ContinuesAbove(continues, at) then false
       else n == at || Walks(lines, continues, least, at + 1, StillOpened(open, line), n)
  }

  lemma {:induction false} WalksForward(lines: seq<string>, continues: seq<bool>, least: nat, at: nat, open: Continuation, n: nat)
    requires Walks(lines, continues, least, at, open, n)
    ensures at <= n <= |lines| && n >= 1 && !IsBlank(lines[n - 1])
    decreases |lines| - at
  {
    var line := lines[at - 1];
    if IsBlank(line) {
      WalksForward(lines, continues, least, at + 1, open, n);
    } else if n != at {
      WalksForward(lines, continues, least, at + 1, StillOpened(open, line), n);
    }
  }

  /** The least indentation a later line can have and still belong to the value. */
  function LeastIndent(v: SensitiveValue, written: string): nat {
    IndentWidth(written) + if v.beginsOnALineOfItsOwn then 0 else 1
  }

  /** What the value leaves open on its own line, read from its own column. */
  function LeftOpen(v: SensitiveValue, written: string): Continuation {
    AfterFrom(NO_CONTINUATION, written, if 1 <= v.column <= |written| then (v.column - 1) as nat else |written|)
  }

  /** A container the parser closed reaches its closing line; anything else is walked. */
  predicate InReach(v: SensitiveValue, written: string, lines: seq<string>, continues: seq<bool>, n: nat) {
    if v.throughLine > v.line then v.line < n <= |lines| && n <= v.throughLine
    else Walks(lines, continues, LeastIndent(v, written), v.line + 1, LeftOpen(v, written), n)
  }

  /** The lines with those blanked that are covered, counted from 0. */
  function Blanking(lines: seq<string>, covered: nat -> bool): seq<string> {
    seq(|lines|, i requires 0 <= i < |lines| => if covered(i) then Blanked(lines[i]) else lines[i])
  }

  function GapBlanked(v: SensitiveValue, lines: seq<string>): seq<string> {
    Blanking(lines, (i: nat) => InGap(v, lines, i + 1))
  }

  function ReachBlanked(v: SensitiveValue, written: string, lines: seq<string>, continues: seq<bool>): seq<string> {
    Blanking(lines, (i: nat) => InReach(v, written, lines, continues, i + 1))
  }

  lemma GapAt(v: SensitiveValue, lines: seq<string>, n: nat)
    requires 1 <= n <= |lines|
    ensures InGap(v, lines, n) ==> n < v.line && GapBlanked(v, lines)[n - 1] == Blanked(lines[n - 1])
    ensures !InGap(v, lines, n) ==> GapBlanked(v, lines)[n - 1] == lines[n - 1]
  {}

  lemma ReachAt(v: SensitiveValue, written: string, lines: seq<string>, continues: seq<bool>, n: nat)
    requires 1 <= n <= |lines|
    ensures InReach(v, written, lines, continues, n) ==> v.line < n && ReachBlanked(v, written, lines, continues)[n - 1] == Blanked(lines[n - 1])
    ensures !InReach(v, written, lines, continues, n) ==> ReachBlanked(v, written, lines, continues)[n - 1] == lines[n - 1]
  {
    if InReach(v, written, lines, continues, n) {
      ReachIsBelow(v, written, lines, continues, n);
    }
  }

  /** Those of the covered lines that stand above line `number`. */
  function UpTo(covered: nat -> bool, number: nat): nat -> bool {
    (i: nat) => i + 1 < number && covered(i)
  }

  lemma BlankingStarts(lines: seq<string>, covered: nat -> bool, number: nat)
    requires forall i: nat :: i + 1 < number && i < |lines| ==> !covered(i)
    ensures Blanking(lines, UpTo(covered, number)) == lines
  {}

  lemma BlankingEnds(lines: seq<string>, covered: nat -> bool, number: nat)
    requires forall i: nat :: number <= i + 1 && i < |lines| ==> !covered(i)
    ensures Blanking(lines, UpTo(covered, number)) == Blanking(lines, covered)
  {}

  lemma BlankingOneMore(lines: seq<string>, covered: nat -> bool, number: nat)
    requires 1 <= number <= |lines|
    ensures Blanking(lines, UpTo(covered, number))[number - 1] == lines[number - 1]
    ensures Blanking(lines, UpTo(covered, number + 1))
            == if covered(number - 1) then Blanking(lines, UpTo(covered, number))[number - 1 := Blanked(lines[number - 1])]
               else Blanking(lines, UpTo(covered, number))
  {}

  lemma SameBlanking(lines: seq<string>, covered: nat -> bool, covered': nat -> bool)
    requires forall i: nat :: i < |lines| ==> (covered(i) <==> covered'(i))
    ensures Blanking(lines, covered) == Blanking(lines, covered')
  {}

  /** From line `at` on the walk begun at `from` is the one begun there. */
  ghost predicate RestOfWalk(lines: seq<string>, continues: seq<bool>, least: nat, from: nat, opening: Continuation, at: nat, open: Continuation) {
    forall n :: at <= n ==> (Walks(lines, continues, least, from, opening, n) <==> Walks(lines, continues, least, at, open, n))
  }

  function Reached(lines: seq<string>, continues: seq<bool>, least: nat, from: nat, opening: Continuation): nat -> bool {
    (i: nat) => Walks(lines, continues, least, from, opening, i + 1)
  }

  lemma NothingAbove(lines: seq<string>, continues: seq<bool>, least: nat, from: nat, opening: Continuation)
    ensures forall i: nat :: i + 1 < from ==> !Reached(lines, continues, least, from, opening)(i)
  {
    forall i: nat ensures i + 1 < from ==> !Reached(lines, continues, least, from, opening)(i) {
      if Walks(lines, continues, least, from, opening, i + 1) {
        WalksForward(lines, continues, least, from, opening, i + 1);
      }
    }
  }

  /** One turn of the walk: a blank line is passed over, one outside the value ends it, any other is covered. */
  lemma WalkTurn(lines: seq<string>, continues: seq<bool>, least: nat, from: nat, opening: Continuation, at: nat, open: Continuation)
    requires 1 <= at <= |lines| && RestOfWalk(lines, continues, least, from, opening, at, open)
    ensures var line := lines[at - 1];
            if IsBlank(line) then
              !Walks(lines, continues, least, from, opening, at) && RestOfWalk(lines, continues, least, from, opening, at + 1, open)
            else if !open.Open() && IndentWidth(line) < least && !ContinuesAbove(continues, at) then
              forall n :: at <= n ==> !Walks(lines, continues, least, from, opening, n)
            else
              Walks(lines, continues, least, from, opening, at)
              && RestOfWalk(lines, continues, least, from, opening, at + 1, StillOpened(open, line))
  {
    if IsBlank(lines[at - 1]) && Walks(lines, continues, least, at + 1, open, at) {
      WalksForward(lines, continues, least, at + 1, open, at);
    }
  }

  lemma ReachIsBelow(v: SensitiveValue, written: string, lines: seq<string>, continues: seq<bool>, n: nat)
    requires InReach(v, written, lines, continues, n)
    ensures v.line < n <= |lines|
  {
    if v.throughLine <= v.line {
      WalksForward(lines, continues, LeastIndent(v, written), v.line + 1, LeftOpen(v, written), n);
    }
  }

  /** The walk has come to line `at`: what it covered above is blanked, and the rest is still to be walked. */
  ghost predicate WalkedTo(now: seq<string>, was: seq<string>, continues: seq<bool>, least: nat, from: nat, opening: Continuation,
                           at: nat, open: Continuation) {
    && at >= 1 && now == Blanking(was, UpTo(Reached(was, continues, least, from, opening), at))
    && RestOfWalk(was, continues, least, from, opening, at, open)
  }

  lemma WalkStarts(lines: seq<string>, continues: seq<bool>, least: nat, from: nat, opening: Continuation)
    requires from >= 1
    ensures WalkedTo(lines, lines, continues, least, from, opening, from, opening)
  {
    NothingAbove(lines, continues, least, from, opening);
    BlankingStarts(lines, Reached(lines, continues, least, from, opening), from);
  }

  lemma WalkStep(now: seq<string>, was: seq<string>, continues: seq<bool>, least: nat, from: nat, opening: Continuation,
                 at: nat, open: Continuation)
    requires WalkedTo(now, was, continues, least, from, opening, at, open) && at <= |now|
    ensures var line := now[at - 1];
            if IsBlank(line) then WalkedTo(now, was, continues, least, from, opening, at + 1, open)
            else if !open.Open() && IndentWidth(line) < least && !ContinuesAbove(continues, at) then
              now == Blanking(was, Reached(was, continues, least, from, opening))
            else WalkedTo(now[at - 1 := Blanked(line)], was, continues, least, from, opening, at + 1, StillOpened(open, line))
  {
    var covered := Reached(was, continues, least, from, opening);
    WalkTurn(was, continues, least, from, opening, at, open);
    BlankingOneMore(was, covered, at);
    if !IsBlank(was[at - 1]) && !open.Open() && IndentWidth(was[at - 1]) < least && !ContinuesAbove(continues, at) {
      BlankingEnds(was, covered, at);
    }
  }

  lemma WalkEnds(now: seq<string>, was: seq<string>, continues: seq<bool>, least: nat, from: nat, opening: Continuation,
                 at: nat, open: Continuation)
    requires WalkedTo(now, was, continues, least, from, opening, at, open) && at > |now|
    ensures now == Blanking(was, Reached(was, continues, least, from, opening))
  {
    BlankingEnds(was, Reached(was, continues, least, from, opening), at);
  }

  // ----- lines that show nothing -------------------------------------------------------------------

  predicate ShowsNothing(c: char) {
    IsIndent(c) || c in PLACEHOLDER
  }

  /** Nothing but indentation and the runes of placeholders. */
  predicate Concealed(line: string) {
    line == "" || (ShowsNothing(line[|line| - 1]) && Concealed(line[..|line| - 1]))
  }

  lemma {:induction false} ConcealedIff(line: string)
    ensures Concealed(line) <==> forall k :: 0 <= k < |line| ==> ShowsNothing(line[k])
  {
    if line != "" {
      var front := line[..|line| - 1];
      ConcealedIff(front);
      assert forall k :: 0 <= k < |front| ==> front[k] == line[k];
      if Concealed(line) {
        forall k | 0 <= k < |line| ensures ShowsNothing(line[k]) {
          assert k < |front| ==> front[k] == line[k];
        }
      }
    }
  }

  /** The value goes whole: it is no connection string written as a scalar. */
  predicate GoesWhole(v: SensitiveValue) {
    v.kind == EntireValue || v.writtenAsAContainer
  }

  lemma BlankedIsConcealed(line: string)
    ensures Concealed(Blanked(line))
  {
    var kept := line[..IndentWidth(line)];
    forall k | 0 <= k < |Blanked(line)| ensures ShowsNothing(Blanked(line)[k]) {
      assert k >= |kept| ==> Blanked(line)[k] == PLACEHOLDER[k - |kept|];
    }
    ConcealedIff(Blanked(line));
  }

  lemma SplicedIsConcealed(line: string, from: nat, past: nat)
    requires Concealed(line) && from <= |line| && past <= |line|
    ensures Concealed(line[..from] + PLACEHOLDER + line[past..])
  {
    var spliced := line[..from] + PLACEHOLDER + line[past..];
    ConcealedIff(line);
    forall k | 0 <= k < |spliced| ensures ShowsNothing(spliced[k]) {
      if k < from {
        assert spliced[k] == line[k];
      } else if k < from + |PLACEHOLDER| {
        assert spliced[k] == PLACEHOLDER[k - from];
      } else {
        assert spliced[k] == line[k - from - |PLACEHOLDER| + past];
      }
    }
    ConcealedIff(spliced);
  }
}
