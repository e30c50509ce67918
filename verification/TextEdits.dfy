/** Disjoint replacements on one line, and where every column of the line is carried to
    (internal/config redact.go, rendercopy.go). A line is its runes. */
module TextEdits {
  import opened Numbers
  import opened TextAt

  /** What a secret is replaced by. */
  const PLACEHOLDER := "[redacted]"

  /** The runes from `from` up to `past` give way to `text`; positions are counted from 0 in the source. */
  datatype Edit = Edit(from: nat, past: nat, text: string) {
    function Delta(): int {
      |text| - (past - from)
    }
  }

  /** A span reaching past the line's last rune takes the rest of the line with it. */
  function Replaced(line: string, e: Edit): string {
    line[..Min(e.from, |line|)] + e.text + line[Min(e.past, |line|)..]
  }

  /** What is left of the line after the edits, one after another. */
  function Applied(line: string, edits: seq<Edit>): string {
    if edits == [] then line else Replaced(Applied(line, edits[..|edits| - 1]), edits[|edits| - 1])
  }

  /** Edits in the order they are applied: the rightmost first, no two of them overlapping, all of them
      between `least` and `past`. */
  predicate RightToLeft(edits: seq<Edit>, least: nat, past: nat) {
    if edits == [] then least <= past
    else
      var e := edits[|edits| - 1];
      least <= e.from <= e.past && RightToLeft(edits[..|edits| - 1], e.past, past)
  }

  /** The line read once from left to right, each edit's text standing for the runes it removes: what the
      edits mean together. */
  function AllAtOnce(line: string, edits: seq<Edit>, at: nat): string
    requires RightToLeft(edits, at, |line|)
    decreases |edits|
  {
    LeastIsWithin(edits, at, |line|);
    if edits == [] then line[at..]
    else
      var e := edits[|edits| - 1];
      LeastIsWithin(edits[..|edits| - 1], e.past, |line|);
      line[at..e.from] + e.text + AllAtOnce(line, edits[..|edits| - 1], e.past)
  }

  // ----- one after another is all at once ----------------------------------------------------------

  lemma {:induction false} LeastIsWithin(edits: seq<Edit>, least: nat, past: nat)
    requires RightToLeft(edits, least, past)
    ensures least <= past
    decreases |edits|
  {
    if edits != [] {
      LeastIsWithin(edits[..|edits| - 1], edits[|edits| - 1].past, past);
    }
  }

  /** What precedes every edit stands as it was. */
  lemma {:induction false} FrontStands(line: string, edits: seq<Edit>, at: nat, least: nat)
    requires RightToLeft(edits, least, |line|) && at <= least
    ensures RightToLeft(edits, at, |line|) && least <= |line|
    ensures AllAtOnce(line, edits, at) == line[at..least] + AllAtOnce(line, edits, least)
    decreases |edits|
  {
    LeastIsWithin(edits, least, |line|);
    if edits != [] {
      var front, e := edits[..|edits| - 1], edits[|edits| - 1];
      LeastIsWithin(front, e.past, |line|);
      SplitFront(line, at, least, e.from, e.text, AllAtOnce(line, front, e.past));
    } else {
      assert line[at..] == line[at..least] + line[least..];
    }
  }

  lemma SplitFront(line: string, at: nat, least: nat, from: nat, text: string, rest: string)
    requires at <= least <= from <= |line|
    ensures line[at..from] + text + rest == line[at..least] + (line[least..from] + text + rest)
  {
    assert line[at..from] == line[at..least] + line[least..from];
  }

  /** Replacing right to left, one edit at a time, is replacing every edit's runes at once. */
  lemma {:induction false} RightToLeftIsAllAtOnce(line: string, edits: seq<Edit>)
    requires RightToLeft(edits, 0, |line|)
    ensures Applied(line, edits) == AllAtOnce(line, edits, 0)
    decreases |edits|
  {
    if edits != [] {
      var front, e := edits[..|edits| - 1], edits[|edits| - 1];
      FrontStands(line, front, 0, e.past);
      RightToLeftIsAllAtOnce(line, front);
      SpliceAt(line, e, Applied(line, front), AllAtOnce(line, front, e.past));
    }
  }

  lemma SpliceAt(line: string, e: Edit, before: string, rest: string)
    requires e.from <= e.past <= |line| && before == line[0..e.past] + rest
    ensures Replaced(before, e) == line[0..e.from] + e.text + rest
  {
    assert before[..e.from] == line[0..e.from];
    assert before[e.past..] == rest;
  }

  // ----- the column map ----------------------------------------------------------------------------

  /** How far one edit carries a source position: past it by the change in length, inside it back to its
      first rune, before it not at all. */
  function Carried(e: Edit, c: nat): int {
    if c >= e.past then e.Delta() else if c >= e.from then e.from - c else 0
  }

  function Target(edits: seq<Edit>, c: nat): int {
    if edits == [] then c else Target(edits[..|edits| - 1], c) + Carried(edits[|edits| - 1], c)
  }

  lemma {:induction false} BeforeAllStays(edits: seq<Edit>, c: nat, least: nat, past: nat)
    requires RightToLeft(edits, least, past) && c < least
    ensures Target(edits, c) == c
    decreases |edits|
  {
    if edits != [] {
      BeforeAllStays(edits[..|edits| - 1], c, edits[|edits| - 1].past, past);
    }
  }

  /** No position is carried to the left of the edits' own ground. */
  lemma {:induction false} TargetIsWithin(edits: seq<Edit>, c: nat, least: nat, past: nat)
    requires RightToLeft(edits, least, past) && least <= c
    ensures Target(edits, c) >= least
    decreases |edits|
  {
    if edits != [] {
      var front, e := edits[..|edits| - 1], edits[|edits| - 1];
      if c >= e.past {
        TargetIsWithin(front, c, e.past, past);
      } else {
        BeforeAllStays(front, c, e.past, past);
      }
    }
  }

  predicate Removes(edits: seq<Edit>, c: nat) {
    exists i :: 0 <= i < |edits| && edits[i].from <= c < edits[i].past
  }

  lemma KeptByEach(edits: seq<Edit>, c: nat)
    requires edits != [] && !Removes(edits, c)
    ensures !Removes(edits[..|edits| - 1], c) && !(edits[|edits| - 1].from <= c < edits[|edits| - 1].past)
  {
    var front := edits[..|edits| - 1];
    assert forall i :: 0 <= i < |front| ==> front[i] == edits[i];
  }

  lemma ReplacedAt(line: string, e: Edit, k: nat)
    requires e.from <= e.past <= |line| && k < |line|
    ensures k < e.from ==> k < |Replaced(line, e)| && Replaced(line, e)[k] == line[k]
    ensures k >= e.past ==> 0 <= k + e.Delta() < |Replaced(line, e)| && Replaced(line, e)[k + e.Delta()] == line[k]
  {}

  lemma {:induction false} LengthAfter(line: string, edits: seq<Edit>, least: nat)
    requires RightToLeft(edits, least, |line|)
    ensures |Applied(line, edits)| == Target(edits, |line|) >= least
    decreases |edits|
  {
    LeastIsWithin(edits, least, |line|);
    if edits != [] {
      var front, e := edits[..|edits| - 1], edits[|edits| - 1];
      LeastIsWithin(front, e.past, |line|);
      LengthAfter(line, front, e.past);
    }
  }

  /** Every rune that no edit removes stands exactly where the map carries its column. */
  lemma {:induction false} SurvivorStands(line: string, edits: seq<Edit>, least: nat, c: nat)
    requires RightToLeft(edits, least, |line|) && c < |line| && !Removes(edits, c)
    ensures 0 <= Target(edits, c) < |Applied(line, edits)|
    ensures Applied(line, edits)[Target(edits, c)] == line[c]
    decreases |edits|
  {
    if edits != [] {
      var front, e := edits[..|edits| - 1], edits[|edits| - 1];
      KeptByEach(edits, c);
      SurvivorStands(line, front, e.past, c);
      LengthAfter(line, front, e.past);
      if c >= e.past {
        TargetIsWithin(front, c, e.past, |line|);
      } else {
        BeforeAllStays(front, c, e.past, |line|);
      }
      ReplacedAt(Applied(line, front), e, Target(front, c));
    }
  }

  lemma ReplacementStands(line: string, e: Edit)
    requires e.from <= e.past <= |line|
    ensures HasAt(Replaced(line, e), e.from, e.text)
  {}

  lemma MovedText(line: string, e: Edit, at: nat, text: string)
    requires e.from <= e.past <= |line| && e.past <= at && HasAt(line, at, text)
    ensures at + e.Delta() >= 0 && HasAt(Replaced(line, e), at + e.Delta(), text)
  {}

  /** A column inside a removed span is carried to the first rune of what replaced it. */
  lemma {:induction false} RemovedMapsToItsReplacement(line: string, edits: seq<Edit>, least: nat, c: nat, i: nat)
    requires RightToLeft(edits, least, |line|) && i < |edits| && edits[i].from <= c < edits[i].past
    ensures Target(edits, c) >= 0 && HasAt(Applied(line, edits), Target(edits, c), edits[i].text)
    decreases |edits|
  {
    var front, e := edits[..|edits| - 1], edits[|edits| - 1];
    LengthAfter(line, front, e.past);
    var before := Applied(line, front);
    LastApplied(line, edits, front, e);
    if i == |front| {
      BeforeAllStays(front, c, e.past, |line|);
      ReplacementStands(before, e);
    } else {
      assert front[i] == edits[i];
      FromIsWithin(front, e.past, |line|, i);
      TargetIsWithin(front, c, e.past, |line|);
      RemovedMapsToItsReplacement(line, front, e.past, c, i);
      MovedText(before, e, Target(front, c), edits[i].text);
    }
  }

  lemma {:induction false} FromIsWithin(edits: seq<Edit>, least: nat, past: nat, i: nat)
    requires RightToLeft(edits, least, past) && i < |edits|
    ensures least <= edits[i].from <= edits[i].past <= past
    decreases |edits|
  {
    var front, e := edits[..|edits| - 1], edits[|edits| - 1];
    LeastIsWithin(front, e.past, past);
    if i < |front| {
      FromIsWithin(front, e.past, past, i);
    }
  }

  /** What stands at position `at` of the edited line for position `c` of the source: the rune itself where it
      survives, the replacement's first rune where it is removed, the end where it is the end. */
  ghost predicate CarriedTo(line: string, edits: seq<Edit>, c: nat, at: int) {
    && 0 <= at <= |Applied(line, edits)|
    && (c < |line| && !Removes(edits, c) ==> at < |Applied(line, edits)| && Applied(line, edits)[at] == line[c])
    && (forall i :: 0 <= i < |edits| && edits[i].from <= c < edits[i].past ==> HasAt(Applied(line, edits), at, edits[i].text))
    && (c == |line| ==> at == |Applied(line, edits)|)
  }

  lemma EveryColumnIsCarried(line: string, edits: seq<Edit>, c: nat)
    requires RightToLeft(edits, 0, |line|) && c <= |line|
    ensures CarriedTo(line, edits, c, Target(edits, c))
  {
    TargetIsWithin(edits, c, 0, |line|);
    LengthAfter(line, edits, 0);
    if c < |line| && !Removes(edits, c) {
      SurvivorStands(line, edits, 0, c);
    }
    forall i | 0 <= i < |edits| && edits[i].from <= c < edits[i].past
      ensures HasAt(Applied(line, edits), Target(edits, c), edits[i].text)
    {
      RemovedMapsToItsReplacement(line, edits, 0, c, i);
    }
  }

  /** The map keeps the order of the runes that survive. */
  lemma {:induction false} SurvivorsKeepTheirOrder(edits: seq<Edit>, least: nat, past: nat, c: nat, d: nat)
    requires RightToLeft(edits, least, past) && c < d && !Removes(edits, c)
    ensures Target(edits, c) < Target(edits, d)
    decreases |edits|
  {
    if edits != [] {
      var front, e := edits[..|edits| - 1], edits[|edits| - 1];
      KeptByEach(edits, c);
      SurvivorsKeepTheirOrder(front, e.past, past, c, d);
      if c < e.past {
        BeforeAllStays(front, c, e.past, past);
        if d < e.past {
          BeforeAllStays(front, d, e.past, past);
        } else {
          TargetIsWithin(front, d, e.past, past);
        }
      }
    }
  }

  // ----- composing edits ---------------------------------------------------------------------------

  lemma {:induction false} AppliedTogether(line: string, a: seq<Edit>, b: seq<Edit>)
    ensures Applied(line, a + b) == Applied(Applied(line, a), b)
    decreases |b|
  {
    if b == [] {
      assert a + b == a;
    } else {
      AppliedTogether(line, a, b[..|b| - 1]);
      assert (a + b)[..|a + b| - 1] == a + b[..|b| - 1];
    }
  }

  lemma {:induction false} RightToLeftTogether(a: seq<Edit>, b: seq<Edit>, least: nat, mid: nat, past: nat)
    requires RightToLeft(a, mid, past) && RightToLeft(b, least, mid)
    ensures RightToLeft(a + b, least, past)
    decreases |b|
  {
    if b == [] {
      assert a + b == a;
      Lowered(a, least, mid, past);
    } else {
      var e := b[|b| - 1];
      RightToLeftTogether(a, b[..|b| - 1], e.past, mid, past);
      assert (a + b)[..|a + b| - 1] == a + b[..|b| - 1];
    }
  }

  lemma Lowered(edits: seq<Edit>, least: nat, mid: nat, past: nat)
    requires RightToLeft(edits, mid, past) && least <= mid
    ensures RightToLeft(edits, least, past)
  {
    LeastIsWithin(edits, mid, past);
  }

  function Moved(edits: seq<Edit>, offset: nat): seq<Edit> {
    seq(|edits|, i requires 0 <= i < |edits| => Edit(edits[i].from + offset, edits[i].past + offset, edits[i].text))
  }

  lemma MovedFront(edits: seq<Edit>, offset: nat)
    requires edits != []
    ensures var e := edits[|edits| - 1];
            Moved(edits, offset) == Moved(edits[..|edits| - 1], offset) + [Edit(e.from + offset, e.past + offset, e.text)]
  {}

  lemma {:induction false} MovedIsRightToLeft(edits: seq<Edit>, offset: nat, least: nat, past: nat)
    requires RightToLeft(edits, least, past)
    ensures RightToLeft(Moved(edits, offset), least + offset, past + offset)
    decreases |edits|
  {
    if edits != [] {
      var front, e := edits[..|edits| - 1], edits[|edits| - 1];
      MovedFront(edits, offset);
      MovedIsRightToLeft(front, offset, e.past, past);
      assert Moved(edits, offset)[..|edits| - 1] == Moved(front, offset);
    }
  }

  lemma HeadInside(before: string, text: string, after: string, k: nat)
    requires k <= |text|
    ensures (before + text + after)[..|before| + k] == before + text[..k]
  {}

  lemma TailInside(before: string, text: string, after: string, k: nat)
    requires k <= |text|
    ensures (before + text + after)[|before| + k..] == text[k..] + after
  {}

  lemma Regrouped(a: string, b: string, c: string, d: string, e: string)
    ensures (a + b) + c + (d + e) == a + (b + c + d) + e
  {}

  /** An edit within the line. */
  lemma ReplacedWithin(line: string, from: nat, past: nat, text: string)
    requires from <= past <= |line|
    ensures Replaced(line, Edit(from, past, text)) == line[..from] + text + line[past..]
  {}

  lemma ReplacedInside(before: string, text: string, after: string, e: Edit)
    requires e.from <= e.past <= |text|
    ensures Replaced(before + text + after, Edit(e.from + |before|, e.past + |before|, e.text))
            == before + Replaced(text, e) + after
  {
    ReplacedWithin(before + text + after, |before| + e.from, |before| + e.past, e.text);
    ReplacedWithin(text, e.from, e.past, e.text);
    HeadInside(before, text, after, e.from);
    TailInside(before, text, after, e.past);
    Regrouped(before, text[..e.from], e.text, text[e.past..], after);
  }

  /** Editing a value and putting it back in its line is editing the line where the value stands. */
  /** The last of the moved edits, after the ones before it. */
  lemma MovedApplied(line: string, edits: seq<Edit>, front: seq<Edit>, e: Edit, offset: nat)
    requires edits != [] && front == edits[..|edits| - 1] && e == edits[|edits| - 1]
    ensures Applied(line, Moved(edits, offset)) == Replaced(Applied(line, Moved(front, offset)), Edit(e.from + offset, e.past + offset, e.text))
  {
    var moved := Moved(edits, offset);
    MovedFront(edits, offset);
    assert moved[..|moved| - 1] == Moved(front, offset);
  }

  lemma LastInside(before: string, inner: string, after: string, e: Edit, outer: string)
    requires outer == before + inner + after && e.from <= e.past <= |inner|
    ensures Replaced(outer, Edit(e.from + |before|, e.past + |before|, e.text)) == before + Replaced(inner, e) + after
  {
    ReplacedInside(before, inner, after, e);
  }

  lemma LastApplied(line: string, edits: seq<Edit>, front: seq<Edit>, e: Edit)
    requires edits != [] && front == edits[..|edits| - 1] && e == edits[|edits| - 1]
    ensures Applied(line, edits) == Replaced(Applied(line, front), e)
  {}

  /** Edits of a text that stands within a line, made on the line. */
  lemma {:induction false} EditsInsideALine(line: string, before: string, text: string, after: string, edits: seq<Edit>, least: nat)
    requires RightToLeft(edits, least, |text|) && line == before + text + after
    ensures Applied(line, Moved(edits, |before|)) == before + Applied(text, edits) + after
    decreases |edits|
  {
    if edits != [] {
      var front, e := edits[..|edits| - 1], edits[|edits| - 1];
      EditsInsideALine(line, before, text, after, front, e.past);
      LengthAfter(text, front, e.past);
      LastInside(before, Applied(text, front), after, e, Applied(line, Moved(front, |before|)));
      MovedApplied(line, edits, front, e, |before|);
      LastApplied(text, edits, front, e);
    }
  }

  lemma EditsInsideAValue(before: string, text: string, after: string, edits: seq<Edit>, least: nat)
    requires RightToLeft(edits, least, |text|)
    ensures Applied(before + text + after, Moved(edits, |before|)) == before + Applied(text, edits) + after
  {
    EditsInsideALine(before + text + after, before, text, after, edits, least);
  }
}
