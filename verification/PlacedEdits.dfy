/** Several values on one line, each edited where it stands: what the line becomes and which edits it has
    undergone (internal/config sensitivepaths.go, redactiongeometry.go). */
module PlacedEdits {
  import opened TextAt
  import opened TextEdits

  /** A text standing at a place in a line, and the edits of that text. */
  datatype Placed = Placed(at: nat, text: string, edits: seq<Edit>) {
    function OnTheLine(): seq<Edit> {
      Moved(edits, at)
    }

    function Whole(): Edit {
      Edit(at, at + |text|, Applied(text, edits))
    }
  }

  /** The texts stand on the line, rightmost first, none overlapping another, all at or after `least`. */
  ghost predicate StandOn(line: string, placed: seq<Placed>, least: nat) {
    if placed == [] then least <= |line|
    else
      var p := placed[|placed| - 1];
      && least <= p.at && HasAt(line, p.at, p.text) && RightToLeft(p.edits, 0, |p.text|)
      && StandOn(line, placed[..|placed| - 1], p.at + |p.text|)
  }

  function LineEdits(placed: seq<Placed>): seq<Edit> {
    if placed == [] then [] else LineEdits(placed[..|placed| - 1]) + placed[|placed| - 1].OnTheLine()
  }

  lemma PlacedIsRightToLeft(p: Placed, least: nat)
    requires RightToLeft(p.edits, 0, |p.text|) && least <= p.at
    ensures RightToLeft(p.OnTheLine(), least, p.at + |p.text|)
  {
    MovedIsRightToLeft(p.edits, p.at, 0, |p.text|);
    Lowered(p.OnTheLine(), least, p.at, p.at + |p.text|);
  }

  /** The edits of all of them never overlap and come right to left. */
  lemma {:induction false} LineEditsAreRightToLeft(line: string, placed: seq<Placed>, least: nat)
    requires StandOn(line, placed, least)
    ensures RightToLeft(LineEdits(placed), least, |line|)
    decreases |placed|
  {
    if placed != [] {
      var front, p := placed[..|placed| - 1], placed[|placed| - 1];
      LineEditsAreRightToLeft(line, front, p.at + |p.text|);
      PlacedIsRightToLeft(p, least);
      RightToLeftTogether(LineEdits(front), p.OnTheLine(), least, p.at + |p.text|, |line|);
    }
  }

  /** What stands left of every edit still stands there. */
  lemma FrontIsUntouched(line: string, edits: seq<Edit>, least: nat)
    requires RightToLeft(edits, least, |line|)
    ensures least <= |line| && least <= |Applied(line, edits)| && Applied(line, edits)[..least] == line[..least]
  {
    FrontStands(line, edits, 0, least);
    RightToLeftIsAllAtOnce(line, edits);
  }

  lemma AroundTheText(copied: string, line: string, at: nat, text: string)
    requires at + |text| <= |copied| && HasAt(line, at, text) && copied[..at + |text|] == line[..at + |text|]
    ensures copied == copied[..at] + text + copied[at + |text|..]
  {
    var front := copied[..at + |text|];
    assert forall k :: at <= k < at + |text| ==> front[k] == line[k] == text[k - at];
    assert copied[at..at + |text|] == text;
  }

  lemma WholeIsSpliced(before: string, text: string, after: string, replacement: string)
    ensures Replaced(before + text + after, Edit(|before|, |before| + |text|, replacement)) == before + replacement + after
  {}

  /** Replacing the whole text by its edited form is making its edits where it stands. */
  lemma WholeIsItsEdits(before: string, after: string, p: Placed)
    requires p.at == |before| && RightToLeft(p.edits, 0, |p.text|)
    ensures Replaced(before + p.text + after, p.Whole()) == Applied(before + p.text + after, p.OnTheLine())
  {
    EditsInsideAValue(before, p.text, after, p.edits, 0);
    WholeIsSpliced(before, p.text, after, Applied(p.text, p.edits));
  }

  /** Rewriting one more value on the line so far is making its edits after the others'. */
  lemma NextIsApplied(line: string, front: seq<Placed>, p: Placed, least: nat)
    requires StandOn(line, front + [p], least)
    ensures Replaced(Applied(line, LineEdits(front)), p.Whole()) == Applied(line, LineEdits(front + [p]))
  {
    var all := front + [p];
    assert all[..|all| - 1] == front && all[|all| - 1] == p;
    LineEditsAreRightToLeft(line, front, p.at + |p.text|);
    FrontIsUntouched(line, LineEdits(front), p.at + |p.text|);
    var copied := Applied(line, LineEdits(front));
    AroundTheText(copied, line, p.at, p.text);
    WholeIsItsEdits(copied[..p.at], copied[p.at + |p.text|..], p);
    AppliedTogether(line, LineEdits(front), p.OnTheLine());
  }
}
