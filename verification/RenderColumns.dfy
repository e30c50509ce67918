/** The path-aware redaction of the values written on one line, and the columns carried across it
    (internal/config sensitivepaths.go, redactiongeometry.go, rendercopy.go). */
module RenderColumns {
  import opened Numbers
  import opened TextAt
  import opened TextEdits
  import opened PlacedEdits

  datatype Sensitivity = UrlPassword | EntireValue

  /** A value the schema declares sensitive: where it was written, what was written there, and how much of
      it must go. Lines and columns count from 1; a `reachesBackTo` below that is no line. */
  datatype SensitiveValue = SensitiveValue(
    line: nat, column: int, text: string, kind: Sensitivity, writtenAsAContainer: bool, ownsUnclaimedBytes: bool,
    throughLine: int, reachesBackTo: int, beginsOnALineOfItsOwn: bool
  )

  /** The edits of a value's own text, whatever finds them. */
  type Geometry = SensitiveValue -> seq<Edit>

  ghost predicate WellOrdered(geometry: Geometry) {
    forall v: SensitiveValue :: RightToLeft(geometry(v), 0, |v.text|)
  }

  // ----- what one value loses ----------------------------------------------------------------------

  function Replacement(geometry: Geometry, v: SensitiveValue): string {
    Applied(v.text, geometry(v))
  }

  /** The edits that are carried: none where the replacement is the text itself. */
  function CarriedEdits(geometry: Geometry, v: SensitiveValue): seq<Edit> {
    if Replacement(geometry, v) == v.text then [] else geometry(v)
  }

  function BlankFromColumn(line: string, column: int): string {
    line[..if column < 1 then |line| else Min((column - 1) as nat, |line|)] + PLACEHOLDER
  }

  function ReplaceRunes(line: string, column: int, count: nat, replacement: string): string
    requires column >= 1
  {
    Replaced(line, Edit((column - 1) as nat, (column - 1 + count) as nat, replacement))
  }

  predicate StandsAt(line: string, v: SensitiveValue) {
    v.column >= 1 && HasAt(line, (v.column - 1) as nat, v.text)
  }

  /** The value's own extent is known and is replaced where it stands. */
  predicate InPlace(written: string, v: SensitiveValue) {
    v.text != "" && StandsAt(written, v) && !v.ownsUnclaimedBytes
  }

  /** One value's line rewritten, whether the lines it reaches must go too, and the edits to carry. */
  function RedactValue(geometry: Geometry, copied: string, written: string, continuesBelow: bool, v: SensitiveValue)
    : (string, bool, seq<Edit>)
  {
    if v.text == "" then (copied, true, [])
    else if v.column < 1 then (BlankFromColumn(copied, 1), true, [])
    else if !StandsAt(written, v) || v.ownsUnclaimedBytes then (BlankFromColumn(copied, v.column), true, [])
    else if Replacement(geometry, v) == v.text then (copied, continuesBelow, [])
    else (ReplaceRunes(copied, v.column, |v.text|, Replacement(geometry, v)), continuesBelow,
          Moved(geometry(v), (v.column - 1) as nat))
  }

  /** A value whose extent cannot be read off its line takes the rest of the line with it, and asks for the
      lines it reaches. */
  lemma UnreadableExtentGoesWhole(geometry: Geometry, copied: string, written: string, continuesBelow: bool, v: SensitiveValue)
    requires v.text != "" && !InPlace(written, v)
    ensures var kept := if v.column < 1 then 0 else Min((v.column - 1) as nat, |copied|);
            RedactValue(geometry, copied, written, continuesBelow, v) == (copied[..kept] + PLACEHOLDER, true, [])
  {}

  // ----- the columns -------------------------------------------------------------------------------

  datatype ColumnShift = ColumnShift(from: int, past: int, delta: int)

  function ShiftOf(e: Edit): ColumnShift {
    ColumnShift(e.from + 1, e.past + 1, e.Delta())
  }

  function ShiftsOf(edits: seq<Edit>): seq<ColumnShift> {
    if edits == [] then [] else ShiftsOf(edits[..|edits| - 1]) + [ShiftOf(edits[|edits| - 1])]
  }

  function Adjusted(shifts: seq<ColumnShift>, original: int): int {
    if shifts == [] then original
    else
      var shift := shifts[|shifts| - 1];
      Adjusted(shifts[..|shifts| - 1], original)
      + if original >= shift.past then shift.delta else if original >= shift.from then shift.from - original else 0
  }

  function CarriedColumn(shifts: seq<ColumnShift>, original: int): int {
    var adjusted := Adjusted(shifts, original);
    if adjusted < 1 then 1 else adjusted
  }

  /** The shifts carry a column to where the edits carry its rune. */
  lemma {:induction false} ShiftsCarryToTheTarget(edits: seq<Edit>, c: nat)
    ensures Adjusted(ShiftsOf(edits), c + 1) == Target(edits, c) + 1
    decreases |edits|
  {
    if edits != [] {
      var front, e := edits[..|edits| - 1], edits[|edits| - 1];
      ShiftsCarryToTheTarget(front, c);
      assert ShiftsOf(edits)[..|ShiftsOf(edits)| - 1] == ShiftsOf(front);
    }
  }

  lemma {:induction false} ShiftsTogether(a: seq<Edit>, b: seq<Edit>)
    ensures ShiftsOf(a + b) == ShiftsOf(a) + ShiftsOf(b)
    decreases |b|
  {
    if b == [] {
      assert a + b == a;
    } else {
      ShiftsTogether(a, b[..|b| - 1]);
      assert (a + b)[..|a + b| - 1] == a + b[..|b| - 1];
    }
  }

  // ----- the values of a line ----------------------------------------------------------------------

  function PlacedOf(geometry: Geometry, v: SensitiveValue): Placed
    requires v.column >= 1
  {
    Placed((v.column - 1) as nat, v.text, CarriedEdits(geometry, v))
  }

  function PlacedAll(geometry: Geometry, values: seq<SensitiveValue>): seq<Placed> {
    if values == [] then []
    else
      var v := values[|values| - 1];
      PlacedAll(geometry, values[..|values| - 1]) + if v.column >= 1 then [PlacedOf(geometry, v)] else []
  }

  /** Every edit the values make, in the order they are made. */
  function EditsOf(geometry: Geometry, values: seq<SensitiveValue>): seq<Edit> {
    LineEdits(PlacedAll(geometry, values))
  }

  /** Every value is replaced where it stands on the line, the rightmost first, and no two overlap. */
  predicate AllInPlace(written: string, values: seq<SensitiveValue>, least: nat) {
    if values == [] then least <= |written|
    else
      var v := values[|values| - 1];
      && InPlace(written, v) && least <= v.column - 1
      && AllInPlace(written, values[..|values| - 1], (v.column - 1 + |v.text|) as nat)
  }

  lemma {:induction false} InPlaceLowered(written: string, values: seq<SensitiveValue>, least: nat, mid: nat)
    requires AllInPlace(written, values, mid) && least <= mid
    ensures AllInPlace(written, values, least)
  {}

  lemma {:induction false} AllStandOn(geometry: Geometry, written: string, values: seq<SensitiveValue>, least: nat)
    requires WellOrdered(geometry) && AllInPlace(written, values, least)
    ensures StandOn(written, PlacedAll(geometry, values), least)
    decreases |values|
  {
    if values != [] {
      var front, v := values[..|values| - 1], values[|values| - 1];
      AllStandOn(geometry, written, front, (v.column - 1 + |v.text|) as nat);
      PlacedMore(geometry, front, v);
      assert values == front + [v];
      var all := PlacedAll(geometry, front) + [PlacedOf(geometry, v)];
      assert all[..|all| - 1] == PlacedAll(geometry, front);
      assert RightToLeft(geometry(v), 0, |v.text|);
    }
  }

  lemma PlacedMore(geometry: Geometry, front: seq<SensitiveValue>, v: SensitiveValue)
    requires v.column >= 1
    ensures PlacedAll(geometry, front + [v]) == PlacedAll(geometry, front) + [PlacedOf(geometry, v)]
  {
    assert (front + [v])[..|front|] == front;
  }

  lemma LineEditsMore(placed: seq<Placed>, p: Placed)
    ensures LineEdits(placed + [p]) == LineEdits(placed) + p.OnTheLine()
  {
    assert (placed + [p])[..|placed|] == placed;
  }

  lemma InPlaceRewrites(geometry: Geometry, copied: string, written: string, continuesBelow: bool, v: SensitiveValue)
    requires InPlace(written, v)
    ensures var (rewritten, _, edits) := RedactValue(geometry, copied, written, continuesBelow, v);
            var p := PlacedOf(geometry, v);
            && edits == p.OnTheLine()
            && rewritten == if p.edits == [] then copied else Replaced(copied, p.Whole())
  {}

  lemma NoEditsLeave(placed: seq<Placed>, p: Placed)
    requires p.edits == []
    ensures LineEdits(placed + [p]) == LineEdits(placed)
  {
    LineEditsMore(placed, p);
  }

  /** One value's line after another's: the edits so far, and then its own. */
  lemma NextValue(geometry: Geometry, written: string, front: seq<SensitiveValue>, v: SensitiveValue, continuesBelow: bool)
    requires WellOrdered(geometry) && AllInPlace(written, front + [v], 0)
    ensures AllInPlace(written, front, 0)
    ensures var (rewritten, _, edits) := RedactValue(geometry, Applied(written, EditsOf(geometry, front)), written, continuesBelow, v);
            && EditsOf(geometry, front + [v]) == EditsOf(geometry, front) + edits
            && rewritten == Applied(written, EditsOf(geometry, front + [v]))
  {
    assert (front + [v])[..|front|] == front;
    InPlaceLowered(written, front, 0, (v.column - 1 + |v.text|) as nat);
    NextPlaced(geometry, written, front, v);
    InPlaceRewrites(geometry, Applied(written, EditsOf(geometry, front)), written, continuesBelow, v);
  }

  lemma NextPlaced(geometry: Geometry, written: string, front: seq<SensitiveValue>, v: SensitiveValue)
    requires WellOrdered(geometry) && AllInPlace(written, front + [v], 0) && InPlace(written, v)
    ensures var p := PlacedOf(geometry, v);
            && EditsOf(geometry, front + [v]) == EditsOf(geometry, front) + p.OnTheLine()
            && Applied(written, EditsOf(geometry, front + [v]))
               == var copied := Applied(written, EditsOf(geometry, front)); if p.edits == [] then copied else Replaced(copied, p.Whole())
  {
    var placed, p := PlacedAll(geometry, front), PlacedOf(geometry, v);
    AllStandOn(geometry, written, front + [v], 0);
    PlacedMore(geometry, front, v);
    LineEditsMore(placed, p);
    if p.edits == [] {
      NoEditsLeave(placed, p);
    } else {
      NextIsApplied(written, placed, p, 0);
    }
  }

  /** Where every column of the line is shown: a rune that survives stands exactly at the column its own is
      carried to, a column inside a removed span is carried to the first rune of what replaced it, and the end
      of the line is carried to the end. */
  lemma ColumnsFollowTheText(geometry: Geometry, written: string, values: seq<SensitiveValue>, c: nat)
    requires WellOrdered(geometry) && AllInPlace(written, values, 0) && c <= |written|
    ensures CarriedColumn(ShiftsOf(EditsOf(geometry, values)), c + 1) == Target(EditsOf(geometry, values), c) + 1
    ensures CarriedTo(written, EditsOf(geometry, values), c, Target(EditsOf(geometry, values), c))
  {
    AllStandOn(geometry, written, values, 0);
    var placed := PlacedAll(geometry, values);
    LineEditsAreRightToLeft(written, placed, 0);
    ShiftsCarryToTheTarget(LineEdits(placed), c);
    EveryColumnIsCarried(written, LineEdits(placed), c);
  }

  /** Replacing the values one at a time, from the right, is making all their edits at once. */
  lemma ValuesAreReplacedAtOnce(geometry: Geometry, written: string, values: seq<SensitiveValue>)
    requires WellOrdered(geometry) && AllInPlace(written, values, 0)
    ensures RightToLeft(EditsOf(geometry, values), 0, |written|)
    ensures Applied(written, EditsOf(geometry, values)) == AllAtOnce(written, EditsOf(geometry, values), 0)
  {
    AllStandOn(geometry, written, values, 0);
    LineEditsAreRightToLeft(written, PlacedAll(geometry, values), 0);
    RightToLeftIsAllAtOnce(written, EditsOf(geometry, values));
  }

  // ----- the walk over a line's values -------------------------------------------------------------

  /** The line after its values were redacted, one after another, and the edits that are carried. */
  function Rewritten(geometry: Geometry, written: string, values: seq<SensitiveValue>, continuesBelow: bool): (string, seq<Edit>) {
    if values == [] then (written, [])
    else
      var (copied, before) := Rewritten(geometry, written, values[..|values| - 1], continuesBelow);
      var (rewritten, _, edits) := RedactValue(geometry, copied, written, continuesBelow, values[|values| - 1]);
      (rewritten, before + edits)
  }

  lemma RewrittenMore(geometry: Geometry, written: string, front: seq<SensitiveValue>, continuesBelow: bool, v: SensitiveValue)
    ensures var (copied, before) := Rewritten(geometry, written, front, continuesBelow);
            var (rewritten, _, edits) := RedactValue(geometry, copied, written, continuesBelow, v);
            Rewritten(geometry, written, front + [v], continuesBelow) == (rewritten, before + edits)
  {
    assert (front + [v])[..|front|] == front;
  }

  lemma {:induction false} RewrittenIsItsEdits(geometry: Geometry, written: string, values: seq<SensitiveValue>, continuesBelow: bool)
    requires WellOrdered(geometry) && AllInPlace(written, values, 0)
    ensures Rewritten(geometry, written, values, continuesBelow)
            == (Applied(written, EditsOf(geometry, values)), EditsOf(geometry, values))
    decreases |values|
  {
    if values != [] {
      var front, v := values[..|values| - 1], values[|values| - 1];
      assert values == front + [v];
      NextValue(geometry, written, front, v, continuesBelow);
      RewrittenIsItsEdits(geometry, written, front, continuesBelow);
    }
  }

  function OnTheLine(v: SensitiveValue, e: Edit): Edit
    requires v.column >= 1
  {
    Edit(e.from + (v.column - 1) as nat, e.past + (v.column - 1) as nat, e.text)
  }

  lemma LastEditIsMade(geometry: Geometry, written: string, front: seq<SensitiveValue>, continuesBelow: bool, v: SensitiveValue, i: nat)
    requires InPlace(written, v) && i < |geometry(v)| && Replacement(geometry, v) != v.text
    ensures OnTheLine(v, geometry(v)[i]) in Rewritten(geometry, written, front + [v], continuesBelow).1
  {
    assert (front + [v])[..|front|] == front;
    assert Moved(geometry(v), (v.column - 1) as nat)[i] == OnTheLine(v, geometry(v)[i]);
  }

  lemma EarlierEditsStay(geometry: Geometry, written: string, front: seq<SensitiveValue>, continuesBelow: bool, v: SensitiveValue, e: Edit)
    requires e in Rewritten(geometry, written, front, continuesBelow).1
    ensures e in Rewritten(geometry, written, front + [v], continuesBelow).1
  {
    assert (front + [v])[..|front|] == front;
  }

  /** Every edit of every value on the line is made where the value stands. */
  lemma {:induction false} EditIsMade(geometry: Geometry, written: string, values: seq<SensitiveValue>, continuesBelow: bool,
                                      v: SensitiveValue, i: nat)
    requires AllInPlace(written, values, 0) && v in values && i < |geometry(v)| && Replacement(geometry, v) != v.text
    ensures v.column >= 1 && OnTheLine(v, geometry(v)[i]) in Rewritten(geometry, written, values, continuesBelow).1
    decreases |values|
  {
    var front, last := values[..|values| - 1], values[|values| - 1];
    assert values == front + [last];
    if v == last {
      LastEditIsMade(geometry, written, front, continuesBelow, v, i);
    } else {
      InPlaceLowered(written, front, 0, (last.column - 1 + |last.text|) as nat);
      EditIsMade(geometry, written, front, continuesBelow, v, i);
      EarlierEditsStay(geometry, written, front, continuesBelow, last, OnTheLine(v, geometry(v)[i]));
    }
  }

  predicate AllPlaceholders(edits: seq<Edit>) {
    forall e :: e in edits ==> e.text == PLACEHOLDER
  }

  lemma {:induction false} RewrittenInPlaceholders(geometry: Geometry, written: string, values: seq<SensitiveValue>, continuesBelow: bool)
    requires forall v: SensitiveValue :: AllPlaceholders(geometry(v))
    ensures AllPlaceholders(Rewritten(geometry, written, values, continuesBelow).1)
    decreases |values|
  {
    if values != [] {
      assert AllPlaceholders(geometry(values[|values| - 1]));
      RewrittenInPlaceholders(geometry, written, values[..|values| - 1], continuesBelow);
    }
  }
}
