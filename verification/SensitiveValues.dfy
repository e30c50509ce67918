/** One replacement for each place in the source (internal/config sensitivepaths.go): aliases and merges
    make several declarations reach one value, and the strictest wins. */
module SensitiveValues {
  import opened Sorting
  import opened TextEdits
  import opened TextAt
  import opened RenderColumns
  import opened RenderCopies

  datatype Extent = Extent(line: nat, column: int, text: string)

  function ExtentOf(v: SensitiveValue): Extent {
    Extent(v.line, v.column, v.text)
  }

  function StrictestOf(kept: SensitiveValue, v: SensitiveValue): SensitiveValue {
    kept.(kind := if v.kind == EntireValue then EntireValue else kept.kind,
          throughLine := if kept.throughLine < v.throughLine then v.throughLine else kept.throughLine,
          ownsUnclaimedBytes := kept.ownsUnclaimedBytes || v.ownsUnclaimedBytes,
          reachesBackTo := if v.reachesBackTo >= 1 && (kept.reachesBackTo < 1 || v.reachesBackTo < kept.reachesBackTo)
                           then v.reachesBackTo else kept.reachesBackTo)
  }

  // ----- what the strictest is ---------------------------------------------------------------------

  /** `d` hides at least what `v` does. */
  predicate Hides(d: SensitiveValue, v: SensitiveValue) {
    && (v.kind == EntireValue ==> d.kind == EntireValue) && v.throughLine <= d.throughLine
    && (v.ownsUnclaimedBytes ==> d.ownsUnclaimedBytes) && (v.reachesBackTo >= 1 ==> 1 <= d.reachesBackTo <= v.reachesBackTo)
  }

  predicate At(values: seq<SensitiveValue>, e: Extent, v: SensitiveValue) {
    v in values && ExtentOf(v) == e
  }

  /** `d` hides nothing that no declaration at its place asks for. */
  ghost predicate Attained(values: seq<SensitiveValue>, d: SensitiveValue) {
    var e := ExtentOf(d);
    && (d.kind == EntireValue ==> exists v :: At(values, e, v) && v.kind == EntireValue)
    && (exists v :: At(values, e, v) && v.throughLine == d.throughLine)
    && (d.ownsUnclaimedBytes ==> exists v :: At(values, e, v) && v.ownsUnclaimedBytes)
    && (d.reachesBackTo >= 1 ==> exists v :: At(values, e, v) && v.reachesBackTo == d.reachesBackTo)
  }

  ghost predicate Strictest(values: seq<SensitiveValue>, d: SensitiveValue) {
    Attained(values, d) && forall v :: At(values, ExtentOf(d), v) ==> Hides(d, v)
  }

  predicate Represented(found: seq<SensitiveValue>, e: Extent) {
    exists d :: d in found && ExtentOf(d) == e
  }

  /** One value for each place something was declared at, the strictest of those declared there. */
  ghost predicate IsCoalesced(values: seq<SensitiveValue>, found: seq<SensitiveValue>) {
    && (forall i, j :: 0 <= i < j < |found| ==> ExtentOf(found[i]) != ExtentOf(found[j]))
    && (forall d :: d in found ==> Strictest(values, d))
    && forall v :: v in values ==> Represented(found, ExtentOf(v))
  }

  // ----- one value more ----------------------------------------------------------------------------

  lemma OtherStaysStrictest(values: seq<SensitiveValue>, v: SensitiveValue, d: SensitiveValue)
    requires Strictest(values, d) && ExtentOf(d) != ExtentOf(v)
    ensures Strictest(values + [v], d)
  {
    forall w ensures At(values + [v], ExtentOf(d), w) <==> At(values, ExtentOf(d), w) {}
  }

  lemma FirstIsStrictest(values: seq<SensitiveValue>, v: SensitiveValue)
    requires forall w :: !At(values, ExtentOf(v), w)
    ensures Strictest(values + [v], v)
  {
    forall w ensures At(values + [v], ExtentOf(v), w) <==> w == v {
      assert At(values + [v], ExtentOf(v), w) && w != v ==> At(values, ExtentOf(v), w);
    }
  }

  lemma JoinedIsStrictest(values: seq<SensitiveValue>, v: SensitiveValue, d: SensitiveValue)
    requires Strictest(values, d) && ExtentOf(d) == ExtentOf(v)
    ensures ExtentOf(StrictestOf(d, v)) == ExtentOf(v) && Strictest(values + [v], StrictestOf(d, v))
  {
    var e := ExtentOf(v);
    forall w ensures At(values + [v], e, w) <==> At(values, e, w) || w == v {}
    assert At(values + [v], e, v);
    forall w | At(values, e, w) ensures Hides(StrictestOf(d, v), w) {
      assert Hides(d, w);
    }
  }

  /** Where each place stands among those found so far. */
  ghost predicate Indexed(found: seq<SensitiveValue>, indexes: map<Extent, nat>) {
    && (forall e :: e in indexes ==> indexes[e] < |found| && ExtentOf(found[indexes[e]]) == e)
    && forall i :: 0 <= i < |found| ==> ExtentOf(found[i]) in indexes && indexes[ExtentOf(found[i])] == i
  }

  method CoalescedSensitiveValues(values: seq<SensitiveValue>) returns (found: seq<SensitiveValue>)
    ensures IsCoalesced(values, found)
  {
    var indexes: map<Extent, nat> := map[];
    found := [];
    for k := 0 to |values|
      invariant IsCoalesced(values[..k], found) && Indexed(found, indexes)
    {
      var v := values[k];
      assert values[..k + 1] == values[..k] + [v];
      var e := ExtentOf(v);
      if e !in indexes {
        NewPlace(values[..k], found, v);
        indexes := indexes[e := |found|];
        found := found + [v];
      } else {
        var index := indexes[e];
        SamePlace(values[..k], found, v, index);
        found := found[index := StrictestOf(found[index], v)];
      }
    }
    assert values[..|values|] == values;
  }

  lemma NewPlace(values: seq<SensitiveValue>, found: seq<SensitiveValue>, v: SensitiveValue)
    requires IsCoalesced(values, found) && !Represented(found, ExtentOf(v))
    ensures IsCoalesced(values + [v], found + [v])
  {
    FirstIsStrictest(values, v);
    forall d | d in found + [v] ensures Strictest(values + [v], d) {
      if d in found {
        OtherStaysStrictest(values, v, d);
      }
    }
    forall w | w in values + [v] ensures Represented(found + [v], ExtentOf(w)) {
      if w in values {
        var d :| d in found && ExtentOf(d) == ExtentOf(w);
        assert d in found + [v];
      } else {
        assert v in found + [v];
      }
    }
  }

  lemma SamePlace(values: seq<SensitiveValue>, found: seq<SensitiveValue>, v: SensitiveValue, index: nat)
    requires IsCoalesced(values, found) && index < |found| && ExtentOf(found[index]) == ExtentOf(v)
    ensures IsCoalesced(values + [v], found[index := StrictestOf(found[index], v)])
  {
    var more := found[index := StrictestOf(found[index], v)];
    assert forall i :: 0 <= i < |found| ==> ExtentOf(more[i]) == ExtentOf(found[i]);
    JoinedIsStrictest(values, v, found[index]);
    forall d | d in more ensures Strictest(values + [v], d) {
      var i :| 0 <= i < |more| && more[i] == d;
      if i != index {
        assert ExtentOf(found[i]) != ExtentOf(found[index]);
        OtherStaysStrictest(values, v, d);
      }
    }
    forall w | w in values + [v] ensures Represented(more, ExtentOf(w)) {
      StillRepresented(values, found, more, v, w, index);
    }
  }

  lemma StillRepresented(values: seq<SensitiveValue>, found: seq<SensitiveValue>, more: seq<SensitiveValue>, v: SensitiveValue,
                         w: SensitiveValue, index: nat)
    requires IsCoalesced(values, found) && w in values + [v] && index < |found| == |more| && ExtentOf(found[index]) == ExtentOf(v)
    requires forall i :: 0 <= i < |found| ==> ExtentOf(more[i]) == ExtentOf(found[i])
    ensures Represented(more, ExtentOf(w))
  {
    if w in values {
      var d :| d in found && ExtentOf(d) == ExtentOf(w);
      var i :| 0 <= i < |found| && found[i] == d;
      assert more[i] in more;
    } else {
      assert more[index] in more;
    }
  }

  // ----- arrival order -----------------------------------------------------------------------------

  /** What is hidden at one place does not depend on the order in which its declarations were met. */
  lemma CoalescingIgnoresOrder(values: seq<SensitiveValue>, values': seq<SensitiveValue>, d: SensitiveValue, d': SensitiveValue)
    requires multiset(values) == multiset(values') && Strictest(values, d) && Strictest(values', d') && ExtentOf(d) == ExtentOf(d')
    ensures d.kind == d'.kind && d.throughLine == d'.throughLine && d.ownsUnclaimedBytes == d'.ownsUnclaimedBytes
    ensures d.reachesBackTo == d'.reachesBackTo || (d.reachesBackTo < 1 && d'.reachesBackTo < 1)
  {
    MembersOf(values, values');
    forall v ensures At(values, ExtentOf(d), v) <==> At(values', ExtentOf(d), v) {}
  }

  // ----- the order of replacement ------------------------------------------------------------------

  predicate RightmostFirst(a: SensitiveValue, b: SensitiveValue) {
    a.line < b.line || (a.line == b.line && b.column < a.column)
  }

  /** Two values of one line that share no rune. */
  predicate Disjoint(a: SensitiveValue, b: SensitiveValue) {
    a.line == b.line ==> a.column + |a.text| <= b.column || b.column + |b.text| <= a.column
  }

  predicate AllDisjoint(values: seq<SensitiveValue>) {
    forall i, j :: 0 <= i < j < |values| ==> Disjoint(values[i], values[j])
  }

  predicate AllStand(written: string, values: seq<SensitiveValue>, number: nat, least: nat) {
    forall v :: v in values && v.line == number ==> InPlace(written, v) && least <= v.column - 1
  }

  lemma EarlierStandsRight(front: seq<SensitiveValue>, v: SensitiveValue, w: SensitiveValue)
    requires StrictlySorted(front + [v], RightmostFirst) && AllDisjoint(front + [v]) && w in front && w.line == v.line
    ensures v.column + |v.text| <= w.column
  {
    var all := front + [v];
    var i :| 0 <= i < |front| && front[i] == w;
    assert all[i] == w && all[|front|] == v;
    assert RightmostFirst(all[i], all[|front|]) && Disjoint(all[i], all[|front|]);
  }

  lemma FrontStands(written: string, front: seq<SensitiveValue>, v: SensitiveValue, least: nat)
    requires StrictlySorted(front + [v], RightmostFirst) && AllDisjoint(front + [v]) && AllStand(written, front + [v], v.line, least)
    ensures InPlace(written, v) && least <= v.column - 1
    ensures AllStand(written, front, v.line, (v.column - 1 + |v.text|) as nat)
  {
    assert v in front + [v];
    forall w | w in front && w.line == v.line ensures InPlace(written, w) && v.column - 1 + |v.text| <= w.column - 1 {
      assert w in front + [v];
      EarlierStandsRight(front, v, w);
    }
  }

  lemma FrontIsOrdered(front: seq<SensitiveValue>, v: SensitiveValue)
    requires StrictlySorted(front + [v], RightmostFirst) && AllDisjoint(front + [v])
    ensures StrictlySorted(front, RightmostFirst) && AllDisjoint(front)
  {
    var all := front + [v];
    forall i, j | 0 <= i < j < |front| ensures RightmostFirst(front[i], front[j]) && Disjoint(front[i], front[j]) {
      assert all[i] == front[i] && all[j] == front[j];
    }
  }

  /** In that order, values that stand on their lines and share no rune are each met where they were found:
      the hypothesis under which every column is carried to its rune. */
  lemma {:induction false} SortedValuesAreInPlace(written: string, values: seq<SensitiveValue>, number: nat, least: nat)
    requires StrictlySorted(values, RightmostFirst) && AllDisjoint(values) && AllStand(written, values, number, least) && least <= |written|
    ensures AllInPlace(written, ValuesOn(values, number), least)
    decreases |values|
  {
    if values != [] {
      var front, v := values[..|values| - 1], values[|values| - 1];
      assert values == front + [v];
      FrontIsOrdered(front, v);
      var on := ValuesOn(front, number);
      assert on + [] == on && (on + [v])[..|on|] == on;
      if v.line == number {
        FrontStands(written, front, v, least);
        SortedValuesAreInPlace(written, front, number, (v.column - 1 + |v.text|) as nat);
      } else {
        SortedValuesAreInPlace(written, front, number, least);
      }
    }
  }
}
