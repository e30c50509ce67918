/** The did-you-mean rule of internal/config/suggest.go. Names are the runes Go ranges over. */
module EditDistance {
  import opened Numbers
  import opened TextOrder

  // ----- what the distance means: the fewest single-rune edits ------------------------------------

  datatype Edit =
    | Insert(at: nat, rune: char)
    | Delete(at: nat)
    | Substitute(at: nat, rune: char)
  {
    predicate Fits(name: string) {
      if Insert? then at <= |name| else at < |name|
    }

    function Applied(name: string): string
      requires Fits(name)
    {
      match this
      case Insert(at, rune) => name[..at] + [rune] + name[at..]
      case Delete(at) => name[..at] + name[at + 1..]
      case Substitute(at, rune) => name[..at] + [rune] + name[at + 1..]
    }
  }

  predicate Turns(script: seq<Edit>, a: string, b: string) {
    if script == [] then a == b
    else script[0].Fits(a) && Turns(script[1..], script[0].Applied(a), b)
  }

  /** The recursive Levenshtein distance, on the last rune of each name. */
  function Distance(a: string, b: string): nat
    decreases |a| + |b|
  {
    if a == "" then |b|
    else if b == "" then |a|
    else
      Cheapest(Distance(Front(a), b), Distance(a, Front(b)), Distance(Front(a), Front(b)), Last(a) == Last(b))
  }

  /** One cell of the table from the cells above it, left of it and diagonally above. */
  function Cheapest(above: nat, left: nat, diagonal: nat, same: bool): nat {
    Min(Min(above + 1, left + 1), if same then diagonal else diagonal + 1)
  }

  function Front(name: string): string
    requires name != ""
  {
    name[..|name| - 1]
  }

  function Last(name: string): char
    requires name != ""
  {
    name[|name| - 1]
  }

  // ----- no script is shorter than the distance -----------------------------------------------------

  /** One rune more, less or other anywhere in a name moves its distance to any name by one at most. */
  lemma {:induction false} SpliceMovesByOne(p: string, u: string, v: string, s: string, b: string)
    requires |u| <= 1 && |v| <= 1
    ensures Distance(p + u + s, b) <= Distance(p + v + s, b) + 1
    decreases |s| + |b|
  {
    var x, y := p + u + s, p + v + s;
    if b != "" {
      SpliceMovesByOne(p, u, v, s, Front(b));
      if s != "" {
        assert Front(x) == p + u + Front(s) && Front(y) == p + v + Front(s);
        SpliceMovesByOne(p, u, v, Front(s), b);
        SpliceMovesByOne(p, u, v, Front(s), Front(b));
        SameLastMovesByOne(x, y, b);
      } else {
        assert x == p + u && y == p + v;
        AtEndMovesByOne(p, x, y, b);
      }
    } else {
      assert Distance(x, b) == |x| && Distance(y, b) == |y|;
    }
  }

  lemma SameLastMovesByOne(x: string, y: string, b: string)
    requires x != "" && y != "" && b != "" && Last(x) == Last(y)
    requires Distance(x, Front(b)) <= Distance(y, Front(b)) + 1
    requires Distance(Front(x), b) <= Distance(Front(y), b) + 1
    requires Distance(Front(x), Front(b)) <= Distance(Front(y), Front(b)) + 1
    ensures Distance(x, b) <= Distance(y, b) + 1
  {
    CheapestMovesByOne(Distance(Front(x), b), Distance(x, Front(b)), Distance(Front(x), Front(b)),
                       Distance(Front(y), b), Distance(y, Front(b)), Distance(Front(y), Front(b)), Last(x) == Last(b));
  }

  lemma CheapestMovesByOne(above: nat, left: nat, diagonal: nat, above': nat, left': nat, diagonal': nat, same: bool)
    requires above <= above' + 1 && left <= left' + 1 && diagonal <= diagonal' + 1
    ensures Cheapest(above, left, diagonal, same) <= Cheapest(above', left', diagonal', same) + 1
  {}

  lemma AtEndMovesByOne(p: string, x: string, y: string, b: string)
    requires b != "" && (x == p || (x != "" && Front(x) == p)) && (y == p || (y != "" && Front(y) == p))
    requires Distance(x, Front(b)) <= Distance(y, Front(b)) + 1
    ensures Distance(x, b) <= Distance(y, b) + 1
  {
    OneMore(x, b);
    if y != p {
      CellIsOneOf(y, b);
    }
  }

  /** A rune more at the end of either name, or of both, costs one edit at most. */
  lemma OneMore(x: string, b: string)
    requires b != ""
    ensures Distance(x, b) <= Distance(x, Front(b)) + 1
    ensures x != "" ==> Distance(x, b) <= Distance(Front(x), b) + 1 && Distance(x, b) <= Distance(Front(x), Front(b)) + 1
  {}

  lemma CellIsOneOf(y: string, b: string)
    requires y != "" && b != ""
    ensures || Distance(y, b) == Distance(Front(y), b) + 1
            || Distance(y, b) == Distance(y, Front(b)) + 1
            || Distance(y, b) >= Distance(Front(y), Front(b))
  {}

  lemma {:induction false} NoShorterScript(script: seq<Edit>, a: string, b: string)
    requires Turns(script, a, b)
    ensures Distance(a, b) <= |script|
    decreases |script|
  {
    if script == [] {
      DistanceToItself(a);
    } else {
      var e := script[0];
      NoShorterScript(script[1..], e.Applied(a), b);
      var p := a[..e.at];
      var u := if e.Insert? then "" else [a[e.at]];
      var v := if e.Delete? then "" else [e.rune];
      var s := if e.Insert? then a[e.at..] else a[e.at + 1..];
      assert a == p + u + s && e.Applied(a) == p + v + s;
      SpliceMovesByOne(p, u, v, s, b);
    }
  }

  lemma {:induction false} DistanceToItself(a: string)
    ensures Distance(a, a) == 0
    decreases |a|
  {
    if a != "" {
      DistanceToItself(Front(a));
    }
  }

  // ----- a script of exactly that length ------------------------------------------------------------

  lemma TurnsFirst(e: Edit, rest: seq<Edit>, a: string, b: string)
    requires e.Fits(a) && Turns(rest, e.Applied(a), b)
    ensures Turns([e] + rest, a, b)
  {
    assert ([e] + rest)[1..] == rest;
  }

  lemma AppliedUnder(e: Edit, a: string, last: char)
    requires e.Fits(a)
    ensures e.Fits(a + [last]) && e.Applied(a + [last]) == e.Applied(a) + [last]
  {}

  lemma {:induction false} TurnsThen(s: seq<Edit>, t: seq<Edit>, a: string, m: string, b: string)
    requires Turns(s, a, m) && Turns(t, m, b)
    ensures Turns(s + t, a, b)
    decreases |s|
  {
    if s == [] {
      assert s + t == t;
    } else {
      var rest := s[1..];
      assert s + t == [s[0]] + (rest + t);
      TurnsThen(rest, t, s[0].Applied(a), m, b);
      TurnsFirst(s[0], rest + t, a, b);
    }
  }

  /** Edits of a name's front leave a last rune where it is. */
  lemma {:induction false} TurnsUnder(s: seq<Edit>, a: string, b: string, last: char)
    requires Turns(s, a, b)
    ensures Turns(s, a + [last], b + [last])
    decreases |s|
  {
    if s != [] {
      var rest := s[1..];
      assert s == [s[0]] + rest;
      TurnsUnder(rest, s[0].Applied(a), b, last);
      AppliedUnder(s[0], a, last);
      TurnsFirst(s[0], rest, a + [last], b + [last]);
    }
  }

  lemma DeletingFirst(rest: seq<Edit>, a: string, b: string)
    requires a != "" && Turns(rest, Front(a), b)
    ensures Turns([Delete(|a| - 1)] + rest, a, b)
  {
    assert Delete(|a| - 1).Applied(a) == Front(a);
    TurnsFirst(Delete(|a| - 1), rest, a, b);
  }

  lemma InsertingLast(rest: seq<Edit>, a: string, b: string)
    requires b != "" && Turns(rest, a, Front(b))
    ensures Turns(rest + [Insert(|b| - 1, Last(b))], a, b)
  {
    var last := Insert(|b| - 1, Last(b));
    assert Turns([last], Front(b), b) by {
      assert last.Applied(Front(b)) == b;
    }
    TurnsThen(rest, [last], a, Front(b), b);
  }

  lemma MatchingLast(rest: seq<Edit>, a: string, b: string)
    requires a != "" && b != "" && Turns(rest, Front(a), Front(b)) && Last(a) == Last(b)
    ensures Turns(rest, a, b)
  {
    assert a == Front(a) + [Last(a)] && b == Front(b) + [Last(b)];
    TurnsUnder(rest, Front(a), Front(b), Last(a));
  }

  lemma SubstitutingLast(rest: seq<Edit>, a: string, b: string)
    requires a != "" && b != "" && Turns(rest, Front(a), Front(b))
    ensures Turns(rest + [Substitute(|b| - 1, Last(b))], a, b)
  {
    var last, m := Substitute(|b| - 1, Last(b)), Front(b) + [Last(a)];
    assert Turns([last], m, b) by {
      assert last.Applied(m) == b;
    }
    assert Turns(rest, a, m) by {
      assert a == Front(a) + [Last(a)];
      TurnsUnder(rest, Front(a), Front(b), Last(a));
    }
    TurnsThen(rest, [last], a, m, b);
  }

  lemma {:induction false} ShortestScript(a: string, b: string) returns (script: seq<Edit>)
    ensures Turns(script, a, b) && |script| == Distance(a, b)
    decreases |a| + |b|
  {
    if a == "" && b == "" {
      script := [];
    } else if a != "" && (b == "" || Distance(a, b) == Distance(Front(a), b) + 1) {
      var rest := ShortestScript(Front(a), b);
      DeletingFirst(rest, a, b);
      script := [Delete(|a| - 1)] + rest;
    } else if b != "" && (a == "" || Distance(a, b) == Distance(a, Front(b)) + 1) {
      var rest := ShortestScript(a, Front(b));
      InsertingLast(rest, a, b);
      script := rest + [Insert(|b| - 1, Last(b))];
    } else {
      var rest := ShortestScript(Front(a), Front(b));
      if Last(a) == Last(b) {
        MatchingLast(rest, a, b);
        script := rest;
      } else {
        SubstitutingLast(rest, a, b);
        script := rest + [Substitute(|b| - 1, Last(b))];
      }
    }
  }

  /** The distance is the least number of single-rune edits turning one name into the other. */
  lemma DistanceIsLeast(a: string, b: string)
    ensures forall script :: Turns(script, a, b) ==> Distance(a, b) <= |script|
    ensures exists script :: Turns(script, a, b) && |script| == Distance(a, b)
  {
    forall script | Turns(script, a, b) ensures Distance(a, b) <= |script| {
      NoShorterScript(script, a, b);
    }
    var script := ShortestScript(a, b);
  }

  // ----- the one-row table --------------------------------------------------------------------------

  function Table(from: string, to: string, i: nat, j: nat): nat
    requires i <= |from| && j <= |to|
  {
    Distance(from[..i], to[..j])
  }

  method EditDistance(from: string, to: string) returns (distance: nat)
    ensures distance == Distance(from, to)
  {
    var row := new nat[|to| + 1];
    for j := 0 to row.Length
      invariant forall k :: 0 <= k < j ==> row[k] == k == Table(from, to, 0, k)
    {
      row[j] := j;
    }
    for i := 1 to |from| + 1
      invariant forall k :: 0 <= k <= |to| ==> row[k] == Table(from, to, i - 1, k)
    {
      var diagonal := row[0];
      row[0] := i;
      for j := 1 to |to| + 1
        invariant diagonal == Table(from, to, i - 1, j - 1)
        invariant forall k :: 0 <= k < j ==> row[k] == Table(from, to, i, k)
        invariant forall k :: j <= k <= |to| ==> row[k] == Table(from, to, i - 1, k)
      {
        var above := row[j];
        var substitution := diagonal;
        if from[i - 1] != to[j - 1] {
          substitution := substitution + 1;
        }
        Cell(from, to, i, j);
        row[j] := Min(Min(above + 1, row[j - 1] + 1), substitution);
        diagonal := above;
      }
    }
    assert from[..|from|] == from && to[..|to|] == to;
    return row[|to|];
  }

  lemma Cell(from: string, to: string, i: nat, j: nat)
    requires 1 <= i <= |from| && 1 <= j <= |to|
    ensures Table(from, to, i, j) ==
            Cheapest(Table(from, to, i - 1, j), Table(from, to, i, j - 1), Table(from, to, i - 1, j - 1),
                     from[i - 1] == to[j - 1])
  {
    assert Front(from[..i]) == from[..i - 1] && Front(to[..j]) == to[..j - 1];
  }

  // ----- closestName --------------------------------------------------------------------------------

  const SUGGESTION_THRESHOLD: nat := 2

  /** `candidate` is no worse an answer than `other`: nearer, or as near and no later in order. */
  predicate NoWorse(written: string, candidate: string, other: string) {
    || Distance(written, candidate) < Distance(written, other)
    || (Distance(written, candidate) == Distance(written, other) && !Less(other, candidate))
  }

  ghost predicate IsClosest(written: string, candidates: seq<string>, closest: string, found: bool) {
    && (found <==> exists c :: c in candidates && Distance(written, c) <= SUGGESTION_THRESHOLD)
    && (if found then closest in candidates && forall c :: c in candidates ==> NoWorse(written, closest, c)
        else closest == "")
  }

  method ClosestName(written: string, candidates: seq<string>) returns (closest: string, found: bool)
    ensures IsClosest(written, candidates, closest, found)
  {
    LessIsOrder();
    closest := "";
    var nearest := SUGGESTION_THRESHOLD + 1;
    for k := 0 to |candidates|
      invariant nearest <= SUGGESTION_THRESHOLD + 1
      invariant nearest == SUGGESTION_THRESHOLD + 1 ==>
        closest == "" && forall c :: c in candidates[..k] ==> Distance(written, c) > SUGGESTION_THRESHOLD
      invariant nearest <= SUGGESTION_THRESHOLD ==>
        && closest in candidates[..k] && nearest == Distance(written, closest)
        && forall c :: c in candidates[..k] ==> NoWorse(written, closest, c)
    {
      var candidate := candidates[k];
      var distance := EditDistance(written, candidate);
      assert candidates[..k + 1] == candidates[..k] + [candidate];
      if distance < nearest || (distance == nearest && Less(candidate, closest)) {
        closest, nearest := candidate, distance;
      }
    }
    assert candidates[..|candidates|] == candidates;
    found := nearest <= SUGGESTION_THRESHOLD;
  }

  /** The answer is fixed by which names are offered, not by their order or repetition. */
  lemma ClosestNameIgnoresOrder(written: string, candidates: seq<string>, permuted: seq<string>,
                                closest: string, found: bool, closest': string, found': bool)
    requires forall c :: c in candidates <==> c in permuted
    requires IsClosest(written, candidates, closest, found) && IsClosest(written, permuted, closest', found')
    ensures closest == closest' && found == found'
  {
    if found {
      LessIsOrder();
      assert NoWorse(written, closest, closest') && NoWorse(written, closest', closest);
    }
  }
}
