/** The order of Go's `<` on strings. On the runes of valid UTF-8 it is the order of the bytes. */
module TextOrder {
  predicate Less(a: string, b: string) {
    b != "" && (a == "" || a[0] < b[0] || (a[0] == b[0] && Less(a[1..], b[1..])))
  }

  lemma {:induction false} LessTransitive(a: string, b: string, c: string)
    requires Less(a, b) && Less(b, c)
    ensures Less(a, c)
  {
    if a != "" && a[0] == b[0] && b[0] == c[0] {
      LessTransitive(a[1..], b[1..], c[1..]);
    }
  }

  /** Exactly one of `a < b`, `a == b` and `b < a`. */
  lemma {:induction false} LessTrichotomous(a: string, b: string)
    ensures Less(a, b) || a == b || Less(b, a)
    ensures Less(a, b) ==> a != b && !Less(b, a)
  {
    if a != "" && b != "" {
      if a[0] == b[0] {
        LessTrichotomous(a[1..], b[1..]);
        assert a == [a[0]] + a[1..] && b == [b[0]] + b[1..];
      }
    } else if a == "" && b == "" {
      assert !Less(a, b);
    }
  }

  lemma LessIsOrder()
    ensures forall a, b, c :: Less(a, b) && Less(b, c) ==> Less(a, c)
    ensures forall a, b :: Less(a, b) ==> a != b && !Less(b, a)
    ensures forall a, b :: a != b && !Less(b, a) ==> Less(a, b)
  {
    forall a, b, c | Less(a, b) && Less(b, c) ensures Less(a, c) {
      LessTransitive(a, b, c);
    }
    forall a, b ensures Less(a, b) ==> a != b && !Less(b, a) {
      LessTrichotomous(a, b);
    }
    forall a, b | a != b && !Less(b, a) ensures Less(a, b) {
      LessTrichotomous(a, b);
    }
  }
}

/** Sorting by a strict order, as slices.SortFunc is used on elements no two of which tie. */
module Sorting {
  ghost predicate StrictOrder<T(!new)>(less: (T, T) -> bool) {
    && (forall a, b :: less(a, b) ==> !less(b, a))
    && (forall a, b, c :: less(a, b) && less(b, c) ==> less(a, c))
  }

  ghost predicate TotalOn<T(!new)>(s: seq<T>, less: (T, T) -> bool) {
    forall i, j :: 0 <= i < j < |s| ==> less(s[i], s[j]) || less(s[j], s[i])
  }

  ghost predicate StrictlySorted<T(!new)>(s: seq<T>, less: (T, T) -> bool) {
    forall i, j :: 0 <= i < j < |s| ==> less(s[i], s[j])
  }

  function Inserted<T>(x: T, s: seq<T>, less: (T, T) -> bool): (r: seq<T>)
    ensures multiset(r) == multiset(s) + multiset{x}
  {
    if s == [] || less(x, s[0]) then [x] + s
    else
      assert s == [s[0]] + s[1..];
      [s[0]] + Inserted(x, s[1..], less)
  }

  function Sorted<T>(s: seq<T>, less: (T, T) -> bool): (r: seq<T>)
    ensures multiset(r) == multiset(s)
  {
    if s == [] then []
    else
      assert s == [s[0]] + s[1..];
      Inserted(s[0], Sorted(s[1..], less), less)
  }

  lemma MembersOf<T>(s: seq<T>, t: seq<T>)
    requires multiset(s) == multiset(t)
    ensures |s| == |t|
    ensures forall x :: x in s <==> x in t
  {
    assert |multiset(s)| == |multiset(t)|;
    forall x ensures x in s <==> x in t {
      assert x in s <==> x in multiset(s);
      assert x in t <==> x in multiset(t);
    }
  }

  lemma {:induction false} InsertedIsSorted<T(!new)>(x: T, s: seq<T>, less: (T, T) -> bool)
    requires StrictOrder(less) && StrictlySorted(s, less)
    requires forall y :: y in s ==> less(x, y) || less(y, x)
    ensures StrictlySorted(Inserted(x, s, less), less)
  {
    if s != [] && !less(x, s[0]) {
      InsertedIsSorted(x, s[1..], less);
      var rest := Inserted(x, s[1..], less);
      assert multiset(rest) == multiset(s[1..] + [x]);
      MembersOf(rest, s[1..] + [x]);
      forall y | y in rest ensures less(s[0], y) {
        assert y in s[1..] + [x];
      }
    }
  }

  /** Sorting elements no two of which tie gives a strictly increasing order of the same elements. */
  lemma {:induction false} SortedIsSorted<T(!new)>(s: seq<T>, less: (T, T) -> bool)
    requires StrictOrder(less) && TotalOn(s, less)
    ensures StrictlySorted(Sorted(s, less), less)
  {
    if s != [] {
      SortedIsSorted(s[1..], less);
      MembersOf(Sorted(s[1..], less), s[1..]);
      forall y | y in Sorted(s[1..], less) ensures less(s[0], y) || less(y, s[0]) {
        var k :| 0 <= k < |s[1..]| && s[1..][k] == y;
        assert s[k + 1] == y;
      }
      InsertedIsSorted(s[0], Sorted(s[1..], less), less);
    }
  }

  /** A strictly increasing sequence is fixed by its elements alone. */
  lemma {:induction false} SortedIsUnique<T(!new)>(s: seq<T>, t: seq<T>, less: (T, T) -> bool)
    requires StrictOrder(less) && StrictlySorted(s, less) && StrictlySorted(t, less)
    requires forall x :: x in s <==> x in t
    ensures s == t
  {
    assert s != [] ==> s[0] in t;
    assert t != [] ==> t[0] in s;
    if s != [] {
      HeadIsLeast(s, less);
      HeadIsLeast(t, less);
      assert s[0] == t[0];
      TailMembers(s, less);
      TailMembers(t, less);
      SortedIsUnique(s[1..], t[1..], less);
    }
  }

  lemma HeadIsLeast<T(!new)>(s: seq<T>, less: (T, T) -> bool)
    requires StrictlySorted(s, less) && s != []
    ensures forall x :: x in s ==> x == s[0] || less(s[0], x)
  {}

  lemma TailMembers<T(!new)>(s: seq<T>, less: (T, T) -> bool)
    requires StrictOrder(less) && StrictlySorted(s, less) && s != []
    ensures forall x :: x in s[1..] <==> x in s && x != s[0]
  {
    forall x | x in s[1..] ensures x in s && x != s[0] {
      var k :| 0 <= k < |s[1..]| && s[1..][k] == x;
      assert s[k + 1] == x && less(s[0], s[k + 1]);
    }
    forall x | x in s && x != s[0] ensures x in s[1..] {
      var k :| 0 <= k < |s| && s[k] == x;
      assert s[1..][k - 1] == x;
    }
  }
}
