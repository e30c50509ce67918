/** The one form every diagnostic leaves internal/config in (diagorder.go): one entry per complaint,
    in an order that does not depend on which rule ran first. */
module DiagOrder {
  import opened TextOrder
  import opened Sorting

  datatype Diagnostic = Diagnostic(rule: string, file: string, line: int, col: int, path: string, msg: string, hint: string)
  {
    function About(): Complaint {
      Complaint(file, line, col, msg)
    }

    /** Whether this is the better representative of a group about the same complaint. */
    predicate PrefersOver(other: Diagnostic) {
      if path != other.path then Less(path, other.path)
      else if hint == other.hint then Less(rule, other.rule)
      else if other.hint == "" then true
      else if hint == "" then false
      else Less(hint, other.hint)
    }
  }

  datatype Complaint = Complaint(file: string, line: int, col: int, msg: string)

  function CompareText(a: string, b: string): int {
    if Less(a, b) then -1 else if Less(b, a) then 1 else 0
  }

  function CompareNumber(a: int, b: int): int {
    if a < b then -1 else if b < a then 1 else 0
  }

  function CompareByPosition(a: Diagnostic, b: Diagnostic): int {
    if CompareText(a.file, b.file) != 0 then CompareText(a.file, b.file)
    else if CompareNumber(a.line, b.line) != 0 then CompareNumber(a.line, b.line)
    else if CompareNumber(a.col, b.col) != 0 then CompareNumber(a.col, b.col)
    else if CompareText(a.path, b.path) != 0 then CompareText(a.path, b.path)
    else CompareText(a.msg, b.msg)
  }

  predicate Before(a: Diagnostic, b: Diagnostic) {
    CompareByPosition(a, b) < 0
  }

  // ----- the two orders ---------------------------------------------------------------------------

  lemma CompareTextIsOrder(a: string, b: string, c: string)
    ensures CompareText(a, b) == -CompareText(b, a)
    ensures CompareText(a, b) == 0 <==> a == b
    ensures CompareText(a, b) < 0 && CompareText(b, c) < 0 ==> CompareText(a, c) < 0
  {
    LessIsOrder();
  }

  /** The comparison is a strict order, and it ties two diagnostics only where their complaint and
      their locator both agree. */
  lemma BeforeIsStrictOrder()
    ensures StrictOrder(Before)
    ensures forall a: Diagnostic, b: Diagnostic :: a.About() != b.About() ==> Before(a, b) || Before(b, a)
  {
    forall a, b, c ensures Before(a, b) && Before(b, c) ==> Before(a, c) {
      CompareTextIsOrder(a.file, b.file, c.file);
      CompareTextIsOrder(a.path, b.path, c.path);
      CompareTextIsOrder(a.msg, b.msg, c.msg);
      CompareTextIsOrder(b.file, c.file, a.file);
      CompareTextIsOrder(b.path, c.path, a.path);
      CompareTextIsOrder(b.msg, c.msg, a.msg);
    }
    forall a, b ensures CompareByPosition(a, b) == -CompareByPosition(b, a)
                ensures a.About() != b.About() ==> Before(a, b) || Before(b, a) {
      CompareTextIsOrder(a.file, b.file, a.file);
      CompareTextIsOrder(a.path, b.path, a.path);
      CompareTextIsOrder(a.msg, b.msg, a.msg);
    }
    forall a, b | Before(a, b) ensures !Before(b, a) {
      assert CompareByPosition(a, b) == -CompareByPosition(b, a);
    }
  }

  /** Among diagnostics about one complaint the preference is a strict total order. */
  lemma PreferenceIsTotal(a: Diagnostic, b: Diagnostic, c: Diagnostic)
    requires a.About() == b.About() == c.About()
    ensures a.PrefersOver(b) || b.PrefersOver(a) || a == b
    ensures a.PrefersOver(b) ==> !b.PrefersOver(a) && a != b
    ensures a.PrefersOver(b) && b.PrefersOver(c) ==> a.PrefersOver(c)
  {
    LessIsOrder();
  }

  // ----- the normal form --------------------------------------------------------------------------

  predicate BestOf(d: Diagnostic, diags: seq<Diagnostic>) {
    d in diags && forall e :: e in diags && e.About() == d.About() ==> e == d || d.PrefersOver(e)
  }

  predicate Represented(about: Complaint, out: seq<Diagnostic>) {
    exists d :: d in out && d.About() == about
  }

  ghost predicate IsNormalForm(diags: seq<Diagnostic>, out: seq<Diagnostic>) {
    && StrictlySorted(out, Before)
    && (forall d :: d in out ==> BestOf(d, diags))
    && (forall e :: e in diags ==> Represented(e.About(), out))
  }

  /** The best diagnostic seen for each complaint so far. */
  ghost predicate BestSoFar(best: map<Complaint, Diagnostic>, diags: seq<Diagnostic>) {
    && (forall about :: about in best ==> best[about].About() == about && BestOf(best[about], diags))
    && (forall e :: e in diags ==> e.About() in best)
  }

  lemma BestExtended(best: map<Complaint, Diagnostic>, diags: seq<Diagnostic>, d: Diagnostic)
    requires BestSoFar(best, diags)
    ensures var about := d.About();
            BestSoFar(if about !in best || d.PrefersOver(best[about]) then best[about := d] else best, diags + [d])
  {
    var about := d.About();
    var best' := if about !in best || d.PrefersOver(best[about]) then best[about := d] else best;
    forall e | e in diags && e.About() == about ensures about in best {
      assert e.About() in best;
    }
    forall other, e | other in best' && e in diags + [d] && e.About() == other
      ensures e == best'[other] || best'[other].PrefersOver(e)
    {
      if other == about {
        if about in best {
          PreferenceIsTotal(d, best[about], e);
        }
      }
    }
  }

  method Deduped(diags: seq<Diagnostic>) returns (unique: seq<Diagnostic>)
    ensures forall d :: d in unique ==> BestOf(d, diags)
    ensures forall e :: e in diags ==> Represented(e.About(), unique)
    ensures forall i, j :: 0 <= i < j < |unique| ==> unique[i].About() != unique[j].About()
  {
    var best: map<Complaint, Diagnostic> := map[];
    for k := 0 to |diags|
      invariant BestSoFar(best, diags[..k])
    {
      var diag := diags[k];
      var about := diag.About();
      BestExtended(best, diags[..k], diag);
      assert diags[..k + 1] == diags[..k] + [diag];
      if about !in best || diag.PrefersOver(best[about]) {
        best := best[about := diag];
      }
    }
    assert diags[..|diags|] == diags;

    unique := [];
    var left := best.Keys;
    while left != {}
      invariant left <= best.Keys
      invariant forall d :: d in unique ==> BestOf(d, diags) && d.About() in best.Keys - left
      invariant forall about :: about in best && about !in left ==> Represented(about, unique)
      invariant forall i, j :: 0 <= i < j < |unique| ==> unique[i].About() != unique[j].About()
      decreases left
    {
      // A map is ranged over in no particular order.
      var about :| about in left;
      left := left - {about};
      RepresentedIn(best[about], unique);
      unique := unique + [best[about]];
    }
  }

  lemma RepresentedIn(d: Diagnostic, unique: seq<Diagnostic>)
    ensures Represented(d.About(), unique + [d])
    ensures forall about :: Represented(about, unique) ==> Represented(about, unique + [d])
  {
    assert d in unique + [d];
    forall about | Represented(about, unique) ensures Represented(about, unique + [d]) {
      var e :| e in unique && e.About() == about;
      assert e in unique + [d];
    }
  }

  method Normalized(diags: seq<Diagnostic>) returns (out: seq<Diagnostic>)
    ensures IsNormalForm(diags, out)
  {
    if diags == [] {
      return [];
    }
    var unique := Deduped(diags);
    BeforeIsStrictOrder();
    SortedIsSorted(unique, Before);
    MembersOf(Sorted(unique, Before), unique);
    return Sorted(unique, Before);
  }

  /** A normal form holds exactly one entry per complaint. */
  lemma OneEntryPerComplaint(diags: seq<Diagnostic>, out: seq<Diagnostic>)
    requires IsNormalForm(diags, out)
    ensures forall i, j :: 0 <= i < j < |out| ==> out[i].About() != out[j].About()
    ensures forall e :: e in diags ==> Represented(e.About(), out)
  {
    BeforeIsStrictOrder();
    forall i, j | 0 <= i < j < |out| ensures out[i].About() != out[j].About() {
      var a, b := out[i], out[j];
      assert Before(a, b);
      if a.About() == b.About() {
        BestIsUnique(a, b, diags);
      }
    }
  }

  lemma BestIsUnique(a: Diagnostic, b: Diagnostic, diags: seq<Diagnostic>)
    requires BestOf(a, diags) && BestOf(b, diags) && a.About() == b.About()
    ensures a == b
  {
    PreferenceIsTotal(a, b, a);
  }

  /** The form is fixed by which diagnostics there are: neither their order nor their repetition,
      nor the order the map was ranged over, can be seen in it. */
  lemma NormalFormIsUnique(diags: seq<Diagnostic>, permuted: seq<Diagnostic>, out: seq<Diagnostic>, out': seq<Diagnostic>)
    requires forall d :: d in diags <==> d in permuted
    requires IsNormalForm(diags, out) && IsNormalForm(permuted, out')
    ensures out == out'
  {
    BeforeIsStrictOrder();
    forall d | d in out ensures d in out' {
      SurvivesAlso(diags, permuted, out, out', d);
    }
    forall d | d in out' ensures d in out {
      SurvivesAlso(permuted, diags, out', out, d);
    }
    SortedIsUnique(out, out', Before);
  }

  lemma SurvivesAlso(diags: seq<Diagnostic>, permuted: seq<Diagnostic>, out: seq<Diagnostic>, out': seq<Diagnostic>, d: Diagnostic)
    requires forall d :: d in diags <==> d in permuted
    requires IsNormalForm(diags, out) && IsNormalForm(permuted, out') && d in out
    ensures d in out'
  {
    assert BestOf(d, diags);
    var other :| other in out' && other.About() == d.About();
    assert BestOf(other, permuted);
    PreferenceIsTotal(d, other, d);
  }
}
