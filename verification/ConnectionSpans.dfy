/** Where the passwords of a connection string sit (internal/config connstring.go, libpqgrammar.go), and
    the text without them (redact.go). */
module ConnectionSpans {
  import opened Options
  import opened TextAt
  import opened TextEdits
  import opened Sorting
  import Interpolation

  datatype Span = Span(from: nat, to: nat)

  // ----- libpq's keyword/value grammar -------------------------------------------------------------

  predicate IsSeparator(c: char) {
    var n := c as int;
    n == 0x20 || 9 <= n <= 13
  }

  /** Past the separators that stand at `at`. */
  function PastSeparators(text: string, at: nat): (past: nat)
    requires at <= |text|
    ensures at <= past <= |text| && (forall k :: at <= k < past ==> IsSeparator(text[k]))
    ensures past < |text| ==> !IsSeparator(text[past])
    decreases |text| - at
  {
    if at < |text| && IsSeparator(text[at]) then PastSeparators(text, at + 1) else at
  }

  /** Where the value of a pair begins, when an `=` follows its keyword. */
  function ValueAfter(text: string, afterKeyword: nat): (value: Option<nat>)
    requires afterKeyword <= |text|
    ensures value.Some? ==> afterKeyword < value.value <= |text|
    ensures value.Some? ==> forall k :: afterKeyword <= k < value.value ==> IsSeparator(text[k]) || text[k] == '='
  {
    var equals := PastSeparators(text, afterKeyword);
    if equals < |text| && text[equals] == '=' then Some(PastSeparators(text, equals + 1)) else None
  }

  ghost predicate NotBefore(text: string, at: nat, past: nat, token: string) {
    forall q: nat :: at <= q < past ==> !HasAt(text, q, token)
  }

  /** A token that begins with a character it does not repeat, so that two occurrences never overlap. */
  predicate Distinctive(token: string) {
    token != "" && forall k :: 0 < k < |token| ==> token[k] != token[0]
  }

  lemma TokensDoNotOverlap(text: string, token: string, p: nat, q: nat)
    requires Distinctive(token) && HasAt(text, p, token) && HasAt(text, q, token) && p < q
    ensures p + |token| <= q
  {
    assert text[q] == token[0];
  }

  predicate IsKeyword(keyword: string) {
    Distinctive(keyword) && !IsSeparator(keyword[0]) && keyword[0] != '='
  }

  /** Whether the text at `p` is the keyword used as one, with its value at `value`. */
  predicate AssignedAt(text: string, keyword: string, p: nat, value: nat) {
    HasAt(text, p, keyword) && ValueAfter(text, p + |keyword|) == Some(value)
  }

  /** No occurrence of the keyword from `at` up to `p` has a value. */
  ghost predicate NoneAssigned(text: string, keyword: string, at: nat, p: nat) {
    forall q: nat, v :: at <= q < p ==> !AssignedAt(text, keyword, q, v)
  }

  lemma NoneAssignedWithin(text: string, keyword: string, p: nat)
    requires Distinctive(keyword) && HasAt(text, p, keyword) && ValueAfter(text, p + |keyword|).None?
    ensures NoneAssigned(text, keyword, p, p + |keyword|)
  {
    forall q: nat, v | p <= q < p + |keyword| ensures !AssignedAt(text, keyword, q, v) {
      if HasAt(text, q, keyword) && p < q {
        TokensDoNotOverlap(text, keyword, p, q);
      }
    }
  }

  /** The value of the first pair the keyword names at or after `at`. */
  function FirstValue(text: string, keyword: string, at: nat): (value: Option<nat>)
    requires at <= |text| && Distinctive(keyword)
    ensures value.Some? ==> value.value <= |text|
    decreases |text| - at
  {
    var found := Find(text, at, keyword);
    if found.None? then None
    else
      var afterKeyword := found.value + |keyword|;
      var value := ValueAfter(text, afterKeyword);
      if value.Some? then value else FirstValue(text, keyword, afterKeyword)
  }

  /** Up to the next occurrence of the keyword none is assigned, there being none. */
  lemma NoneAssignedBefore(text: string, keyword: string, at: nat)
    ensures var found := Find(text, at, keyword);
            NoneAssigned(text, keyword, at, if found.Some? then found.value else |text| + 1)
  {}

  lemma NoneAssignedTogether(text: string, keyword: string, at: nat, mid: nat, p: nat)
    requires NoneAssigned(text, keyword, at, mid) && NoneAssigned(text, keyword, mid, p)
    ensures NoneAssigned(text, keyword, at, p)
  {
    forall q: nat, v | at <= q < p ensures !AssignedAt(text, keyword, q, v) {
      assert q < mid || mid <= q;
    }
  }

  /** An occurrence without a value: none is assigned up to its end. */
  lemma NoneAssignedThrough(text: string, keyword: string, at: nat)
    requires Distinctive(keyword) && Find(text, at, keyword).Some?
    requires ValueAfter(text, Find(text, at, keyword).value + |keyword|).None?
    ensures NoneAssigned(text, keyword, at, Find(text, at, keyword).value + |keyword|)
  {
    var found := Find(text, at, keyword).value;
    NoneAssignedBefore(text, keyword, at);
    NoneAssignedWithin(text, keyword, found);
    NoneAssignedTogether(text, keyword, at, found, found + |keyword|);
  }

  /** Stepping from occurrence to occurrence passes over none that is assigned. */
  lemma {:induction false} FirstValueIsFirst(text: string, keyword: string, at: nat) returns (p: nat)
    requires at <= |text| && Distinctive(keyword)
    ensures var value := FirstValue(text, keyword, at);
            && NoneAssigned(text, keyword, at, p)
            && if value.Some? then at <= p && AssignedAt(text, keyword, p, value.value) else p == |text| + 1
    decreases |text| - at
  {
    var found := Find(text, at, keyword);
    if found.Some? && ValueAfter(text, found.value + |keyword|).None? {
      NoneAssignedThrough(text, keyword, at);
      p := FirstValueIsFirst(text, keyword, found.value + |keyword|);
      NoneAssignedTogether(text, keyword, at, found.value + |keyword|, p);
    } else {
      NoneAssignedBefore(text, keyword, at);
      p := if found.Some? then found.value else |text| + 1;
    }
  }

  method ValueAfterKeyword(text: string, keyword: string) returns (value: Option<nat>)
    requires Distinctive(keyword)
    ensures value == FirstValue(text, keyword, 0)
  {
    var at := 0;
    while true
      invariant at <= |text| && FirstValue(text, keyword, at) == FirstValue(text, keyword, 0)
      decreases |text| - at
    {
      var found := Find(text, at, keyword);
      if found.None? {
        return None;
      }
      var afterKeyword := found.value + |keyword|;
      value := ValueAfter(text, afterKeyword);
      if value.Some? {
        return;
      }
      at := afterKeyword;
    }
  }

  /** No pair's value starts before the first one's: the span from there to the end of the text covers the
      value of every pair the keyword names. */
  lemma EveryValueIsReached(text: string, keyword: string, p: nat, value: nat)
    requires IsKeyword(keyword) && AssignedAt(text, keyword, p, value)
    ensures FirstValue(text, keyword, 0).Some? && FirstValue(text, keyword, 0).value <= value
  {
    var first := FirstValue(text, keyword, 0);
    var q := FirstValueIsFirst(text, keyword, 0);
    if q < p {
      TokensDoNotOverlap(text, keyword, q, p);
      assert text[p] == keyword[0];
    }
  }

  // ----- the userinfo of a URI ---------------------------------------------------------------------

  const SCHEME_SEPARATOR := "://"

  function LastIndex(text: string, c: char): (at: Option<nat>)
    ensures at.Some? ==> at.value < |text| && text[at.value] == c && forall k :: at.value < k < |text| ==> text[k] != c
    ensures at.None? ==> forall k :: 0 <= k < |text| ==> text[k] != c
  {
    if text == "" then None else if text[|text| - 1] == c then Some(|text| - 1) else LastIndex(text[..|text| - 1], c)
  }

  function UriPasswordSpan(text: string): (s: Option<Span>)
    ensures s.Some? ==> s.value.from <= s.value.to < |text|
  {
    var scheme := Find(text, 0, SCHEME_SEPARATOR);
    if scheme.None? then None
    else
      var authority, host := scheme.value + |SCHEME_SEPARATOR|, LastIndex(text, '@');
      if host.None? || host.value < authority then None
      else
        var colon := Find(text[..host.value], authority, ":");
        if colon.None? then None else Some(Span(colon.value + 1, host.value))
  }

  /** The span is exactly the password, whatever characters the password holds. */
  lemma UriPasswordIsFound(scheme: string, user: string, password: string, host: string)
    requires NotBefore(scheme, 0, |scheme|, SCHEME_SEPARATOR)
    requires ':' !in user && '@' !in host
    ensures var from := |scheme| + 3 + |user| + 1;
            UriPasswordSpan(scheme + SCHEME_SEPARATOR + user + ":" + password + "@" + host)
            == Some(Span(from, from + |password|))
  {
    var text := scheme + SCHEME_SEPARATOR + user + ":" + password + "@" + host;
    FirstBehind(text, scheme, SCHEME_SEPARATOR);
    var authority := |scheme| + 3;
    var at := authority + |user| + 1 + |password|;
    assert text[at] == '@' && forall k :: at < k < |text| ==> text[k] == host[k - at - 1];
    assert LastIndex(text, '@') == Some(at);
    assert text[..at] == scheme + SCHEME_SEPARATOR + user + ":" + password;
    ColonEndsTheUser(scheme + SCHEME_SEPARATOR, user, password);
  }

  lemma ColonEndsTheUser(before: string, user: string, password: string)
    requires ':' !in user
    ensures Find(before + user + ":" + password, |before|, ":") == Some(|before| + |user|)
  {
    var text := before + user + ":" + password;
    forall q: nat | |before| <= q < |before| + |user| ensures !HasAt(text, q, ":") {
      assert text[q] == user[q - |before|];
    }
    assert HasAt(text, |before| + |user|, ":");
  }

  lemma FirstBehind(text: string, before: string, token: string)
    requires Distinctive(token) && before <= text && HasAt(text, |before|, token)
    requires NotBefore(before, 0, |before|, token)
    ensures Find(text, 0, token) == Some(|before|)
  {
    forall q: nat | q < |before| && HasAt(text, q, token) ensures HasAt(before, q, token) {
      TokensDoNotOverlap(text, token, q, |before|);
    }
  }
}
