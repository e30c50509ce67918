/** What one scalar's text becomes when its references are resolved (internal/config envexpansion.go
    and envreference.go). Text is bytes; the environment answers nothing, an empty value or a value. */
module Interpolation {
  import opened Options

  type EnvLookup = string -> Option<string>

  datatype Fault = EmptyName | BadName | Unterminated | NotSet(name: string)

  // ----- the grammar as it is written --------------------------------------------------------------

  predicate OpensReference(text: string) {
    |text| >= 2 && text[0] == '$' && text[1] == '{'
  }

  predicate OpensEscape(text: string) {
    |text| >= 3 && text[0] == '$' && OpensReference(text[1..])
  }

  /** Where the first closing brace is. */
  function CloseAt(text: string): (at: Option<nat>)
    ensures at.Some? ==> at.value < |text| && text[at.value] == '}' && '}' !in text[..at.value]
    ensures at.None? <==> '}' !in text
  {
    if text == "" then None
    else if text[0] == '}' then Some(0)
    else
      var rest := CloseAt(text[1..]);
      assert text == [text[0]] + text[1..];
      if rest.None? then None
      else
        assert text[..rest.value + 1] == [text[0]] + text[1..][..rest.value];
        Some(rest.value + 1)
  }

  /** strings.Cut(text, ":-"). */
  datatype Cut = Cut(before: string, after: string, found: bool)

  function CutDefault(text: string): (c: Cut)
    ensures |c.after| <= |text| && forall b :: b in c.after ==> b in text
  {
    if |text| < 2 then Cut(text, "", false)
    else if text[0] == ':' && text[1] == '-' then Cut("", text[2..], true)
    else
      var rest := CutDefault(text[1..]);
      Cut([text[0]] + rest.before, rest.after, rest.found)
  }

  predicate NameStart(c: char) {
    'A' <= c <= 'Z' || 'a' <= c <= 'z' || c == '_'
  }

  predicate IsVariableName(name: string) {
    name != "" && NameStart(name[0]) && forall k :: 0 <= k < |name| ==> NameStart(name[k]) || '0' <= name[k] <= '9'
  }

  function NameRefusal(name: string): Option<Fault> {
    if name == "" then Some(EmptyName) else if !IsVariableName(name) then Some(BadName) else None
  }

  datatype Reference = Reference(width: nat, name: string, fallback: string, hasDefault: bool, refusal: Option<Fault>)

  /** The occurrence at the start of the text: it runs to the first closing brace, or to the end. */
  function ReadReference(text: string): (r: Reference)
    requires OpensReference(text)
    ensures 2 <= r.width <= |text|
    ensures r.refusal.None? ==> |r.fallback| < |text| && '}' !in r.fallback && IsVariableName(r.name)
  {
    var inside := text[2..];
    var closed := CloseAt(inside);
    if closed.None? then Reference(|text|, "", "", false, Some(Unterminated))
    else
      var cut := CutDefault(inside[..closed.value]);
      var width := 2 + closed.value + 1;
      if NameRefusal(cut.before).Some? then Reference(width, "", "", false, NameRefusal(cut.before))
      else Reference(width, cut.before, cut.after, cut.found, None)
  }

  // ----- what it becomes ---------------------------------------------------------------------------

  datatype Expansion = Expansion(text: string, faults: seq<Fault>, fromEnvironment: bool) {
    function Then(next: Expansion): Expansion {
      Expansion(text + next.text, faults + next.faults, fromEnvironment || next.fromEnvironment)
    }

    /** A scalar the grammar refused has no text. */
    function Closed(): Expansion {
      if faults != [] then this.(text := "") else this
    }
  }

  const NOTHING := Expansion("", [], false)

  function Literal(text: string): Expansion {
    Expansion(text, [], false)
  }

  /** What the scan builds, before a refusal withholds it. */
  function Scanned(text: string, env: EnvLookup): Expansion
    decreases |text|, 1
  {
    if text == "" then NOTHING
    else if OpensEscape(text) then Literal("${").Then(Scanned(text[3..], env))
    else if !OpensReference(text) then Literal([text[0]]).Then(Scanned(text[1..], env))
    else
      var r := ReadReference(text);
      Contributed(r, |text|, env).Then(Scanned(text[r.width..], env))
  }

  /** One occurrence: environment bytes as they are, a default as the document text it is. */
  function Contributed(r: Reference, ghost bound: nat, env: EnvLookup): Expansion
    requires r.refusal.None? ==> |r.fallback| < bound
    decreases bound, 0
  {
    if r.refusal.Some? then Expansion("", [r.refusal.value], false)
    else
      var value := env(r.name);
      if r.hasDefault && (value.None? || value.value == "") then Scanned(r.fallback, env).Closed()
      else if value.None? then Expansion("", [NotSet(r.name)], false)
      else Expansion(value.value, [], true)
  }

  lemma MovedOn(whole: Expansion, built: Expansion, rest: Expansion, piece: Expansion, more: Expansion, next: Expansion)
    requires whole == built.Then(rest) && rest == piece.Then(next) && more == built.Then(piece)
    ensures whole == more.Then(next)
  {}

  lemma ThenNothing(built: Expansion)
    ensures built.Then(NOTHING) == built
  {}

  lemma NothingLeft(text: string, env: EnvLookup, at: nat)
    requires at == |text|
    ensures Scanned(text[at..], env) == NOTHING
  {
    assert text[at..] == "";
  }

  lemma WholeSlice(text: string)
    ensures text[0..] == text
  {}

  lemma SliceOn(text: string, at: nat, width: nat, past: nat)
    requires at + width == past <= |text|
    ensures text[at..][width..] == text[past..]
  {}

  /** What is built is what the text up to `at` expands to. */
  predicate IsBuilt(text: string, env: EnvLookup, at: nat, built: Expansion)
    requires at <= |text|
  {
    Scanned(text, env) == built.Then(Scanned(text[at..], env))
  }

  lemma BuiltOn(text: string, env: EnvLookup, at: nat, built: Expansion, piece: Expansion, width: nat, more: Expansion, past: nat)
    requires at + width == past <= |text| && IsBuilt(text, env, at, built) && more == built.Then(piece)
    requires Scanned(text[at..], env) == piece.Then(Scanned(text[at..][width..], env))
    ensures IsBuilt(text, env, past, more)
  {
    SliceOn(text, at, width, past);
    var next := Scanned(text[past..], env);
    assert Scanned(text[at..][width..], env) == next;
    MovedOn(Scanned(text, env), built, Scanned(text[at..], env), piece, more, next);
  }

  lemma AllIsBuilt(text: string, env: EnvLookup, built: Expansion)
    requires IsBuilt(text, env, |text|, built)
    ensures built == Scanned(text, env)
  {
    NothingLeft(text, env, |text|);
    ThenNothing(built);
  }

  method Expand(text: string, env: EnvLookup) returns (result: Expansion)
    ensures result == Scanned(text, env).Closed()
    decreases |text|, 1
  {
    var built, at := NOTHING, 0;
    WholeSlice(text);
    while at < |text|
      invariant at <= |text| && IsBuilt(text, env, at, built)
    {
      built, at := Turn(text, env, at, built);
    }
    AllIsBuilt(text, env, built);
    return built.Closed();
  }

  /** One turn of the loop: what the rest begins with is read and appended. */
  method Turn(text: string, env: EnvLookup, at: nat, built: Expansion) returns (more: Expansion, past: nat)
    requires at < |text| && IsBuilt(text, env, at, built)
    ensures at < past <= |text| && IsBuilt(text, env, past, more)
    decreases |text|, 0, 2
  {
    var piece, width := Next(text[at..], |text|, env);
    more, past := built.Then(piece), at + width;
    BuiltOn(text, env, at, built, piece, width, more, past);
  }


  /** The literal, the escape or the occurrence at the start of the text. */
  method Next(rest: string, ghost bound: nat, env: EnvLookup) returns (piece: Expansion, width: nat)
    requires rest != "" && |rest| <= bound
    ensures 1 <= width <= |rest| && Scanned(rest, env) == piece.Then(Scanned(rest[width..], env))
    decreases bound, 0, 1
  {
    if OpensEscape(rest) {
      return Literal("${"), 3;
    }
    if !OpensReference(rest) {
      return Literal([rest[0]]), 1;
    }
    var found := ReadReference(rest);
    piece := Resolve(found, bound, env);
    return piece, found.width;
  }

  method Resolve(r: Reference, ghost bound: nat, env: EnvLookup) returns (result: Expansion)
    requires r.refusal.None? ==> |r.fallback| < bound
    ensures forall b: nat :: (r.refusal.None? ==> |r.fallback| < b) ==> result == Contributed(r, b, env)
    decreases bound, 0, 0
  {
    if r.refusal.Some? {
      return Expansion("", [r.refusal.value], false);
    }
    var value := env(r.name);
    if r.hasDefault && (value.None? || value.value == "") {
      result := Expand(r.fallback, env);
    } else if value.None? {
      result := Expansion("", [NotSet(r.name)], false);
    } else {
      result := Expansion(value.value, [], true);
    }
  }

  // ----- the template ------------------------------------------------------------------------------

  datatype Status = Unset | Empty | NonEmpty

  function StatusOf(env: EnvLookup, name: string): Status {
    match env(name) case None => Unset case Some(value) => if value == "" then Empty else NonEmpty
  }

  datatype Piece = Bytes(text: string) | Hole(name: string)

  /** What the text fixes once each variable's status is known: the literal bytes, the holes the
      environment fills, and the faults. */
  datatype Template = Template(pieces: seq<Piece>, faults: seq<Fault>) {
    function Then(next: Template): Template {
      Template(pieces + next.pieces, faults + next.faults)
    }

    function Closed(): Template {
      if faults != [] then this.(pieces := []) else this
    }
  }

  function TemplateOf(text: string, status: string -> Status): Template
    decreases |text|, 1
  {
    if text == "" then Template([], [])
    else if OpensEscape(text) then Template([Bytes("${")], []).Then(TemplateOf(text[3..], status))
    else if !OpensReference(text) then Template([Bytes([text[0]])], []).Then(TemplateOf(text[1..], status))
    else
      var r := ReadReference(text);
      TemplateOfReference(r, |text|, status).Then(TemplateOf(text[r.width..], status))
  }

  function TemplateOfReference(r: Reference, ghost bound: nat, status: string -> Status): Template
    requires r.refusal.None? ==> |r.fallback| < bound
    decreases bound, 0
  {
    if r.refusal.Some? then Template([], [r.refusal.value])
    else if r.hasDefault && status(r.name) != NonEmpty then TemplateOf(r.fallback, status).Closed()
    else if status(r.name) == Unset then Template([], [NotSet(r.name)])
    else Template([Hole(r.name)], [])
  }

  function Value(env: EnvLookup, name: string): string {
    match env(name) case None => "" case Some(value) => value
  }

  /** The template with each hole replaced by the environment's bytes, which nothing reads again. */
  function Filled(pieces: seq<Piece>, env: EnvLookup): string {
    if pieces == [] then ""
    else (match pieces[0] case Bytes(text) => text case Hole(name) => Value(env, name)) + Filled(pieces[1..], env)
  }

  predicate HasHole(pieces: seq<Piece>) {
    exists k :: 0 <= k < |pieces| && pieces[k].Hole?
  }

  lemma {:induction false} FilledTogether(a: seq<Piece>, b: seq<Piece>, env: EnvLookup)
    ensures Filled(a + b, env) == Filled(a, env) + Filled(b, env)
    ensures HasHole(a + b) <==> HasHole(a) || HasHole(b)
    decreases |a|
  {
    HolesSplit(a, b);
    if a == [] {
      assert a + b == b;
    } else {
      var rest := a[1..];
      assert a + b == [a[0]] + (rest + b);
      FilledFirst(a[0], rest + b, env);
      FilledTogether(rest, b, env);
    }
  }

  lemma FilledFirst(piece: Piece, rest: seq<Piece>, env: EnvLookup)
    ensures Filled([piece] + rest, env) == (match piece case Bytes(text) => text case Hole(name) => Value(env, name)) + Filled(rest, env)
  {
    assert ([piece] + rest)[1..] == rest;
  }

  lemma HolesSplit(a: seq<Piece>, b: seq<Piece>)
    ensures HasHole(a + b) <==> HasHole(a) || HasHole(b)
  {
    if HasHole(a) {
      var k :| 0 <= k < |a| && a[k].Hole?;
      assert (a + b)[k].Hole?;
    }
    if HasHole(b) {
      var k :| 0 <= k < |b| && b[k].Hole?;
      assert (a + b)[|a| + k].Hole?;
    }
  }

  predicate Fits(e: Expansion, t: Template, env: EnvLookup) {
    e.text == Filled(t.pieces, env) && e.faults == t.faults && e.fromEnvironment == HasHole(t.pieces)
  }

  lemma FitsTogether(e: Expansion, f: Expansion, t: Template, u: Template, env: EnvLookup)
    requires Fits(e, t, env) && Fits(f, u, env)
    ensures Fits(e.Then(f), t.Then(u), env)
  {
    FilledTogether(t.pieces, u.pieces, env);
  }

  lemma FitsLiteral(text: string, env: EnvLookup)
    ensures Fits(Literal(text), Template([Bytes(text)], []), env)
  {
    assert [Bytes(text)][1..] == [];
  }

  /** Interpolation opacity: the result is a template fixed by the text and by each variable's status,
      filled with environment bytes that are never rescanned; the faults are the template's. */
  lemma {:induction false} ExpansionFillsATemplate(text: string, env: EnvLookup)
    ensures Fits(Scanned(text, env), TemplateOf(text, name => StatusOf(env, name)), env)
    decreases |text|, 1
  {
    var status := name => StatusOf(env, name);
    if text == "" {
    } else if OpensEscape(text) {
      ExpansionFillsATemplate(text[3..], env);
      FitsLiteral("${", env);
      FitsTogether(Literal("${"), Scanned(text[3..], env), Template([Bytes("${")], []), TemplateOf(text[3..], status), env);
    } else if !OpensReference(text) {
      ExpansionFillsATemplate(text[1..], env);
      FitsLiteral([text[0]], env);
      FitsTogether(Literal([text[0]]), Scanned(text[1..], env), Template([Bytes([text[0]])], []), TemplateOf(text[1..], status), env);
    } else {
      var r := ReadReference(text);
      ReferenceFillsATemplate(r, |text|, env);
      ExpansionFillsATemplate(text[r.width..], env);
      FitsTogether(Contributed(r, |text|, env), Scanned(text[r.width..], env),
                   TemplateOfReference(r, |text|, status), TemplateOf(text[r.width..], status), env);
    }
  }

  lemma {:induction false} ReferenceFillsATemplate(r: Reference, bound: nat, env: EnvLookup)
    requires r.refusal.None? ==> |r.fallback| < bound && '}' !in r.fallback
    ensures Fits(Contributed(r, bound, env), TemplateOfReference(r, bound, name => StatusOf(env, name)), env)
    decreases bound, 0
  {
    var status := name => StatusOf(env, name);
    if r.refusal.None? {
      if r.hasDefault && status(r.name) != NonEmpty {
        ExpansionFillsATemplate(r.fallback, env);
        DefaultHasNoHole(r.fallback, status);
        ClosedFits(Scanned(r.fallback, env), TemplateOf(r.fallback, status), env);
      } else if status(r.name) != Unset {
        assert [Hole(r.name)][1..] == [] && [Hole(r.name)][0].Hole?;
        assert Filled([Hole(r.name)], env) == Value(env, r.name) + "";
      }
    }
  }

  lemma ClosedFits(e: Expansion, t: Template, env: EnvLookup)
    requires Fits(e, t, env) && !HasHole(t.pieces)
    ensures Fits(e.Closed(), t.Closed(), env)
  {}

  /** A default never contributes environment bytes: it holds no closing brace, so whatever reference
      it opens is refused before the environment is asked. */
  lemma {:induction false} DefaultHasNoHole(text: string, status: string -> Status)
    requires '}' !in text
    ensures !HasHole(TemplateOf(text, status).pieces)
    decreases |text|
  {
    if text == "" {
    } else if OpensEscape(text) {
      DefaultHasNoHole(text[3..], status);
      HolesSplit([Bytes("${")], TemplateOf(text[3..], status).pieces);
    } else if !OpensReference(text) {
      DefaultHasNoHole(text[1..], status);
      HolesSplit([Bytes([text[0]])], TemplateOf(text[1..], status).pieces);
    } else {
      assert '}' !in text[2..];
      assert ReadReference(text).refusal == Some(Unterminated);
      assert text[|text|..] == "";
    }
  }

  /** Two environments in which every variable has the same status expand a text over one template:
      only the holes differ, and the verdict does not. */
  lemma StatusDecidesTheTemplate(text: string, env: EnvLookup, other: EnvLookup)
    requires forall name :: StatusOf(env, name) == StatusOf(other, name)
    ensures exists t: Template ::
              && Scanned(text, env).text == Filled(t.pieces, env) && Scanned(text, other).text == Filled(t.pieces, other)
              && Scanned(text, env).faults == t.faults == Scanned(text, other).faults
              && Scanned(text, env).fromEnvironment == HasHole(t.pieces) == Scanned(text, other).fromEnvironment
  {
    ExpansionFillsATemplate(text, env);
    ExpansionFillsATemplate(text, other);
    SameTemplate(text, name => StatusOf(env, name), name => StatusOf(other, name));
    var t := TemplateOf(text, name => StatusOf(env, name));
    assert Fits(Scanned(text, env), t, env) && Fits(Scanned(text, other), t, other);
  }

  lemma {:induction false} SameTemplate(text: string, status: string -> Status, other: string -> Status)
    requires forall name :: status(name) == other(name)
    ensures TemplateOf(text, status) == TemplateOf(text, other)
    decreases |text|
  {
    if text == "" {
    } else if OpensEscape(text) {
      SameTemplate(text[3..], status, other);
    } else if !OpensReference(text) {
      SameTemplate(text[1..], status, other);
    } else {
      var r := ReadReference(text);
      if r.refusal.None? {
        SameTemplate(r.fallback, status, other);
      }
      SameTemplate(text[r.width..], status, other);
    }
  }

  // ----- the escape --------------------------------------------------------------------------------

  /** Every `${` written `$${`. */
  function Escaped(text: string): string {
    if text == "" then ""
    else if OpensReference(text) then "$${" + Escaped(text[2..])
    else [text[0]] + Escaped(text[1..])
  }

  /** Escaping opens no reference of its own, nor a brace where there was none. */
  lemma EscapedOpensNothing(text: string)
    ensures !OpensReference(Escaped(text))
    ensures Escaped(text) != "" && Escaped(text)[0] == '{' ==> text != "" && text[0] == '{'
    ensures text != "" && !OpensReference(text) ==> !OpensEscape([text[0]] + Escaped(text[1..]))
  {
    if text != "" && !OpensReference(text) {
      EscapedStarts(text[1..]);
    }
    EscapedStarts(text);
  }

  lemma {:induction false} EscapedStarts(text: string)
    ensures Escaped(text) != "" && Escaped(text)[0] == '{' ==> text != "" && text[0] == '{'
    ensures !OpensReference(Escaped(text))
    decreases |text|
  {
    if text != "" {
      if OpensReference(text) {
        assert Escaped(text)[1] == '$';
      } else {
        EscapedStarts(text[1..]);
        assert Escaped(text)[1..] == Escaped(text[1..]);
      }
    }
  }

  /** Round trip: expanding a text whose every `${` was written `$${` gives that text back, with no
      fault and no byte of the environment. */
  lemma {:induction false} EscapeRoundTrip(text: string, env: EnvLookup)
    ensures Scanned(Escaped(text), env).Closed() == Literal(text)
    decreases |text|
  {
    var escaped := Escaped(text);
    if text != "" {
      if OpensReference(text) {
        EscapeRoundTrip(text[2..], env);
        assert escaped[3..] == Escaped(text[2..]);
        assert OpensReference(escaped[1..]);
        assert text == "${" + text[2..];
      } else {
        EscapeRoundTrip(text[1..], env);
        EscapedOpensNothing(text);
        assert escaped[1..] == Escaped(text[1..]);
        assert text == [text[0]] + text[1..];
      }
    }
  }
}
