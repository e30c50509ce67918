/** The names and comments that tie a catalog object to its pair: internal/source marker.go and
    generate.go, internal/schema objectname.go, internal/reconcile markerparse.go and ownership.go. */
module ReconcileNames {
  import opened Options

  datatype Pair = Pair(listener: string, operation: string)

  // ----- the marker grammar ------------------------------------------------------------------------

  const MARKER_PREFIX := "pg_noty:v1:"

  datatype CatalogMarker = CatalogMarker(instance: string, listener: string, operation: string)

  predicate ColonFree(field: string) {
    ':' !in field
  }

  /** What is between two colons of a marker. */
  predicate MarkerField(field: string) {
    field != "" && ColonFree(field)
  }

  function Marker(instance: string, pair: Pair): string {
    MARKER_PREFIX + instance + ":" + pair.listener + ":" + pair.operation
  }

  /** strings.Split(text, ":"). */
  function Fields(text: string): (fields: seq<string>)
    ensures fields != []
    ensures forall i :: 0 <= i < |fields| ==> ColonFree(fields[i])
  {
    if text == "" then [""]
    else
      var rest := Fields(text[1..]);
      assert ColonFree(rest[0]);
      if text[0] == ':' then [""] + rest else [[text[0]] + rest[0]] + rest[1..]
  }

  function Joined(fields: seq<string>): string {
    if fields == [] then "" else if |fields| == 1 then fields[0] else fields[0] + ":" + Joined(fields[1..])
  }

  function ParseCatalogMarker(found: Option<string>): Option<CatalogMarker> {
    if found.None? || !(MARKER_PREFIX <= found.value) then None
    else
      var fields := Fields(found.value[|MARKER_PREFIX|..]);
      if |fields| != 3 || "" in fields then None
      else Some(CatalogMarker(fields[0], fields[1], fields[2]))
  }

  lemma {:induction false} SplitInvertsJoin(field: string, rest: string)
    requires ColonFree(field)
    ensures Fields(field) == [field]
    ensures Fields(field + ":" + rest) == [field] + Fields(rest)
  {
    if field == "" {
      assert (field + ":" + rest)[1..] == rest;
    } else {
      SplitInvertsJoin(field[1..], rest);
      assert (field + ":" + rest)[1..] == field[1..] + ":" + rest;
      assert field == [field[0]] + field[1..];
    }
  }

  lemma {:induction false} JoinInvertsSplit(text: string)
    ensures Joined(Fields(text)) == text
  {
    if text != "" {
      JoinInvertsSplit(text[1..]);
      var rest := Fields(text[1..]);
      assert text == [text[0]] + text[1..];
      if text[0] != ':' && |rest| > 1 {
        assert ([[text[0]] + rest[0]] + rest[1..])[1..] == rest[1..];
        assert [text[0]] + (rest[0] + ":" + Joined(rest[1..])) == [text[0]] + rest[0] + ":" + Joined(rest[1..]);
      }
    }
  }

  lemma SplitOfThree(a: string, b: string, c: string)
    requires ColonFree(a) && ColonFree(b) && ColonFree(c)
    ensures Fields(a + ":" + (b + ":" + c)) == [a, b, c]
  {
    SplitInvertsJoin(a, b + ":" + c);
    SplitInvertsJoin(b, c);
    SplitInvertsJoin(c, "");
  }

  lemma JoinOfThree(fields: seq<string>)
    requires |fields| == 3
    ensures Joined(fields) == fields[0] + ":" + (fields[1] + ":" + fields[2])
  {
    var two := fields[1..];
    assert two[1..] == [fields[2]];
    assert Joined(two) == fields[1] + ":" + Joined(two[1..]);
  }

  lemma MarkerIs(instance: string, pair: Pair)
    ensures Marker(instance, pair) == MARKER_PREFIX + (instance + ":" + (pair.listener + ":" + pair.operation))
    ensures MARKER_PREFIX <= Marker(instance, pair)
    ensures Marker(instance, pair)[|MARKER_PREFIX|..] == instance + ":" + (pair.listener + ":" + pair.operation)
  {}

  /** What the writer prints for names without colons, the parser reads back. */
  lemma MarkerRoundTrip(instance: string, pair: Pair)
    requires MarkerField(instance) && MarkerField(pair.listener) && MarkerField(pair.operation)
    ensures ParseCatalogMarker(Some(Marker(instance, pair))) == Some(CatalogMarker(instance, pair.listener, pair.operation))
  {
    MarkerIs(instance, pair);
    SplitOfThree(instance, pair.listener, pair.operation);
  }

  /** The parser reads nothing but what the writer prints: a comment it accepts is exactly the marker
      of the pair it reads. */
  lemma ParsedIsExact(found: Option<string>)
    requires ParseCatalogMarker(found).Some?
    ensures var m := ParseCatalogMarker(found).value;
            && MarkerField(m.instance) && MarkerField(m.listener) && MarkerField(m.operation)
            && found == Some(Marker(m.instance, Pair(m.listener, m.operation)))
  {
    var rest := found.value[|MARKER_PREFIX|..];
    var fields := Fields(rest);
    JoinInvertsSplit(rest);
    JoinOfThree(fields);
    MarkerIs(fields[0], Pair(fields[1], fields[2]));
    assert found.value == MARKER_PREFIX + rest;
  }

  // ----- ownership ---------------------------------------------------------------------------------

  datatype Disagreement = MarkerAbsent | ForeignInstance | AnotherPair | NoRegistryRow

  datatype Ownership = Owned | NotOwned(why: Disagreement)

  /** The three-part proof: a registry row, a readable marker, and agreement of instance and pair. */
  function DetermineOwnership(recorded: bool, pair: Pair, marker: Option<string>, instance: string): Ownership {
    var parsed := ParseCatalogMarker(marker);
    if !recorded then NotOwned(NoRegistryRow)
    else if parsed.None? then NotOwned(MarkerAbsent)
    else if parsed.value.instance != instance then NotOwned(ForeignInstance)
    else if parsed.value.listener != pair.listener || parsed.value.operation != pair.operation then NotOwned(AnotherPair)
    else Owned
  }

  /** An object is owned exactly when the pair has a registry row and the object's comment is, to
      the byte, the marker this instance writes for that pair. */
  lemma OwnedIff(recorded: bool, pair: Pair, marker: Option<string>, instance: string)
    requires MarkerField(instance) && MarkerField(pair.listener) && MarkerField(pair.operation)
    ensures DetermineOwnership(recorded, pair, marker, instance).Owned? <==>
              recorded && marker == Some(Marker(instance, pair))
  {
    MarkerRoundTrip(instance, pair);
    if ParseCatalogMarker(marker).Some? {
      ParsedIsExact(marker);
    }
  }

  // ----- object names ------------------------------------------------------------------------------

  const MAX_IDENTIFIER_BYTES := 63

  predicate LowerOrDigit(c: char) {
    'a' <= c <= 'z' || '0' <= c <= '9' || c == '_'
  }

  /** The name rule a listener and an instance share: one lower-case letter and up to forty more of
      letters, digits and underscores. */
  predicate LegalName(name: string) {
    1 <= |name| <= 41 && 'a' <= name[0] <= 'z' && forall k :: 0 <= k < |name| ==> LowerOrDigit(name[k])
  }

  predicate KnownOperation(operation: string) {
    operation == "insert" || operation == "update" || operation == "delete"
  }

  predicate LegalPair(pair: Pair) {
    LegalName(pair.listener) && KnownOperation(pair.operation)
  }

  function Abbreviation(operation: string): string
    requires KnownOperation(operation)
  {
    if operation == "insert" then "ins" else if operation == "update" then "upd" else "del"
  }

  /** What ObjectName answers where the name fits; `hashed` is what it answers where it has to cut. */
  function ObjectName(name: string, suffix: string, hashed: string -> string): string {
    var full := name + "_" + suffix;
    if |full| <= MAX_IDENTIFIER_BYTES then full else hashed(full)
  }

  function NameOf(pair: Pair, hashed: string -> string): string
    requires KnownOperation(pair.operation)
  {
    ObjectName("pg_noty_" + pair.listener, Abbreviation(pair.operation), hashed)
  }

  /** Trigger and function names are never cut, so no two legal pairs share one. */
  lemma NamesAreInjective(p: Pair, q: Pair, hashed: string -> string)
    requires LegalPair(p) && LegalPair(q) && NameOf(p, hashed) == NameOf(q, hashed)
    ensures p == q
  {
    var n, m := "pg_noty_" + p.listener + "_", "pg_noty_" + q.listener + "_";
    assert NameOf(p, hashed) == n + Abbreviation(p.operation);
    assert NameOf(q, hashed) == m + Abbreviation(q.operation);
    assert |n| == |m|;
    assert n == NameOf(p, hashed)[..|n|] == m;
    assert Abbreviation(p.operation) == NameOf(p, hashed)[|n|..] == Abbreviation(q.operation);
    assert p.listener == n[8..8 + |p.listener|] && q.listener == m[8..8 + |q.listener|];
  }

  lemma LegalNameIsMarkerField(name: string)
    requires LegalName(name)
    ensures MarkerField(name)
  {}
}
