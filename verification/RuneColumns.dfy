/** Columns counted in runes on lines held in bytes (internal/config linecolumn.go, redact.go). */
module RuneColumns {

  type Bytes = seq<bv8>

  /** A line is its runes, each the bytes it is encoded in. */
  type Runes = seq<Bytes>

  function Joined(runes: Runes): Bytes {
    if runes == [] then [] else runes[0] + Joined(runes[1..])
  }

  lemma {:induction false} JoinedTogether(a: Runes, b: Runes)
    ensures Joined(a + b) == Joined(a) + Joined(b)
  {
    if a == [] {
      assert a + b == b;
    } else {
      JoinedTogether(a[1..], b);
      assert (a + b)[1..] == a[1..] + b;
      assert a[0] + (Joined(a[1..]) + Joined(b)) == (a[0] + Joined(a[1..])) + Joined(b);
    }
  }

  /** How many runes stand before a column; past the last rune, and before the first, all of them. */
  function RunesBefore(line: Runes, column: int): (n: nat)
    ensures n <= |line|
  {
    if 1 <= column <= |line| then column - 1 else |line|
  }

  /** Where a rune column begins in the line's bytes, by one pass over its runes. */
  method ByteOffsetOf(line: Runes, column: int) returns (offset: nat)
    ensures offset == |Joined(line[..RunesBefore(line, column)])|
  {
    var current := 1;
    offset := 0;
    for i := 0 to |line|
      invariant current == i + 1 && offset == |Joined(line[..i])|
      invariant !(1 <= column <= i)
    {
      if current == column {
        return;
      }
      current := current + 1;
      JoinedTogether(line[..i], [line[i]]);
      assert line[..i + 1] == line[..i] + [line[i]];
      assert [line[i]][1..] == [];
      offset := offset + |line[i]|;
    }
  }

  /** The bytes of `count` runes from a column, found by going on from its start. */
  method ByteSpanOf(line: Runes, start: int, count: nat) returns (from: nat, past: nat)
    requires start >= 1
    ensures var n := RunesBefore(line, start); var m := if n + count <= |line| then n + count else |line|;
            from == |Joined(line[..n])| && past == |Joined(line[..m])|
  {
    from := ByteOffsetOf(line, start);
    var n := RunesBefore(line, start);
    var rest := line[n..];
    var width := ByteOffsetOf(rest, count + 1);
    past := from + width;
    var taken := RunesBefore(rest, count + 1);
    JoinedTogether(line[..n], rest[..taken]);
    assert line[..n] + rest[..taken] == line[..n + taken];
  }

  lemma Cut(line: Runes, n: nat)
    requires n <= |line|
    ensures |Joined(line[..n])| <= |Joined(line)|
    ensures Joined(line)[..|Joined(line[..n])|] == Joined(line[..n])
    ensures Joined(line)[|Joined(line[..n])|..] == Joined(line[n..])
  {
    JoinedTogether(line[..n], line[n..]);
    assert line[..n] + line[n..] == line;
  }

  /** Splicing bytes where a column's offsets say is replacing whole runes: no rune is ever cut. */
  method ReplaceRunes(line: Runes, start: int, count: nat, replacement: Runes) returns (bytes: Bytes)
    requires start >= 1
    ensures var n := RunesBefore(line, start); var m := if n + count <= |line| then n + count else |line|;
            bytes == Joined(line[..n] + replacement + line[m..])
  {
    var from, past := ByteSpanOf(line, start, count);
    ghost var n := RunesBefore(line, start);
    ghost var m := if n + count <= |line| then n + count else |line|;
    Cut(line, n);
    Cut(line, m);
    bytes := Joined(line)[..from] + Joined(replacement) + Joined(line)[past..];
    JoinedTogether(line[..n], replacement);
    JoinedTogether(line[..n] + replacement, line[m..]);
  }
}
