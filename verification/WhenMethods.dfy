/** The scanner's loops as the source writes them, each proved to compute the function that says
    where its token ends; the outermost one is proved against the automaton. */
module WhenMethods {
  import opened Options
  import opened WhenBytes
  import opened WhenScanner
  import WhenAutomaton
  import WhenRefinement

  method EndOfByteRun(text: string, start: nat, admits: char -> bool) returns (end: nat)
    requires start <= |text|
    ensures end == RunEnd(text, start, admits)
  {
    end := start;
    while end < |text|
      invariant start <= end <= |text| && RunEnd(text, start, admits) == RunEnd(text, end, admits)
    {
      if !admits(text[end]) {
        return;
      }
      end := end + 1;
    }
  }

  method EndOfBlockComment(clause: string, index: nat) returns (end: nat)
    requires PairAt(clause, index, '/', '*')
    ensures end == BlockEnd(clause, index, 0)
  {
    var at, depth := index, 0;
    while at < |clause|
      invariant index <= at <= |clause| && BlockEnd(clause, at, depth) == BlockEnd(clause, index, 0)
      invariant if at == index then depth == 0 else depth >= 1
    {
      if PairAt(clause, at, '/', '*') {
        depth, at := depth + 1, at + 2;
      } else if PairAt(clause, at, '*', '/') {
        depth, at := depth - 1, at + 2;
        if depth == 0 {
          return at;
        }
      } else {
        at := at + 1;
      }
    }
    return |clause|;
  }

  method ContinuationQuote(clause: string, after: nat, quote: char) returns (at: Option<nat>)
    requires after <= |clause|
    ensures at == Continuation(clause, after, quote)
  {
    if quote != STRING_QUOTE {
      return None;
    }
    var gap := EndOfByteRun(clause, after, IsSpace);
    while PairAt(clause, gap, '-', '-')
      invariant after <= gap <= |clause| && RunEnd(clause, gap, IsSpace) == gap
      invariant GapEnd(clause, gap) == GapEnd(clause, after)
      decreases |clause| - gap
    {
      var past := LineCommentEnd(clause, gap);
      gap := EndOfByteRun(clause, past, IsSpace);
    }
    if !HasNewline(clause, after, gap) || gap == |clause| || clause[gap] != quote {
      return None;
    }
    return Some(gap);
  }

  method EndOfQuoted(clause: string, index: nat, quote: char, backslashEscapes: bool) returns (end: nat)
    requires index < |clause|
    ensures end == QuoteEnd(clause, index + 1, quote, backslashEscapes)
  {
    var at := index + 1;
    while at < |clause|
      invariant QuoteEnd(clause, at, quote, backslashEscapes) == QuoteEnd(clause, index + 1, quote, backslashEscapes)
      decreases |clause| - at
    {
      if backslashEscapes && clause[at] == '\\' {
        at := at + 2;
      } else if clause[at] != quote {
        at := at + 1;
      } else if at + 1 < |clause| && clause[at + 1] == quote {
        at := at + 2;
      } else {
        var continuation := ContinuationQuote(clause, at + 1, quote);
        if continuation.None? {
          return at + 1;
        }
        at := continuation.value + 1;
      }
    }
    return |clause|;
  }

  method FirstBareWord(clause: string, word: string) returns (start: Option<nat>)
    ensures start == WhenAutomaton.FirstReference(clause, word)
  {
    WhenRefinement.ScanRefinesAutomaton(clause, word, 0, false);
    var afterFieldSelector := false;
    var index := 0;
    while index < |clause|
      invariant index <= |clause|
      invariant Scan(clause, word, 0, false) == Scan(clause, word, index, afterFieldSelector)
      decreases |clause| - index
    {
      var (end, isWord) := NextToken(clause, index);
      if isWord && !afterFieldSelector && EqualFold(clause[index..end], word) {
        return Some(index);
      }
      if !IsTokenSeparator(clause, index) {
        afterFieldSelector := clause[index] == FIELD_SELECTOR;
      }
      index := end;
    }
    return None;
  }

  datatype BareReference = BareReference(word: string, statement: string, start: nat)

  /** The row variable a WHEN condition may not reference, and the statement the refusal names. */
  function WhenRefusal(operation: string): (string, string) {
    if operation == "insert" then ("OLD", "INSERT")
    else if operation == "delete" then ("NEW", "DELETE")
    else ("", "")
  }

  /** An INSERT condition may not name OLD and a DELETE condition may not name NEW: the answer is
      the automaton's, and an operation refused nothing is told nothing. */
  method ForbiddenWhenReference(operation: string, clause: string) returns (found: Option<BareReference>)
    ensures operation == "insert" ==>
              found == match WhenAutomaton.FirstReference(clause, "OLD")
                       case Some(start) => Some(BareReference("OLD", "INSERT", start))
                       case None => None
    ensures operation == "delete" ==>
              found == match WhenAutomaton.FirstReference(clause, "NEW")
                       case Some(start) => Some(BareReference("NEW", "DELETE", start))
                       case None => None
    ensures operation != "insert" && operation != "delete" ==> found.None?
  {
    var (variable, statement) := WhenRefusal(operation);
    if variable == "" {
      return None;
    }
    var start := FirstBareWord(clause, variable);
    match start
    case None => return None;
    case Some(at) => return Some(BareReference(variable, statement, at));
  }
}
