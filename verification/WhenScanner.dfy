/** The jump scanner of a WHEN condition (internal/config/whenlex.go): functions say where each
    token ends, and the methods are the source's loops, proved to compute them. */
module WhenScanner {
  import opened Options
  import opened TextAt
  import opened WhenBytes

  // ----- where a token ends ---------------------------------------------------------------------

  /** The first index at or after `start` that `admits` refuses, or the end of the text. */
  function RunEnd(text: string, start: nat, admits: char -> bool): (end: nat)
    requires start <= |text|
    ensures start <= end <= |text|
    ensures forall k :: start <= k < end ==> admits(text[k])
    ensures end < |text| ==> !admits(text[end])
    decreases |text| - start
  {
    if start < |text| && admits(text[start]) then RunEnd(text, start + 1, admits) else start
  }

  function LineCommentEnd(clause: string, index: nat): (end: nat)
    requires index <= |clause|
    ensures index <= end <= |clause|
    ensures index < |clause| ==> index < end
    decreases |clause| - index
  {
    if index == |clause| then index
    else if IsNewline(clause[index]) then index + 1
    else LineCommentEnd(clause, index + 1)
  }

  /** Where a block comment ends when the scan stands at `at` inside `depth` open comments. */
  function BlockEnd(clause: string, at: nat, depth: int): (end: nat)
    requires at <= |clause|
    ensures at <= end <= |clause|
    decreases |clause| - at
  {
    if at == |clause| then at
    else if PairAt(clause, at, '/', '*') then BlockEnd(clause, at + 2, depth + 1)
    else if PairAt(clause, at, '*', '/') then if depth == 1 then at + 2 else BlockEnd(clause, at + 2, depth - 1)
    else BlockEnd(clause, at + 1, depth)
  }

  /** Where the run of whitespace and line comments beginning at `at` ends. */
  function GapEnd(clause: string, at: nat): (end: nat)
    requires at <= |clause|
    ensures at <= end <= |clause|
    decreases |clause| - at
  {
    var past := RunEnd(clause, at, IsSpace);
    if PairAt(clause, past, '-', '-') then GapEnd(clause, LineCommentEnd(clause, past)) else past
  }

  predicate HasNewline(clause: string, from: nat, to: nat)
    requires from <= to <= |clause|
  {
    exists k :: from <= k < to && IsNewline(clause[k])
  }

  /** The quote that reopens the string constant whose closing quote ends at `after`, if any. */
  function Continuation(clause: string, after: nat, quote: char): (at: Option<nat>)
    requires after <= |clause|
    ensures at.Some? ==> after < at.value < |clause| && clause[at.value] == quote == STRING_QUOTE
  {
    if quote != STRING_QUOTE then None
    else
      var at := GapEnd(clause, after);
      if !HasNewline(clause, after, at) || at == |clause| || clause[at] != quote then None else Some(at)
  }

  /** Where a literal or quoted identifier ends when the scan of its body stands at `at`. */
  function QuoteEnd(clause: string, at: nat, quote: char, escapes: bool): (end: nat)
    ensures end <= |clause|
    ensures at <= |clause| ==> at <= end
    decreases |clause| - at
  {
    if at >= |clause| then |clause|
    else if escapes && clause[at] == '\\' then QuoteEnd(clause, at + 2, quote, escapes)
    else if clause[at] != quote then QuoteEnd(clause, at + 1, quote, escapes)
    else if at + 1 < |clause| && clause[at + 1] == quote then QuoteEnd(clause, at + 2, quote, escapes)
    else match Continuation(clause, at + 1, quote)
      case Some(reopened) => QuoteEnd(clause, reopened + 1, quote, escapes)
      case None => at + 1
  }

  predicate IsDollarQuoteTag(text: string)
    requires text != ""
  {
    IsWordStart(text[0]) && RunEnd(text, 1, IsTagByte) == |text|
  }

  predicate IsNotDollar(c: char) {
    c != '$'
  }

  /** The delimiter opening a dollar-quoted literal at `index`, if one does. */
  function DollarDelimiter(clause: string, index: nat): (delimiter: Option<string>)
    requires index < |clause| && clause[index] == '$'
    ensures delimiter.Some? ==> |delimiter.value| >= 2 && HasAt(clause, index, delimiter.value)
  {
    var end := RunEnd(clause, index + 1, IsNotDollar);
    if end == |clause| then None
    else
      var tag := clause[index + 1..end];
      if tag != "" && !IsDollarQuoteTag(tag) then None else Some(clause[index..end + 1])
  }

  function DollarEnd(clause: string, index: nat): (end: nat)
    requires index < |clause| && clause[index] == '$'
    ensures index < end <= |clause|
  {
    match DollarDelimiter(clause, index)
    case None => index + 1
    case Some(delimiter) =>
      match Find(clause, index + |delimiter|, delimiter)
      case Some(closing) => closing + |delimiter|
      case None => |clause|
  }

  /** Where the word at `index` ends, or the escape string it opens, and whether it is a word. */
  function WordEnd(clause: string, index: nat): (token: (nat, bool))
    requires index < |clause|
    ensures index < token.0 <= |clause|
  {
    var end := RunEnd(clause, index + 1, IsWordByte);
    if end < |clause| && clause[end] == STRING_QUOTE && EqualFold(clause[index..end], "E") then
      (QuoteEnd(clause, end + 1, STRING_QUOTE, true), false)
    else (end, true)
  }

  /** Where the construct at `index` ends and whether it is a bare word: every step advances and
      stays within the clause, unterminated constructs included. */
  function NextToken(clause: string, index: nat): (token: (nat, bool))
    requires index < |clause|
    ensures index < token.0 <= |clause|
  {
    if IsWordStart(clause[index]) then WordEnd(clause, index)
    else if PairAt(clause, index, '-', '-') then (LineCommentEnd(clause, index), false)
    else if PairAt(clause, index, '/', '*') then (BlockEnd(clause, index, 0), false)
    else if clause[index] == STRING_QUOTE || clause[index] == IDENTIFIER_QUOTE then
      (QuoteEnd(clause, index + 1, clause[index], false), false)
    else if clause[index] == '$' then (DollarEnd(clause, index), false)
    else (index + 1, false)
  }

  predicate IsTokenSeparator(clause: string, index: nat)
    requires index < |clause|
  {
    IsSpace(clause[index]) || PairAt(clause, index, '-', '-') || PairAt(clause, index, '/', '*')
  }

  /** The scan of the tokens from `index` on. */
  function Scan(clause: string, word: string, index: nat, afterSelector: bool): Option<nat>
    requires index <= |clause|
    decreases |clause| - index
  {
    if index == |clause| then None
    else
      var (end, isWord) := NextToken(clause, index);
      if isWord && !afterSelector && EqualFold(clause[index..end], word) then Some(index)
      else
        Scan(clause, word, end,
             if IsTokenSeparator(clause, index) then afterSelector else clause[index] == FIELD_SELECTOR)
  }
}
