/** The jump scanner answers exactly what the byte-at-a-time automaton answers, on every clause. */
module WhenRefinement {
  import opened Options
  import opened TextAt
  import opened WhenBytes
  import opened WhenScanner
  import opened WhenAutomaton

  lemma {:induction false} WordRun(clause: string, start: nat, i: nat, afterSelector: bool, word: string)
    requires start < |clause| && start < i <= RunEnd(clause, start + 1, IsWordByte)
    ensures var end := RunEnd(clause, start + 1, IsWordByte);
            Run(State(Word(start, clause[start..i]), afterSelector), clause, i, word)
            == Run(State(Word(start, clause[start..end]), afterSelector), clause, end, word)
    decreases |clause| - i
  {
    if i < RunEnd(clause, start + 1, IsWordByte) {
      assert clause[start..i] + [clause[i]] == clause[start..i + 1];
      WordRun(clause, start, i + 1, afterSelector, word);
    }
  }

  lemma {:induction false} LineCommentRun(clause: string, i: nat, afterSelector: bool, word: string)
    requires i <= |clause|
    ensures Run(State(LineComment, afterSelector), clause, i, word)
            == Run(State(Code, afterSelector), clause, LineCommentEnd(clause, i), word)
    decreases |clause| - i
  {
    if i < |clause| && !IsNewline(clause[i]) {
      LineCommentRun(clause, i + 1, afterSelector, word);
    }
  }

  lemma {:induction false} BlockRun(clause: string, i: nat, depth: nat, afterSelector: bool, word: string)
    requires i <= |clause| && depth >= 1
    ensures Run(State(BlockComment(depth, Nothing), afterSelector), clause, i, word)
            == Run(State(Code, afterSelector), clause, BlockEnd(clause, i, depth), word)
    decreases |clause| - i
  {
    if i < |clause| {
      if PairAt(clause, i, '/', '*') {
        BlockRun(clause, i + 2, depth + 1, afterSelector, word);
      } else if PairAt(clause, i, '*', '/') {
        if depth > 1 {
          BlockRun(clause, i + 2, depth - 1, afterSelector, word);
        }
      } else {
        BlockRun(clause, i + 1, depth, afterSelector, word);
      }
    }
  }

  /** Whether a string constant closed just before `p`, with `newline` crossed since, continues. */
  ghost predicate Reopens(clause: string, p: nat, newline: bool)
    requires p <= |clause|
  {
    var gap := GapEnd(clause, p);
    (newline || HasNewline(clause, p, gap)) && gap < |clause| && clause[gap] == STRING_QUOTE
  }

  lemma GapStep(clause: string, p: nat)
    requires p < |clause| && IsSpace(clause[p])
    ensures GapEnd(clause, p) == GapEnd(clause, p + 1) > p
    ensures HasNewline(clause, p, GapEnd(clause, p))
            <==> IsNewline(clause[p]) || HasNewline(clause, p + 1, GapEnd(clause, p))
  {
    var gap := GapEnd(clause, p);
    if HasNewline(clause, p, gap) {
      var k :| p <= k < gap && IsNewline(clause[k]);
      assert k == p || p + 1 <= k < gap;
    }
  }

  lemma {:induction false} GapCommentRun(clause: string, i: nat, escapes: bool, newline: bool, word: string)
    requires i <= |clause|
    ensures var end := LineCommentEnd(clause, i);
            Run(State(GapComment(escapes, newline), false), clause, i, word)
            == if end > i && IsNewline(clause[end - 1]) then Run(State(Gap(escapes, true), false), clause, end, word)
               else None
    ensures var end := LineCommentEnd(clause, i);
            !(end > i && IsNewline(clause[end - 1])) ==> end == |clause|
    decreases |clause| - i
  {
    if i < |clause| && !IsNewline(clause[i]) {
      GapCommentRun(clause, i + 1, escapes, newline, word);
    }
  }

  /** The gap's bytes are non-code either way, so the automaton needs no lookahead to tell. */
  lemma {:induction false} GapRun(clause: string, p: nat, escapes: bool, newline: bool, word: string)
    requires p <= |clause|
    ensures Run(State(Gap(escapes, newline), false), clause, p, word)
            == if Reopens(clause, p, newline)
               then Run(State(Quoted(STRING_QUOTE, escapes), false), clause, GapEnd(clause, p) + 1, word)
               else Run(State(Code, false), clause, p, word)
    decreases |clause| - p
  {
    if p < |clause| {
      if IsSpace(clause[p]) {
        GapSpaceCase(clause, p, escapes, newline, word);
      } else if PairAt(clause, p, '-', '-') {
        GapCommentCase(clause, p, escapes, newline, word);
      } else {
        GapEndsHere(clause, p, escapes, newline, word);
      }
    }
  }

  lemma {:induction false} GapSpaceCase(clause: string, p: nat, escapes: bool, newline: bool, word: string)
    requires p < |clause| && IsSpace(clause[p])
    ensures Run(State(Gap(escapes, newline), false), clause, p, word)
            == if Reopens(clause, p, newline)
               then Run(State(Quoted(STRING_QUOTE, escapes), false), clause, GapEnd(clause, p) + 1, word)
               else Run(State(Code, false), clause, p, word)
    decreases |clause| - p, 0
  {
    GapStep(clause, p);
    GapRun(clause, p + 1, escapes, newline || IsNewline(clause[p]), word);
  }

  lemma GapEndsHere(clause: string, p: nat, escapes: bool, newline: bool, word: string)
    requires p < |clause| && !IsSpace(clause[p]) && !PairAt(clause, p, '-', '-')
    ensures GapEnd(clause, p) == p && (Reopens(clause, p, newline) <==> newline && clause[p] == STRING_QUOTE)
    ensures Run(State(Gap(escapes, newline), false), clause, p, word)
            == if newline && clause[p] == STRING_QUOTE
               then Run(State(Quoted(STRING_QUOTE, escapes), false), clause, p + 1, word)
               else Run(State(Code, false), clause, p, word)
  {
    assert RunEnd(clause, p, IsSpace) == p;
    if clause[p] == '-' && p + 1 < |clause| {
      var dash := State(GapDash(escapes, newline), false);
      assert Step(State(Gap(escapes, newline), false), '-', p, word) == Running(dash);
      assert Step(dash, clause[p + 1], p + 1, word) == Step(State(OneDash, false), clause[p + 1], p + 1, word);
    }
  }

  lemma TwoDashes(clause: string, p: nat, st: State, word: string)
    requires PairAt(clause, p, '-', '-')
    ensures p + 2 <= |clause| && clause[p] == clause[p + 1] == '-'
    ensures LineCommentEnd(clause, p) == LineCommentEnd(clause, p + 2)
    ensures st.mode.Gap? ==> Run(st, clause, p, word)
                             == Run(State(GapComment(st.mode.escapes, st.mode.newline), false), clause, p + 2, word)
    ensures st.mode.Code? ==> Run(st, clause, p, word) == Run(State(LineComment, st.afterSelector), clause, p + 2, word)
  {
    assert LineCommentEnd(clause, p + 1) == LineCommentEnd(clause, p + 2);
    if st.mode.Gap? {
      var dash := State(GapDash(st.mode.escapes, st.mode.newline), false);
      assert Step(st, clause[p], p, word) == Running(dash);
      assert Run(st, clause, p, word) == Run(dash, clause, p + 1, word);
    }
  }

  lemma {:induction false} GapCommentCase(clause: string, p: nat, escapes: bool, newline: bool, word: string)
    requires p < |clause| && !IsSpace(clause[p]) && PairAt(clause, p, '-', '-')
    ensures Run(State(Gap(escapes, newline), false), clause, p, word)
            == if Reopens(clause, p, newline)
               then Run(State(Quoted(STRING_QUOTE, escapes), false), clause, GapEnd(clause, p) + 1, word)
               else Run(State(Code, false), clause, p, word)
    decreases |clause| - p, 0
  {
    var end := LineCommentEnd(clause, p);
    TwoDashes(clause, p, State(Gap(escapes, newline), false), word);
    TwoDashes(clause, p, State(Code, false), word);
    GapCommentRun(clause, p + 2, escapes, newline, word);
    LineCommentRun(clause, p + 2, false, word);
    assert GapEnd(clause, p) == GapEnd(clause, end);
    if end > p + 2 && IsNewline(clause[end - 1]) {
      GapRun(clause, end, escapes, true, word);
      assert HasNewline(clause, p, GapEnd(clause, p));
    }
  }

  /** A backslash pair under escaping, and a doubled quote under either rule, are content. */
  lemma ContentPair(clause: string, i: nat, quote: char, escapes: bool, word: string)
    requires i + 1 < |clause| && (quote == STRING_QUOTE || quote == IDENTIFIER_QUOTE)
    requires (escapes && clause[i] == '\\') || clause[i] == clause[i + 1] == quote
    ensures Run(State(Quoted(quote, escapes), false), clause, i, word)
            == Run(State(Quoted(quote, escapes), false), clause, i + 2, word)
  {
    var middle := State(if clause[i] == quote then QuoteSeen(quote, escapes) else Escaped(quote), false);
    assert Step(State(Quoted(quote, escapes), false), clause[i], i, word) == Running(middle);
    assert Step(middle, clause[i + 1], i + 1, word) == Running(State(Quoted(quote, escapes), false));
  }

  lemma {:induction false} QuotedRun(clause: string, i: nat, quote: char, escapes: bool, word: string)
    requires i <= |clause| && (quote == STRING_QUOTE || quote == IDENTIFIER_QUOTE)
    ensures Run(State(Quoted(quote, escapes), false), clause, i, word)
            == Run(State(Code, false), clause, QuoteEnd(clause, i, quote, escapes), word)
    decreases |clause| - i, 1
  {
    var here := State(Quoted(quote, escapes), false);
    if i == |clause| {
    } else if escapes && clause[i] == '\\' {
      if i + 1 < |clause| {
        ContentPair(clause, i, quote, escapes, word);
        QuotedRun(clause, i + 2, quote, escapes, word);
      }
    } else if clause[i] != quote {
      assert Step(here, clause[i], i, word) == Running(here);
      QuotedRun(clause, i + 1, quote, escapes, word);
    } else if i + 1 < |clause| && clause[i + 1] == quote {
      ContentPair(clause, i, quote, escapes, word);
      QuotedRun(clause, i + 2, quote, escapes, word);
    } else {
      QuotedCloseCase(clause, i, quote, escapes, word);
    }
  }

  lemma {:induction false} QuotedCloseCase(clause: string, i: nat, quote: char, escapes: bool, word: string)
    requires i < |clause| && clause[i] == quote && (quote == STRING_QUOTE || quote == IDENTIFIER_QUOTE)
    requires i + 1 < |clause| ==> clause[i + 1] != quote
    ensures Run(State(Quoted(quote, escapes), false), clause, i, word)
            == Run(State(Code, false), clause, QuoteEnd(clause, i, quote, escapes), word)
    decreases |clause| - i, 0
  {
    var here := State(Quoted(quote, escapes), false);
    var continuation := Continuation(clause, i + 1, quote);
    if continuation.Some? {
      var body := continuation.value + 1;
      assert Run(here, clause, i, word) == Run(here, clause, body, word) by {
        QuotedCloses(clause, i, quote, escapes, word);
      }
      QuotedRun(clause, body, quote, escapes, word);
      QuoteEndReopens(clause, i, quote, escapes);
    } else {
      QuotedCloses(clause, i, quote, escapes, word);
    }
  }

  lemma QuoteEndReopens(clause: string, i: nat, quote: char, escapes: bool)
    requires i < |clause| && clause[i] == quote && (quote == STRING_QUOTE || quote == IDENTIFIER_QUOTE)
    requires i + 1 < |clause| ==> clause[i + 1] != quote
    requires Continuation(clause, i + 1, quote).Some?
    ensures QuoteEnd(clause, i, quote, escapes)
            == QuoteEnd(clause, Continuation(clause, i + 1, quote).value + 1, quote, escapes)
  {}

  lemma QuotedCloses(clause: string, i: nat, quote: char, escapes: bool, word: string)
    requires i < |clause| && clause[i] == quote && (quote == STRING_QUOTE || quote == IDENTIFIER_QUOTE)
    requires i + 1 < |clause| ==> clause[i + 1] != quote
    ensures Run(State(Quoted(quote, escapes), false), clause, i, word)
            == match Continuation(clause, i + 1, quote)
               case Some(reopened) => Run(State(Quoted(quote, escapes), false), clause, reopened + 1, word)
               case None => Run(State(Code, false), clause, i + 1, word)
  {
    assert Step(State(Quoted(quote, escapes), false), clause[i], i, word) == Running(State(QuoteSeen(quote, escapes), false));
    ClosedRun(clause, i + 1, quote, escapes, word);
  }

  /** After a quote that is not doubled, the constant goes on where it is reopened, or code does. */
  lemma ClosedRun(clause: string, after: nat, quote: char, escapes: bool, word: string)
    requires after <= |clause| && (quote == STRING_QUOTE || quote == IDENTIFIER_QUOTE)
    requires after < |clause| ==> clause[after] != quote
    ensures Run(State(QuoteSeen(quote, escapes), false), clause, after, word)
            == match Continuation(clause, after, quote)
               case Some(reopened) => Run(State(Quoted(quote, escapes), false), clause, reopened + 1, word)
               case None => Run(State(Code, false), clause, after, word)
  {
    if quote == STRING_QUOTE {
      GapRun(clause, after, escapes, false, word);
      if after < |clause| {
        assert Step(State(QuoteSeen(quote, escapes), false), clause[after], after, word)
            == Step(State(Gap(escapes, false), false), clause[after], after, word);
      }
    }
  }

  lemma TagOpens(clause: string, start: nat, end: nat)
    requires 0 < start < end <= |clause| && clause[start - 1] == '$'
    requires IsWordStart(clause[start]) && forall k :: start <= k < end ==> IsTagByte(clause[k])
    ensures end < |clause| && clause[end] == '$' ==> DollarDelimiter(clause, start - 1).Some?
  {
    var tag := clause[start..end];
    assert RunEnd(tag, 1, IsTagByte) == |tag|;
    if end < |clause| && clause[end] == '$' {
      var first := RunEnd(clause, start, IsNotDollar);
      assert first == end;
    }
  }

  /** A `$` that opens no literal was a lone byte, and what was read as its tag is a word. */
  lemma {:induction false} LoneDollarRun(clause: string, start: nat, i: nat, word: string)
    requires 0 < start < i <= |clause| && clause[start - 1] == '$'
    requires DollarDelimiter(clause, start - 1).None?
    requires IsWordStart(clause[start]) && forall k :: start <= k < i ==> IsTagByte(clause[k])
    ensures Run(State(DollarTag(start, clause[start..i]), false), clause, i, word)
            == Run(State(Word(start, clause[start..i]), false), clause, i, word)
    decreases |clause| - i
  {
    TagOpens(clause, start, i);
    if i < |clause| {
      if IsTagByte(clause[i]) {
        assert clause[start..i] + [clause[i]] == clause[start..i + 1];
        LoneDollarRun(clause, start, i + 1, word);
      }
    }
  }

  ghost predicate IsDelimiter(token: string) {
    |token| >= 2 && token[0] == '$' && token[|token| - 1] == '$' && '$' !in token[1..|token| - 1]
  }

  ghost function TagOf(token: string): string
    requires IsDelimiter(token)
  {
    token[1..|token| - 1]
  }

  lemma {:induction false} TagRun(clause: string, start: nat, i: nat, token: string, word: string)
    requires 0 < start <= i && IsDelimiter(token) && (TagOf(token) != "" ==> IsDollarQuoteTag(TagOf(token)))
    requires i <= start + |TagOf(token)| && HasAt(clause, start - 1, token)
    ensures Run(State(DollarTag(start, clause[start..i]), false), clause, i, word)
            == Run(State(DollarBody(TagOf(token), None), false), clause, start + |TagOf(token)| + 1, word)
    decreases |clause| - i
  {
    var tag := TagOf(token);
    assert clause[i] == token[i - start + 1];
    if i < start + |tag| {
      assert clause[i] == tag[i - start];
      assert clause[start..i] + [clause[i]] == clause[start..i + 1];
      TagRun(clause, start, i + 1, token, word);
    } else {
      assert forall k :: start <= k < i ==> clause[k] == tag[k - start];
      assert clause[start..i] == tag;
    }
  }

  /** `since` is what the body, begun at `body`, has read since its last `$` when the scan is at `j`. */
  ghost predicate ReadSince(clause: string, body: nat, j: nat, since: Option<string>)
    requires body <= j <= |clause|
  {
    match since
    case None => forall k :: body <= k < j ==> clause[k] != '$'
    case Some(text) =>
      |text| < j - body && clause[j - |text| - 1] == '$' && text == clause[j - |text|..j] && '$' !in text
  }

  lemma {:induction false} DollarBodyRun(clause: string, token: string, body: nat, j: nat, since: Option<string>, word: string)
    requires body <= j <= |clause| && IsDelimiter(token) && ReadSince(clause, body, j, since)
    requires forall k :: body <= k && k + |token| <= j ==> !HasAt(clause, k, token)
    ensures Run(State(DollarBody(TagOf(token), since), false), clause, j, word)
            == match Find(clause, body, token)
               case None => None
               case Some(at) => Run(State(Code, false), clause, at + |token|, word)
    decreases |clause| - j
  {
    var tag := TagOf(token);
    if j == |clause| {
      assert forall at :: body <= at ==> !HasAt(clause, at, token);
    } else if clause[j] == '$' && since == Some(tag) {
      ClosesHere(clause, token, body, j);
      assert Step(State(DollarBody(tag, since), false), '$', j, word) == Running(State(Code, false));
    } else {
      var next := if clause[j] == '$' then Some("") else if since == None then None else Some(since.value + [clause[j]]);
      forall k | body <= k && k + |token| == j + 1 ensures !HasAt(clause, k, token) {
        NoCloseHere(clause, token, body, j, since, k);
      }
      assert Step(State(DollarBody(tag, since), false), clause[j], j, word) == Running(State(DollarBody(tag, next), false));
      DollarBodyRun(clause, token, body, j + 1, next, word);
    }
  }

  lemma TagReadBack(clause: string, token: string, body: nat, j: nat)
    requires body <= j < |clause| && clause[j] == '$' && IsDelimiter(token)
    requires ReadSince(clause, body, j, Some(TagOf(token)))
    ensures body <= j + 1 - |token| && HasAt(clause, j + 1 - |token|, token)
  {
    var at := j + 1 - |token|;
    forall k | at <= k <= j ensures clause[k] == token[k - at] {
      if at < k < j {
        assert clause[at + 1..j][k - at - 1] == TagOf(token)[k - at - 1];
      }
    }
  }

  lemma ClosesHere(clause: string, token: string, body: nat, j: nat)
    requires body <= j < |clause| && clause[j] == '$' && IsDelimiter(token)
    requires ReadSince(clause, body, j, Some(TagOf(token)))
    requires forall k :: body <= k && k + |token| <= j ==> !HasAt(clause, k, token)
    ensures Find(clause, body, token) == Some(j + 1 - |token|)
  {
    TagReadBack(clause, token, body, j);
  }

  lemma TokenRead(clause: string, token: string, body: nat, j: nat, since: Option<string>, k: nat)
    requires body <= k && j < |clause| && k + |token| == j + 1 && IsDelimiter(token) && ReadSince(clause, body, j, since)
    requires HasAt(clause, k, token)
    ensures clause[j] == '$' && since == Some(TagOf(token))
  {
    assert forall m :: k < m < j ==> clause[m] == TagOf(token)[m - k - 1];
    assert clause[k + 1..j] == TagOf(token);
    LastDollar(clause, body, j, since, k);
  }

  lemma NoCloseHere(clause: string, token: string, body: nat, j: nat, since: Option<string>, k: nat)
    requires body <= k && j < |clause| && k + |token| == j + 1 && IsDelimiter(token) && ReadSince(clause, body, j, since)
    requires !(clause[j] == '$' && since == Some(TagOf(token)))
    ensures !HasAt(clause, k, token)
  {
    if HasAt(clause, k, token) {
      TokenRead(clause, token, body, j, since, k);
    }
  }

  lemma LastDollar(clause: string, body: nat, j: nat, since: Option<string>, k: nat)
    requires body <= k < j < |clause| && ReadSince(clause, body, j, since)
    requires clause[k] == '$' && '$' !in clause[k + 1..j]
    ensures since == Some(clause[k + 1..j])
  {
    match since
    case None =>
    case Some(text) =>
      var last := j - |text| - 1;
      assert forall m :: k < m < j ==> clause[m] == clause[k + 1..j][m - k - 1];
      assert forall m :: last < m < j ==> clause[m] == text[m - last - 1];
      assert k == last;
  }

  lemma DelimiterRun(clause: string, index: nat, token: string, word: string)
    requires index < |clause| && clause[index] == '$' && DollarDelimiter(clause, index) == Some(token)
    ensures IsDelimiter(token)
    ensures Run(State(DollarTag(index + 1, ""), false), clause, index + 1, word)
            == Run(State(DollarBody(TagOf(token), None), false), clause, index + |token|, word)
  {
    var end := RunEnd(clause, index + 1, IsNotDollar);
    assert TagOf(token) == clause[index + 1..end];
    assert clause[index + 1..index + 1] == "";
    TagRun(clause, index + 1, index + 1, token, word);
  }

  lemma DollarRun(clause: string, index: nat, word: string)
    requires index < |clause| && clause[index] == '$'
    ensures Run(State(DollarTag(index + 1, ""), false), clause, index + 1, word)
            == Run(State(Code, false), clause, DollarEnd(clause, index), word)
  {
    var delimiter := DollarDelimiter(clause, index);
    if delimiter.Some? {
      DelimiterRun(clause, index, delimiter.value, word);
      var body := index + |delimiter.value|;
      DollarBodyRun(clause, delimiter.value, body, body, None, word);
    } else {
      NoDelimiterRun(clause, index + 1, word);
    }
  }

  lemma NoDelimiterRun(clause: string, start: nat, word: string)
    requires 0 < start <= |clause| && clause[start - 1] == '$' && DollarDelimiter(clause, start - 1).None?
    ensures Run(State(DollarTag(start, ""), false), clause, start, word) == Run(State(Code, false), clause, start, word)
  {
    if start < |clause| {
      var b := clause[start];
      if IsWordStart(b) {
        assert "" + [b] == clause[start..start + 1] == [b];
        LoneDollarRun(clause, start, start + 1, word);
        assert Step(State(DollarTag(start, ""), false), b, start, word) == Running(State(DollarTag(start, [b]), false));
        assert Step(State(Code, false), b, start, word) == Running(State(Word(start, [b]), false));
      } else {
        assert RunEnd(clause, start, IsNotDollar) == if b == '$' then start else RunEnd(clause, start + 1, IsNotDollar);
        assert Step(State(DollarTag(start, ""), false), b, start, word) == Step(State(Code, false), b, start, word);
      }
    }
  }

  /** What the scanner's step at `index` leaves to be read. */
  ghost function AfterToken(clause: string, index: nat, afterSelector: bool, word: string): Option<nat>
    requires index < |clause|
  {
    var (end, isWord) := NextToken(clause, index);
    if isWord && !afterSelector && EqualFold(clause[index..end], word) then Some(index)
    else Run(State(Code, if IsTokenSeparator(clause, index) then afterSelector else clause[index] == FIELD_SELECTOR),
             clause, end, word)
  }

  lemma WordToken(clause: string, index: nat, afterSelector: bool, word: string)
    requires index < |clause| && IsWordStart(clause[index])
    ensures Run(State(Code, afterSelector), clause, index, word) == AfterToken(clause, index, afterSelector, word)
  {
    var end := RunEnd(clause, index + 1, IsWordByte);
    var text := clause[index..end];
    var read := State(Word(index, text), afterSelector);
    assert clause[index..index + 1] == [clause[index]];
    WordRun(clause, index, index + 1, afterSelector, word);
    assert Run(State(Code, afterSelector), clause, index, word) == Run(read, clause, end, word);
    if end < |clause| && clause[end] == STRING_QUOTE && EqualFold(text, "E") {
      assert Step(read, clause[end], end, word) == Running(State(Quoted(STRING_QUOTE, true), false));
      QuotedRun(clause, end + 1, STRING_QUOTE, true, word);
    } else if end < |clause| {
      assert Step(read, clause[end], end, word) == if !afterSelector && EqualFold(text, word) then Found(index)
                                                   else Step(State(Code, false), clause[end], end, word);
    }
  }

  lemma CommentToken(clause: string, index: nat, afterSelector: bool, word: string)
    requires index < |clause| && (PairAt(clause, index, '-', '-') || PairAt(clause, index, '/', '*'))
    ensures Run(State(Code, afterSelector), clause, index, word) == AfterToken(clause, index, afterSelector, word)
  {
    if PairAt(clause, index, '-', '-') {
      TwoDashes(clause, index, State(Code, afterSelector), word);
      LineCommentRun(clause, index + 2, afterSelector, word);
    } else {
      assert Step(State(Code, afterSelector), '/', index, word) == Running(State(OneSlash, afterSelector));
      assert Step(State(OneSlash, afterSelector), '*', index + 1, word)
          == Running(State(BlockComment(1, Nothing), afterSelector));
      BlockRun(clause, index + 2, 1, afterSelector, word);
    }
  }

  lemma PunctuationToken(clause: string, index: nat, afterSelector: bool, word: string)
    requires index < |clause| && !IsWordStart(clause[index])
    requires !PairAt(clause, index, '-', '-') && !PairAt(clause, index, '/', '*')
    ensures Run(State(Code, afterSelector), clause, index, word) == AfterToken(clause, index, afterSelector, word)
  {
    var b := clause[index];
    if b == STRING_QUOTE || b == IDENTIFIER_QUOTE {
      assert Step(State(Code, afterSelector), b, index, word) == Running(State(Quoted(b, false), false));
      QuotedRun(clause, index + 1, b, false, word);
    } else if b == '$' {
      assert Step(State(Code, afterSelector), b, index, word) == Running(State(DollarTag(index + 1, ""), false));
      DollarRun(clause, index, word);
    } else if b == '-' || b == '/' {
      var half := State(if b == '-' then OneDash else OneSlash, afterSelector);
      assert Step(State(Code, afterSelector), b, index, word) == Running(half);
      if index + 1 < |clause| {
        assert Step(half, clause[index + 1], index + 1, word)
            == Step(State(Code, false), clause[index + 1], index + 1, word);
      }
    }
  }

  lemma {:induction false} ScanRefinesAutomaton(clause: string, word: string, index: nat, afterSelector: bool)
    requires index <= |clause|
    ensures Scan(clause, word, index, afterSelector) == Run(State(Code, afterSelector), clause, index, word)
    decreases |clause| - index
  {
    if index < |clause| {
      if IsWordStart(clause[index]) {
        WordToken(clause, index, afterSelector, word);
      } else if PairAt(clause, index, '-', '-') || PairAt(clause, index, '/', '*') {
        CommentToken(clause, index, afterSelector, word);
      } else {
        PunctuationToken(clause, index, afterSelector, word);
      }
      var (end, _) := NextToken(clause, index);
      ScanRefinesAutomaton(clause, word, end,
        if IsTokenSeparator(clause, index) then afterSelector else clause[index] == FIELD_SELECTOR);
    }
  }
}
