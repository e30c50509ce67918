/** What a literal or a comment holds never decides which reference is reported: two clauses that
    differ only inside one have the same reference, up to the shift of what follows. */
module LiteralOpacity {
  import opened Options
  import opened TextAt
  import opened WhenBytes
  import opened WhenScanner
  import opened WhenAutomaton
  import opened WhenRefinement

  // ----- printing a literal, a comment and a dollar-quoted body ----------------------------------

  function PrintedByte(c: char, quote: char, escapes: bool): string {
    if c == quote || (escapes && c == '\\') then [c, c] else [c]
  }

  /** Text printed inside quotes: each quote doubled, and each backslash too where it escapes. */
  function Printed(text: string, quote: char, escapes: bool): string {
    if text == "" then "" else PrintedByte(text[0], quote, escapes) + Printed(text[1..], quote, escapes)
  }

  /** The inside of a block comment: bytes and comments nested in it. */
  datatype Comment = Done | Byte(c: char, rest: Comment) | Nested(inner: Comment, rest: Comment) {
    /** Its text up to and including its closing delimiter. */
    function Text(): (text: string)
      ensures text != ""
    {
      match this
      case Done => "*/"
      case Byte(c, rest) => [c] + rest.Text()
      case Nested(inner, rest) => "/*" + (inner.Text() + rest.Text())
    }

    /** No byte joins the one after it into a delimiter. */
    predicate WellNested() {
      match this
      case Done => true
      case Byte(c, rest) =>
        !(c == '/' && rest.Text()[0] == '*') && !(c == '*' && rest.Text()[0] == '/') && rest.WellNested()
      case Nested(inner, rest) => inner.WellNested() && rest.WellNested()
    }
  }

  // ----- the jump scanner ends exactly at the printed end -----------------------------------------

  lemma {:induction false} PrintedSkipped(clause: string, p: nat, text: string, quote: char, escapes: bool)
    requires (quote == STRING_QUOTE || quote == IDENTIFIER_QUOTE) && HasAt(clause, p, Printed(text, quote, escapes))
    ensures QuoteEnd(clause, p, quote, escapes)
            == QuoteEnd(clause, p + |Printed(text, quote, escapes)|, quote, escapes)
    decreases text
  {
    if text != "" {
      var head, rest := PrintedByte(text[0], quote, escapes), Printed(text[1..], quote, escapes);
      HeadAt(clause, p, head, rest);
      ByteSkipped(clause, p, text[0], quote, escapes);
      PrintedSkipped(clause, p + |head|, text[1..], quote, escapes);
    }
  }

  /** A literal ends at its own closing quote, whatever was printed in it, when what follows
      neither doubles that quote nor continues the constant. */
  lemma PrintedEnds(clause: string, index: nat, text: string, quote: char, escapes: bool)
    requires quote == STRING_QUOTE || quote == IDENTIFIER_QUOTE
    requires HasAt(clause, index + 1, Printed(text, quote, escapes))
    requires var closing := index + 1 + |Printed(text, quote, escapes)|;
             PairAt(clause, closing, quote, quote) == false && closing < |clause| && clause[closing] == quote
             && Continuation(clause, closing + 1, quote).None?
    ensures QuoteEnd(clause, index + 1, quote, escapes) == index + 1 + |Printed(text, quote, escapes)| + 1
  {
    PrintedSkipped(clause, index + 1, text, quote, escapes);
  }

  lemma ByteSkipped(clause: string, p: nat, c: char, quote: char, escapes: bool)
    requires (quote == STRING_QUOTE || quote == IDENTIFIER_QUOTE) && HasAt(clause, p, PrintedByte(c, quote, escapes))
    ensures QuoteEnd(clause, p, quote, escapes)
            == QuoteEnd(clause, p + |PrintedByte(c, quote, escapes)|, quote, escapes)
  {
    assert clause[p] == PrintedByte(c, quote, escapes)[0];
    assert |PrintedByte(c, quote, escapes)| == 2 ==> clause[p + 1] == PrintedByte(c, quote, escapes)[1];
  }

  /** What the scan makes of closing `depth` at `end`. */
  ghost function Closed(clause: string, end: nat, depth: nat): nat
    requires end <= |clause|
  {
    if depth == 1 then end else BlockEnd(clause, end, depth - 1)
  }

  lemma {:induction false} CommentEnds(clause: string, p: nat, comment: Comment, depth: nat)
    requires comment.WellNested() && depth >= 1 && HasAt(clause, p, comment.Text())
    ensures BlockEnd(clause, p, depth) == Closed(clause, p + |comment.Text()|, depth)
    decreases comment, 1
  {
    match comment
    case Done => assert PairAt(clause, p, '*', '/');
    case Byte(c, rest) =>
      HeadAt(clause, p, [c], rest.Text());
      assert clause[p] == c && clause[p + 1] == rest.Text()[0];
      CommentEnds(clause, p + 1, rest, depth);
    case Nested(_, _) => NestedEnds(clause, p, comment, depth);
  }

  lemma {:induction false} NestedEnds(clause: string, p: nat, comment: Comment, depth: nat)
    requires comment.Nested? && comment.WellNested() && depth >= 1 && HasAt(clause, p, comment.Text())
    ensures BlockEnd(clause, p, depth) == Closed(clause, p + |comment.Text()|, depth)
    decreases comment, 0
  {
    var inner, rest := comment.inner, comment.rest;
    var middle := p + 2 + |inner.Text()|;
    NestedAt(clause, p, inner, rest);
    NestedLength(comment, p, middle);
    CommentEnds(clause, middle, rest, depth);
    CommentEnds(clause, p + 2, inner, depth + 1);
    NestedSkipped(clause, p, middle, depth);
  }

  lemma NestedLength(comment: Comment, p: nat, middle: nat)
    requires comment.Nested? && middle == p + 2 + |comment.inner.Text()|
    ensures middle + |comment.rest.Text()| == p + |comment.Text()|
  {}

  lemma NestedSkipped(clause: string, p: nat, middle: nat, depth: nat)
    requires depth >= 1 && PairAt(clause, p, '/', '*') && middle <= |clause|
    requires BlockEnd(clause, p + 2, depth + 1) == Closed(clause, middle, depth + 1)
    ensures BlockEnd(clause, p, depth) == BlockEnd(clause, middle, depth)
  {}

  lemma NestedAt(clause: string, p: nat, inner: Comment, rest: Comment)
    requires HasAt(clause, p, Nested(inner, rest).Text())
    ensures PairAt(clause, p, '/', '*') && HasAt(clause, p + 2, inner.Text())
    ensures HasAt(clause, p + 2 + |inner.Text()|, rest.Text())
  {
    HeadAt(clause, p, "/*", inner.Text() + rest.Text());
    assert clause[p] == '/' && clause[p + 1] == '*';
    HeadAt(clause, p + 2, inner.Text(), rest.Text());
  }

  lemma DelimiterOpens(clause: string, index: nat, token: string)
    requires IsDelimiter(token) && (TagOf(token) != "" ==> IsDollarQuoteTag(TagOf(token)))
    requires HasAt(clause, index, token)
    ensures clause[index] == '$' && DollarDelimiter(clause, index) == Some(token)
  {
    var last := index + |token| - 1;
    assert forall k :: index <= k <= last ==> clause[k] == token[k - index];
    assert forall k :: index < k < last ==> clause[k] == TagOf(token)[k - index - 1];
    assert clause[index..last + 1] == token;
    assert RunEnd(clause, index + 1, IsNotDollar) == last;
    assert clause[index + 1..last] == TagOf(token);
  }

  lemma DollarQuotedEnds(clause: string, index: nat, token: string, body: string)
    requires IsDelimiter(token) && (TagOf(token) != "" ==> IsDollarQuoteTag(TagOf(token)))
    requires Find(body + token, 0, token) == Some(|body|)
    requires HasAt(clause, index, token) && HasAt(clause, index + |token|, body + token)
    ensures clause[index] == '$' && DollarEnd(clause, index) == index + |token| + |body| + |token|
  {
    DelimiterOpens(clause, index, token);
    FindsAt(clause, index + |token|, token, body);
  }

  lemma HasAtWithin(clause: string, start: nat, text: string, k: nat, token: string)
    requires HasAt(clause, start, text) && start <= k && k + |token| <= start + |text| && HasAt(clause, k, token)
    ensures HasAt(text, k - start, token)
  {
    assert forall m :: k - start <= m < k - start + |token| ==> text[m] == clause[m + start];
  }

  lemma FindsAt(clause: string, start: nat, token: string, body: string)
    requires Find(body + token, 0, token) == Some(|body|) && HasAt(clause, start, body + token)
    ensures Find(clause, start, token) == Some(start + |body|)
  {
    var text := body + token;
    assert forall k :: start <= k < start + |text| ==> clause[k] == text[k - start];
    forall k | start <= k < start + |body| ensures !HasAt(clause, k, token) {
      if HasAt(clause, k, token) {
        HasAtWithin(clause, start, text, k, token);
      }
    }
    assert HasAt(clause, start + |body|, token);
  }

  // ----- the reference does not depend on it ------------------------------------------------------

  /** The verdict of the automaton on bytes i..j, started in `st`. */
  ghost function Through(st: State, clause: string, i: nat, j: nat, word: string): Verdict
    requires i <= j <= |clause|
    decreases j - i
  {
    if i == j then Running(st)
    else match Step(st, clause[i], i, word)
      case Found(start) => Found(start)
      case Running(next) => Through(next, clause, i + 1, j, word)
  }

  lemma {:induction false} RunThrough(st: State, clause: string, i: nat, j: nat, word: string)
    requires i <= j <= |clause|
    ensures Run(st, clause, i, word) == match Through(st, clause, i, j, word)
                                        case Found(start) => Some(start)
                                        case Running(next) => Run(next, clause, j, word)
    decreases j - i
  {
    if i < j {
      match Step(st, clause[i], i, word)
      case Found(_) =>
      case Running(next) => RunThrough(next, clause, i + 1, j, word);
    }
  }

  /** A word being read ends where the automaton stands. */
  ghost predicate Placed(st: State, i: nat) {
    match st.mode
    case Word(start, text) => text != "" && start + |text| == i
    case DollarTag(start, text) => start + |text| == i
    case _ => true
  }

  lemma PlacedStep(st: State, b: char, i: nat, word: string)
    requires Placed(st, i)
    ensures match Step(st, b, i, word)
            case Found(start) => start < i
            case Running(next) => Placed(next, i + 1)
  {}

  lemma {:induction false} SamePrefix(st: State, one: string, two: string, i: nat, j: nat, word: string)
    requires i <= j <= |one| && j <= |two| && one[..j] == two[..j] && Placed(st, i)
    ensures Through(st, one, i, j, word) == Through(st, two, i, j, word)
    ensures match Through(st, one, i, j, word)
            case Found(start) => start < j
            case Running(next) => Placed(next, j)
    decreases j - i
  {
    if i < j {
      assert one[i] == one[..j][i] == two[..j][i] == two[i];
      PlacedStep(st, one[i], i, word);
      var verdict := Step(st, one[i], i, word);
      if verdict.Running? {
        SamePrefix(verdict.state, one, two, i + 1, j, word);
      }
    }
  }

  /** The same state but for the place where a word being read began. */
  ghost predicate Moved(one: State, two: State, distance: int) {
    one.afterSelector == two.afterSelector
    && match one.mode
       case Word(start, text) => two.mode.Word? && two.mode.start == start + distance && two.mode.text == text
       case DollarTag(start, text) => two.mode.DollarTag? && two.mode.start == start + distance && two.mode.text == text
       case _ => two.mode == one.mode
  }

  /** A reference found at or after `from`, moved by `distance`; one found before it stays. */
  ghost function Carried(found: Option<nat>, from: nat, distance: int): Option<int> {
    match found
    case None => None
    case Some(start) => Some(if start < from then start else start + distance)
  }

  lemma MovedFromCode(afterSelector: bool, b: char, i: nat, j: nat)
    ensures Moved(FromCode(afterSelector, b, i), FromCode(afterSelector, b, j), j - i)
  {}

  ghost predicate MovedVerdict(one: Verdict, two: Verdict, distance: int) {
    match one
    case Found(start) => two.Found? && two.start == start + distance
    case Running(next) => two.Running? && Moved(next, two.state, distance)
  }

  lemma MovedStep(one: State, two: State, b: char, i: nat, j: nat, word: string)
    requires Moved(one, two, j - i)
    ensures MovedVerdict(Step(one, b, i, word), Step(two, b, j, word), j - i)
  {
    if one.mode.Word? || one.mode.DollarTag? {
      MovedPlacedStep(one, two, b, i, j, word);
    } else {
      MovedFromCode(one.afterSelector, b, i, j);
      MovedFromCode(false, b, i, j);
    }
  }

  lemma MovedPlacedStep(one: State, two: State, b: char, i: nat, j: nat, word: string)
    requires Moved(one, two, j - i) && (one.mode.Word? || one.mode.DollarTag?)
    ensures MovedVerdict(Step(one, b, i, word), Step(two, b, j, word), j - i)
  {
    MovedFromCode(one.afterSelector, b, i, j);
    MovedFromCode(false, b, i, j);
    MovedFromWord(one.mode.start, two.mode.start, one.mode.text, one.afterSelector, b, i, j, word);
    MovedFromWord(one.mode.start, two.mode.start, one.mode.text, false, b, i, j, word);
  }

  lemma MovedFromWord(start: nat, moved: nat, text: string, afterSelector: bool, b: char, i: nat, j: nat, word: string)
    requires moved == start + j - i
    ensures MovedVerdict(FromWord(start, text, afterSelector, b, i, word), FromWord(moved, text, afterSelector, b, j, word), j - i)
  {
    MovedFromCode(false, b, i, j);
  }

  lemma {:induction false} SameSuffix(st1: State, st2: State, one: string, two: string, i: nat, j: nat, word: string)
    requires i <= |one| && j <= |two| && one[i..] == two[j..] && Moved(st1, st2, j - i)
    ensures Run(st2, two, j, word) == Carried(Run(st1, one, i, word), 0, j - i)
    decreases |one| - i
  {
    assert |one| - i == |one[i..]| == |two| - j;
    if i < |one| {
      assert one[i] == one[i..][0] == two[j..][0] == two[j];
      assert one[i + 1..] == one[i..][1..] == two[j..][1..] == two[j + 1..];
      MovedStep(st1, st2, one[i], i, j, word);
      var next := Step(st1, one[i], i, word);
      if next.Running? {
        SameSuffix(next.state, Step(st2, two[j], j, word).state, one, two, i + 1, j + 1, word);
      }
    }
  }

  ghost predicate Placeless(st: State) {
    !st.mode.Word? && !st.mode.DollarTag?
  }

  lemma {:induction false} FoundLater(st: State, clause: string, i: nat, from: nat, word: string)
    requires from <= i <= |clause|
    requires st.mode.Word? || st.mode.DollarTag? ==> from <= st.mode.start
    ensures Run(st, clause, i, word).Some? ==> from <= Run(st, clause, i, word).value
    decreases |clause| - i
  {
    if i < |clause| {
      match Step(st, clause[i], i, word)
      case Found(_) =>
      case Running(next) => FoundLater(next, clause, i + 1, from, word);
    }
  }

  ghost function Start(): State {
    State(Code, false)
  }

  /** The argument behind every kind of opacity: what leaves the automaton in one state that holds
      no place may be exchanged for anything else that does. */
  lemma OpaqueSpan(pre: string, x: string, y: string, post: string, word: string)
    requires Through(Start(), pre + x, 0, |pre + x|, word) == Through(Start(), pre + y, 0, |pre + y|, word)
    requires match Through(Start(), pre + x, 0, |pre + x|, word)
             case Found(start) => start < |pre|
             case Running(st) => Placeless(st)
    ensures FirstReference(pre + y + post, word)
            == Carried(FirstReference(pre + x + post, word), |pre|, |y| - |x|)
  {
    var one, two := pre + x + post, pre + y + post;
    var i, j := |pre + x|, |pre + y|;
    assert one[..i] == pre + x && two[..j] == pre + y && one[i..] == post == two[j..];
    SamePrefix(Start(), one, pre + x, 0, i, word);
    SamePrefix(Start(), two, pre + y, 0, j, word);
    RunThrough(Start(), one, 0, i, word);
    RunThrough(Start(), two, 0, j, word);
    match Through(Start(), one, 0, i, word)
    case Found(_) =>
    case Running(st) =>
      SameSuffix(st, st, one, two, i, j, word);
      FoundLater(st, one, i, |pre|, word);
  }

  /** What `pre` decides about a span that opens with `open`: already found, or read in `inside`. */
  ghost predicate Opens(pre: string, open: string, inside: State, word: string) {
    match Through(Start(), pre + open, 0, |pre + open|, word)
    case Found(start) => start < |pre|
    case Running(st) => st == inside
  }

  /** The verdict at `j` where the one at `k` is `verdict`: a reference already found stays. */
  ghost function Onward(verdict: Verdict, clause: string, k: nat, j: nat, word: string): Verdict
    requires k <= j <= |clause|
  {
    if verdict.Running? then Through(verdict.state, clause, k, j, word) else verdict
  }

  lemma {:induction false} Compose(st: State, clause: string, i: nat, k: nat, j: nat, word: string)
    requires i <= k <= j <= |clause|
    ensures Through(st, clause, i, j, word) == Onward(Through(st, clause, i, k, word), clause, k, j, word)
    decreases k - i
  {
    if i < k {
      match Step(st, clause[i], i, word)
      case Found(_) =>
      case Running(next) => Compose(next, clause, i + 1, k, j, word);
    }
  }

  /** A span `open` + `rest` whose opening is read in `inside` and whose rest leads from there to `after`. */
  lemma SpanReads(pre: string, open: string, rest: string, inside: State, after: State, word: string)
    requires Opens(pre, open, inside, word)
    requires Through(inside, pre + open + rest, |pre + open|, |pre + open + rest|, word) == Running(after)
    ensures var clause := pre + (open + rest);
            match Through(Start(), pre + open, 0, |pre + open|, word)
            case Found(start) => Through(Start(), clause, 0, |clause|, word) == Found(start)
            case Running(_) => Through(Start(), clause, 0, |clause|, word) == Running(after)
  {
    var clause := pre + (open + rest);
    assert clause == pre + open + rest;
    assert clause[..|pre + open|] == pre + open == (pre + open)[..|pre + open|];
    SamePrefix(Start(), clause, pre + open, 0, |pre + open|, word);
    Compose(Start(), clause, 0, |pre + open|, |clause|, word);
  }

  lemma {:induction false} PrintedReads(clause: string, p: nat, text: string, quote: char, escapes: bool, word: string)
    requires quote == STRING_QUOTE || quote == IDENTIFIER_QUOTE
    requires HasAt(clause, p, Printed(text, quote, escapes))
    ensures var st := State(Quoted(quote, escapes), false);
            Through(st, clause, p, p + |Printed(text, quote, escapes)|, word) == Running(st)
    decreases text
  {
    if text != "" {
      var st := State(Quoted(quote, escapes), false);
      var head := PrintedByte(text[0], quote, escapes);
      var rest := Printed(text[1..], quote, escapes);
      HeadAt(clause, p, head, rest);
      PrintedReads(clause, p + |head|, text[1..], quote, escapes, word);
      if |head| == 2 {
        var half := State(if text[0] == quote then QuoteSeen(quote, escapes) else Escaped(quote), false);
        assert Step(st, clause[p], p, word) == Running(half) && Step(half, clause[p + 1], p + 1, word) == Running(st);
        assert Through(half, clause, p + 1, p + 2 + |rest|, word) == Through(st, clause, p + 2, p + 2 + |rest|, word);
      } else {
        assert Step(st, clause[p], p, word) == Running(st);
      }
    }
  }

  lemma LiteralReads(pre: string, text: string, quote: char, escapes: bool, word: string)
    requires quote == STRING_QUOTE || quote == IDENTIFIER_QUOTE
    ensures var clause := pre + (Printed(text, quote, escapes) + [quote]);
            Through(State(Quoted(quote, escapes), false), clause, |pre|, |clause|, word)
            == Running(State(QuoteSeen(quote, escapes), false))
  {
    var clause := pre + (Printed(text, quote, escapes) + [quote]);
    var closing := |clause| - 1;
    assert clause[|pre|..closing] == Printed(text, quote, escapes) && clause[closing] == quote;
    PrintedReads(clause, |pre|, text, quote, escapes, word);
    Compose(State(Quoted(quote, escapes), false), clause, |pre|, closing, |clause|, word);
    var seen := State(QuoteSeen(quote, escapes), false);
    assert Step(State(Quoted(quote, escapes), false), quote, closing, word) == Running(seen);
    assert Through(seen, clause, |clause|, |clause|, word) == Running(seen);
  }

  /** Wherever a quote opens a string constant, an escape string or a quoted identifier, the
      reference reported does not depend on the text printed in it. */
  lemma LiteralTextIsOpaque(pre: string, quote: char, escapes: bool, s: string, t: string, post: string, word: string)
    requires quote == STRING_QUOTE || quote == IDENTIFIER_QUOTE
    requires Opens(pre, [quote], State(Quoted(quote, escapes), false), word)
    ensures var x, y := [quote] + (Printed(s, quote, escapes) + [quote]), [quote] + (Printed(t, quote, escapes) + [quote]);
            FirstReference(pre + y + post, word)
            == Carried(FirstReference(pre + x + post, word), |pre|, |y| - |x|)
  {
    var inside, after := State(Quoted(quote, escapes), false), State(QuoteSeen(quote, escapes), false);
    var x, y := Printed(s, quote, escapes) + [quote], Printed(t, quote, escapes) + [quote];
    LiteralReads(pre + [quote], s, quote, escapes, word);
    LiteralReads(pre + [quote], t, quote, escapes, word);
    SpanReads(pre, [quote], x, inside, after, word);
    SpanReads(pre, [quote], y, inside, after, word);
    OpaqueSpan(pre, [quote] + x, [quote] + y, post, word);
  }

  lemma {:induction false} CommentReads(clause: string, p: nat, comment: Comment, depth: nat, afterSelector: bool, word: string)
    requires comment.WellNested() && depth >= 1 && HasAt(clause, p, comment.Text())
    ensures Through(State(BlockComment(depth, Nothing), afterSelector), clause, p, p + |comment.Text()|, word)
            == Running(State(if depth == 1 then Code else BlockComment(depth - 1, Nothing), afterSelector))
    decreases comment, 1
  {
    var st := State(BlockComment(depth, Nothing), afterSelector);
    var end := p + |comment.Text()|;
    match comment
    case Done =>
      assert PairAt(clause, p, '*', '/');
      PairReads(st, clause, p, end, word);
    case Byte(c, rest) =>
      HeadAt(clause, p, [c], rest.Text());
      assert clause[p] == c && clause[p + 1] == rest.Text()[0];
      CommentReads(clause, p + 1, rest, depth, afterSelector, word);
      ByteReads(st, clause, p, end, word);
    case Nested(_, _) => NestedCommentReads(clause, p, comment, depth, afterSelector, word);
  }

  lemma {:induction false} NestedCommentReads(clause: string, p: nat, comment: Comment, depth: nat, afterSelector: bool, word: string)
    requires comment.Nested? && comment.WellNested() && depth >= 1 && HasAt(clause, p, comment.Text())
    ensures Through(State(BlockComment(depth, Nothing), afterSelector), clause, p, p + |comment.Text()|, word)
            == Running(State(if depth == 1 then Code else BlockComment(depth - 1, Nothing), afterSelector))
    decreases comment, 0
  {
    var inner, rest := comment.inner, comment.rest;
    var middle := p + 2 + |inner.Text()|;
    NestedAt(clause, p, inner, rest);
    NestedLength(comment, p, middle);
    CommentReads(clause, middle, rest, depth, afterSelector, word);
    CommentReads(clause, p + 2, inner, depth + 1, afterSelector, word);
    NestedReads(State(BlockComment(depth, Nothing), afterSelector), clause, p, middle, p + |comment.Text()|, word);
  }

  lemma NestedReads(st: State, clause: string, p: nat, middle: nat, end: nat, word: string)
    requires p + 2 <= middle <= end <= |clause| && PairAt(clause, p, '/', '*')
    requires st.mode.BlockComment? && st.mode.pending.Nothing? && st.mode.depth >= 1
    requires Through(st.(mode := BlockComment(st.mode.depth + 1, Nothing)), clause, p + 2, middle, word) == Running(st)
    ensures Through(st, clause, p, end, word) == Through(st, clause, middle, end, word)
  {
    PairReads(st, clause, p, end, word);
    Compose(st.(mode := BlockComment(st.mode.depth + 1, Nothing)), clause, p + 2, middle, end, word);
  }

  lemma PairReads(st: State, clause: string, p: nat, end: nat, word: string)
    requires p + 2 <= end <= |clause| && st.mode.BlockComment? && st.mode.pending.Nothing? && st.mode.depth >= 1
    requires PairAt(clause, p, '/', '*') || PairAt(clause, p, '*', '/')
    ensures var depth := if clause[p] == '/' then st.mode.depth + 1 else st.mode.depth - 1;
            Through(st, clause, p, end, word)
            == Through(st.(mode := if depth == 0 then Code else BlockComment(depth, Nothing)), clause, p + 2, end, word)
  {
    var half := st.(mode := BlockComment(st.mode.depth, if clause[p] == '/' then Slash else Star));
    assert Step(st, clause[p], p, word) == Running(half);
    assert Through(st, clause, p, end, word) == Through(half, clause, p + 1, end, word);
  }

  /** A byte that begins no delimiter leaves no trace, whatever the automaton waited for after it. */
  lemma ByteReads(st: State, clause: string, p: nat, end: nat, word: string)
    requires p + 1 < end <= |clause| && st.mode.BlockComment? && st.mode.pending.Nothing?
    requires !PairAt(clause, p, '/', '*') && !PairAt(clause, p, '*', '/')
    ensures Through(st, clause, p, end, word) == Through(st, clause, p + 1, end, word)
  {
    match Step(st, clause[p], p, word)
    case Running(next) =>
      assert Step(next, clause[p + 1], p + 1, word) == Step(st, clause[p + 1], p + 1, word);
  }

  /** Wherever a block comment opens, the reference reported does not depend on what it holds. */
  lemma CommentTextIsOpaque(pre: string, a: Comment, b: Comment, afterSelector: bool, post: string, word: string)
    requires a.WellNested() && b.WellNested()
    requires Opens(pre, "/*", State(BlockComment(1, Nothing), afterSelector), word)
    ensures var x, y := "/*" + a.Text(), "/*" + b.Text();
            FirstReference(pre + y + post, word)
            == Carried(FirstReference(pre + x + post, word), |pre|, |y| - |x|)
  {
    var inside, after := State(BlockComment(1, Nothing), afterSelector), State(Code, afterSelector);
    var x, y := a.Text(), b.Text();
    CommentReads(pre + "/*" + x, |pre + "/*"|, a, 1, afterSelector, word);
    CommentReads(pre + "/*" + y, |pre + "/*"|, b, 1, afterSelector, word);
    SpanReads(pre, "/*", x, inside, after, word);
    SpanReads(pre, "/*", y, inside, after, word);
    OpaqueSpan(pre, "/*" + x, "/*" + y, post, word);
  }

  lemma {:induction false} DollarReads(clause: string, token: string, body: nat, j: nat, end: nat, since: Option<string>, word: string)
    requires body <= j && body + |token| <= end <= |clause| && j < end && IsDelimiter(token) && ReadSince(clause, body, j, since)
    requires HasAt(clause, end - |token|, token)
    requires forall k :: body <= k < end - |token| ==> !HasAt(clause, k, token)
    ensures Through(State(DollarBody(TagOf(token), since), false), clause, j, end, word) == Running(State(Code, false))
    decreases end - j
  {
    var st := State(DollarBody(TagOf(token), since), false);
    if j == end - 1 {
      TokenRead(clause, token, body, j, since, end - |token|);
    }
    if clause[j] == '$' && since == Some(TagOf(token)) {
      TagReadBack(clause, token, body, j);
      assert Step(st, '$', j, word) == Running(State(Code, false));
      assert j == end - 1;
    } else {
      var next := if clause[j] == '$' then Some("") else if since == None then None else Some(since.value + [clause[j]]);
      assert Step(st, clause[j], j, word) == Running(State(DollarBody(TagOf(token), next), false));
      if j < end - 1 {
        DollarReads(clause, token, body, j + 1, end, next, word);
      }
    }
  }

  lemma BodyReads(pre: string, token: string, body: string, word: string)
    requires IsDelimiter(token) && Find(body + token, 0, token) == Some(|body|)
    ensures var clause := pre + (body + token);
            Through(State(DollarBody(TagOf(token), None), false), clause, |pre|, |clause|, word) == Running(State(Code, false))
  {
    var clause := pre + (body + token);
    assert HasAt(clause, |pre|, body + token);
    FindsAt(clause, |pre|, token, body);
    DollarReads(clause, token, |pre|, |pre|, |clause|, None, word);
  }

  /** Wherever a dollar quote opens, the reference does not depend on its body up to the tag's
      first match. */
  lemma DollarTextIsOpaque(pre: string, token: string, a: string, b: string, post: string, word: string)
    requires IsDelimiter(token)
    requires Find(a + token, 0, token) == Some(|a|) && Find(b + token, 0, token) == Some(|b|)
    requires Opens(pre, token, State(DollarBody(TagOf(token), None), false), word)
    ensures var x, y := token + (a + token), token + (b + token);
            FirstReference(pre + y + post, word)
            == Carried(FirstReference(pre + x + post, word), |pre|, |y| - |x|)
  {
    var inside, after := State(DollarBody(TagOf(token), None), false), State(Code, false);
    BodyReads(pre + token, token, a, word);
    BodyReads(pre + token, token, b, word);
    SpanReads(pre, token, a + token, inside, after, word);
    SpanReads(pre, token, b + token, inside, after, word);
    OpaqueSpan(pre, token + (a + token), token + (b + token), post, word);
  }
}
