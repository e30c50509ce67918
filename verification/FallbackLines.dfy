/** What shape a line of an unparseable document is, and the quotes and flow containers it leaves open
    (internal/config lineshape.go, linecolumn.go, sensitivequote.go). */
module FallbackLines {
  import opened TextAt
  import opened TextEdits

  predicate IsIndent(c: char) {
    c == ' ' || c == '\t'
  }

  function IndentWidth(line: string): (n: nat)
    ensures n <= |line| && (forall k :: 0 <= k < n ==> IsIndent(line[k])) && (n < |line| ==> !IsIndent(line[n]))
  {
    if line == "" || !IsIndent(line[0]) then 0 else 1 + IndentWidth(line[1..])
  }

  function Content(line: string): string {
    line[IndentWidth(line)..]
  }

  function WrittenContent(content: string): string {
    if content == "" || !IsIndent(content[|content| - 1]) then content else WrittenContent(content[..|content| - 1])
  }

  /** A blank line, or a document marker: a line with no bytes a secret could be. */
  predicate HoldsNothing(content: string) {
    var written := WrittenContent(content);
    written == "" || written == "---" || written == "..."
  }

  predicate LooksLikeAComment(content: string) {
    "#" <= WrittenContent(content)
  }

  predicate ClosesNoBlock(content: string) {
    HoldsNothing(content) || LooksLikeAComment(content)
  }

  /** The line's own indentation, and the placeholder for all that followed it. */
  function Blanked(line: string): string {
    line[..IndentWidth(line)] + PLACEHOLDER
  }

  // ----- what a line leaves open -------------------------------------------------------------------

  datatype Quote = Unquoted | Single | Double

  function QuoteChar(q: Quote): char
    requires q != Unquoted
  {
    if q == Single then '\'' else '"'
  }

  datatype Continuation = Continuation(quote: Quote, sequences: nat, mappings: nat, taintedClose: bool) {
    predicate FlowOpen() {
      sequences > 0 || mappings > 0
    }

    predicate Open() {
      quote != Unquoted || FlowOpen() || taintedClose
    }
  }

  const NO_CONTINUATION := Continuation(Unquoted, 0, 0, false)

  predicate BeginsComment(line: string, at: nat)
    requires at < |line|
  {
    line[at] == '#' && (at == 0 || IsIndent(line[at - 1]))
  }

  /** One character of an open quoted scalar: the quote still open after it, and where the scan stands. */
  function InsideQuoted(text: string, at: nat, quote: Quote): (Quote, nat)
    requires at < |text| && quote != Unquoted
  {
    if quote == Double && text[at] == '\\' then (quote, at + 1)
    else if text[at] != QuoteChar(quote) then (quote, at)
    else if quote == Single && at + 1 < |text| && text[at + 1] == '\'' then (quote, at + 1)
    else (Unquoted, at)
  }

  /** What one unquoted character does to the containers. */
  function Delimited(s: Continuation, c: char): Continuation {
    if c == '\'' then s.(quote := Single)
    else if c == '"' then s.(quote := Double)
    else if c == '[' then s.(sequences := s.sequences + 1)
    else if c == ']' then (if s.sequences > 0 then s.(sequences := s.sequences - 1) else s)
    else if c == '{' then s.(mappings := s.mappings + 1)
    else if c == '}' then (if s.mappings > 0 then s.(mappings := s.mappings - 1) else s)
    else s
  }

  /** What may follow the bracket that closed a container from the line above: nothing but space, a line
      break, or a comment set off by space. */
  predicate TrustedSuffix(suffix: string) {
    var past := IndentWidth(suffix);
    past == |suffix| || suffix[past] == '\r' || suffix[past] == '\n' || (suffix[past] == '#' && past > 0)
  }

  function Scan(s: Continuation, line: string, at: nat, flowWasOpen: bool): Continuation
    decreases |line| - at
  {
    if at >= |line| then s
    else if s.quote != Unquoted then
      var (quote, past) := InsideQuoted(line, at, s.quote);
      Scan(s.(quote := quote), line, past + 1, flowWasOpen)
    else if BeginsComment(line, at) then s
    else
      var next := Delimited(s, line[at]);
      if flowWasOpen && !next.FlowOpen() then next.(taintedClose := !TrustedSuffix(line[at + 1..]))
      else Scan(next, line, at + 1, flowWasOpen)
  }

  function AfterFrom(s: Continuation, line: string, start: nat): Continuation {
    if s.taintedClose then s.(taintedClose := false) else Scan(s, line, start, s.FlowOpen())
  }

  // ----- the loops ---------------------------------------------------------------------------------

  lemma {:induction false} IndentWidthIs(line: string, n: nat)
    requires n <= |line| && (forall k :: 0 <= k < n ==> IsIndent(line[k])) && (n < |line| ==> !IsIndent(line[n]))
    ensures IndentWidth(line) == n
  {
    var width := IndentWidth(line);
    assert width < |line| ==> !IsIndent(line[width]);
  }

  method TrustedFlowCloseSuffix(suffix: string) returns (trusted: bool)
    ensures trusted <==> TrustedSuffix(suffix)
  {
    var separated := false;
    for at := 0 to |suffix|
      invariant forall k :: 0 <= k < at ==> IsIndent(suffix[k])
      invariant separated <==> at > 0
    {
      if IsIndent(suffix[at]) {
        separated := true;
        continue;
      }
      IndentWidthIs(suffix, at);
      if suffix[at] == '\r' || suffix[at] == '\n' {
        return true;
      }
      return suffix[at] == '#' && separated;
    }
    IndentWidthIs(suffix, |suffix|);
    return true;
  }

  method After(before: Continuation, line: string, start: nat) returns (s: Continuation)
    ensures s == AfterFrom(before, line, start)
  {
    s := before;
    if s.taintedClose {
      return s.(taintedClose := false);
    }
    var flowWasOpen := s.FlowOpen();
    var i := start;
    while i < |line|
      invariant Scan(s, line, i, flowWasOpen) == AfterFrom(before, line, start)
      decreases |line| - i
    {
      if s.quote != Unquoted {
        var (quote, past) := InsideQuoted(line, i, s.quote);
        s := s.(quote := quote);
        i := past + 1;
        continue;
      }
      if BeginsComment(line, i) {
        return;
      }
      s := Delimited(s, line[i]);
      if flowWasOpen && !s.FlowOpen() {
        var trusted := TrustedFlowCloseSuffix(line[i + 1..]);
        return s.(taintedClose := !trusted);
      }
      i := i + 1;
    }
  }

  // ----- what stays open ---------------------------------------------------------------------------

  /** No character of the line can end what is open. */
  predicate CannotClose(s: Continuation, line: string) {
    if s.quote != Unquoted then forall k :: 0 <= k < |line| ==> line[k] != QuoteChar(s.quote)
    else forall k :: 0 <= k < |line| ==> line[k] != ']' && line[k] != '}'
  }

  lemma {:induction false} QuoteStaysOpen(s: Continuation, line: string, at: nat, flowWasOpen: bool)
    requires s.quote != Unquoted && CannotClose(s, line)
    ensures Scan(s, line, at, flowWasOpen) == s
    decreases |line| - at
  {
    if at < |line| {
      var (quote, past) := InsideQuoted(line, at, s.quote);
      QuoteStaysOpen(s.(quote := quote), line, past + 1, flowWasOpen);
    }
  }

  lemma {:induction false} FlowStaysOpen(s: Continuation, line: string, at: nat, flowWasOpen: bool)
    requires s.FlowOpen() && forall k :: 0 <= k < |line| ==> line[k] != ']' && line[k] != '}'
    ensures Scan(s, line, at, flowWasOpen).FlowOpen() && Scan(s, line, at, flowWasOpen).taintedClose == s.taintedClose
    decreases |line| - at
  {
    if at < |line| {
      if s.quote != Unquoted {
        var (quote, past) := InsideQuoted(line, at, s.quote);
        FlowStaysOpen(s.(quote := quote), line, past + 1, flowWasOpen);
      } else if !BeginsComment(line, at) {
        FlowStaysOpen(Delimited(s, line[at]), line, at + 1, flowWasOpen);
      }
    }
  }

  /** What is open before a line that cannot close it is open after it. */
  predicate StillOpen(s: Continuation, now: Continuation) {
    !now.taintedClose && (if s.quote != Unquoted then now == s else now.FlowOpen())
  }

  lemma LineKeepsOpen(s: Continuation, now: Continuation, line: string)
    requires (s.quote != Unquoted || s.FlowOpen()) && StillOpen(s, now) && CannotClose(s, line)
    ensures StillOpen(s, AfterFrom(now, line, 0))
  {
    if s.quote != Unquoted {
      QuoteStaysOpen(now, line, 0, now.FlowOpen());
    } else {
      FlowStaysOpen(now, line, 0, now.FlowOpen());
    }
  }

  // ----- a quoted scalar hides its delimiters ------------------------------------------------------

  function Escape(c: char, quote: Quote): (r: string)
    requires quote != Unquoted
    ensures 1 <= |r| <= 2
  {
    if quote == Single && c == '\'' then "''"
    else if quote == Double && (c == '"' || c == '\\') then ['\\', c]
    else [c]
  }

  function Escaped(body: string, quote: Quote): string
    requires quote != Unquoted
  {
    if body == "" then "" else Escape(body[0], quote) + Escaped(body[1..], quote)
  }

  lemma EscapeStaysInside(s: Continuation, line: string, at: nat, c: char, flowWasOpen: bool)
    requires s.quote != Unquoted && HasAt(line, at, Escape(c, s.quote))
    ensures Scan(s, line, at, flowWasOpen) == Scan(s, line, at + |Escape(c, s.quote)|, flowWasOpen)
  {
    var text := Escape(c, s.quote);
    assert line[at] == text[0];
    if |text| == 2 {
      assert line[at + 1] == text[1];
    }
  }

  lemma {:induction false} BodyStaysInside(s: Continuation, line: string, at: nat, body: string, flowWasOpen: bool)
    requires s.quote != Unquoted && HasAt(line, at, Escaped(body, s.quote))
    ensures Scan(s, line, at, flowWasOpen) == Scan(s, line, at + |Escaped(body, s.quote)|, flowWasOpen)
    decreases |body|
  {
    if body != "" {
      HeadAt(line, at, Escape(body[0], s.quote), Escaped(body[1..], s.quote));
      EscapeStaysInside(s, line, at, body[0], flowWasOpen);
      BodyStaysInside(s, line, at + |Escape(body[0], s.quote)|, body[1..], flowWasOpen);
    }
  }

  /** Whatever a quoted scalar says, the scan resumes past its closing quote with the containers exactly as
      they stood: no bracket, brace, `#` or other quote inside it is taken for a delimiter. */
  lemma QuotedTextIsOpaque(s: Continuation, quote: Quote, line: string, at: nat, body: string, flowWasOpen: bool)
    requires s.quote == Unquoted && quote != Unquoted && (flowWasOpen ==> s.FlowOpen())
    requires HasAt(line, at, [QuoteChar(quote)] + Escaped(body, quote) + [QuoteChar(quote)])
    requires var past := at + |Escaped(body, quote)| + 2; past < |line| ==> line[past] != QuoteChar(quote)
    ensures Scan(s, line, at, flowWasOpen) == Scan(s, line, at + |Escaped(body, quote)| + 2, flowWasOpen)
  {
    var mark := [QuoteChar(quote)];
    HeadAt(line, at, mark + Escaped(body, quote), mark);
    HeadAt(line, at, mark, Escaped(body, quote));
    assert line[at] == mark[0];
    var inside := s.(quote := quote);
    BodyStaysInside(inside, line, at + 1, body, flowWasOpen);
    QuoteCloses(inside, line, at + 1 + |Escaped(body, quote)|, flowWasOpen);
  }

  lemma QuoteCloses(s: Continuation, line: string, at: nat, flowWasOpen: bool)
    requires s.quote != Unquoted && HasAt(line, at, [QuoteChar(s.quote)])
    requires at + 1 < |line| ==> line[at + 1] != QuoteChar(s.quote)
    ensures Scan(s, line, at, flowWasOpen) == Scan(s.(quote := Unquoted), line, at + 1, flowWasOpen)
  {
    assert line[at] == QuoteChar(s.quote);
  }
}
