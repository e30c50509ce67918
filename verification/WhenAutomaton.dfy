/** PostgreSQL's lexical structure (section 4.1 of its manual) as an automaton that reads one byte
    at a time and never looks ahead or back. It is the reference the jump scanner is proved
    against, and shares nothing with it but the byte classes. */
module WhenAutomaton {
  import opened Options
  import opened WhenBytes

  /** The byte of a comment delimiter already read, when the next byte may complete it. */
  datatype Pending = Nothing | Slash | Star

  datatype Mode =
    | Code
    | Word(start: nat, text: string)
    | OneDash
    | OneSlash
    | LineComment
    | BlockComment(depth: nat, pending: Pending)
    | Quoted(quote: char, escapes: bool)
    | Escaped(quote: char)
    | QuoteSeen(quote: char, escapes: bool)          // closed, unless the next byte doubles the quote
    | Gap(escapes: bool, newline: bool)              // after a string constant that may continue
    | GapDash(escapes: bool, newline: bool)
    | GapComment(escapes: bool, newline: bool)
    | DollarTag(start: nat, text: string)            // after a `$`: a delimiter, or a lone `$` and a word
    | DollarBody(tag: string, since: Option<string>) // `since`: what followed the body's last `$`

  /** `afterSelector`: the last token was a `.`, so a word here names a field. */
  datatype State = State(mode: Mode, afterSelector: bool)

  datatype Verdict = Running(state: State) | Found(start: nat)

  function FromCode(afterSelector: bool, b: char, i: nat): State {
    if IsWordStart(b) then State(Word(i, [b]), afterSelector)
    else if b == '-' then State(OneDash, afterSelector)
    else if b == '/' then State(OneSlash, afterSelector)
    else if b == STRING_QUOTE || b == IDENTIFIER_QUOTE then State(Quoted(b, false), false)
    else if b == '$' then State(DollarTag(i + 1, ""), false)
    else if IsSpace(b) then State(Code, afterSelector)
    else State(Code, b == FIELD_SELECTOR)
  }

  function FromWord(start: nat, text: string, afterSelector: bool, b: char, i: nat, word: string): Verdict {
    if IsWordByte(b) then Running(State(Word(start, text + [b]), afterSelector))
    else if b == STRING_QUOTE && EqualFold(text, "E") then Running(State(Quoted(STRING_QUOTE, true), false))
    else if !afterSelector && EqualFold(text, word) then Found(start)
    else Running(FromCode(false, b, i))
  }

  function FromBlockComment(depth: nat, pending: Pending, b: char): Mode {
    if pending == Slash && b == '*' then BlockComment(depth + 1, Nothing)
    else if pending == Star && b == '/' then if depth <= 1 then Code else BlockComment(depth - 1, Nothing)
    else BlockComment(depth, if b == '/' then Slash else if b == '*' then Star else Nothing)
  }

  function FromGap(escapes: bool, newline: bool, b: char, i: nat): State {
    if IsSpace(b) then State(Gap(escapes, newline || IsNewline(b)), false)
    else if b == '-' then State(GapDash(escapes, newline), false)
    else if b == STRING_QUOTE && newline then State(Quoted(STRING_QUOTE, escapes), false)
    else FromCode(false, b, i)
  }

  function Step(st: State, b: char, i: nat, word: string): Verdict {
    match st.mode
    case Code => Running(FromCode(st.afterSelector, b, i))
    case Word(start, text) => FromWord(start, text, st.afterSelector, b, i, word)
    case OneDash => Running(if b == '-' then State(LineComment, st.afterSelector) else FromCode(false, b, i))
    case OneSlash =>
      Running(if b == '*' then State(BlockComment(1, Nothing), st.afterSelector) else FromCode(false, b, i))
    case LineComment => Running(if IsNewline(b) then State(Code, st.afterSelector) else st)
    case BlockComment(depth, pending) => Running(State(FromBlockComment(depth, pending, b), st.afterSelector))
    case Quoted(quote, escapes) =>
      Running(State(if escapes && b == '\\' then Escaped(quote)
                    else if b == quote then QuoteSeen(quote, escapes)
                    else Quoted(quote, escapes), false))
    case Escaped(quote) => Running(State(Quoted(quote, true), false))
    case QuoteSeen(quote, escapes) =>
      Running(if b == quote then State(Quoted(quote, escapes), false)
              else if quote == STRING_QUOTE then FromGap(escapes, false, b, i)
              else FromCode(false, b, i))
    case Gap(escapes, newline) => Running(FromGap(escapes, newline, b, i))
    case GapDash(escapes, newline) =>
      Running(if b == '-' then State(GapComment(escapes, newline), false) else FromCode(false, b, i))
    case GapComment(escapes, newline) =>
      Running(if IsNewline(b) then State(Gap(escapes, true), false) else st)
    case DollarTag(start, text) =>
      if b == '$' then Running(State(DollarBody(text, None), false))
      else if if text == "" then IsWordStart(b) else IsTagByte(b) then
        Running(State(DollarTag(start, text + [b]), false))
      else if text == "" then Running(FromCode(false, b, i))
      else FromWord(start, text, false, b, i, word)
    case DollarBody(tag, since) =>
      Running(State(if b != '$' then DollarBody(tag, if since == None then None else Some(since.value + [b]))
                    else if since == Some(tag) then Code
                    else DollarBody(tag, Some("")), false))
  }

  /** What the end of the clause decides: only a word still being read can be the reference. */
  function Finish(st: State, word: string): Option<nat> {
    match st.mode
    case Word(start, text) => if !st.afterSelector && EqualFold(text, word) then Some(start) else None
    case DollarTag(start, text) => if text != "" && EqualFold(text, word) then Some(start) else None
    case _ => None
  }

  /** The answer of an automaton in state `st` about the rest of the clause from byte `i`. */
  function Run(st: State, clause: string, i: nat, word: string): Option<nat>
    requires i <= |clause|
    decreases |clause| - i
  {
    if i == |clause| then Finish(st, word)
    else match Step(st, clause[i], i, word)
      case Found(start) => Some(start)
      case Running(next) => Run(next, clause, i + 1, word)
  }

  /** Where the first bare reference to `word` begins, read byte by byte. */
  function FirstReference(clause: string, word: string): Option<nat> {
    Run(State(Code, false), clause, 0, word)
  }
}
