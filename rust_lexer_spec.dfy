/** The Rust lexer as functions of the text and a cursor. A `Cursor` is the
    lexer's mutable state (`position`, `line`, `column`, `ch`); every scanning
    step is a function from a cursor to its result and the cursor after it.
    The `Lexer` class in module RustLexer is proved against these functions. */
module RustLexerSpec {
  import opened Wrappers
  import opened Ints
  import opened Chars
  import opened RustToken
  import opened Escapes

  datatype LexerError = UnexpectedCharacter(message: string) | UnterminatedString(partial: string)

  /** What a call of `next` ends in: its `Result`, or a panic (an `unwrap` on
      a failed parse, an invalid escape). */
  datatype Outcome = Ok(token: Token) | Err(error: LexerError) | Panic(reason: string)

  datatype Cursor = Cursor(position: nat, line: nat, column: nat, ch: char)

  /** `contents.chars().nth(i).unwrap_or_default()`: the character at `i`,
      or `'\0'` past the end. */
  function CharAt(s: string, i: nat): char {
    if i < |s| then s[i] else '\0'
  }

  /** The cursor invariant: the position is inside the text (or just past
      it) and `ch` is the character there. */
  predicate ValidCursor(s: string, c: Cursor) {
    c.position <= |s| && c.ch == CharAt(s, c.position)
  }

  /** `Lexer::new`. */
  function Start(s: string): (c: Cursor)
    ensures ValidCursor(s, c)
    ensures c.position == 0 && c.line == 1 && c.column == 1
  {
    Cursor(0, 1, 1, CharAt(s, 0))
  }

  /** `can_advance`. */
  predicate CanAdvance(c: Cursor) { c.ch != '\0' }

  /** `advance`: a no-op once `ch` is `'\0'`; otherwise one character
      further, a newline moving to the next line at column 0. */
  function Advance(s: string, c: Cursor): (d: Cursor)
    requires ValidCursor(s, c)
    ensures ValidCursor(s, d)
    ensures !CanAdvance(c) ==> d == c
    ensures CanAdvance(c) ==> d.position == c.position + 1
    ensures CanAdvance(c) && c.ch == '\n' ==> d.line == c.line + 1 && d.column == 0
    ensures CanAdvance(c) && c.ch != '\n' ==> d.line == c.line && d.column == c.column + 1
  {
    if !CanAdvance(c) then c
    else if c.ch == '\n' then Cursor(c.position + 1, c.line + 1, 0, CharAt(s, c.position + 1))
    else Cursor(c.position + 1, c.line, c.column + 1, CharAt(s, c.position + 1))
  }

  /** `peek_char(offset)`. */
  function PeekChar(s: string, c: Cursor, offset: nat): char {
    CharAt(s, c.position + offset)
  }

  /** `skip_whitespace`: spaces and tabs only. */
  function SkipWhitespace(s: string, c: Cursor): (d: Cursor)
    requires ValidCursor(s, c)
    ensures ValidCursor(s, d) && c.position <= d.position
    ensures d.ch != ' ' && d.ch != '\t'
    ensures forall i :: c.position <= i < d.position ==> s[i] == ' ' || s[i] == '\t'
    decreases |s| - c.position
  {
    if CanAdvance(c) && (c.ch == ' ' || c.ch == '\t') then SkipWhitespace(s, Advance(s, c)) else c
  }

  /** `skip_until_char(x)`: stops on `x` or at the end. */
  function SkipUntilChar(s: string, c: Cursor, x: char): (d: Cursor)
    requires ValidCursor(s, c)
    ensures ValidCursor(s, d) && c.position <= d.position
    ensures d.ch == x || !CanAdvance(d)
    ensures forall i :: c.position <= i < d.position ==> s[i] != x && s[i] != '\0'
    decreases |s| - c.position
  {
    if CanAdvance(c) && c.ch != x then SkipUntilChar(s, Advance(s, c), x) else c
  }

  /** `skip_until_string(pattern)`: stops where the remaining text starts with
      `pattern`, or at the end. */
  function SkipUntilString(s: string, c: Cursor, pattern: string): (d: Cursor)
    requires ValidCursor(s, c)
    ensures ValidCursor(s, d) && c.position <= d.position
    ensures !CanAdvance(d) || StartsAt(s, d.position, pattern)
    ensures forall i :: c.position <= i < d.position ==> !StartsAt(s, i, pattern) && s[i] != '\0'
    decreases |s| - c.position
  {
    if CanAdvance(c) && !StartsAt(s, c.position, pattern) then SkipUntilString(s, Advance(s, c), pattern) else c
  }

  /** `is_start_of_comment`: on a line or block comment marker. */
  predicate IsStartOfComment(s: string, c: Cursor) {
    c.ch == '/' && (PeekChar(s, c, 1) == '/' || PeekChar(s, c, 1) == '*')
  }

  /** `skip_comments`: one line comment (through its newline) or one block
      comment (through its closing marker); nothing elsewhere. */
  function SkipComments(s: string, c: Cursor): (d: Cursor)
    requires ValidCursor(s, c)
    ensures ValidCursor(s, d) && c.position <= d.position
    ensures d.position == c.position <==> !IsStartOfComment(s, c)
    ensures !IsStartOfComment(s, c) ==> d == c
  {
    if !CanAdvance(c) || c.ch != '/' then c
    else if PeekChar(s, c, 1) == '/' then Advance(s, SkipUntilChar(s, c, '\n'))
    else if PeekChar(s, c, 1) == '*' then Advance(s, Advance(s, SkipUntilString(s, c, "*/")))
    else c
  }

  /** The characters of an identifier. */
  predicate IsIdentChar(ch: char) { IsAlnum(ch) || ch == '_' }

  /** The loop of `collect_identifier`, pushing onto `acc`. */
  function IdentRun(s: string, c: Cursor, acc: string): (r: (string, Cursor))
    requires ValidCursor(s, c)
    ensures ValidCursor(s, r.1) && c.position <= r.1.position
    decreases |s| - c.position
  {
    if CanAdvance(c) && IsIdentChar(c.ch) then IdentRun(s, Advance(s, c), acc + [c.ch]) else (acc, c)
  }

  /** `find_keyword_type`. */
  function FindKeywordType(id: string): KeywordType {
    match id
    case "null" => Null
    case "fn" => Fn
    case "if" => If
    case "else" => Else
    case "while" => While
    case "for" => For
    case "return" => Return
    case "import" => Import
    case "as" => As
    case "from" => From
    case "break" => Break
    case "continue" => Continue
    case "true" => True
    case "false" => False
    case _ => KeywordType.Unknown
  }

  /** `collect_identifier`. */
  function CollectIdentifier(s: string, c: Cursor): (r: (Outcome, Cursor))
    requires ValidCursor(s, c)
    ensures ValidCursor(s, r.1)
  {
    var (id, d) := IdentRun(s, c, "");
    var k := FindKeywordType(id);
    var tok := NewToken(if k != KeywordType.Unknown then KEYWORD else ID, id, c.line, c.column);
    (Ok(tok.(keywordType := k)), d)
  }

  /** Which of the flags `is_hex`, `is_bin`, `is_oct` `collect_number` sets
      (`Dec` for none). */
  datatype Radix = Dec | Hex | Bin | Oct

  function RadixBase(r: Radix): nat {
    match r
    case Dec => 10
    case Hex => 16
    case Bin => 2
    case Oct => 8
  }

  /** The loop condition of `collect_number`'s main loop. */
  predicate Accepts(r: Radix, ch: char) {
    match r
    case Hex => IsRadixDigit(ch, 16)
    case Bin => ch == '0' || ch == '1'
    case Oct => IsRadixDigit(ch, 8)
    case Dec => IsDigit(ch) || ch == '.'
  }

  /** The prefix step of `collect_number`: a `0x`, `0b` or `0o` prefix selects
      the radix and is not kept; a lone `0` or a leading `.` starts the text
      with `"0"`. */
  function NumberPrefix(s: string, c: Cursor): (r: (Radix, string, Cursor))
    requires ValidCursor(s, c)
    ensures ValidCursor(s, r.2) && c.position <= r.2.position
    ensures r.1 == "" || r.1 == "0"
    ensures r.0 != Dec ==> r.1 == ""
  {
    if c.ch == '0' then
      var c1 := Advance(s, c);
      if CanAdvance(c1) then
        if c1.ch == 'x' then (Hex, "", Advance(s, c1))
        else if c1.ch == 'b' then (Bin, "", Advance(s, c1))
        else if c1.ch == 'o' then (Oct, "", Advance(s, c1))
        else (Dec, "0", c1)
      else (Dec, "0", c1)
    else if c.ch == '.' then (Dec, "0", c)
    else (Dec, "", c)
  }

  /** The main loop of `collect_number`: accepted characters are pushed, and
      a second `'.'` stops it. The flag is `dot`. */
  function DigitRun(s: string, c: Cursor, radix: Radix, acc: string, dot: bool): (r: (string, bool, Cursor))
    requires ValidCursor(s, c)
    ensures ValidCursor(s, r.2) && c.position <= r.2.position
    decreases |s| - c.position
  {
    if CanAdvance(c) && Accepts(radix, c.ch) then
      if c.ch == '.' && dot then (acc, dot, c)
      else DigitRun(s, Advance(s, c), radix, acc + [c.ch], dot || c.ch == '.')
    else (acc, dot, c)
  }

  /** The main loop only appends, it appends accepted characters, and when
      it ends without the flag set it has appended no `'.'`. */
  lemma {:induction false} DigitRunShape(s: string, c: Cursor, radix: Radix, acc: string, dot: bool)
    requires ValidCursor(s, c)
    ensures var r := DigitRun(s, c, radix, acc, dot);
            && |acc| <= |r.0| && (forall i :: 0 <= i < |acc| ==> r.0[i] == acc[i])
            && (forall i :: |acc| <= i < |r.0| ==> Accepts(radix, r.0[i]))
            && (!r.1 ==> !dot && forall i :: |acc| <= i < |r.0| ==> r.0[i] != '.')
    decreases |s| - c.position
  {
    if CanAdvance(c) && Accepts(radix, c.ch) && !(c.ch == '.' && dot) {
      DigitRunShape(s, Advance(s, c), radix, acc + [c.ch], dot || c.ch == '.');
    }
  }

  /** The fractional loop of `collect_number`: decimal digits only. */
  function FractionRun(s: string, c: Cursor, acc: string): (r: (string, Cursor))
    requires ValidCursor(s, c)
    ensures ValidCursor(s, r.1) && c.position <= r.1.position
    decreases |s| - c.position
  {
    if CanAdvance(c) && IsDigit(c.ch) then FractionRun(s, Advance(s, c), acc + [c.ch]) else (acc, c)
  }

  /** `i64::from_str_radix(text, radix)` / `text.parse::<i64>()` on a string
      of digits: `None` (an `Err`) when the text is empty or the value does
      not fit in an `i64`. */
  function ParseI64(text: string, radix: nat): (r: Option<i64>)
    requires 2 <= radix <= 16 && AllRadixDigits(text, radix)
    ensures r.Some? <==> text != [] && DigitsValue(text, radix) <= I64_MAX
    ensures r.Some? ==> r.value == DigitsValue(text, radix)
  {
    if text == [] then None
    else if DigitsValue(text, radix) <= I64_MAX then Some(DigitsValue(text, radix))
    else None
  }

  const UnwrapOnErr: string := "called `Result::unwrap()` on an `Err` value"

  /** `collect_number`. A `FLOAT` token keeps its text; its `f64` value is
      not part of this model. */
  function CollectNumber(s: string, c: Cursor): (r: (Outcome, Cursor))
    requires ValidCursor(s, c)
    ensures ValidCursor(s, r.1)
  {
    var (radix, t0, c1) := NumberPrefix(s, c);
    var (t1, dot, c2) := DigitRun(s, c1, radix, t0, false);
    if dot then
      var (t2, c3) := FractionRun(s, c2, t1);
      (Ok(NewToken(FLOAT, t2, c.line, c.column)), c3)
    else
      IntTextIsDigits(s, c);
      match ParseI64(t1, RadixBase(radix))
      case None => (Panic(UnwrapOnErr), c2)
      case Some(v) => (Ok(NewToken(INT, t1, c.line, c.column).(intValue := v)), c2)
  }

  /** Without a `'.'`, the text `collect_number` hands to the integer parser
      consists of digits of the selected radix. */
  lemma IntTextIsDigits(s: string, c: Cursor)
    requires ValidCursor(s, c)
    ensures var (radix, t0, c1) := NumberPrefix(s, c);
            var (t1, dot, c2) := DigitRun(s, c1, radix, t0, false);
            !dot ==> AllRadixDigits(t1, RadixBase(radix))
  {
    var (radix, t0, c1) := NumberPrefix(s, c);
    var (t1, dot, c2) := DigitRun(s, c1, radix, t0, false);
    DigitRunShape(s, c1, radix, t0, false);
    if !dot {
      forall i | 0 <= i < |t1| ensures IsRadixDigit(t1[i], RadixBase(radix)) {
        if i < |t0| { assert t1[i] == t0[i]; }
      }
    }
  }

    /** Where `collect_string`'s loop ends: with the decoded text, or in the
      panic of an invalid escape. */
  datatype StringScan = Scanned(text: string, at: Cursor) | InvalidEscape(at: Cursor)

  /** The loop of `collect_string`, decoding onto `acc` until the closing
      `quote`, the end, or a backslash at the end. */
  function StringBody(s: string, c: Cursor, quote: char, acc: string): (r: StringScan)
    requires ValidCursor(s, c)
    ensures ValidCursor(s, r.at) && c.position <= r.at.position
    decreases |s| - c.position
  {
    if CanAdvance(c) && c.ch != quote then
      if c.ch == '\\' then
        var c1 := Advance(s, c);
        if !CanAdvance(c1) then Scanned(acc, c1)
        else match Unescape(c1.ch)
          case None => InvalidEscape(c1)
          case Some(e) => StringBody(s, Advance(s, c1), quote, acc + [e])
      else StringBody(s, Advance(s, c), quote, acc + [c.ch])
    else Scanned(acc, c)
  }

  /** The closing quote `collect_string` looks for: `'` when the token opened
      with `'`, `"` otherwise. */
  function QuoteOf(c: Cursor): char {
    if c.ch == '\'' then '\'' else '"'
  }

  /** `collect_string`. */
  function CollectString(s: string, c: Cursor): (r: (Outcome, Cursor))
    requires ValidCursor(s, c)
    ensures ValidCursor(s, r.1)
  {
    var quote := QuoteOf(c);
    match StringBody(s, Advance(s, c), quote, "")
    case InvalidEscape(at) => (Panic("Invalid escape sequence"), at)
    case Scanned(text, at) =>
      if at.ch != quote then (Err(UnterminatedString(text)), at)
      else (Ok(NewToken(STRING, text, c.line, c.column)), Advance(s, at))
  }

  /** `collect_symbol`: the two-character operator when the pair is a key,
      else the single character. */
  function CollectSymbol(s: string, c: Cursor): (r: (Outcome, Cursor))
    requires ValidCursor(s, c)
    ensures ValidCursor(s, r.1)
  {
    var c1 := Advance(s, c);
    var pair := [c.ch] + [c1.ch];
    if CanAdvance(c1) && IsSymbol(c1.ch) && FindSymbolType(pair) != TokenType.Unknown then
      (Ok(NewToken(FindSymbolType(pair), pair, c.line, c.column)), Advance(s, c1))
    else
      (Ok(NewToken(FindSymbolType([c.ch]), [c.ch], c.line, c.column)), c1)
  }

  /** The message of `UnexpectedCharacter`: `file:line:column: ch`. */
  function Unexpected(filename: string, c: Cursor): string {
    filename + ":" + NatToDecimal(c.line) + ":" + NatToDecimal(c.column) + ": " + [c.ch]
  }

  /** One pass of the loop of `next`: it returns, or goes round again. */
  datatype Pass = Emit(outcome: Outcome, at: Cursor) | Repeat(at: Cursor)

  /** One pass of `next`: whitespace and a comment are skipped, then the
      current character picks the collector. */
  function NextPass(s: string, filename: string, c: Cursor): (r: Pass)
    requires ValidCursor(s, c)
    ensures ValidCursor(s, r.at)
    ensures r.Repeat? ==> c.position < r.at.position
  {
    Dispatch(s, filename, SkipComments(s, SkipWhitespace(s, c)))
  }

  /** The collector the current character picks. */
  function Dispatch(s: string, filename: string, c1: Cursor): (r: Pass)
    requires ValidCursor(s, c1)
    ensures ValidCursor(s, r.at)
    ensures r.Repeat? ==> c1.position < r.at.position
  {
    if !CanAdvance(c1) then Emit(Ok(Eof()), c1)
    else if c1.ch == '"' || c1.ch == '\'' then Emit(CollectString(s, c1).0, CollectString(s, c1).1)
    else if IsDigit(c1.ch) || (c1.ch == '.' && IsDigit(PeekChar(s, c1, 1))) then Emit(CollectNumber(s, c1).0, CollectNumber(s, c1).1)
    else OtherPass(s, filename, c1)
  }

  /** The rest of a pass, on a character that starts neither a string nor a
      number. A symbol that turns out to start a comment sends the loop
      round again, further on. */
  function OtherPass(s: string, filename: string, c1: Cursor): (r: Pass)
    requires ValidCursor(s, c1) && CanAdvance(c1)
    ensures ValidCursor(s, r.at)
    ensures r.Repeat? ==> c1.position < r.at.position
  {
    if IsAlpha(c1.ch) || c1.ch == '_' then Emit(CollectIdentifier(s, c1).0, CollectIdentifier(s, c1).1)
    else if IsSymbol(c1.ch) then
      var c2 := SkipComments(s, c1);
      if IsStartOfComment(s, c2) || !IsSymbol(c2.ch) then Repeat(c2)
      else Emit(CollectSymbol(s, c2).0, CollectSymbol(s, c2).1)
    else if c1.ch == '\n' || (c1.ch == '\r' && PeekChar(s, c1, 1) == '\n') then
      var c2 := Advance(s, Advance(s, c1));
      Emit(Ok(NewToken(NewLine, "", c2.line, c2.column)), c2)
    else Emit(Err(UnexpectedCharacter(Unexpected(filename, c1))), c1)
  }

  /** `next`: passes of its loop until one returns. */
  function Next(s: string, filename: string, c: Cursor): (r: (Outcome, Cursor))
    requires ValidCursor(s, c)
    ensures ValidCursor(s, r.1)
    decreases |s| - c.position
  {
    match NextPass(s, filename, c)
    case Emit(o, d) => (o, d)
    case Repeat(c2) => Next(s, filename, c2)
  }

  /** `peek`: the result of `next`, with the cursor put back. A panic unwinds
      before the restore. */
  function Peek(s: string, filename: string, c: Cursor): (r: (Outcome, Cursor))
    requires ValidCursor(s, c)
    ensures ValidCursor(s, r.1)
  {
    var n := Next(s, filename, c);
    if n.0.Panic? then n else (n.0, c)
  }
}
