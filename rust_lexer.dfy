/** The Rust `Lexer` as a class: the text and file name are fixed, and the
    cursor fields change in place. Every method leaves the fields and returns
    what the function of the same name in RustLexerSpec computes from the
    fields it started with. */
module RustLexer {
  import opened Wrappers
  import opened Chars
  import opened RustToken
  import opened Escapes
  import opened RustLexerSpec

  class Lexer {
    const filename: string
    const contents: string
    var position: nat
    var line: nat
    var column: nat
    var ch: char

    /** The cursor the fields form. */
    function Cur(): Cursor
      reads this
    {
      Cursor(position, line, column, ch)
    }

    predicate Valid()
      reads this
    {
      ValidCursor(contents, Cur())
    }

    /** `Lexer::new`: at the first character, line 1, column 1. */
    constructor (filename: string, contents: string)
      ensures Valid()
      ensures this.filename == filename && this.contents == contents
      ensures Cur() == Start(contents)
    {
      this.filename := filename;
      this.contents := contents;
      position := 0;
      line := 1;
      column := 1;
      ch := CharAt(contents, 0);
    }

    /** `can_advance`. */
    method CanAdvance() returns (b: bool)
      requires Valid()
      ensures b <==> Cur().position < |contents| && contents[Cur().position] != '\0'
    {
      b := ch != '\0';
    }

    /** `peek_char`. */
    method PeekChar(offset: nat) returns (p: char)
      ensures p == RustLexerSpec.PeekChar(contents, Cur(), offset)
    {
      p := CharAt(contents, position + offset);
    }

    /** `advance`. */
    method Advance()
      requires Valid()
      modifies this
      ensures Valid()
      ensures Cur() == RustLexerSpec.Advance(contents, old(Cur()))
    {
      if ch == '\0' {
        return;
      }
      if ch == '\n' {
        line := line + 1;
        column := 0;
      } else {
        column := column + 1;
      }
      position := position + 1;
      ch := CharAt(contents, position);
    }

    /** `skip_whitespace`. */
    method SkipWhitespace()
      requires Valid()
      modifies this
      ensures Valid()
      ensures Cur() == RustLexerSpec.SkipWhitespace(contents, old(Cur()))
    {
      while ch != '\0' && (ch == ' ' || ch == '\t')
        invariant Valid()
        invariant RustLexerSpec.SkipWhitespace(contents, Cur()) == RustLexerSpec.SkipWhitespace(contents, old(Cur()))
        decreases |contents| - position
      {
        Advance();
      }
    }

    /** `skip_until_char`. */
    method SkipUntilChar(x: char)
      requires Valid()
      modifies this
      ensures Valid()
      ensures Cur() == RustLexerSpec.SkipUntilChar(contents, old(Cur()), x)
    {
      while ch != '\0' && ch != x
        invariant Valid()
        invariant RustLexerSpec.SkipUntilChar(contents, Cur(), x) == RustLexerSpec.SkipUntilChar(contents, old(Cur()), x)
        decreases |contents| - position
      {
        Advance();
      }
    }

    /** `skip_until_string`. */
    method SkipUntilString(pattern: string)
      requires Valid()
      modifies this
      ensures Valid()
      ensures Cur() == RustLexerSpec.SkipUntilString(contents, old(Cur()), pattern)
    {
      while ch != '\0'
        invariant Valid()
        invariant RustLexerSpec.SkipUntilString(contents, Cur(), pattern) == RustLexerSpec.SkipUntilString(contents, old(Cur()), pattern)
        decreases |contents| - position
      {
        if StartsAt(contents, position, pattern) {
          break;
        }
        Advance();
      }
    }

    /** `is_start_of_comment`. */
    method IsStartOfComment() returns (b: bool)
      requires Valid()
      ensures b == RustLexerSpec.IsStartOfComment(contents, Cur())
    {
      var p := PeekChar(1);
      b := ch == '/' && (p == '/' || p == '*');
    }

    /** `skip_comments`. */
    method SkipComments()
      requires Valid()
      modifies this
      ensures Valid()
      ensures Cur() == RustLexerSpec.SkipComments(contents, old(Cur()))
    {
      if ch == '\0' {
        return;
      }
      if ch != '/' {
        return;
      }
      var peek := PeekChar(1);
      if peek == '/' {
        SkipUntilChar('\n');
        Advance();
      } else if peek == '*' {
        SkipUntilString("*/");
        Advance();
        Advance();
      }
    }

    /** `collect_identifier`. */
    method CollectIdentifier() returns (r: Outcome)
      requires Valid()
      modifies this
      ensures Valid()
      ensures (r, Cur()) == RustLexerSpec.CollectIdentifier(contents, old(Cur()))
    {
      var identifier := "";
      var ttype := ID;
      var thisLine, thisColumn := line, column;
      while ch != '\0' && (IsAlnum(ch) || ch == '_')
        invariant Valid()
        invariant IdentRun(contents, Cur(), identifier) == IdentRun(contents, old(Cur()), "")
        decreases |contents| - position
      {
        identifier := identifier + [ch];
        Advance();
      }
      var ktype := FindKeywordType(identifier);
      if ktype != KeywordType.Unknown {
        ttype := KEYWORD;
      }
      var tok := NewToken(ttype, identifier, thisLine, thisColumn);
      tok := tok.(keywordType := ktype);
      r := Ok(tok);
    }

    /** The prefix step at the head of `collect_number`, with its flags. */
    method ScanNumberPrefix() returns (isHex: bool, isBin: bool, isOct: bool, number: string)
      requires Valid()
      modifies this
      ensures Valid()
      ensures !(isHex && isBin) && !(isHex && isOct) && !(isBin && isOct)
      ensures (if isHex then Hex else if isBin then Bin else if isOct then Oct else Dec, number, Cur())
              == NumberPrefix(contents, old(Cur()))
    {
      number := "";
      isHex, isBin, isOct := false, false, false;
      if ch == '0' {
        Advance();
        if ch != '\0' {
          if ch == 'x' {
            isHex := true;
            Advance();
          } else if ch == 'b' {
            isBin := true;
            Advance();
          } else if ch == 'o' {
            isOct := true;
            Advance();
          } else {
            number := "0";
          }
        } else {
          number := "0";
        }
      } else if ch == '.' {
        number := "0";
      }
    }

    /** `collect_number`. */
    method CollectNumber() returns (r: Outcome)
      requires Valid()
      modifies this
      ensures Valid()
      ensures (r, Cur()) == RustLexerSpec.CollectNumber(contents, old(Cur()))
    {
      ghost var prefix := NumberPrefix(contents, Cur());
      var thisLine, thisColumn := line, column;
      var dot := false;
      var ttype := INT;
      var isHex, isBin, isOct, number := ScanNumberPrefix();
      ghost var radix := if isHex then Hex else if isBin then Bin else if isOct then Oct else Dec;
      while ch != '\0' && ((isHex && IsRadixDigit(ch, 16)) || (isBin && (ch == '0' || ch == '1'))
                           || (isOct && IsRadixDigit(ch, 8)) || (!isHex && !isBin && !isOct && (IsDigit(ch) || ch == '.')))
        invariant Valid()
        invariant DigitRun(contents, Cur(), radix, number, dot) == DigitRun(contents, prefix.2, prefix.0, prefix.1, false)
        decreases |contents| - position
      {
        if ch == '.' {
          if dot {
            break;
          }
          dot := true;
        }
        number := number + [ch];
        Advance();
      }
      if dot {
        while ch != '\0' && IsDigit(ch)
          invariant Valid()
          invariant FractionRun(contents, Cur(), number) == FractionRun(contents, DigitRun(contents, prefix.2, prefix.0, prefix.1, false).2, DigitRun(contents, prefix.2, prefix.0, prefix.1, false).0)
          decreases |contents| - position
        {
          number := number + [ch];
          Advance();
        }
        ttype := FLOAT;
        r := Ok(NewToken(ttype, number, thisLine, thisColumn));
        return;
      }
      IntTextIsDigits(contents, old(Cur()));
      var base := if isHex then 16 else if isBin then 2 else if isOct then 8 else 10;
      var parsed := ParseI64(number, base);
      match parsed
      case None =>
        r := Panic(UnwrapOnErr);
      case Some(v) =>
        r := Ok(NewToken(ttype, number, thisLine, thisColumn).(intValue := v));
    }

    /** `collect_string`. */
    method CollectString() returns (r: Outcome)
      requires Valid()
      modifies this
      ensures Valid()
      ensures (r, Cur()) == RustLexerSpec.CollectString(contents, old(Cur()))
    {
      var text := "";
      var singleQuote := ch == '\'';
      var thisLine, thisColumn := line, column;
      ghost var quote := QuoteOf(Cur());
      Advance();
      ghost var start := Cur();
      while ch != '\0' && ((ch != '\'' && singleQuote) || (ch != '"' && !singleQuote))
        invariant Valid()
        invariant StringBody(contents, Cur(), quote, text) == StringBody(contents, start, quote, "")
        decreases |contents| - position
      {
        if ch == '\\' {
          Advance();
          if ch == '\0' {
            break;
          }
          match Unescape(ch)
          case None =>
            r := Panic("Invalid escape sequence");
            return;
          case Some(e) =>
            text := text + [e];
          Advance();
          continue;
        }
        text := text + [ch];
        Advance();
      }
      if (ch != '\'' && singleQuote) || (ch != '"' && !singleQuote) {
        r := Err(UnterminatedString(text));
        return;
      }
      Advance();
      r := Ok(NewToken(STRING, text, thisLine, thisColumn));
    }

    /** `collect_symbol`. */
    method CollectSymbol() returns (r: Outcome)
      requires Valid()
      modifies this
      ensures Valid()
      ensures (r, Cur()) == RustLexerSpec.CollectSymbol(contents, old(Cur()))
    {
      var thisLine, thisColumn := line, column;
      var symbol := [ch];
      Advance();
      var ttype := FindSymbolType(symbol);
      if ch != '\0' && IsSymbol(ch) {
        var newSymbol := symbol + [ch];
        var secondType := FindSymbolType(newSymbol);
        if secondType != TokenType.Unknown {
          ttype := secondType;
          symbol := newSymbol;
          Advance();
        }
      }
      r := Ok(NewToken(ttype, symbol, thisLine, thisColumn));
    }

    /** One pass of the loop of `next`: `done` is false when the loop goes
        round again. */
    method NextPass() returns (done: bool, r: Outcome)
      requires Valid()
      modifies this
      ensures Valid()
      ensures (if done then RustLexerSpec.Emit(r, Cur()) else RustLexerSpec.Repeat(Cur()))
              == RustLexerSpec.NextPass(contents, filename, old(Cur()))
    {
      SkipWhitespace();
      SkipComments();
      done, r := Dispatch();
    }

    /** The collector the current character picks. */
    method Dispatch() returns (done: bool, r: Outcome)
      requires Valid()
      modifies this
      ensures Valid()
      ensures (if done then RustLexerSpec.Emit(r, Cur()) else RustLexerSpec.Repeat(Cur()))
              == RustLexerSpec.Dispatch(contents, filename, old(Cur()))
    {
      done := true;
      if ch == '\0' {
        return true, Ok(Eof());
      }
      if ch == '"' || ch == '\'' {
        r := CollectString();
        return;
      }
      var p := PeekChar(1);
      if IsDigit(ch) || (ch == '.' && IsDigit(p)) {
        r := CollectNumber();
        return;
      }
      done, r := OtherPass();
    }

    /** The rest of a pass, on a character that starts neither a string nor
        a number. */
    method OtherPass() returns (done: bool, r: Outcome)
      requires Valid() && ch != '\0'
      modifies this
      ensures Valid()
      ensures (if done then RustLexerSpec.Emit(r, Cur()) else RustLexerSpec.Repeat(Cur()))
              == RustLexerSpec.OtherPass(contents, filename, old(Cur()))
    {
      done := true;
      if IsAlpha(ch) || ch == '_' {
        r := CollectIdentifier();
        return;
      }
      if IsSymbol(ch) {
        SkipComments();
        var comment := IsStartOfComment();
        if comment || !IsSymbol(ch) {
          return false, Ok(Eof());
        }
        r := CollectSymbol();
        return;
      }
      var p := PeekChar(1);
      if ch == '\n' || (ch == '\r' && p == '\n') {
        Advance();
        Advance();
        return true, Ok(NewToken(NewLine, "", line, column));
      }
      r := Err(UnexpectedCharacter(Unexpected(filename, Cur())));
    }

    /** `next`: passes of its loop until one returns a token or an error. */
    method Next() returns (r: Outcome)
      requires Valid()
      modifies this
      ensures Valid()
      ensures (r, Cur()) == RustLexerSpec.Next(contents, filename, old(Cur()))
    {
      while true
        invariant Valid()
        invariant RustLexerSpec.Next(contents, filename, Cur()) == RustLexerSpec.Next(contents, filename, old(Cur()))
        decreases |contents| - position
      {
        var done;
        done, r := NextPass();
        if done {
          return;
        }
      }
    }

    /** `peek`: the fields are saved and put back around `next`. A panic in
        `next` unwinds past the restore, so then the fields stay advanced. */
    method Peek() returns (r: Outcome)
      requires Valid()
      modifies this
      ensures Valid()
      ensures (r, Cur()) == RustLexerSpec.Peek(contents, filename, old(Cur()))
    {
      var oldPosition, oldLine, oldColumn, oldCh := position, line, column, ch;
      r := Next();
      if r.Panic? {
        return;
      }
      position, line, column, ch := oldPosition, oldLine, oldColumn, oldCh;
    }
  }
}
