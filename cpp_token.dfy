/** Tokens of the C++ lexer: the source location with its two updates, the
    token kinds, the token record, the kind tables the lexer consults, and
    the stream renderings of a location and a token. */
module CppToken {
  import opened Wrappers
  import opened Ints
  import opened Chars
  import RustToken
  import RustLexerSpec

  /** `Location`: a file path and a 1-based line and column, both `uint32_t`.
      The lexer copies locations by value, so a location is a value here and
      `new_line` / `add_column` return the updated location. */
  datatype Location = Location(filePath: string, line: u32, column: u32)
  {
    /** `new_line`: the next line, back at column 1. */
    function NewLine(): (r: Location)
      ensures r.filePath == filePath && r.column == 1
      ensures r.line == (line + 1) % U32_MOD
    {
      Location(filePath, (line + 1) % U32_MOD, 1)
    }

    /** `add_column`: one column further on the same line. */
    function AddColumn(): (r: Location)
      ensures r.filePath == filePath && r.line == line
      ensures r.column == (column + 1) % U32_MOD
    {
      this.(column := (column + 1) % U32_MOD)
    }
  }

  /** The `Location` constructor with its default arguments: empty path,
      line 1, column 1. */
  function DefaultLocation(): (l: Location)
    ensures l.filePath == [] && l.line == 1 && l.column == 1
  {
    Location("", 1, 1)
  }

  /** Columns counted on a line are forgotten at its end: moving along and
      then starting a new line is the same as starting the new line at once. */
  lemma NewLineForgetsColumns(l: Location, k: nat)
    ensures AddColumns(l, k).NewLine() == l.NewLine()
  {
  }

  /** `k` calls of `add_column`. */
  function AddColumns(l: Location, k: nat): (r: Location)
    ensures r.filePath == l.filePath && r.line == l.line
    ensures r.column == (l.column + k) % U32_MOD
  {
    if k == 0 then l else AddColumns(l, k - 1).AddColumn()
  }

  /** `TokenType`, in declaration order, with `Unknown` after the declared
      kinds: the lexer compares against `TokenType::UNKNOWN`, which the enum
      does not declare. */
  datatype TokenType =
    | Plus | Minus | Div | Mul | Mod | Pow
    | PlusEq | MinusEq | DivEq | MulEq | ModEq
    | And | Or | Hat | Shl | Shr | Not
    | BoolNot | BoolEq | BoolNe | BoolLt | BoolGt | BoolLte | BoolGte | BoolAnd | BoolOr
    | Id | Keyword | Sizeof
    | CharLit | StringLit | IntLit | FloatLit
    | LParen | RParen | LBracket | RBracket | LBrace | RBrace
    | Equals | Comma | Dot | Colon | Namespace | Semi | Question | At | Hash
    | LineComment | MultilineCommentStart | MultilineCommentEnd | Pointer | Arrow | Backslash
    | NewLine | EndOfInput
    | Unknown

  /** `static_cast<uint32_t>` of a kind: its place in the declaration. */
  function TypeCode(t: TokenType): (n: nat)
    ensures n < 57
  {
    match t
    case Plus => 0 case Minus => 1 case Div => 2 case Mul => 3 case Mod => 4 case Pow => 5
    case PlusEq => 6 case MinusEq => 7 case DivEq => 8 case MulEq => 9 case ModEq => 10
    case And => 11 case Or => 12 case Hat => 13 case Shl => 14 case Shr => 15 case Not => 16
    case BoolNot => 17 case BoolEq => 18 case BoolNe => 19 case BoolLt => 20 case BoolGt => 21
    case BoolLte => 22 case BoolGte => 23 case BoolAnd => 24 case BoolOr => 25
    case Id => 26 case Keyword => 27 case Sizeof => 28
    case CharLit => 29 case StringLit => 30 case IntLit => 31 case FloatLit => 32
    case LParen => 33 case RParen => 34 case LBracket => 35 case RBracket => 36 case LBrace => 37 case RBrace => 38
    case Equals => 39 case Comma => 40 case Dot => 41 case Colon => 42 case Namespace => 43
    case Semi => 44 case Question => 45 case At => 46 case Hash => 47
    case LineComment => 48 case MultilineCommentStart => 49 case MultilineCommentEnd => 50
    case Pointer => 51 case Arrow => 52 case Backslash => 53
    case NewLine => 54 case EndOfInput => 55
    case Unknown => 56
  }

  /** The kind with a given code, ten codes at a time. */
  function TypeOfCode(n: nat): (r: Option<TokenType>)
    ensures r.Some? <==> n < 57
  {
    if n < 10 then Some([Plus, Minus, Div, Mul, Mod, Pow, PlusEq, MinusEq, DivEq, MulEq][n])
    else if n < 20 then Some([ModEq, And, Or, Hat, Shl, Shr, Not, BoolNot, BoolEq, BoolNe][n - 10])
    else if n < 30 then Some([BoolLt, BoolGt, BoolLte, BoolGte, BoolAnd, BoolOr, Id, Keyword, Sizeof, CharLit][n - 20])
    else if n < 40 then Some([StringLit, IntLit, FloatLit, LParen, RParen, LBracket, RBracket, LBrace, RBrace, Equals][n - 30])
    else if n < 50 then Some([Comma, Dot, Colon, Namespace, Semi, Question, At, Hash, LineComment, MultilineCommentStart][n - 40])
    else if n < 57 then Some([MultilineCommentEnd, Pointer, Arrow, Backslash, NewLine, EndOfInput, TokenType.Unknown][n - 50])
    else None
  }

  /** Decoding the code of a kind gives the kind back. */
  lemma TypeCodeRoundTrip(t: TokenType)
    ensures TypeOfCode(TypeCode(t)) == Some(t)
  {
    if TypeCode(t) < 10 {
      TypeCodeRoundTrip0(t);
    } else if TypeCode(t) < 20 {
      TypeCodeRoundTrip1(t);
    } else if TypeCode(t) < 30 {
      TypeCodeRoundTrip2(t);
    } else if TypeCode(t) < 40 {
      TypeCodeRoundTrip3(t);
    } else if TypeCode(t) < 50 {
      TypeCodeRoundTrip4(t);
    } else {
      TypeCodeRoundTrip5(t);
    }
  }

  lemma TypeCodeRoundTrip0(t: TokenType)
    requires 0 <= TypeCode(t) < 10
    ensures TypeOfCode(TypeCode(t)) == Some(t)
  {
    match t {
      case Plus =>
      case Minus =>
      case Div =>
      case Mul =>
      case Mod =>
      case Pow =>
      case PlusEq =>
      case MinusEq =>
      case DivEq =>
      case MulEq =>
      case _ =>
    }
  }

  lemma TypeCodeRoundTrip1(t: TokenType)
    requires 10 <= TypeCode(t) < 20
    ensures TypeOfCode(TypeCode(t)) == Some(t)
  {
    match t {
      case ModEq =>
      case And =>
      case Or =>
      case Hat =>
      case Shl =>
      case Shr =>
      case Not =>
      case BoolNot =>
      case BoolEq =>
      case BoolNe =>
      case _ =>
    }
  }

  lemma TypeCodeRoundTrip2(t: TokenType)
    requires 20 <= TypeCode(t) < 30
    ensures TypeOfCode(TypeCode(t)) == Some(t)
  {
    match t {
      case BoolLt =>
      case BoolGt =>
      case BoolLte =>
      case BoolGte =>
      case BoolAnd =>
      case BoolOr =>
      case Id =>
      case Keyword =>
      case Sizeof =>
      case CharLit =>
      case _ =>
    }
  }

  lemma TypeCodeRoundTrip3(t: TokenType)
    requires 30 <= TypeCode(t) < 40
    ensures TypeOfCode(TypeCode(t)) == Some(t)
  {
    match t {
      case StringLit =>
      case IntLit =>
      case FloatLit =>
      case LParen =>
      case RParen =>
      case LBracket =>
      case RBracket =>
      case LBrace =>
      case RBrace =>
      case Equals =>
      case _ =>
    }
  }

  lemma TypeCodeRoundTrip4(t: TokenType)
    requires 40 <= TypeCode(t) < 50
    ensures TypeOfCode(TypeCode(t)) == Some(t)
  {
    match t {
      case Comma =>
      case Dot =>
      case Colon =>
      case Namespace =>
      case Semi =>
      case Question =>
      case At =>
      case Hash =>
      case LineComment =>
      case MultilineCommentStart =>
      case _ =>
    }
  }

  lemma TypeCodeRoundTrip5(t: TokenType)
    requires 50 <= TypeCode(t) < 57
    ensures TypeOfCode(TypeCode(t)) == Some(t)
  {
    match t {
      case MultilineCommentEnd =>
      case Pointer =>
      case Arrow =>
      case Backslash =>
      case NewLine =>
      case EndOfInput =>
      case Unknown =>
      case _ =>
    }
  }

  /** `Token`: a location, a kind and a text, fixed once built (the class
      has getters and no mutators). */
  datatype Token = Token(location: Location, tokenType: TokenType, value: string)

  /** The `Token` constructor with its default arguments. */
  function DefaultToken(): (t: Token)
    ensures t.location == DefaultLocation() && t.tokenType == EndOfInput && t.value == []
  {
    Token(DefaultLocation(), EndOfInput, "")
  }

  /** `Token::is`. */
  predicate Is(tok: Token, t: TokenType)
    ensures Is(tok, t) <==> tok.tokenType == t
  {
    tok.tokenType == t
  }

  /** `KeywordType`, with the `UNKNOWN` the lexer compares against. */
  datatype KeywordType =
    | NullK | True | False | If | Else | While | For | Return | Import | As | From | Break | Continue
    | Unknown

  /** `Token::s_keyword_to_type`. Its definition is not part of this model's
      sources; it is taken to be the Rust keyword table without `fn`, which
      the C++ `KeywordType` has no member for. */
  function KeywordToType(id: string): KeywordType {
    match id
    case "null" => NullK
    case "true" => True
    case "false" => False
    case "if" => If
    case "else" => Else
    case "while" => While
    case "for" => For
    case "return" => Return
    case "import" => Import
    case "as" => As
    case "from" => From
    case "break" => Break
    case "continue" => Continue
    case _ => KeywordType.Unknown
  }

  /** The two keyword tables agree on every word except `fn`. */
  lemma KeywordTablesAgree(id: string)
    ensures KeywordToType(id) != KeywordType.Unknown
            <==> (RustLexerSpec.FindKeywordType(id) != RustToken.KeywordType.Unknown && id != "fn")
  {
  }

  /** The C++ kind of each Rust kind that has one. */
  function FromRust(t: RustToken.TokenType): TokenType {
    match t
    case ADD => Plus case SUB => Minus case DIV => Div case MUL => Mul case MOD => Mod case POW => Pow
    case AddEq => PlusEq case SubEq => MinusEq case DivEq => DivEq case MulEq => MulEq case ModEq => ModEq
    case AND => And case OR => Or case HAT => Hat case SHL => Shl case SHR => Shr case NOT => Not
    case BoolNot => BoolNot case BoolEq => BoolEq case BoolNe => BoolNe case BoolLt => BoolLt
    case BoolGt => BoolGt case BoolLte => BoolLte case BoolGte => BoolGte case BoolAnd => BoolAnd case BoolOr => BoolOr
    case ID => Id case KEYWORD => Keyword
    case STRING => StringLit case INT => IntLit case FLOAT => FloatLit
    case LPAREN => LParen case RPAREN => RParen case LBRACKET => LBracket case RBRACKET => RBracket
    case LBRACE => LBrace case RBRACE => RBrace
    case EQUALS => Equals case COMMA => Comma case DOT => Dot case COLON => Colon case NAMESPACE => Namespace
    case SEMI => Semi case QUESTION => Question case AT => At case HASH => Hash
    case LineComment => LineComment case MultilineCommentStart => MultilineCommentStart
    case MultilineCommentEnd => MultilineCommentEnd
    case PTR_ARROW => Pointer case ARROW => Arrow case BACKSLASH => Backslash
    case NewLine => NewLine case EndOfFile => EndOfInput
    case Unknown => TokenType.Unknown
  }

  /** `Token::s_symbol_to_type`. Its definition is not part of this model's
      sources; it is taken to be the Rust operator table under the
      correspondence of kinds. */
  function SymbolToType(s: string): TokenType {
    FromRust(RustToken.FindSymbolType(s))
  }

  /** `Token::_s_is_symbol`, likewise taken from the Rust lexer. */
  predicate IsSymbol(c: char) { RustToken.IsSymbol(c) }

  /** A text has a kind in the C++ table exactly when it is a key of the
      Rust table. */
  lemma SymbolToTypeKnown(s: string)
    ensures SymbolToType(s) != TokenType.Unknown <==> RustToken.IsSymbolKey(s)
  {
  }

  /** `operator<<` on a location: `path:line:column`. */
  function RenderLocation(l: Location): string {
    l.filePath + ":" + NatToDecimal(l.line) + ":" + NatToDecimal(l.column)
  }

  /** Within one file, the rendering of a location determines its line and
      column. */
  lemma RenderLocationInjective(l1: Location, l2: Location)
    requires l1.filePath == l2.filePath && RenderLocation(l1) == RenderLocation(l2)
    ensures l1 == l2
  {
    var t1 := NatToDecimal(l1.line) + [':'] + NatToDecimal(l1.column);
    var t2 := NatToDecimal(l2.line) + [':'] + NatToDecimal(l2.column);
    assert RenderLocation(l1) == (l1.filePath + ":") + t1;
    assert RenderLocation(l2) == (l1.filePath + ":") + t2;
    DropCommonPrefix(l1.filePath + ":", t1, t2);
    DecimalPairInjective(l1.line, l1.column, l2.line, l2.column);
  }

  /** Two numbers written in decimal around a `':'` can be read back. */
  lemma DecimalPairInjective(x1: nat, y1: nat, x2: nat, y2: nat)
    requires NatToDecimal(x1) + [':'] + NatToDecimal(y1) == NatToDecimal(x2) + [':'] + NatToDecimal(y2)
    ensures x1 == x2 && y1 == y2
  {
    DecimalHasNo(x1, ':');
    DecimalHasNo(x2, ':');
    SplitAtSeparator(NatToDecimal(x1), NatToDecimal(y1), NatToDecimal(x2), NatToDecimal(y2), ':');
    DecimalInjective(x1, x2);
    DecimalInjective(y1, y2);
  }

  /** `operator<<` on a token: `<location>: (<kind code>): <text>`. */
  function RenderToken(t: Token): string {
    RenderLocation(t.location) + ": (" + NatToDecimal(TypeCode(t.tokenType)) + "): " + t.value
  }

  /** At one location, the rendering of a token determines its kind and text. */
  lemma RenderTokenInjective(t1: Token, t2: Token)
    requires t1.location == t2.location && RenderToken(t1) == RenderToken(t2)
    ensures t1 == t2
  {
    var l := RenderLocation(t1.location) + ": (";
    var d1, d2 := NatToDecimal(TypeCode(t1.tokenType)), NatToDecimal(TypeCode(t2.tokenType));
    assert RenderToken(t1) == l + (d1 + [')'] + (": " + t1.value));
    assert RenderToken(t2) == l + (d2 + [')'] + (": " + t2.value));
    DropCommonPrefix(l, d1 + [')'] + (": " + t1.value), d2 + [')'] + (": " + t2.value));
    DecimalHasNo(TypeCode(t1.tokenType), ')');
    DecimalHasNo(TypeCode(t2.tokenType), ')');
    SplitAtSeparator(d1, ": " + t1.value, d2, ": " + t2.value, ')');
    DropCommonPrefix(": ", t1.value, t2.value);
    DecimalInjective(TypeCode(t1.tokenType), TypeCode(t2.tokenType));
    TypeCodeRoundTrip(t1.tokenType);
    TypeCodeRoundTrip(t2.tokenType);
  }
}
