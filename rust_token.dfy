/** Tokens of the Rust pipeline: the token kinds, the keyword kinds, the token
    record with its two constructors, and the fixed operator table. */
module RustToken {
  import opened Wrappers
  import opened Ints

  /** `TokenType`, with the kind of `->` written `PTR_ARROW`. */
  datatype TokenType =
    | Unknown | EndOfFile
    | ADD | SUB | DIV | MUL | MOD | POW
    | AddEq | SubEq | DivEq | MulEq | ModEq
    | AND | OR | HAT | SHL | SHR | NOT
    | BoolNot | BoolEq | BoolNe | BoolLt | BoolGt | BoolLte | BoolGte | BoolAnd | BoolOr
    | ID | KEYWORD
    | STRING | INT | FLOAT
    | LPAREN | RPAREN | LBRACKET | RBRACKET | LBRACE | RBRACE
    | EQUALS | COMMA | DOT | COLON | NAMESPACE | SEMI | QUESTION | AT | HASH
    | LineComment | MultilineCommentStart | MultilineCommentEnd
    | PTR_ARROW | ARROW | BACKSLASH
    | NewLine

  datatype KeywordType =
    | Unknown | Null | Fn | If | Else | While | For | Return | Import | As | From
    | Break | Continue | True | False

  /** A token. The `f64` payload `float_value` is not part of this model. */
  datatype Token = Token(
    tokenType: TokenType,
    keywordType: KeywordType,
    value: string,
    intValue: i64,
    line: nat,
    column: nat)

  /** `Token::new`: the given kind, text and position, no keyword, numeric payload 0. */
  function NewToken(t: TokenType, value: string, line: nat, column: nat): (r: Token)
    ensures r.tokenType == t && r.value == value && r.line == line && r.column == column
    ensures r.keywordType == KeywordType.Unknown && r.intValue == 0
  {
    Token(t, KeywordType.Unknown, value, 0, line, column)
  }

  /** `eof()`: the end-of-file token, empty text, at line 0, column 0. */
  function Eof(): (r: Token)
    ensures r.tokenType == EndOfFile && r.value == [] && r.keywordType == KeywordType.Unknown
    ensures r.line == 0 && r.column == 0 && r.intValue == 0
  {
    NewToken(EndOfFile, "", 0, 0)
  }

  /** `get_symbols()` followed by `find_symbol_type`: the kind the operator
      and punctuation table assigns to a text, `Unknown` for a text that is
      not a key of the table. The keys have one or two characters, so the
      table is looked up by length and then character by character. */
  function FindSymbolType(s: string): TokenType {
    if |s| == 1 then SingleSymbolType(s[0])
    else if |s| == 2 then PairSymbolType(s[0], s[1])
    else TokenType.Unknown
  }

  /** The one-character keys of the table. */
  function SingleSymbolType(c: char): TokenType {
    match c
    case '(' => LPAREN
    case ')' => RPAREN
    case '[' => LBRACKET
    case ']' => RBRACKET
    case '{' => LBRACE
    case '}' => RBRACE
    case '=' => EQUALS
    case ',' => COMMA
    case ':' => COLON
    case ';' => SEMI
    case '?' => QUESTION
    case '%' => MOD
    case '\\' => BACKSLASH
    case '#' => HASH
    case '@' => AT
    case '+' => ADD
    case '-' => SUB
    case '/' => DIV
    case '*' => MUL
    case '&' => AND
    case '|' => OR
    case '^' => HAT
    case '<' => BoolLt
    case '>' => BoolGt
    case '~' => NOT
    case '!' => BoolNot
    case '.' => DOT
    case _ => TokenType.Unknown
  }

  /** The two-character keys of the table. */
  function PairSymbolType(a: char, b: char): TokenType {
    match a
    case ':' => if b == ':' then NAMESPACE else TokenType.Unknown
    case '&' => if b == '&' then BoolAnd else TokenType.Unknown
    case '|' => if b == '|' then BoolOr else TokenType.Unknown
    case '*' => if b == '*' then POW else if b == '/' then MultilineCommentEnd else if b == '=' then MulEq else TokenType.Unknown
    case '/' => if b == '/' then LineComment else if b == '*' then MultilineCommentStart else if b == '=' then DivEq else TokenType.Unknown
    case '-' => if b == '>' then PTR_ARROW else if b == '=' then SubEq else TokenType.Unknown
    case '!' => if b == '=' then BoolNe else TokenType.Unknown
    case '=' => if b == '=' then BoolEq else if b == '>' then ARROW else TokenType.Unknown
    case '<' => if b == '<' then SHL else if b == '=' then BoolLte else TokenType.Unknown
    case '>' => if b == '>' then SHR else if b == '=' then BoolGte else TokenType.Unknown
    case '+' => if b == '=' then AddEq else TokenType.Unknown
    case '%' => if b == '=' then ModEq else TokenType.Unknown
    case _ => TokenType.Unknown
  }

  /** The keys of the table. */
  predicate IsSymbolKey(s: string) {
    FindSymbolType(s) != TokenType.Unknown
  }

  /** The character set of `Lexer::is_symbol`, in the order of its string. */
  predicate IsSymbol(c: char) {
    match c
    case '(' | ')' | '[' | ']' | '{' | '}' | '=' | '@' | '#' | ',' | '.' | ':' | ';' | '?' | '\\' => true
    case '+' | '-' | '/' | '*' | '%' | '&' | '|' | '^' | '<' | '>' | '!' | '~' => true
    case _ => false
  }

  /** The keys of the table, in the order `get_symbols()` lists them. */
  const SymbolKeys: seq<string> :=
    ["::", "&&", "||", "**", "//", "/*", "*/", "->"] +
    ["!=", "==", "=>", "<<", ">>", "<=", ">=", "("] +
    [")", "[", "]", "{", "}", "=", ",", ":"] +
    [";", "?", "%", "\\", "#", "@", "+", "-"] +
    ["/", "*", "&", "|", "^", "<", ">", "~"] +
    ["!", ".", "+=", "-=", "/=", "*=", "%="]

  /** The first of `keys` whose table entry is `t`, if any. */
  function FindSymbolKey(keys: seq<string>, t: TokenType): (r: Option<string>)
    ensures r.Some? ==> r.value in keys && FindSymbolType(r.value) == t
    ensures r.None? ==> forall i :: 0 <= i < |keys| ==> FindSymbolType(keys[i]) != t
  {
    if keys == [] then None
    else if FindSymbolType(keys[0]) == t then Some(keys[0])
    else FindSymbolKey(keys[1..], t)
  }

  /** Reverse lookup (the `get_symbols().iter().find(|x| x.1 == op)` of the
      node renderers): a text whose table entry is `t`, if any. The map's
      iteration order is not modelled; the keys are searched in the order
      `SymbolKeys` lists them. */
  function SymbolText(t: TokenType): (r: Option<string>)
    ensures r.Some? ==> r.value in SymbolKeys && FindSymbolType(r.value) == t
  {
    FindSymbolKey(SymbolKeys, t)
  }

  /** Every key has one or two characters, and a two-character key begins
      with a character that is a key by itself and ends in a symbol character. */
  lemma SymbolKeyShapes(k: string)
    requires IsSymbolKey(k)
    ensures 1 <= |k| <= 2
    ensures |k| == 2 ==> IsSymbolKey([k[0]]) && IsSymbol(k[1])
  {
  }

  /** Every character `is_symbol` accepts is a one-character key. */
  lemma SymbolCharsAreKeys(c: char)
    requires IsSymbol(c)
    ensures IsSymbolKey([c])
  {
  }

  /** Every one-character key is a character `is_symbol` accepts. */
  lemma SingleKeysAreSymbolChars(c: char)
    requires IsSymbolKey([c])
    ensures IsSymbol(c)
  {
  }

  /** The comment markers are ordinary table entries. */
  lemma CommentMarkersInTable()
    ensures FindSymbolType("//") == LineComment
    ensures FindSymbolType("/*") == MultilineCommentStart
    ensures FindSymbolType("*/") == MultilineCommentEnd
  {
  }
}
