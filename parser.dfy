/** The parser as it runs: an object owning the lexer, whose methods step
    the lexer on and set `getting_params`, and whose loops push into
    growing sequences. Each method is proved to end as the function of the
    same name in module ParserSpec says: the same outcome, and on success
    the state that outcome carries. */
module Parsing {
  import opened Wrappers
  import opened Ast
  import opened RustToken
  import opened ParserSpec

  class Parser {
    /** What the owned lexer's successive `next` calls give. */
    const tokens: seq<Lexed>
    /** How many of them the lexer has given. */
    var pos: nat
    var gettingParams: bool

    /** `Parser::new`: a fresh lexer, parameters not being read. */
    constructor(tokens: seq<Lexed>)
      ensures this.tokens == tokens && State() == PState(0, false) && Valid()
    {
      this.tokens := tokens;
      pos := 0;
      gettingParams := false;
    }

    function State(): PState
      reads this
    {
      PState(pos, gettingParams)
    }

    predicate Valid()
      reads this
    {
      pos <= |tokens|
    }

    // ------------------------------------------------------------ the lexer

    /** `self.lexer.peek()?`. */
    method PeekToken() returns (r: Parsed<Token>)
      requires Valid()
      ensures r == ParserSpec.PeekToken(tokens, State())
    {
      var next := if pos < |tokens| then tokens[pos] else RustLexerSpec.Ok(Eof());
      match next
      case Ok(t) => r := Done(t, State());
      case Err(e) => r := Failed(Lexing(e));
      case Panic(_) => r := Panicked;
    }

    /** `self.lexer.peek().unwrap()`. */
    method PeekOrPanic() returns (r: Parsed<Token>)
      requires Valid()
      ensures r == ParserSpec.PeekOrPanic(tokens, State())
    {
      var next := if pos < |tokens| then tokens[pos] else RustLexerSpec.Ok(Eof());
      r := if next.Ok? then Done(next.token, State()) else Panicked;
    }

    /** `self.lexer.next()`, for a token just peeked: one step on, except
        at the end. */
    method Advance()
      requires Valid()
      modifies this
      ensures Valid() && State() == Step(tokens, old(State()))
    {
      if pos < |tokens| {
        pos := pos + 1;
      }
    }

    /** `eat`: the next token, which must have kind `t`. */
    method Eat(t: TokenType) returns (r: Parsed<()>)
      requires Valid()
      modifies this
      ensures Valid() && r == ParserSpec.Eat(tokens, old(State()), t)
      ensures State() == Step(tokens, old(State()))
    {
      var next := if pos < |tokens| then tokens[pos] else RustLexerSpec.Ok(Eof());
      Advance();
      match next
      case Ok(token) =>
        r := if token.tokenType == t then Done((), State())
             else Failed(Parsing(UnexpectedTokenExpected(token, t)));
      case Err(e) => r := Failed(Lexing(e));
      case Panic(_) => r := Panicked;
    }

    /** `skip_newline_or_semicolon`. */
    method SkipNewlineOrSemicolon() returns (r: Parsed<()>)
      requires Valid()
      modifies this
      ensures Valid() && r == Skip(tokens, old(State()))
      ensures r.Done? ==> State() == r.st
    {
      while true
        invariant Valid() && Skip(tokens, State()) == Skip(tokens, old(State()))
        decreases |tokens| - pos
      {
        var q := PeekOrPanic();
        if q.IsFailure() {
          return q.PropagateFailure();
        }
        if q.value.tokenType != NewLine && q.value.tokenType != SEMI {
          return Done((), State());
        }
        NotEndInside(tokens, pos);
        Advance();
      }
    }

    // ------------------------------------------------------------ statements

    /** A fresh parser over `tokens`, run to the end: the outcome of the
        functional parser, and on success one block ending at
        end-of-file. */
    static method ParseAll(tokens: seq<Lexed>) returns (r: Parsed<Node>)
      ensures r == ParserSpec.Parse(tokens)
      ensures r.Done? ==> r.value.Block? && Is(tokens, r.st.pos, EndOfFile)
    {
      var parser := new Parser(tokens);
      r := parser.Parse();
    }

    /** `parse`: statements until one is missing, in one block. */
    method Parse() returns (r: Parsed<Node>)
      requires Valid()
      modifies this
      ensures Valid() && r == ParseLoop(tokens, old(State()), [])
      ensures r.Done? ==> State() == r.st
    {
      var statements: seq<Node> := [];
      while true
        invariant Valid() && ParseLoop(tokens, State(), statements) == ParseLoop(tokens, old(State()), [])
        decreases |tokens| - pos
      {
        var k := SkipNewlineOrSemicolon();
        if k.IsFailure() {
          return k.PropagateFailure();
        }
        var p := ParseStatement();
        if p.IsFailure() {
          return p.PropagateFailure();
        }
        if p.value.None? {
          return Done(Block(statements), State());
        }
        statements := statements + [p.value.value];
      }
    }

    /** `parse_statement`. */
    method ParseStatement() returns (r: PNode)
      requires Valid()
      modifies this
      ensures Valid() && r == ParserSpec.ParseStatement(tokens, old(State()))
      ensures r.Done? ==> State() == r.st
      decreases |tokens| - pos, 41
    {
      r := ParseAssignment();
    }

    /** `parse_assignment`. */
    method ParseAssignment() returns (r: PNode)
      requires Valid()
      modifies this
      ensures Valid() && r == ParserSpec.ParseAssignment(tokens, old(State()))
      ensures r.Done? ==> State() == r.st
      decreases |tokens| - pos, 40
    {
      var left := ParseCommas();
      if left.IsFailure() {
        return left.PropagateFailure();
      }
      if left.value.None? {
        return left;
      }
      var q := PeekOrPanic();
      if q.IsFailure() {
        return q.PropagateFailure();
      }
      var op := q.value.tokenType;
      if !IsAssignOp(op) {
        return left;
      }
      Advance();
      var right := ParseAssignment();
      if right.IsFailure() {
        return right.PropagateFailure();
      }
      if right.value.None? {
        return Unexpected(tokens, State());
      }
      r := Done(Some(Assignment(left.value.value, right.value.value, op)), State());
    }

    /** `parse_commas`, with its loop over comma-separated values. */
    method ParseCommas() returns (r: PNode)
      requires Valid()
      modifies this
      ensures Valid() && r == ParserSpec.ParseCommas(tokens, old(State()))
      ensures r.Done? ==> State() == r.st
      decreases |tokens| - pos, 39
    {
      var p := ParseBinaryOp(0);
      if p.IsFailure() {
        return p.PropagateFailure();
      }
      if gettingParams || p.value.None? {
        return p;
      }
      var q := PeekOrPanic();
      if q.IsFailure() {
        return q.PropagateFailure();
      }
      if q.value.tokenType != COMMA {
        return p;
      }
      var values := [p.value.value];
      while true
        invariant Valid() && CommaLoop(tokens, State(), values) == ParserSpec.ParseCommas(tokens, old(State()))
        decreases |tokens| - pos
      {
        var q := PeekOrPanic();
        if q.IsFailure() {
          return q.PropagateFailure();
        }
        if q.value.tokenType != COMMA {
          break;
        }
        Advance();
        var q2 := PeekOrPanic();
        if q2.IsFailure() {
          return q2.PropagateFailure();
        }
        if q2.value.tokenType == EndOfFile {
          break;
        }
        var v := ParseBinaryOp(0);
        if v.IsFailure() {
          return v.PropagateFailure();
        }
        if v.value.None? {
          break;
        }
        values := values + [v.value.value];
      }
      r := Done(Some(Tuple(values, false)), State());
    }

    /** `parse_binary_op` at precedence `level` (0 for `parse_bool_or` to 10
        for `parse_pow`): an operand, then while no parameters are being
        read, an operator of the level and another operand. */
    method ParseBinaryOp(level: nat) returns (r: PNode)
      requires level <= 10 && Valid()
      modifies this
      ensures Valid() && r == ParseLevel(level, tokens, old(State()))
      ensures r.Done? ==> State() == r.st
      decreases |tokens| - pos, 36 - 2 * level
    {
      var p := Operand(level);
      if p.IsFailure() {
        return p.PropagateFailure();
      }
      var left := p.value;
      while !gettingParams
        invariant Valid() && BinaryLoop(level, tokens, State(), left) == ParseLevel(level, tokens, old(State()))
        decreases |tokens| - pos
      {
        var q := PeekToken();
        if q.IsFailure() {
          return q.PropagateFailure();
        }
        var op := q.value.tokenType;
        if op !in Ops(level) {
          break;
        }
        Advance();
        var right := Operand(level);
        if right.IsFailure() {
          return right.PropagateFailure();
        }
        if right.value.None? {
          return Unexpected(tokens, State());
        }
        if left.None? {
          return Panicked;
        }
        var combined := Combine(left.value, right.value.value, op);
        if combined.None? {
          return Panicked;
        }
        left := combined;
      }
      r := Done(left, State());
    }

    /** The `parse_func` a level passes to `parse_binary_op`. */
    method Operand(level: nat) returns (r: PNode)
      requires level <= 10 && Valid()
      modifies this
      ensures Valid() && r == LevelOperand(level, tokens, old(State()))
      ensures r.Done? ==> State() == r.st
      decreases |tokens| - pos, 35 - 2 * level
    {
      if level < 10 {
        r := ParseBinaryOp(level + 1);
      } else {
        r := ParseBefore();
      }
    }

    /** `parse_before`: prefix operators. */
    method ParseBefore() returns (r: PNode)
      requires Valid()
      modifies this
      ensures Valid() && r == ParserSpec.ParseBefore(tokens, old(State()))
      ensures r.Done? ==> State() == r.st
      decreases |tokens| - pos, 13
    {
      var q := PeekOrPanic();
      if q.IsFailure() {
        return q.PropagateFailure();
      }
      var op := q.value.tokenType;
      if !IsUnaryOp(op) {
        r := ParseAfter(None);
        return;
      }
      Advance();
      var p := ParseBefore();
      if p.IsFailure() {
        return p.PropagateFailure();
      }
      if p.value.None? {
        return Unexpected(tokens, State());
      }
      var value := p.value.value;
      if value.Int? {
        var folded := FoldUnary(op, value.i);
        r := if folded.Folded? then Done(Some(Int(folded.v)), State()) else Panicked;
      } else {
        r := Done(Some(UnaryOp(value, op)), State());
      }
    }

    /** `parse_after`: the factor unless one is given, then the postfix
        operators. */
    method ParseAfter(prev: Option<Node>) returns (r: PNode)
      requires Valid()
      modifies this
      ensures Valid() && r == ParserSpec.ParseAfter(tokens, old(State()), prev)
      ensures r.Done? ==> State() == r.st
      decreases |tokens| - pos, 12
    {
      var value := prev;
      if prev.None? {
        var p := ParseFactor();
        if p.IsFailure() {
          return p.PropagateFailure();
        }
        value := p.value;
      }
      r := Postfix(value);
    }

    /** The `match` of `parse_after` on the next token. */
    method Postfix(value: Option<Node>) returns (r: PNode)
      requires Valid()
      modifies this
      ensures Valid() && r == ParserSpec.Postfix(tokens, old(State()), value)
      ensures r.Done? ==> State() == r.st
      decreases |tokens| - pos, 11
    {
      var q := PeekOrPanic();
      if q.IsFailure() {
        return q.PropagateFailure();
      }
      match q.value.tokenType
      case LPAREN =>
        r := CallOf(value);
      case DOT =>
        Advance();
        var f := ParseId();
        if f.IsFailure() {
          return f.PropagateFailure();
        }
        if value.None? {
          return Panicked;
        }
        r := ParseAfter(Some(Access(value.value, f.value.value, false)));
      case LBRACKET =>
        Advance();
        var p := ParseStatement();
        if p.IsFailure() {
          return p.PropagateFailure();
        }
        var e := Eat(RBRACKET);
        if e.IsFailure() {
          return e.PropagateFailure();
        }
        if value.None? || p.value.None? {
          return Panicked;
        }
        r := ParseAfter(Some(Subscript(value.value, p.value.value)));
      case _ =>
        r := Done(value, State());
    }

    /** A call in `parse_after`. */
    method CallOf(value: Option<Node>) returns (r: PNode)
      requires Valid()
      modifies this
      ensures Valid() && r == ParserSpec.CallOf(tokens, old(State()), value)
      ensures r.Done? ==> State() == r.st
      decreases |tokens| - pos, 10
    {
      var t := ParseTuple(true);
      if t.IsFailure() {
        return t.PropagateFailure();
      }
      var args := match t.value case Some(Tuple(vs, _)) => vs case Some(n) => [n] case None => [];
      if value.None? {
        return Panicked;
      }
      var isAccess := value.value.Access?;
      var callee := if isAccess then value.value.(loadSelf := true) else value.value;
      r := ParseAfter(Some(FuncCall(callee, args, isAccess)));
    }

    /** `parse_factor`, with `parse_int`, `parse_string` and `parse_float`. */
    method ParseFactor() returns (r: PNode)
      requires Valid()
      modifies this
      ensures Valid() && r == ParserSpec.ParseFactor(tokens, old(State()))
      ensures r.Done? ==> State() == r.st
      decreases |tokens| - pos, 9
    {
      var q := PeekOrPanic();
      if q.IsFailure() {
        return q.PropagateFailure();
      }
      var t := q.value;
      match t.tokenType
      case INT =>
        Advance();
        r := Done(Some(Int(t.intValue)), State());
      case FLOAT =>
        r := FloatLiteral;
      case STRING =>
        Advance();
        r := Done(Some(Str(t.value)), State());
      case ID =>
        r := ParseId();
      case LPAREN =>
        r := ParseTuple(false);
      case LBRACKET =>
        r := ParseList();
      case KEYWORD =>
        r := ParseKeyword();
      case EndOfFile =>
        r := Done(None, State());
      case NewLine =>
        r := Done(None, State());
      case _ =>
        r := Unexpected(tokens, State());
    }

    /** `parse_id`. */
    method ParseId() returns (r: PNode)
      requires Valid()
      modifies this
      ensures Valid() && r == ParserSpec.ParseId(tokens, old(State()))
      ensures r.Done? ==> State() == r.st
    {
      var next := if pos < |tokens| then tokens[pos] else RustLexerSpec.Ok(Eof());
      Advance();
      match next
      case Ok(t) => r := Done(Some(Id(t.value)), State());
      case Err(e) => r := Failed(Lexing(e));
      case Panic(_) => r := Panicked;
    }

    /** `parse_keyword`, with `parse_if`, `parse_while` and `parse_return`. */
    method ParseKeyword() returns (r: PNode)
      requires Valid() && Is(tokens, pos, KEYWORD)
      modifies this
      ensures Valid() && r == ParserSpec.ParseKeyword(tokens, old(State()))
      ensures r.Done? ==> State() == r.st
      decreases |tokens| - pos, 8
    {
      var k := At(tokens, pos).token;
      NotEndInside(tokens, pos);
      Advance();
      match k.keywordType
      case Fn =>
        r := ParseFn();
      case If =>
        var c := ParseConditionBlock();
        if c.IsFailure() {
          return c.PropagateFailure();
        }
        r := Done(Some(Node.If(c.value.0, c.value.1)), State());
      case While =>
        var c := ParseConditionBlock();
        if c.IsFailure() {
          return c.PropagateFailure();
        }
        r := Done(Some(Node.While(c.value.0, c.value.1)), State());
      case Return =>
        var p := ParseStatement();
        if p.IsFailure() {
          return p.PropagateFailure();
        }
        r := Done(Some(Node.Return(p.value)), State());
      case _ =>
        r := Unexpected(tokens, State());
    }

    /** `parse_condition_block`. */
    method ParseConditionBlock() returns (r: Parsed<(Node, seq<Node>)>)
      requires Valid()
      modifies this
      ensures Valid() && r == ParserSpec.ParseConditionBlock(tokens, old(State()))
      ensures r.Done? ==> State() == r.st
      decreases |tokens| - pos, 50
    {
      var p := ParseStatement();
      if p.IsFailure() {
        return p.PropagateFailure();
      }
      if p.value.None? {
        return Unexpected(tokens, State());
      }
      var b := ParseBlock();
      if b.IsFailure() {
        return b.PropagateFailure();
      }
      r := Done((p.value.value, b.value), State());
    }

    /** `parse_fn`: the parameters are read with `getting_params` set. */
    method ParseFn() returns (r: PNode)
      requires Valid()
      modifies this
      ensures Valid() && r == ParserSpec.ParseFn(tokens, old(State()))
      ensures r.Done? ==> State() == r.st
      decreases |tokens| - pos, 50
    {
      var p := ParseFactor();
      if p.IsFailure() {
        return p.PropagateFailure();
      }
      gettingParams := true;
      var t := ParseTuple(true);
      if t.IsFailure() {
        return t.PropagateFailure();
      }
      gettingParams := false;
      var params := match t.value case Some(Tuple(vs, _)) => vs case Some(n) => [n] case None => [];
      if p.value.None? || !p.value.value.Id? {
        return Panicked;
      }
      var b := ParseBlock();
      if b.IsFailure() {
        return b.PropagateFailure();
      }
      r := Done(Some(FuncDef(p.value.value.name, params, b.value)), State());
    }

    // ------------------------------------------------------------ bodies

    /** `parse_body`: the opening delimiter, then elements up to the
        closing one. `track` is whether a `got_comma` flag is passed. */
    method ParseBody(open: TokenType, close: TokenType, commas: bool, track: bool)
      returns (r: Parsed<(seq<Node>, bool)>)
      requires Valid() && open != EndOfFile && close != EndOfFile
      modifies this
      ensures Valid() && r == ParserSpec.ParseBody(tokens, old(State()), open, close, commas, track)
      ensures r.Done? ==> State() == r.st
      decreases |tokens| - pos, 6
    {
      var e := Eat(open);
      if e.IsFailure() {
        return e.PropagateFailure();
      }
      var k := SkipNewlineOrSemicolon();
      if k.IsFailure() {
        return k.PropagateFailure();
      }
      r := ParseElements(close, commas, track);
    }

    /** The loop of `parse_body`, from the first element on. */
    method ParseElements(close: TokenType, commas: bool, track: bool)
      returns (r: Parsed<(seq<Node>, bool)>)
      requires Valid() && close != EndOfFile
      modifies this
      ensures Valid() && r == BodyLoop(tokens, old(State()), close, commas, track, [], false)
      ensures r.Done? ==> State() == r.st
      decreases |tokens| - pos, 47
    {
      var nodes: seq<Node> := [];
      var gotComma := false;
      while true
        invariant Valid() && old(pos) <= pos
        invariant BodyLoop(tokens, State(), close, commas, track, nodes, gotComma)
                  == BodyLoop(tokens, old(State()), close, commas, track, [], false)
        decreases |tokens| - pos
      {
        var q := PeekToken();
        if q.IsFailure() {
          return q.PropagateFailure();
        }
        if q.value.tokenType == close || q.value.tokenType == EndOfFile {
          var e := Eat(close);
          if e.IsFailure() {
            return e.PropagateFailure();
          }
          return Done((nodes, gotComma), State());
        }
        BodyLoopElement(tokens, State(), close, commas, track, nodes, gotComma);
        var element := NextElement();
        if element.IsFailure() {
          return element.PropagateFailure();
        }
        nodes := nodes + [element.value];
        var more, r', gotComma' := AfterElement(close, commas, track, nodes, gotComma);
        if !more {
          return r';
        }
        gotComma := gotComma';
      }
    }

    /** The end of a round of the loop of `parse_body`: `more` when the
        loop goes on, with the new `got_comma`; otherwise the outcome. */
    method AfterElement(close: TokenType, commas: bool, track: bool, nodes: seq<Node>, gotComma: bool)
      returns (more: bool, r: Parsed<(seq<Node>, bool)>, gotComma': bool)
      requires Valid() && close != EndOfFile
      modifies this
      ensures Valid() && old(pos) <= pos
      ensures more ==> BodyLoop(tokens, State(), close, commas, track, nodes, gotComma')
                       == Separator(tokens, old(State()), close, commas, track, nodes, gotComma)
      ensures !more ==> r == Separator(tokens, old(State()), close, commas, track, nodes, gotComma)
      ensures !more && r.Done? ==> State() == r.st
    {
      more, gotComma', r := true, gotComma, Panicked;
      if !commas {
        return;
      }
      var q := PeekToken();
      if q.IsFailure() {
        return false, q.PropagateFailure(), gotComma;
      }
      SeparatorCommas(tokens, State(), close, track, nodes, gotComma);
      if q.value.tokenType == COMMA {
        more, r, gotComma' := AfterComma(close, commas, track, nodes, gotComma);
      } else {
        var e := Eat(close);
        if e.IsFailure() {
          return false, e.PropagateFailure(), gotComma;
        }
        return false, Done((nodes, gotComma), State()), gotComma;
      }
    }

    /** The comma branch of a round: `more` when the loop goes on, with
        the new `got_comma`; otherwise the outcome. */
    method AfterComma(close: TokenType, commas: bool, track: bool, nodes: seq<Node>, gotComma: bool)
      returns (more: bool, r: Parsed<(seq<Node>, bool)>, gotComma': bool)
      requires Valid() && close != EndOfFile
      modifies this
      ensures Valid() && old(pos) <= pos
      ensures more ==> BodyLoop(tokens, State(), close, commas, track, nodes, gotComma')
                       == ParserSpec.AfterComma(tokens, old(State()), close, commas, track, nodes, gotComma)
      ensures !more ==> r == ParserSpec.AfterComma(tokens, old(State()), close, commas, track, nodes, gotComma)
      ensures !more && r.Done? ==> State() == r.st
    {
      more, gotComma', r := true, gotComma, Panicked;
      Advance();
      if track {
        gotComma' := true;
      } else {
        var q2 := PeekToken();
        if q2.IsFailure() {
          return false, q2.PropagateFailure(), gotComma;
        }
        if q2.value.tokenType == close {
          return false, Failed(Parsing(UnfinishedList(q2.value))), gotComma;
        }
      }
    }

    /** One element of the loop of `parse_body`. */
    method NextElement() returns (r: Parsed<Node>)
      requires Valid()
      modifies this
      ensures Valid() && r == Element(tokens, old(State()))
      ensures r.Done? ==> State() == r.st
      decreases |tokens| - pos, 45
    {
      var k := SkipNewlineOrSemicolon();
      if k.IsFailure() {
        return k.PropagateFailure();
      }
      var p := ParseStatement();
      if p.IsFailure() {
        return p.PropagateFailure();
      }
      if p.value.None? {
        return Unexpected(tokens, State());
      }
      var k2 := SkipNewlineOrSemicolon();
      if k2.IsFailure() {
        return k2.PropagateFailure();
      }
      r := Done(p.value.value, State());
    }

    /** `parse_tuple`. */
    method ParseTuple(mustBeTuple: bool) returns (r: PNode)
      requires Valid()
      modifies this
      ensures Valid() && r == ParserSpec.ParseTuple(tokens, old(State()), mustBeTuple)
      ensures r.Done? ==> State() == r.st
      decreases |tokens| - pos, 7
    {
      var b := ParseBody(LPAREN, RPAREN, true, true);
      if b.IsFailure() {
        return b.PropagateFailure();
      }
      var (values, gotComma) := b.value;
      if mustBeTuple {
        r := Done(Some(Tuple(values, false)), State());
      } else if |values| == 1 && !gotComma {
        r := Done(Some(values[0]), State());
      } else {
        r := Done(Some(Tuple(values, false)), State());
      }
    }

    /** `parse_list`: the body is read with `getting_params` set. */
    method ParseList() returns (r: PNode)
      requires Valid()
      modifies this
      ensures Valid() && r == ParserSpec.ParseList(tokens, old(State()))
      ensures r.Done? ==> State() == r.st
      decreases |tokens| - pos, 7
    {
      gettingParams := true;
      var b := ParseBody(LBRACKET, RBRACKET, true, false);
      if b.IsFailure() {
        return b.PropagateFailure();
      }
      gettingParams := false;
      r := Done(Some(Tuple(b.value.0, true)), State());
    }

    /** `parse_block`. */
    method ParseBlock() returns (r: Parsed<seq<Node>>)
      requires Valid()
      modifies this
      ensures Valid() && r == ParserSpec.ParseBlock(tokens, old(State()))
      ensures r.Done? ==> State() == r.st
      decreases |tokens| - pos, 7
    {
      var b := ParseBody(LBRACE, RBRACE, false, false);
      if b.IsFailure() {
        return b.PropagateFailure();
      }
      r := Done(b.value.0, State());
    }
  }
}
