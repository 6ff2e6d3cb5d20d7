/** Properties of the parser functions: where bodies end, where each
    precedence level stops, and how single tokens, assignments, binary
    operators and folded constants come out. */
module ParserProps {
  import opened Wrappers
  import opened Ints
  import opened Ast
  import opened RustToken
  import opened ParserSpec
  import opened TwosComplement

  // ---------------------------------------------------------------- bodies

  /** At end-of-file the loop of `parse_body` fails: it eats the closing
      delimiter, and end-of-file is not one. */
  lemma BodyLoopAtEnd(ts: seq<Lexed>, st: PState, close: TokenType, commas: bool, track: bool,
                      nodes: seq<Node>, gotComma: bool)
    requires st.pos <= |ts| && close != EndOfFile && Is(ts, st.pos, EndOfFile)
    ensures BodyLoop(ts, st, close, commas, track, nodes, gotComma)
            == Failed(Parsing(UnexpectedTokenExpected(At(ts, st.pos).token, close)))
  {
    assert PeekToken(ts, st) == Done(At(ts, st.pos).token, st);
    assert !Is(ts, st.pos, close);
  }

  /** An element of a body is the statement after the skipped newlines
      and `;`: a place where no statement starts gives no element. */
  lemma ElementIsStatement(ts: seq<Lexed>, st: PState)
    requires st.pos <= |ts|
    ensures Element(ts, st).Done? ==>
              Skip(ts, st).Done? && ParseStatement(ts, Skip(ts, st).st).Done? &&
              ParseStatement(ts, Skip(ts, st).st).value == Some(Element(ts, st).value)
  {
    var k := Skip(ts, st);
    if k.Done? {
      var p := ParseStatement(ts, k.st);
      assert p.Done? && p.value.None? ==> !Element(ts, st).Done?;
    }
  }

  /** Parentheses hold a tuple, except that a single element with no
      comma, where no tuple is required, is that element. */
  lemma TupleOrSole(ts: seq<Lexed>, st: PState, mustBeTuple: bool, values: seq<Node>, gotComma: bool, s: PState)
    requires st.pos <= |ts| && ParseBody(ts, st, LPAREN, RPAREN, true, true) == Done((values, gotComma), s)
    ensures ParseTuple(ts, st, mustBeTuple) ==
              if !mustBeTuple && |values| == 1 && !gotComma then Done(Some(values[0]), s)
              else Done(Some(Tuple(values, false)), s)
  {
  }

  // ---------------------------------------------------------------- levels

  /** The operators of some precedence level. */
  function AllOps(): (r: set<TokenType>)
    ensures forall level :: 0 <= level <= 10 ==> forall t :: t in Ops(level) ==> t in r
  {
    {OR, AND, HAT, BoolEq, BoolNe, BoolGt, BoolLt, BoolGte, BoolLte, SHL, SHR, ADD, SUB, MUL, DIV, MOD, POW}
  }

  /** The token at `i` is no operator of `level` or of a tighter one. */
  predicate StopsBefore(ts: seq<Lexed>, i: nat, level: nat)
    requires level <= 10
  {
    At(ts, i).Ok? && forall j :: level <= j <= 10 ==> At(ts, i).token.tokenType !in Ops(j)
  }

  /** A token that stops a level is none of its operators, and stops the
      next level in. */
  lemma StopsInward(ts: seq<Lexed>, i: nat, level: nat)
    requires level <= 10 && StopsBefore(ts, i, level)
    ensures At(ts, i).token.tokenType !in Ops(level)
    ensures level < 10 ==> StopsBefore(ts, i, level + 1)
  {
  }

  /** Unless parameters are being read, a level stops at a token that no
      level from it inwards takes as an operator. */
  lemma {:induction false} LevelStops(level: nat, ts: seq<Lexed>, st: PState)
    requires level <= 10 && st.pos <= |ts|
    ensures var r := ParseLevel(level, ts, st);
            r.Done? && !r.st.params ==> StopsBefore(ts, r.st.pos, level)
    decreases 10 - level, 1, 0
  {
    var p := LevelOperand(level, ts, st);
    if p.Done? {
      if level < 10 {
        LevelStops(level + 1, ts, st);
      }
      LoopStops(level, ts, p.st, p.value);
    }
  }

  lemma {:induction false} LoopStops(level: nat, ts: seq<Lexed>, st: PState, left: Option<Node>)
    requires level <= 10 && st.pos <= |ts|
    requires level < 10 && !st.params ==> StopsBefore(ts, st.pos, level + 1)
    ensures var r := BinaryLoop(level, ts, st, left);
            r.Done? && !r.st.params ==> StopsBefore(ts, r.st.pos, level)
    decreases 10 - level, 0, |ts| - st.pos
  {
    if !st.params {
      var q := PeekToken(ts, st);
      if q.Done? && q.value.tokenType in Ops(level) {
        var s1 := Step(ts, st);
        var p := LevelOperand(level, ts, s1);
        if p.Done? && p.value.Some? && left.Some? {
          if level < 10 {
            LevelStops(level + 1, ts, s1);
          }
          match Combine(left.value, p.value.value, q.value.tokenType)
          case Some(n) => LoopStops(level, ts, p.st, Some(n));
          case None =>
        }
      }
    }
  }

  /** `parse_bool_or` and `parse_bool_and` never take a token: the `|` and
      `&` they look for are taken by `parse_bitwise_or` and
      `parse_bitwise_and` further in, so the first three levels parse alike. */
  lemma OuterLevelsNeverConsume(ts: seq<Lexed>, st: PState)
    requires st.pos <= |ts|
    ensures ParseLevel(0, ts, st) == ParseLevel(2, ts, st)
    ensures ParseLevel(1, ts, st) == ParseLevel(2, ts, st)
  {
    LevelStops(2, ts, st);
    var r := ParseLevel(2, ts, st);
    if r.Done? {
      assert AND in Ops(4) && OR in Ops(2);
      assert BinaryLoop(1, ts, r.st, r.value) == r;
      assert ParseLevel(1, ts, st) == r;
      assert BinaryLoop(0, ts, r.st, r.value) == r;
    } else {
      assert ParseLevel(1, ts, st) == r;
    }
  }

  // ---------------------------------------------------------------- single tokens

  /** The node a literal or name token stands for by itself. */
  function AtomOf(t: Token): Option<Node> {
    match t.tokenType
    case INT => Some(Int(t.intValue))
    case STRING => Some(Str(t.value))
    case ID => Some(Id(t.value))
    case _ => None
  }

  /** The token at `i` opens no call, field access or subscript. */
  predicate NoPostfix(ts: seq<Lexed>, i: nat) {
    At(ts, i).Ok? &&
    var t := At(ts, i).token.tokenType;
    t != LPAREN && t != DOT && t != LBRACKET
  }

  /** The token at `i` ends an expression: it is no operator and opens no
      call, field access or subscript. */
  predicate EndsExpression(ts: seq<Lexed>, i: nat) {
    NoPostfix(ts, i) && At(ts, i).token.tokenType !in AllOps()
  }

  /** The loop of a level ends at a token that is none of its operators. */
  lemma BinaryLoopAtStop(level: nat, ts: seq<Lexed>, st: PState, left: Option<Node>)
    requires level <= 10 && st.pos <= |ts|
    requires At(ts, st.pos).Ok? && At(ts, st.pos).token.tokenType !in Ops(level)
    ensures BinaryLoop(level, ts, st, left) == Done(left, st)
  {
  }

  /** One round of the loop of a level: its operator, the right operand,
      and the two combined (a panic if folding overflows). */
  lemma BinaryLoopRound(level: nat, ts: seq<Lexed>, st: PState, a: Node, b: Node, s2: PState)
    requires level <= 10 && st.pos <= |ts| && !st.params
    requires At(ts, st.pos).Ok? && At(ts, st.pos).token.tokenType in Ops(level)
    requires LevelOperand(level, ts, Step(ts, st)) == Done(Some(b), s2)
    ensures var c := Combine(a, b, At(ts, st.pos).token.tokenType);
            BinaryLoop(level, ts, st, Some(a)) == if c.Some? then BinaryLoop(level, ts, s2, c) else Panicked
  {
  }

  /** A literal or a name followed by no postfix operator is one operand. */
  lemma AtomBefore(ts: seq<Lexed>, st: PState)
    requires st.pos <= |ts|
    requires At(ts, st.pos).Ok? && AtomOf(At(ts, st.pos).token).Some?
    requires NoPostfix(ts, st.pos + 1)
    ensures ParseBefore(ts, st) == Done(AtomOf(At(ts, st.pos).token), Step(ts, st))
  {
    var a := AtomOf(At(ts, st.pos).token);
    var s1 := Step(ts, st);
    assert s1.pos == st.pos + 1;
    assert ParseFactor(ts, st) == Done(a, s1);
    assert Postfix(ts, s1, a) == Done(a, s1);
    assert ParseAfter(ts, st, None) == Done(a, s1);
  }

  /** A literal or a name at `i`, then a token that no level from `level`
      inwards takes and that opens no postfix operation. */
  predicate AtomThenStop(ts: seq<Lexed>, i: nat, level: nat) {
    level <= 10 && At(ts, i).Ok? && AtomOf(At(ts, i).token).Some? &&
    NoPostfix(ts, i + 1) && StopsBefore(ts, i + 1, level)
  }

  /** A literal or a name followed by a token that no level from `level`
      inwards takes is parsed at `level` as that single node. */
  lemma {:induction false} AtomAtLevel(level: nat, ts: seq<Lexed>, st: PState)
    requires st.pos <= |ts| && AtomThenStop(ts, st.pos, level)
    ensures ParseLevel(level, ts, st) == Done(AtomOf(At(ts, st.pos).token), Step(ts, st))
    decreases 10 - level
  {
    var a := AtomOf(At(ts, st.pos).token);
    var s1 := Step(ts, st);
    StopsInward(ts, st.pos + 1, level);
    if level < 10 {
      AtomAtLevel(level + 1, ts, st);
    } else {
      AtomBefore(ts, st);
    }
    assert LevelOperand(level, ts, st) == Done(a, s1);
    BinaryLoopAtStop(level, ts, s1, a);
  }

  // ---------------------------------------------------------------- shapes

  /** Assignment is right-associative: after a name and an assignment
      operator, the right side is a whole assignment statement, so
      `a = b = c` is `a = (b = c)`. */
  lemma AssignmentIsRightAssociative(ts: seq<Lexed>, st: PState)
    requires st.pos + 1 < |ts| && Is(ts, st.pos, ID)
    requires At(ts, st.pos + 1).Ok? && IsAssignOp(At(ts, st.pos + 1).token.tokenType)
    ensures var name := At(ts, st.pos).token.value;
            var op := At(ts, st.pos + 1).token.tokenType;
            var rest := ParseAssignment(ts, PState(st.pos + 2, st.params));
            ParseStatement(ts, st) ==
              if !rest.Done? then rest
              else if rest.value.None? then Unexpected(ts, rest.st)
              else Done(Some(Assignment(Id(name), rest.value.value, op)), rest.st)
  {
    var name := At(ts, st.pos).token.value;
    var s1 := Step(ts, st);
    assert ParseLevel(0, ts, st) == Done(Some(Id(name)), s1) by {
      AtomAtLevel(0, ts, st);
    }
    assert ParseCommas(ts, st) == Done(Some(Id(name)), s1) by {
      NoCommaAfter(ts, st, Id(name), s1);
    }
    assert Step(ts, s1) == PState(st.pos + 2, st.params);
    AssignmentAfter(ts, st, Id(name), s1);
    assert ParseStatement(ts, st) == ParseAssignment(ts, st);
  }

  /** A value not followed by a comma is the whole of `parse_commas`. */
  lemma NoCommaAfter(ts: seq<Lexed>, st: PState, v: Node, s1: PState)
    requires st.pos <= |ts| && ParseLevel(0, ts, st) == Done(Some(v), s1)
    requires At(ts, s1.pos).Ok? && At(ts, s1.pos).token.tokenType != COMMA
    ensures ParseCommas(ts, st) == Done(Some(v), s1)
  {
  }

  /** A left side followed by an assignment operator: the right side is
      read by `parse_assignment` itself. */
  lemma AssignmentAfter(ts: seq<Lexed>, st: PState, left: Node, s1: PState)
    requires st.pos <= |ts| && ParseCommas(ts, st) == Done(Some(left), s1)
    requires At(ts, s1.pos).Ok? && IsAssignOp(At(ts, s1.pos).token.tokenType)
    ensures var op := At(ts, s1.pos).token.tokenType;
            var rest := ParseAssignment(ts, Step(ts, s1));
            ParseAssignment(ts, st) ==
              if !rest.Done? then rest
              else if rest.value.None? then Unexpected(ts, rest.st)
              else Done(Some(Assignment(left, rest.value.value, op)), rest.st)
  {
  }

  /** Binary operators are left-associative: `a - b - c` is `(a - b) - c`
      for names `a`, `b`, `c`. */
  lemma SubtractionIsLeftAssociative(ts: seq<Lexed>, st: PState)
    requires !st.params && st.pos + 5 <= |ts|
    requires Is(ts, st.pos, ID) && Is(ts, st.pos + 1, SUB) && Is(ts, st.pos + 2, ID)
    requires Is(ts, st.pos + 3, SUB) && Is(ts, st.pos + 4, ID)
    requires EndsExpression(ts, st.pos + 5)
    ensures var a := Id(At(ts, st.pos).token.value);
            var b := Id(At(ts, st.pos + 2).token.value);
            var c := Id(At(ts, st.pos + 4).token.value);
            ParseLevel(8, ts, st) == Done(Some(BinaryOp(BinaryOp(a, b, SUB), c, SUB)), PState(st.pos + 5, false))
  {
    var s1 := PState(st.pos + 1, false);
    var s3 := PState(st.pos + 3, false);
    var s5 := PState(st.pos + 5, false);
    AtomAtLevel(9, ts, st);
    AtomAtLevel(9, ts, PState(st.pos + 2, false));
    AtomAtLevel(9, ts, PState(st.pos + 4, false));
    var a := Id(At(ts, st.pos).token.value);
    var b := Id(At(ts, st.pos + 2).token.value);
    var c := Id(At(ts, st.pos + 4).token.value);
    CombineShape(a, b, SUB);
    CombineShape(BinaryOp(a, b, SUB), c, SUB);
    BinaryLoopRound(8, ts, s1, a, b, s3);
    BinaryLoopRound(8, ts, s3, BinaryOp(a, b, SUB), c, s5);
    BinaryLoopAtStop(8, ts, s5, Some(BinaryOp(BinaryOp(a, b, SUB), c, SUB)));
  }

  /** One operator of a level between two literals or names: the two
      operands combined, as a binary node or a folded literal, or a panic
      when folding overflows. */
  lemma OneOperation(level: nat, ts: seq<Lexed>, st: PState)
    requires level < 10 && !st.params && st.pos + 3 <= |ts|
    requires AtomThenStop(ts, st.pos, level + 1) && AtomThenStop(ts, st.pos + 2, level)
    requires At(ts, st.pos + 1).token.tokenType in Ops(level)
    ensures var c := Combine(AtomOf(At(ts, st.pos).token).value, AtomOf(At(ts, st.pos + 2).token).value,
                             At(ts, st.pos + 1).token.tokenType);
            ParseLevel(level, ts, st) == if c.Some? then Done(c, PState(st.pos + 3, false)) else Panicked
  {
    var a := AtomOf(At(ts, st.pos).token).value;
    var b := AtomOf(At(ts, st.pos + 2).token).value;
    var s1 := PState(st.pos + 1, false);
    var s3 := PState(st.pos + 3, false);
    AtomAtLevel(level + 1, ts, st);
    AtomAtLevel(level + 1, ts, PState(st.pos + 2, false));
    BinaryLoopRound(level, ts, s1, a, b, s3);
    var c := Combine(a, b, At(ts, st.pos + 1).token.tokenType);
    CombineShape(a, b, At(ts, st.pos + 1).token.tokenType);
    if c.Some? {
      BinaryLoopAtStop(level, ts, s3, c);
    }
  }

  /** Two integer literals under `+` fold into one literal of their sum
      when it fits in an `i64`, and panic otherwise. */
  lemma AdditionFolds(ts: seq<Lexed>, st: PState)
    requires !st.params && st.pos + 3 <= |ts|
    requires Is(ts, st.pos, INT) && Is(ts, st.pos + 1, ADD) && Is(ts, st.pos + 2, INT)
    requires EndsExpression(ts, st.pos + 3)
    ensures var x: int := At(ts, st.pos).token.intValue;
            var y: int := At(ts, st.pos + 2).token.intValue;
            ParseLevel(8, ts, st) ==
              if InI64(x + y) then Done(Some(Int(x + y)), PState(st.pos + 3, false)) else Panicked
  {
    OneOperation(8, ts, st);
    AddCombines(At(ts, st.pos).token.intValue, At(ts, st.pos + 2).token.intValue);
  }

  /** The shape of a combined operand: a binary node unless both sides are
      literals under a folding operator, a literal when they are, and a
      panic exactly when the folding overflows. */
  lemma CombineShape(left: Node, right: Node, op: TokenType)
    ensures var r := Combine(left, right, op);
            && (r.Some? && !(left.Int? && right.Int? && op in {ADD, SUB, MUL, SHR, SHL}) ==>
                  r.value == BinaryOp(left, right, op))
            && (r.Some? && left.Int? && right.Int? && op in {ADD, SUB, MUL, SHR, SHL} ==> r.value.Int?)
            && (r.None? <==> left.Int? && right.Int? && FoldInts(op, left.i, right.i).Overflow?)
  {
  }

  /** `+` on two literals folds to their sum, or overflows. */
  lemma AddCombines(x: i64, y: i64)
    ensures Combine(Int(x), Int(y), ADD) == if InI64(x as int + y) then Some(Int(x as int + y)) else None
  {
  }

  /** A minus sign before an integer literal folds into the negated
      literal, and panics on the least `i64`. */
  lemma NegationFolds(ts: seq<Lexed>, st: PState)
    requires st.pos + 2 <= |ts|
    requires Is(ts, st.pos, SUB) && Is(ts, st.pos + 1, INT)
    requires NoPostfix(ts, st.pos + 2)
    ensures var x := At(ts, st.pos + 1).token.intValue;
            ParseBefore(ts, st) ==
              if x == I64_MIN then Panicked else Done(Some(Int(-x)), PState(st.pos + 2, st.params))
  {
    var s2 := PState(st.pos + 2, st.params);
    var x := At(ts, st.pos + 1).token.intValue;
    LiteralOperand(ts, Step(ts, st));
    PrefixOperator(ts, st, Int(x), s2);
    NegationOverflows(x);
  }

  /** An integer literal followed by no postfix operator is parsed as
      that literal. */
  lemma LiteralOperand(ts: seq<Lexed>, st: PState)
    requires st.pos + 1 <= |ts| && Is(ts, st.pos, INT) && NoPostfix(ts, st.pos + 1)
    ensures ParseBefore(ts, st) == Done(Some(Int(At(ts, st.pos).token.intValue)), PState(st.pos + 1, st.params))
  {
    AtomBefore(ts, st);
  }

  /** A prefix operator whose operand parses to `v`: on an integer literal
      it folds into the literal (a panic when folding overflows), on
      anything else it becomes a unary-operation node. */
  lemma PrefixOperator(ts: seq<Lexed>, st: PState, v: Node, s2: PState)
    requires st.pos <= |ts| && At(ts, st.pos).Ok? && IsUnaryOp(At(ts, st.pos).token.tokenType)
    requires ParseBefore(ts, Step(ts, st)) == Done(Some(v), s2)
    ensures var op := At(ts, st.pos).token.tokenType;
            ParseBefore(ts, st) ==
              if !v.Int? then Done(Some(UnaryOp(v, op)), s2)
              else if FoldUnary(op, v.i).Folded? then Done(Some(Int(FoldUnary(op, v.i).v)), s2)
              else Panicked
  {
  }

  /** Unary `-` on a literal negates it, or overflows on the least `i64`. */
  lemma NegationOverflows(x: i64)
    ensures FoldUnary(SUB, x) == if x == I64_MIN then Overflow else Folded(-x)
  {
    UnaryFolds(SUB, x);
  }

  // ---------------------------------------------------------------- folding against the bit patterns

  /** A prefix operator on an integer literal: `~` folds to the value whose
      64 bits are the complement of the operand's, `!` to 1 for 0 and to 0
      otherwise, `-` to the negation (a panic on the least `i64`, whose
      negation does not fit), and `+` to the operand itself. */
  lemma UnaryFolds(op: TokenType, a: i64)
    requires IsUnaryOp(op)
    ensures op == NOT ==> FoldUnary(op, a).Folded? && Bits(FoldUnary(op, a).v, 64) == Complement(Bits(a, 64))
    ensures op == BoolNot ==> FoldUnary(op, a).Folded? && (FoldUnary(op, a).v == 1 <==> a == 0)
                              && (FoldUnary(op, a).v == 0 <==> a != 0)
    ensures op == SUB ==> (FoldUnary(op, a).Overflow? <==> !InI64(-(a as int)))
                          && (FoldUnary(op, a).Folded? ==> FoldUnary(op, a).v + a == 0)
    ensures op == ADD ==> FoldUnary(op, a) == Folded(a)
  {
    if op == NOT {
      NotFoldsToComplement(op, a);
    }
  }

  /** The `~` case of UnaryFolds. */
  lemma NotFoldsToComplement(op: TokenType, a: i64)
    requires op == NOT
    ensures FoldUnary(op, a).Folded? && Bits(FoldUnary(op, a).v, 64) == Complement(Bits(a, 64))
  {
    assert FoldUnary(op, a) == Folded(-1 - a);
    NotBits(a, FoldUnary(op, a).v, 64);
  }

  /** `<<` and `>>` by 0..63 on integer literals fold to the value whose 64
      bits are the operand's shifted: left with the top bits dropped, or
      right with the sign bit copied in at the top. Any other amount
      panics. */
  lemma ShiftFolds(op: TokenType, a: i64, b: i64)
    requires op == SHL || op == SHR
    ensures FoldInts(op, a, b).Folded? <==> 0 <= b < 64
    ensures !FoldInts(op, a, b).Folded? ==> FoldInts(op, a, b).Overflow?
    ensures FoldInts(op, a, b).Folded? && op == SHL ==>
              Bits(FoldInts(op, a, b).v, 64) == ShiftLeft(Bits(a, 64), b)
    ensures FoldInts(op, a, b).Folded? && op == SHR ==>
              Bits(FoldInts(op, a, b).v, 64) == ShiftRightArith(Bits(a, 64), b)
  {
    if 0 <= b < 64 {
      if op == SHL {
        ShlFoldsToShift(op, a, b);
      } else {
        ShrFoldsToArithShift(op, a, b);
      }
    }
  }

  /** The `<<` case of ShiftFolds: the product wraps to the low 64 bits. */
  lemma ShlFoldsToShift(op: TokenType, a: i64, b: i64)
    requires op == SHL && 0 <= b < 64
    ensures FoldInts(op, a, b).Folded? && Bits(FoldInts(op, a, b).v, 64) == ShiftLeft(Bits(a, 64), b)
  {
    var y := a * Pow2(b);
    var k := -((y - I64_MIN) / 0x1_0000_0000_0000_0000);
    assert FoldInts(op, a, b) == Folded(WrapI64(y));
    assert WrapI64(y) == y + k * Pow2(64) by { Pow2Of64(); }
    BitsModulo(y, FoldInts(op, a, b).v, k, 64);
    ScaleBits(a, b, 64);
  }

  /** The `>>` case of ShiftFolds. */
  lemma ShrFoldsToArithShift(op: TokenType, a: i64, b: i64)
    requires op == SHR && 0 <= b < 64
    ensures FoldInts(op, a, b).Folded? && Bits(FoldInts(op, a, b).v, 64) == ShiftRightArith(Bits(a, 64), b)
  {
    assert FoldInts(op, a, b) == Folded(ShiftRight(a, b));
    assert FitsSigned(a, 64) by { Pow2Of64(); }
    HalvingShifts(a, b);
  }

  /** Halving `b` times is arithmetic `>>` by `b` on the 64 bits. */
  lemma {:induction false} HalvingShifts(a: int, b: nat)
    requires FitsSigned(a, 64) && b <= 64
    ensures Bits(ShiftRight(a, b), 64) == ShiftRightArith(Bits(a, 64), b)
    decreases b
  {
    if b == 0 {
      assert ShiftRightArith(Bits(a, 64), 0) == Bits(a, 64);
    } else {
      HalveBits(a, 64);
      HalvingShifts(a / 2, b - 1);
      ShiftRightStep(Bits(a, 64), b - 1);
    }
  }

  /** An `i64` is fixed by its 64 bits, so the bit patterns in UnaryFolds
      and ShiftFolds determine the folded value. */
  lemma WordDeterminesValue(x: i64, y: i64)
    requires Bits(x, 64) == Bits(y, 64)
    ensures x == y
  {
    assert FitsSigned(x, 64) && FitsSigned(y, 64) by { Pow2Of64(); }
    BitsInjective(x, y, 64);
  }
}
