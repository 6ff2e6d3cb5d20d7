/** The syntax tree the parser builds and the compiler walks, with the pure
    queries every node answers: whether compiling it leaves a value on the
    stack, whether it returns, whether it is a constant, its constant, and
    its source text. */
module Ast {
  import opened Wrappers
  import opened Ints
  import Chars
  import RustToken
  import Bytekod

  /** One node per node struct. A block inside a function definition, an
      `if` or a `while` is held as its statements. Float literals are not
      part of this model. */
  datatype Node =
    | Block(statements: seq<Node>)
    | FuncDef(name: string, params: seq<Node>, body: seq<Node>)
    | FuncCall(callee: Node, args: seq<Node>, addArg: bool)
    | Assignment(left: Node, right: Node, op: RustToken.TokenType)
    | BinaryOp(left: Node, right: Node, op: RustToken.TokenType)
    | UnaryOp(value: Node, op: RustToken.TokenType)
    | Access(value: Node, field: Node, loadSelf: bool)
    | Subscript(value: Node, subscript: Node)
    | Return(result: Option<Node>)
    | If(condition: Node, block: seq<Node>)
    | While(condition: Node, block: seq<Node>)
    | Tuple(values: seq<Node>, isList: bool)
    | Int(i: i64)
    | Str(s: string)
    | Id(name: string)

  /** `pushes`: false for the statements that leave nothing on the stack,
      true (the trait's default) for every other node. */
  predicate Pushes(n: Node) {
    !(n.Assignment? || n.Return? || n.If? || n.While? || n.FuncDef?)
  }

  /** `returns`: only a `return` statement returns, and it leaves nothing
      on the stack. */
  predicate Returns(n: Node): (b: bool)
    ensures b ==> !Pushes(n)
  {
    n.Return?
  }

  /** `is_constant`: literals are constant, and so are operations, tuples
      and lists made only of constants. */
  predicate IsConstant(n: Node)
    decreases n, 1
  {
    match n
    case Int(_) => true
    case Str(_) => true
    case BinaryOp(l, r, _) => IsConstant(l) && IsConstant(r)
    case UnaryOp(v, _) => IsConstant(v)
    case Tuple(vs, _) => AllConstant(vs)
    case _ => false
  }

  predicate AllConstant(ns: seq<Node>)
    decreases ns, 0
  {
    forall i :: 0 <= i < |ns| ==> IsConstant(ns[i])
  }

  /** `to_constant`: the constant of a literal or of a tuple of them; every
      other node ends in the trait's `unimplemented!` panic (None). */
  function ToConstant(n: Node): Option<Bytekod.Constant>
    decreases n, 1
  {
    match n
    case Int(v) => Some(Bytekod.Int(v))
    case Str(s) => Some(Bytekod.Str(s))
    case Tuple(vs, _) =>
      (match ToConstants(vs)
       case None => None
       case Some(cs) => Some(Bytekod.Tuple(cs)))
    case _ => None
  }

  function ToConstants(ns: seq<Node>): (r: Option<seq<Bytekod.Constant>>)
    ensures r.Some? ==> |r.value| == |ns|
    decreases ns, 0
  {
    if ns == [] then Some([])
    else
      match (ToConstant(ns[0]), ToConstants(ns[1..]))
      case (Some(c), Some(cs)) => Some([c] + cs)
      case _ => None
  }

  /** A literal tree: an integer, a string, or a tuple or list of literals. */
  predicate IsLiteral(n: Node)
    decreases n, 1
  {
    n.Int? || n.Str? || (n.Tuple? && AllLiteral(n.values))
  }

  predicate AllLiteral(ns: seq<Node>)
    decreases ns, 0
  {
    forall i :: 0 <= i < |ns| ==> IsLiteral(ns[i])
  }

  /** `to_constant` succeeds exactly on literal trees, and a tree it
      converts is one `is_constant` accepts. */
  lemma {:induction false} ToConstantExactlyLiterals(n: Node)
    ensures ToConstant(n).Some? <==> IsLiteral(n)
    ensures IsLiteral(n) ==> IsConstant(n)
    decreases n, 1
  {
    if n.Tuple? {
      ToConstantsExactlyLiterals(n.values);
    }
  }

  lemma {:induction false} ToConstantsExactlyLiterals(ns: seq<Node>)
    ensures ToConstants(ns).Some? <==> AllLiteral(ns)
    ensures AllLiteral(ns) ==> AllConstant(ns)
    decreases ns, 0
  {
    if ns != [] {
      ToConstantExactlyLiterals(ns[0]);
      ToConstantsExactlyLiterals(ns[1..]);
      if AllLiteral(ns[1..]) && IsLiteral(ns[0]) {
        forall i | 0 <= i < |ns|
          ensures IsLiteral(ns[i])
        {
          if i > 0 {
            assert ns[i] == ns[1..][i - 1];
          }
        }
      }
      if AllLiteral(ns) {
        assert IsLiteral(ns[0]);
        assert forall i :: 0 <= i < |ns| - 1 ==> ns[1..][i] == ns[i + 1];
      }
    }
  }

  /** `is_constant` does not promise that `to_constant` succeeds: a constant
      operation has no constant of its own. */
  lemma ConstantOperationHasNoConstant()
    ensures var n := BinaryOp(Int(1), Int(2), RustToken.ADD);
            IsConstant(n) && ToConstant(n).None?
  {
  }

  // ---------------------------------------------------------------- source text

  /** `xs.join(sep)`. */
  function Join(xs: seq<string>, sep: string): string {
    if xs == [] then ""
    else if |xs| == 1 then xs[0]
    else xs[0] + sep + Join(xs[1..], sep)
  }

  /** `to_string`, or None where it panics: the reverse lookup of an
      operator in the symbol table `unwrap`s, so an operator that is not a
      key's kind panics. */
  function ToString(n: Node): Option<string>
    decreases n, 1
  {
    match n
    case Block(stmts) => StatementsText(stmts)
    case FuncDef(name, params, body) =>
      (match (TextsOf(params), StatementsText(body))
      case (Some(ps), Some(b)) => Some(name + "(" + Join(ps, ", ") + ") {\n" + b + "}")
      case _ => None)
    case FuncCall(callee, args, _) =>
      (match (ToString(callee), TextsOf(args))
      case (Some(c), Some(texts)) => Some(c + "(" + Join(texts, ", ") + ")")
      case _ => None)
    case Assignment(l, r, op) =>
      (match (ToString(l), RustToken.SymbolText(op), ToString(r))
      case (Some(a), Some(sym), Some(b)) => Some(a + " " + sym + " " + b)
      case _ => None)
    case BinaryOp(l, r, op) =>
      (match (ToString(l), RustToken.SymbolText(op), ToString(r))
      case (Some(a), Some(sym), Some(b)) => Some("(" + a + " " + sym + " " + b + ")")
      case _ => None)
    case UnaryOp(v, op) =>
      (match (RustToken.SymbolText(op), ToString(v))
      case (Some(sym), Some(a)) => Some("(" + sym + a + ")")
      case _ => None)
    case Access(v, f, _) =>
      (match (ToString(v), ToString(f))
      case (Some(a), Some(b)) => Some(a + "." + b)
      case _ => None)
    case Subscript(v, s) =>
      (match (ToString(v), ToString(s))
      case (Some(a), Some(b)) => Some(a + "[" + b + "]")
      case _ => None)
    case Return(None) => Some("return null")
    case Return(Some(v)) =>
      (match ToString(v)
      case Some(a) => Some("return " + a)
      case None => None)
    case If(c, stmts) =>
      (match (ToString(c), StatementsText(stmts))
      case (Some(a), Some(b)) => Some("if " + a + " {\n" + b + "}")
      case _ => None)
    case While(c, stmts) =>
      (match (ToString(c), StatementsText(stmts))
      case (Some(a), Some(b)) => Some("while " + a + " {\n" + b + "}")
      case _ => None)
    case Tuple(vs, isList) =>
      (match TextsOf(vs)
      case Some(ts) => Some((if isList then "[" else "(") + Join(ts, ", ") + (if isList then "]" else ")"))
      case None => None)
    case Int(v) => Some(Chars.IntToDecimal(v))
    case Str(s) => Some("\"" + s + "\"")
    case Id(name) => Some(name)
  }

  /** The text of each node, in order. */
  function TextsOf(ns: seq<Node>): (r: Option<seq<string>>)
    ensures r.Some? ==> |r.value| == |ns|
    decreases ns, 0
  {
    if ns == [] then Some([])
    else
      match (ToString(ns[0]), TextsOf(ns[1..]))
      case (Some(t), Some(ts)) => Some([t] + ts)
      case _ => None
  }

  /** A block's text: each statement followed by a newline. */
  function StatementsText(ns: seq<Node>): Option<string>
    decreases ns, 0
  {
    if ns == [] then Some("")
    else
      match (ToString(ns[0]), StatementsText(ns[1..]))
      case (Some(t), Some(rest)) => Some(t + "\n" + rest)
      case _ => None
  }

  /** Every operator in the tree is the kind of some key of the symbol table. */
  predicate OperatorsNamed(n: Node)
    decreases n, 1
  {
    match n
    case Block(stmts) => AllNamed(stmts)
    case FuncDef(_, params, body) => AllNamed(params) && AllNamed(body)
    case FuncCall(callee, args, _) => OperatorsNamed(callee) && AllNamed(args)
    case Assignment(l, r, op) => RustToken.SymbolText(op).Some? && OperatorsNamed(l) && OperatorsNamed(r)
    case BinaryOp(l, r, op) => RustToken.SymbolText(op).Some? && OperatorsNamed(l) && OperatorsNamed(r)
    case UnaryOp(v, op) => RustToken.SymbolText(op).Some? && OperatorsNamed(v)
    case Access(v, f, _) => OperatorsNamed(v) && OperatorsNamed(f)
    case Subscript(v, s) => OperatorsNamed(v) && OperatorsNamed(s)
    case Return(r) => r.None? || OperatorsNamed(r.value)
    case If(c, stmts) => OperatorsNamed(c) && AllNamed(stmts)
    case While(c, stmts) => OperatorsNamed(c) && AllNamed(stmts)
    case Tuple(vs, _) => AllNamed(vs)
    case _ => true
  }

  predicate AllNamed(ns: seq<Node>)
    decreases ns, 0
  {
    forall i :: 0 <= i < |ns| ==> OperatorsNamed(ns[i])
  }

  /** `to_string` panics exactly when some operator of the tree has no
      key in the symbol table. */
  lemma {:induction false} ToStringDefined(n: Node)
    ensures ToString(n).Some? <==> OperatorsNamed(n)
    decreases n, 1
  {
    match n
    case Block(stmts) => StatementsTextDefined(stmts);
    case FuncDef(_, params, body) => TextsOfDefined(params); StatementsTextDefined(body);
    case FuncCall(callee, args, _) => ToStringDefined(callee); TextsOfDefined(args);
    case Assignment(l, r, _) => ToStringDefined(l); ToStringDefined(r);
    case BinaryOp(l, r, _) => ToStringDefined(l); ToStringDefined(r);
    case UnaryOp(v, _) => ToStringDefined(v);
    case Access(v, f, _) => ToStringDefined(v); ToStringDefined(f);
    case Subscript(v, s) => ToStringDefined(v); ToStringDefined(s);
    case Return(r) => if r.Some? { ToStringDefined(r.value); }
    case If(c, stmts) => ToStringDefined(c); StatementsTextDefined(stmts);
    case While(c, stmts) => ToStringDefined(c); StatementsTextDefined(stmts);
    case Tuple(vs, _) => TextsOfDefined(vs);
    case Int(_) =>
    case Str(_) =>
    case Id(_) =>
  }

  lemma {:induction false} TextsOfDefined(ns: seq<Node>)
    ensures TextsOf(ns).Some? <==> AllNamed(ns)
    decreases ns, 0
  {
    if ns != [] {
      ToStringDefined(ns[0]);
      TextsOfDefined(ns[1..]);
      AllNamedSplit(ns);
    }
  }

  lemma {:induction false} StatementsTextDefined(ns: seq<Node>)
    ensures StatementsText(ns).Some? <==> AllNamed(ns)
    decreases ns, 0
  {
    if ns != [] {
      ToStringDefined(ns[0]);
      StatementsTextDefined(ns[1..]);
      AllNamedSplit(ns);
    }
  }

  lemma AllNamedSplit(ns: seq<Node>)
    requires ns != []
    ensures AllNamed(ns) <==> OperatorsNamed(ns[0]) && AllNamed(ns[1..])
  {
    if OperatorsNamed(ns[0]) && AllNamed(ns[1..]) {
      forall i | 0 <= i < |ns|
        ensures OperatorsNamed(ns[i])
      {
        if i > 0 {
          assert ns[i] == ns[1..][i - 1];
        }
      }
    }
  }
}
