/** The `compile` and `push` methods of the nodes, and `assign`,
    `load_null` and `compile_code_constant`: each interns into the
    module's pools and appends to (and patches) the code in place. Each
    method is proved to end in the state `CompileSpec` gives for the node,
    and to report a panic exactly where `CompileSpec` panics. */
module NodeCompile {
  import opened Wrappers
  import opened Ints
  import opened Ast
  import Bytekod
  import RustToken
  import CompileSpec

  /** The compilation state the module's pools and the code hold. */
  function StateOf(m: Bytekod.Module, c: Bytekod.Code): CompileSpec.State
    reads m, c
  {
    CompileSpec.State(m.namePool, m.constantPool, c.code)
  }

  /** A method that returned `ok` did what `r` says: it panicked exactly
      when `r` does, and otherwise left the state `r` holds. */
  predicate Did(r: CompileSpec.Outcome, ok: bool, m: Bytekod.Module, c: Bytekod.Code)
    reads m, c
  {
    (ok <==> r.Compiled?) && (ok ==> StateOf(m, c) == r.st)
  }

  // ---------------------------------------------------------------- interning

  /** `iter().enumerate().find(..)`: the first index holding `x`, or the
      length of the pool when none does. */
  method FindFirst<T(==)>(pool: seq<T>, x: T) returns (i: nat)
    ensures i <= |pool|
    ensures i < |pool| ==> pool[i] == x
    ensures forall j :: 0 <= j < i ==> pool[j] != x
    ensures i == CompileSpec.Find(pool, x)
  {
    i := 0;
    while i < |pool| && pool[i] != x
      invariant i <= |pool|
      invariant forall j :: 0 <= j < i ==> pool[j] != x
    {
      i := i + 1;
    }
  }

  /** `pool.len() as u32 - 1` after a push: a panic when the length cut to
      32 bits is zero, else the new entry's index cut to 32 bits. */
  method LastIndex(len: nat) returns (ok: bool, operand: bv32)
    requires len >= 1
    ensures ok <==> len % 0x1_0000_0000 != 0
    ensures ok ==> operand == TruncU32(len - 1)
  {
    if len % 0x1_0000_0000 == 0 {
      return false, 0;
    }
    ok, operand := true, TruncU32(len - 1);
  }

  /** The constant's operand: the index of its first occurrence in the
      constant pool, the constant appended when absent. */
  method InternConstant(m: Bytekod.Module, k: Bytekod.Constant) returns (ok: bool, operand: bv32)
    modifies m
    ensures var r := CompileSpec.Intern(old(m.constantPool), k);
            (ok <==> r.Some?) && (ok ==> m.constantPool == r.value.pool && operand == r.value.operand)
    ensures m.namePool == old(m.namePool)
  {
    var i := FindFirst(m.constantPool, k);
    if i < |m.constantPool| {
      return true, TruncU32(i);
    }
    m.constantPool := m.constantPool + [k];
    ok, operand := LastIndex(|m.constantPool|);
  }

  /** The name's operand, interned in the name pool. */
  method InternName(m: Bytekod.Module, name: string) returns (ok: bool, operand: bv32)
    modifies m
    ensures var r := CompileSpec.Intern(old(m.namePool), name);
            (ok <==> r.Some?) && (ok ==> m.namePool == r.value.pool && operand == r.value.operand)
    ensures m.constantPool == old(m.constantPool)
  {
    var i := FindFirst(m.namePool, name);
    if i < |m.namePool| {
      return true, TruncU32(i);
    }
    m.namePool := m.namePool + [name];
    ok, operand := LastIndex(|m.namePool|);
  }

  // ---------------------------------------------------------------- emission

  /** `LOAD_CONST` of the interned constant (the `compile` of integer and
      string literals, and `load_null`). */
  method LoadConstant(k: Bytekod.Constant, m: Bytekod.Module, c: Bytekod.Code) returns (ok: bool)
    modifies m, c
    ensures Did(CompileSpec.LoadConstant(old(StateOf(m, c)), k), ok, m, c)
  {
    var _ := c.Emit8(Bytekod.Encode(Bytekod.LoadConst));
    var x;
    ok, x := InternConstant(m, k);
    if ok {
      var _ := c.Emit32(x);
    }
  }

  /** `LOAD_NAME` or `STORE_NAME` of the interned name. */
  method NameOp(op: Bytekod.Opcode, name: string, m: Bytekod.Module, c: Bytekod.Code) returns (ok: bool)
    modifies m, c
    ensures Did(CompileSpec.NameOp(old(StateOf(m, c)), op, name), ok, m, c)
  {
    var _ := c.Emit8(Bytekod.Encode(op));
    var x;
    ok, x := InternName(m, name);
    if ok {
      var _ := c.Emit32(x);
    }
  }

  /** `assign` once the value is on the stack: `STORE_NAME` for an
      identifier, `UNPACK_SEQUENCE` and each element in turn for a tuple. */
  method Assign(left: Node, op: RustToken.TokenType, m: Bytekod.Module, c: Bytekod.Code) returns (ok: bool)
    modifies m, c
    ensures Did(CompileSpec.Assign(left, old(StateOf(m, c)), op), ok, m, c)
    decreases left, 1
  {
    match left
    case Id(name) =>
      if op != RustToken.EQUALS {
        return false;
      }
      ok := NameOp(Bytekod.StoreName, name, m, c);
    case Tuple(vs, _) =>
      var _ := c.Emit8(Bytekod.Encode(Bytekod.UnpackSequence));
      var _ := c.Emit32(TruncU32(|vs|));
      ok := AssignEach(vs, op, m, c);
    case _ =>
      ok := false;
  }

  /** The loop over a tuple target's elements. */
  method AssignEach(vs: seq<Node>, op: RustToken.TokenType, m: Bytekod.Module, c: Bytekod.Code) returns (ok: bool)
    modifies m, c
    ensures Did(CompileSpec.AssignAll(vs, old(StateOf(m, c)), op), ok, m, c)
    decreases vs, 0
  {
    ghost var goal := CompileSpec.AssignAll(vs, StateOf(m, c), op);
    var i := 0;
    while i < |vs|
      invariant i <= |vs|
      invariant CompileSpec.AssignAll(vs[i..], StateOf(m, c), op) == goal
    {
      assert vs[i..][1..] == vs[i + 1..];
      ok := Assign(vs[i], op, m, c);
      if !ok {
        return;
      }
      i := i + 1;
    }
    return true;
  }

  /** `push`: `LOAD_NAME` of an assignment's target identifier. */
  method Push(n: Node, m: Bytekod.Module, c: Bytekod.Code) returns (ok: bool)
    modifies m, c
    ensures Did(CompileSpec.Push(n, old(StateOf(m, c))), ok, m, c)
  {
    match n
    case Assignment(Id(name), _, _) =>
      ok := NameOp(Bytekod.LoadName, name, m, c);
    case _ =>
      ok := false;
  }

  // ---------------------------------------------------------------- compile

  /** `compile`, dispatched on the node. */
  method Compile(n: Node, m: Bytekod.Module, c: Bytekod.Code) returns (ok: bool)
    modifies m, c
    ensures Did(CompileSpec.Compile(n, old(StateOf(m, c))), ok, m, c)
    decreases n, 1
  {
    match n
    case Block(stmts) => ok := CompileBlock(stmts, m, c);
    case FuncDef(name, params, body) => ok := CompileFuncDef(name, params, body, m, c);
    case FuncCall(callee, args, addArg) => ok := CompileCall(callee, args, addArg, m, c);
    case Assignment(l, r, op) => ok := CompileAssignment(l, r, op, m, c);
    case BinaryOp(l, r, op) => ok := CompileBinary(l, r, op, m, c);
    case UnaryOp(v, op) => ok := CompileUnary(v, op, m, c);
    case Return(v) => ok := CompileReturn(v, m, c);
    case If(cond, stmts) => ok := CompileIf(cond, stmts, m, c);
    case While(cond, stmts) => ok := CompileWhile(cond, stmts, m, c);
    case Int(v) => ok := LoadConstant(Bytekod.Int(v), m, c);
    case Str(s) => ok := LoadConstant(Bytekod.Str(s), m, c);
    case Id(name) => ok := NameOp(Bytekod.LoadName, name, m, c);
    case _ => ok := false;
  }

  /** `compile`, then `push` when the node leaves nothing on the stack. */
  method CompileValue(n: Node, m: Bytekod.Module, c: Bytekod.Code) returns (ok: bool)
    modifies m, c
    ensures Did(CompileSpec.CompileValue(n, old(StateOf(m, c))), ok, m, c)
    decreases n, 2
  {
    ok := Compile(n, m, c);
    if ok && !Pushes(n) {
      ok := Push(n, m, c);
    }
  }

  /** `AssignmentNode::compile`. */
  method CompileAssignment(l: Node, r: Node, op: RustToken.TokenType, m: Bytekod.Module, c: Bytekod.Code) returns (ok: bool)
    modifies m, c
    ensures Did(CompileSpec.CompileAssignment(l, r, op, old(StateOf(m, c))), ok, m, c)
    decreases Assignment(l, r, op), 0
  {
    CompileSpec.AssignmentUnfolds(l, r, op, StateOf(m, c));
    ok := CompileValue(r, m, c);
    if ok {
      ok := Assign(l, op, m, c);
    }
  }

  /** `BinaryOpNode::compile`. */
  method CompileBinary(l: Node, r: Node, op: RustToken.TokenType, m: Bytekod.Module, c: Bytekod.Code) returns (ok: bool)
    modifies m, c
    ensures Did(CompileSpec.CompileBinary(l, r, op, old(StateOf(m, c))), ok, m, c)
    decreases BinaryOp(l, r, op), 0
  {
    CompileSpec.BinaryUnfolds(l, r, op, StateOf(m, c));
    ok := Compile(l, m, c);
    if ok {
      ok := Operand(r, CompileSpec.BinaryOpcode(op), m, c);
    }
  }

  /** `UnaryOpNode::compile`. */
  method CompileUnary(v: Node, op: RustToken.TokenType, m: Bytekod.Module, c: Bytekod.Code) returns (ok: bool)
    modifies m, c
    ensures Did(CompileSpec.CompileUnary(v, op, old(StateOf(m, c))), ok, m, c)
    decreases UnaryOp(v, op), 0
  {
    ghost var s0 := StateOf(m, c);
    assert CompileSpec.CompileUnary(v, op, s0) == CompileSpec.Operand(v, CompileSpec.UnaryOpcode(op), s0);
    ok := Operand(v, CompileSpec.UnaryOpcode(op), m, c);
  }

  /** An operand, then the operator's opcode. */
  method Operand(v: Node, code: Option<Bytekod.Opcode>, m: Bytekod.Module, c: Bytekod.Code) returns (ok: bool)
    modifies m, c
    ensures Did(CompileSpec.Operand(v, code, old(StateOf(m, c))), ok, m, c)
    decreases v, 2
  {
    ok := Compile(v, m, c);
    if ok {
      ok := EmitMapped(code, m, c);
    }
  }

  /** `ReturnNode::compile`. */
  method CompileReturn(v: Option<Node>, m: Bytekod.Module, c: Bytekod.Code) returns (ok: bool)
    modifies m, c
    ensures Did(CompileSpec.CompileReturn(v, old(StateOf(m, c))), ok, m, c)
    decreases Return(v), 0
  {
    if v.None? {
      ok := LoadConstant(Bytekod.Null, m, c);
    } else {
      ok := CompileValue(v.value, m, c);
    }
    if ok {
      var _ := c.Emit8(Bytekod.Encode(Bytekod.Return));
    }
  }

  /** The loop over the statements of a block, an `if`, a `while` or a
      function body: `POP_TOP` after each statement that pushes, except
      the last one when `keepLast` holds. */
  method Statements(stmts: seq<Node>, keepLast: bool, m: Bytekod.Module, c: Bytekod.Code) returns (ok: bool)
    modifies m, c
    ensures Did(CompileSpec.Statements(stmts, old(StateOf(m, c)), keepLast), ok, m, c)
    decreases stmts, 0
  {
    ghost var goal := CompileSpec.Statements(stmts, StateOf(m, c), keepLast);
    var i := 0;
    while i < |stmts|
      invariant i <= |stmts|
      invariant CompileSpec.Statements(stmts[i..], StateOf(m, c), keepLast) == goal
    {
      assert stmts[i..][1..] == stmts[i + 1..];
      ok := Compile(stmts[i], m, c);
      if !ok {
        return;
      }
      if Pushes(stmts[i]) && !(keepLast && i == |stmts| - 1) {
        var _ := c.Emit8(Bytekod.Encode(Bytekod.PopTop));
      }
      i := i + 1;
    }
    return true;
  }

  /** The loop over a call's arguments. */
  method CompileEach(ns: seq<Node>, m: Bytekod.Module, c: Bytekod.Code) returns (ok: bool)
    modifies m, c
    ensures Did(CompileSpec.CompileAll(ns, old(StateOf(m, c))), ok, m, c)
    decreases ns, 0
  {
    ghost var goal := CompileSpec.CompileAll(ns, StateOf(m, c));
    var i := 0;
    while i < |ns|
      invariant i <= |ns|
      invariant CompileSpec.CompileAll(ns[i..], StateOf(m, c)) == goal
    {
      assert ns[i..][1..] == ns[i + 1..];
      ok := Compile(ns[i], m, c);
      if !ok {
        return;
      }
      i := i + 1;
    }
    return true;
  }

  /** `BlockNode::compile`: the code is cleared first. */
  method CompileBlock(stmts: seq<Node>, m: Bytekod.Module, c: Bytekod.Code) returns (ok: bool)
    modifies m, c
    ensures Did(CompileSpec.CompileBlock(stmts, old(StateOf(m, c))), ok, m, c)
    decreases Block(stmts), 0
  {
    c.code := [];
    ok := Statements(stmts, true, m, c);
    if !ok {
      return;
    }
    if stmts != [] && Returns(stmts[|stmts| - 1]) {
      return;
    }
    if stmts == [] || !Pushes(stmts[|stmts| - 1]) {
      ok := LoadConstant(Bytekod.Null, m, c);
      if !ok {
        return;
      }
    }
    var _ := c.Emit8(Bytekod.Encode(Bytekod.Return));
  }

  /** `FuncDefNode::compile` with `compile_code_constant`: the body goes into
      a fresh code, which is interned as a constant and loaded, and the
      function's name is stored. */
  method CompileFuncDef(name: string, params: seq<Node>, body: seq<Node>, m: Bytekod.Module, c: Bytekod.Code)
    returns (ok: bool)
    modifies m, c
    ensures Did(CompileSpec.CompileFuncDef(name, params, body, old(StateOf(m, c))), ok, m, c)
    decreases FuncDef(name, params, body), 0
  {
    var texts := TextsOf(params);
    if texts.None? {
      return false;
    }
    var func := new Bytekod.Code(name, texts.value, []);
    ok := Statements(body, false, m, func);
    if !ok {
      return;
    }
    if body == [] || !Returns(body[|body| - 1]) {
      ok := LoadConstant(Bytekod.Null, m, func);
      if !ok {
        return;
      }
    }
    ok := LoadConstant(Bytekod.CodeConst(func.Value()), m, c);
    if !ok {
      return;
    }
    ok := NameOp(Bytekod.StoreName, name, m, c);
  }

  /** `FuncCallNode::compile`: `CALL` with `args.len() as u32` plus one
      for a method call, which panics when that sum overflows. */
  method CompileCall(callee: Node, args: seq<Node>, addArg: bool, m: Bytekod.Module, c: Bytekod.Code)
    returns (ok: bool)
    modifies m, c
    ensures Did(CompileSpec.CompileCall(callee, args, addArg, old(StateOf(m, c))), ok, m, c)
    decreases FuncCall(callee, args, addArg), 0
  {
    ok := Compile(callee, m, c);
    if ok {
      ok := CompileEach(args, m, c);
      if ok {
        ok := EmitCall(|args|, addArg, m, c);
      }
    }
  }

  /** `IfNode::compile`. */
  method CompileIf(cond: Node, stmts: seq<Node>, m: Bytekod.Module, c: Bytekod.Code) returns (ok: bool)
    modifies m, c
    ensures Did(CompileSpec.CompileIf(cond, stmts, old(StateOf(m, c))), ok, m, c)
    decreases If(cond, stmts), 0
  {
    ok := CompileValue(cond, m, c);
    if ok {
      ok := IfBody(stmts, m, c);
    }
  }

  /** The part of `IfNode::compile` after the condition: the exit jump,
      the body, and the exit patched to the end. */
  method IfBody(stmts: seq<Node>, m: Bytekod.Module, c: Bytekod.Code) returns (ok: bool)
    modifies m, c
    ensures var st := old(StateOf(m, c));
            Did(CompileSpec.CloseIf(st, CompileSpec.Statements(stmts, CompileSpec.OpArg(st, Bytekod.PopJumpIfFalse, 0), false)), ok, m, c)
    decreases stmts, 1
  {
    var endOffset := EmitExit(m, c);
    ok := Statements(stmts, false, m, c);
    if ok {
      ok := PatchExit(endOffset, m, c);
    }
  }

  /** `WhileNode::compile`. */
  method CompileWhile(cond: Node, stmts: seq<Node>, m: Bytekod.Module, c: Bytekod.Code) returns (ok: bool)
    modifies m, c
    ensures Did(CompileSpec.CompileWhile(cond, stmts, old(StateOf(m, c))), ok, m, c)
    decreases While(cond, stmts), 0
  {
    var conditionOffset := |c.code|;
    ok := CompileValue(cond, m, c);
    if ok {
      ok := WhileBody(stmts, conditionOffset, m, c);
    }
  }

  /** The part of `WhileNode::compile` after the condition: the exit
      jump, the body, the jump back to `start`, and the exit patched. */
  method WhileBody(stmts: seq<Node>, start: nat, m: Bytekod.Module, c: Bytekod.Code) returns (ok: bool)
    modifies m, c
    ensures var st := old(StateOf(m, c));
            Did(CompileSpec.CloseWhile(st, CompileSpec.Statements(stmts, CompileSpec.OpArg(st, Bytekod.PopJumpIfFalse, 0), false), start), ok, m, c)
    decreases stmts, 1
  {
    var endOffset := EmitExit(m, c);
    ok := Statements(stmts, false, m, c);
    if ok {
      ok := JumpBack(start, endOffset, m, c);
    }
  }

  // ---------------------------------------------------------------- single steps

  /** The operator's opcode, or a panic for an operator without one. */
  method EmitMapped(code: Option<Bytekod.Opcode>, m: Bytekod.Module, c: Bytekod.Code) returns (ok: bool)
    modifies c
    ensures Did(CompileSpec.OpIfMapped(old(StateOf(m, c)), code), ok, m, c)
  {
    match code
    case None =>
      ok := false;
    case Some(op) =>
      var _ := c.Emit8(Bytekod.Encode(op));
      ok := true;
  }

  /** `CALL` and its argument count. */
  method EmitCall(len: nat, addArg: bool, m: Bytekod.Module, c: Bytekod.Code) returns (ok: bool)
    modifies c
    ensures Did(CompileSpec.CallOp(old(StateOf(m, c)), len, addArg), ok, m, c)
  {
    var argc := TruncU32(len);
    if addArg && argc == 0xFFFF_FFFF {
      return false;
    }
    var _ := c.Emit8(Bytekod.Encode(Bytekod.Call));
    var _ := c.Emit32(argc + if addArg then 1 else 0);
    ok := true;
  }

  /** `POP_JUMP_IF_FALSE` with a zero placeholder; the placeholder's offset. */
  method EmitExit(m: Bytekod.Module, c: Bytekod.Code) returns (endOffset: nat)
    modifies c
    ensures StateOf(m, c) == CompileSpec.OpArg(old(StateOf(m, c)), Bytekod.PopJumpIfFalse, 0)
    ensures endOffset == |old(c.code)| + 1
  {
    var _ := c.Emit8(Bytekod.Encode(Bytekod.PopJumpIfFalse));
    endOffset := c.Emit32(0);
  }

  /** `JUMP` back to where the condition starts, then the exit patched. */
  method JumpBack(start: nat, endOffset: nat, m: Bytekod.Module, c: Bytekod.Code) returns (ok: bool)
    modifies c
    ensures Did(CompileSpec.PatchExit(CompileSpec.OpArg(old(StateOf(m, c)), Bytekod.Jump, TruncU32(start)), endOffset), ok, m, c)
  {
    var _ := c.Emit8(Bytekod.Encode(Bytekod.Jump));
    var _ := c.Emit32(TruncU32(start));
    ok := PatchExit(endOffset, m, c);
  }

  /** `patch32(end_offset, len as u32)`, an index panic when the four bytes
      are not all inside the code. */
  method PatchExit(endOffset: nat, m: Bytekod.Module, c: Bytekod.Code) returns (ok: bool)
    modifies c
    ensures Did(CompileSpec.PatchExit(old(StateOf(m, c)), endOffset), ok, m, c)
  {
    ok := c.Patch32(endOffset, TruncU32(|c.code|));
  }
}
