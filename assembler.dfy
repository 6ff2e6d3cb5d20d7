/** The JIT's `Assembler`, a growing buffer of machine code, and `Label`, a
    jump target whose 32-bit displacement slots are patched once its offset
    is known. Each method appends exactly the bytes the matching function of
    `AssemblerSpec` describes. */
module Assembly {
  import opened Wrappers
  import opened Ints
  import opened AssemblerSpec

  /** The code after a jump was recorded at its end: patched at once when
      the label is already bound, unchanged otherwise. */
  function AfterJump(code: seq<bv8>, offset: Option<nat>): (r: seq<bv8>)
    requires 4 <= |code| < OffsetLimit
    requires offset.Some? ==> offset.value < OffsetLimit
    ensures |r| == |code| && r[..|code| - 4] == code[..|code| - 4]
    ensures offset.Some? ==> r[|code| - 4..] == Le32(Displacement(offset.value, |code|))
    ensures offset.None? ==> r == code
  {
    if offset.Some? then
      var p := LinkJump(code, offset.value, |code|);
      assert p[|code| - 4..|code|] == p[|code| - 4..];
      p
    else code
  }

  /** Appending pieces one after another appends their concatenation. */
  lemma Append2(c: seq<bv8>, a: seq<bv8>, b: seq<bv8>)
    ensures c + a + b == c + (a + b)
  {
  }

  lemma Append3(c: seq<bv8>, a: seq<bv8>, b: seq<bv8>, d: seq<bv8>)
    ensures c + a + b + d == c + (a + b + d)
  {
  }

  lemma Append4(c: seq<bv8>, a: seq<bv8>, b: seq<bv8>, d: seq<bv8>, e: seq<bv8>)
    ensures c + a + b + d + e == c + (a + b + d + e)
  {
  }

  lemma Append6(c: seq<bv8>, a: seq<bv8>, b: seq<bv8>, d: seq<bv8>, e: seq<bv8>, f: seq<bv8>, g: seq<bv8>)
    ensures c + a + b + d + e + f + g == c + (a + b + d + e + f + g)
  {
  }

  class Assembler {
    var machineCode: seq<bv8>

    /** `Assembler::new`. */
    constructor ()
      ensures machineCode == []
    {
      machineCode := [];
    }

    /** `emit`, `emit8`, `emit16`, `emit32`, `emit64`: append the bytes,
        multi-byte values in little-endian order. */
    method Emit(bytes: seq<bv8>)
      modifies this
      ensures machineCode == old(machineCode) + bytes
    {
      machineCode := machineCode + bytes;
    }

    method Emit8(b: bv8)
      modifies this
      ensures machineCode == old(machineCode) + [b]
    {
      machineCode := machineCode + [b];
    }

    method Emit16(w: bv16)
      modifies this
      ensures machineCode == old(machineCode) + Le16(w)
    {
      Emit(Le16(w));
    }

    method Emit32(d: bv32)
      modifies this
      ensures machineCode == old(machineCode) + Le32(d)
    {
      Emit(Le32(d));
    }

    method Emit64(q: bv64)
      modifies this
      ensures machineCode == old(machineCode) + Le64(q)
    {
      Emit(Le64(q));
    }

    /** `emit_modrm`. */
    method EmitModRm(raw: bv8, rm: Operand)
      requires IsRegisterOrMemory(rm)
      modifies this
      ensures machineCode == old(machineCode) + ModRmBytes(raw, rm)
    {
      var c := machineCode;
      match rm
      case RegisterOperand(_, _) =>
        Emit8(SetMode(raw, ModReg));
      case MemoryOperand(_, d) =>
        if d == 0 {
          Emit8(SetMode(raw, ModMem));
        } else if d < 127 {
          Emit8(SetMode(raw, ModMemDisp8));
          Emit8(LowByte(d));
          Append2(c, [SetMode(raw, ModMemDisp8)], [LowByte(d)]);
        } else {
          Emit8(SetMode(raw, ModMemDisp32));
          Emit32(LowDword(d));
          Append2(c, [SetMode(raw, ModMemDisp32)], Le32(LowDword(d)));
        }
    }

    /** `emit_modrm_rm`, `emit_modrm_mr`, `emit_modrm_slash`. */
    method EmitModRmRm(dst: Operand, src: Operand)
      requires IsRegisterOrMemory(dst) && src.RegisterOperand?
      modifies this
      ensures machineCode == old(machineCode) + ModRmRm(dst, src)
    {
      EmitModRm(ModRmNew(BaseNumber(dst), BaseNumber(src), 0), src);
    }

    method EmitModRmMr(dst: Operand, src: Operand)
      requires IsRegisterOrMemory(dst) && src.RegisterOperand?
      modifies this
      ensures machineCode == old(machineCode) + ModRmMr(dst, src)
    {
      EmitModRm(ModRmNew(BaseNumber(dst), BaseNumber(src), 0), dst);
    }

    method EmitModRmSlash(slash: bv8, rm: Operand)
      requires IsRegisterOrMemory(rm)
      modifies this
      ensures machineCode == old(machineCode) + ModRmSlash(slash, rm)
    {
      EmitModRm(ModRmNew(BaseNumber(rm), slash, 0), rm);
    }

    /** `emit_rex_for_rm`, `emit_rex_for_mr`, `emit_rex_for_slash` (which
        `emit_rex_for_oi` calls unchanged). */
    method EmitRexForRm(dst: Operand, src: Operand, w: RexW)
      requires IsRegisterOrMemory(src) && dst.RegisterOperand?
      modifies this
      ensures machineCode == old(machineCode) + RexForRm(dst, src, w)
    {
      if w == No && BaseNumber(dst) < 8 && BaseNumber(src) < 8 {
        return;
      }
      Emit8(RexNew(if BaseNumber(src) >= 8 then 1 else 0, 0, if BaseNumber(dst) >= 8 then 1 else 0, RexWEncode(w)));
    }

    method EmitRexForMr(dst: Operand, src: Operand, w: RexW)
      requires IsRegisterOrMemory(dst) && src.RegisterOperand?
      modifies this
      ensures machineCode == old(machineCode) + RexForMr(dst, src, w)
    {
      if w == No && BaseNumber(dst) < 8 && BaseNumber(src) < 8 {
        return;
      }
      Emit8(RexNew(if BaseNumber(dst) >= 8 then 1 else 0, 0, if BaseNumber(src) >= 8 then 1 else 0, RexWEncode(w)));
    }

    method EmitRexForSlash(arg: Operand, w: RexW)
      requires IsRegisterOrMemory(arg)
      modifies this
      ensures machineCode == old(machineCode) + RexForSlash(arg, w)
    {
      if w == No && BaseNumber(arg) < 8 {
        return;
      }
      Emit8(RexNew(if BaseNumber(arg) >= 8 then 1 else 0, 0, 0, RexWEncode(w)));
    }

    /** `mov`, with the no-op shortcut taken only for a register moved onto itself. */
    method Mov(dst: Operand, src: Operand)
      requires MovHandles(dst, src)
      modifies this
      ensures machineCode == old(machineCode) + AssemblerSpec.Mov(dst, src)
    {
      var c := machineCode;
      if src.RegisterOperand? && !src.isFloat && IsRegisterOrMemory(dst) {
        if dst.RegisterOperand? && BaseNumber(dst) == BaseNumber(src) {
          return;
        }
        EmitRexForMr(dst, src, Yes);
        Emit8(0x89);
        EmitModRmMr(dst, src);
        Append3(c, RexForMr(dst, src, Yes), [0x89], ModRmMr(dst, src));
      } else {
        MovImmediate(dst, src);
      }
    }

    /** The immediate arm of `mov`. */
    method MovImmediate(dst: Operand, src: Operand)
      requires dst.RegisterOperand? && src.ImmediateOperand?
      modifies this
      ensures machineCode == old(machineCode) + AssemblerSpec.MovImmediate(dst, src)
    {
      var c := machineCode;
      var v := OffsetOrImmediate(src);
      if v == 0 {
        EmitRexForMr(dst, dst, No);
        Emit8(0x31);
        EmitModRmMr(dst, dst);
        Append3(c, RexForMr(dst, dst, No), [0x31], ModRmMr(dst, dst));
      } else if FitsInU32(src) {
        EmitRexForSlash(dst, No);
        Emit8(0xB8 | RegisterEncode(dst.reg));
        Emit32(LowDword(v));
        Append3(c, RexForSlash(dst, No), [0xB8 | RegisterEncode(dst.reg)], Le32(LowDword(v)));
      } else {
        EmitRexForSlash(dst, Yes);
        Emit8(0xB8 | RegisterEncode(dst.reg));
        Emit64(v);
        Append3(c, RexForSlash(dst, Yes), [0xB8 | RegisterEncode(dst.reg)], Le64(v));
      }
    }

    method Trap()
      modifies this
      ensures machineCode == old(machineCode) + AssemblerSpec.Trap()
    {
      Emit8(0xCC);
    }

    method Ret(bytes: Option<bv16>)
      modifies this
      ensures machineCode == old(machineCode) + AssemblerSpec.Ret(bytes)
    {
      match bytes
      case Some(n) =>
        Emit8(0xC2);
        Emit16(n);
      case None =>
        Emit8(0xC3);
    }

    method Leave()
      modifies this
      ensures machineCode == old(machineCode) + AssemblerSpec.Leave()
    {
      Emit8(0xC9);
    }

    method Enter()
      modifies this
      ensures machineCode == old(machineCode) + AssemblerSpec.Enter()
    {
      var c := machineCode;
      Push(RegisterOperand(RBP, false));
      Mov(RegisterOperand(RBP, false), RegisterOperand(RSP, false));
      Append2(c, AssemblerSpec.Push(RegisterOperand(RBP, false)),
              AssemblerSpec.Mov(RegisterOperand(RBP, false), RegisterOperand(RSP, false)));
    }

    method Exit()
      modifies this
      ensures machineCode == old(machineCode) + AssemblerSpec.Exit()
    {
      Leave();
      Ret(None);
    }

    method Push(op: Operand)
      requires PushHandles(op)
      modifies this
      ensures machineCode == old(machineCode) + AssemblerSpec.Push(op)
    {
      var c := machineCode;
      match op
      case RegisterOperand(reg, _) =>
        EmitRexForSlash(op, No);
        Emit8(0x50 | (RegisterEncode(reg) & 7));
        Append2(c, RexForSlash(op, No), [0x50 | (RegisterEncode(reg) & 7)]);
      case ImmediateOperand(_) =>
        if FitsInI8(op) {
          Emit8(0x6A);
          Emit8(LowByte(OffsetOrImmediate(op)));
        } else {
          Emit8(0x68);
          Emit32(LowDword(OffsetOrImmediate(op)));
        }
    }

    method Pop(op: Operand)
      requires op.RegisterOperand?
      modifies this
      ensures machineCode == old(machineCode) + AssemblerSpec.Pop(op)
    {
      EmitRexForSlash(op, No);
      Emit8(0x58 | RegisterEncode(op.reg));
    }

    /** `push_callee_saved_registers`. */
    method PushCalleeSaved()
      modifies this
      ensures machineCode == old(machineCode) + AssemblerSpec.PushCalleeSaved()
    {
      var c := machineCode;
      Push(RegisterOperand(RBX, false));
      Push(RegisterOperand(RBP, false));
      Push(RegisterOperand(R12, false));
      Push(RegisterOperand(R13, false));
      Push(RegisterOperand(R14, false));
      Push(RegisterOperand(R15, false));
      Append6(c, AssemblerSpec.Push(RegisterOperand(RBX, false)), AssemblerSpec.Push(RegisterOperand(RBP, false)),
              AssemblerSpec.Push(RegisterOperand(R12, false)), AssemblerSpec.Push(RegisterOperand(R13, false)),
              AssemblerSpec.Push(RegisterOperand(R14, false)), AssemblerSpec.Push(RegisterOperand(R15, false)));
    }

    /** `pop_callee_saved_registers`. */
    method PopCalleeSaved()
      modifies this
      ensures machineCode == old(machineCode) + AssemblerSpec.PopCalleeSaved()
    {
      var c := machineCode;
      Pop(RegisterOperand(R15, false));
      Pop(RegisterOperand(R14, false));
      Pop(RegisterOperand(R13, false));
      Pop(RegisterOperand(R12, false));
      Pop(RegisterOperand(RBP, false));
      Pop(RegisterOperand(RBX, false));
      Append6(c, AssemblerSpec.Pop(RegisterOperand(R15, false)), AssemblerSpec.Pop(RegisterOperand(R14, false)),
              AssemblerSpec.Pop(RegisterOperand(R13, false)), AssemblerSpec.Pop(RegisterOperand(R12, false)),
              AssemblerSpec.Pop(RegisterOperand(RBP, false)), AssemblerSpec.Pop(RegisterOperand(RBX, false)));
    }

    /** The common shape of `sub` and `add`. */
    method Arith(dst: Operand, src: Operand, op: bv8, ext: bv8, sse: bv8)
      requires ArithHandles(dst, src)
      modifies this
      ensures machineCode == old(machineCode) + AssemblerSpec.Arith(dst, src, op, ext, sse)
    {
      var c := machineCode;
      if src.RegisterOperand? && !src.isFloat && IsRegisterOrMemory(dst) {
        EmitRexForMr(dst, src, Yes);
        Emit8(op);
        EmitModRmMr(dst, src);
        Append3(c, RexForMr(dst, src, Yes), [op], ModRmMr(dst, src));
      } else if src.ImmediateOperand? && IsRegisterOrMemory(dst) && FitsInI8(src) {
        EmitRexForSlash(dst, Yes);
        Emit8(0x83);
        EmitModRmSlash(ext, dst);
        Emit8(LowByte(OffsetOrImmediate(src)));
        Append4(c, RexForSlash(dst, Yes), [0x83], ModRmSlash(ext, dst), [LowByte(OffsetOrImmediate(src))]);
      } else if src.ImmediateOperand? && IsRegisterOrMemory(dst) && FitsInI32(src) {
        EmitRexForSlash(dst, Yes);
        Emit8(0x81);
        EmitModRmSlash(ext, dst);
        Emit32(LowDword(OffsetOrImmediate(src)));
        Append4(c, RexForSlash(dst, Yes), [0x81], ModRmSlash(ext, dst), Le32(LowDword(OffsetOrImmediate(src))));
      } else {
        Emit8(0xF2);
        Emit8(0x0F);
        Emit8(sse);
        EmitModRmRm(dst, src);
        Append4(c, [0xF2], [0x0F], [sse], ModRmRm(dst, src));
      }
    }

    method Sub(dst: Operand, src: Operand)
      requires ArithHandles(dst, src)
      modifies this
      ensures machineCode == old(machineCode) + AssemblerSpec.Sub(dst, src)
    {
      Arith(dst, src, 0x29, 5, 0x5C);
    }

    method Add(dst: Operand, src: Operand)
      requires ArithHandles(dst, src)
      modifies this
      ensures machineCode == old(machineCode) + AssemblerSpec.Add(dst, src)
    {
      Arith(dst, src, 0x01, 0, 0x58);
    }

    /** `inc32`: the increment, then, with a label, a jump to it on overflow. */
    method Inc32(op: Operand, target: Label?)
      requires IsRegisterOrMemory(op)
      requires |machineCode| + 16 < OffsetLimit
      requires target != null && target.offset.Some? ==> target.offset.value < OffsetLimit
      modifies this, target
      ensures target == null ==> machineCode == old(machineCode) + AssemblerSpec.Inc32(op)
      ensures target != null ==>
                var body := old(machineCode) + AssemblerSpec.Inc32(op) + JumpIfBytes(Overflow);
                machineCode == AfterJump(body, old(target.offset))
                && target.jumpSlots == old(target.jumpSlots) + [|body|]
                && target.offset == old(target.offset)
    {
      var c := machineCode;
      EmitRexForSlash(op, No);
      Emit8(0xFF);
      EmitModRmSlash(0, op);
      Append3(c, RexForSlash(op, No), [0xFF], ModRmSlash(0, op));
      if target != null {
        JumpIfLabel(Overflow, target);
      }
    }

    /** `dec32`: the decrement, then, with a label, a jump to it on overflow. */
    method Dec32(op: Operand, target: Label?)
      requires IsRegisterOrMemory(op)
      requires |machineCode| + 16 < OffsetLimit
      requires target != null && target.offset.Some? ==> target.offset.value < OffsetLimit
      modifies this, target
      ensures target == null ==> machineCode == old(machineCode) + AssemblerSpec.Dec32(op)
      ensures target != null ==>
                var body := old(machineCode) + AssemblerSpec.Dec32(op) + JumpIfBytes(Overflow);
                machineCode == AfterJump(body, old(target.offset))
                && target.jumpSlots == old(target.jumpSlots) + [|body|]
                && target.offset == old(target.offset)
    {
      var c := machineCode;
      EmitRexForSlash(op, No);
      Emit8(0xFF);
      EmitModRmSlash(1, op);
      Append3(c, RexForSlash(op, No), [0xFF], ModRmSlash(1, op));
      if target != null {
        JumpIfLabel(Overflow, target);
      }
    }

    /** `jump`: a jump with a placeholder displacement, and a fresh target
        whose only slot is that displacement. */
    method Jump() returns (target: Label)
      requires |machineCode| + 5 < OffsetLimit
      modifies this
      ensures fresh(target) && target.offset.None?
      ensures machineCode == old(machineCode) + JumpBytes()
      ensures target.jumpSlots == [|machineCode|]
    {
      var code := machineCode;
      Emit8(0xE9);
      Emit32(Placeholder);
      Append2(code, [0xE9], Le32(Placeholder));
      target := new Label();
      target.AddJump(this, |machineCode|);
    }

    /** `jump_label`: the jump's slot is recorded in the target, and patched
        at once when the target is bound. */
    method JumpLabel(target: Label)
      requires |machineCode| + 5 < OffsetLimit
      requires target.offset.Some? ==> target.offset.value < OffsetLimit
      modifies this, target
      ensures machineCode == AfterJump(old(machineCode) + JumpBytes(), old(target.offset))
      ensures target.jumpSlots == old(target.jumpSlots) + [|old(machineCode)| + 5]
      ensures target.offset == old(target.offset)
    {
      var code := machineCode;
      Emit8(0xE9);
      Emit32(Placeholder);
      Append2(code, [0xE9], Le32(Placeholder));
      target.AddJump(this, |machineCode|);
    }

    method JumpOp(op: Operand)
      requires IsRegisterOrMemory(op)
      modifies this
      ensures machineCode == old(machineCode) + AssemblerSpec.JumpOp(op)
    {
      var c := machineCode;
      EmitRexForSlash(op, No);
      Emit8(0xFF);
      EmitModRmSlash(4, op);
      Append3(c, RexForSlash(op, No), [0xFF], ModRmSlash(4, op));
    }

    /** `jump_if_label`: as `jump_label`, with a conditional jump. */
    method JumpIfLabel(c: Condition, target: Label)
      requires |machineCode| + 6 < OffsetLimit
      requires target.offset.Some? ==> target.offset.value < OffsetLimit
      modifies this, target
      ensures machineCode == AfterJump(old(machineCode) + JumpIfBytes(c), old(target.offset))
      ensures target.jumpSlots == old(target.jumpSlots) + [|old(machineCode)| + 6]
      ensures target.offset == old(target.offset)
    {
      EmitJumpIf(c);
      target.AddJump(this, |machineCode|);
    }

    /** The bytes of `jump_if_label` before the slot is recorded. */
    method EmitJumpIf(c: Condition)
      modifies this
      ensures machineCode == old(machineCode) + JumpIfBytes(c)
    {
      var code := machineCode;
      Emit8(0x0F);
      Emit8(0x80 | ConditionEncode(c));
      Emit32(Placeholder);
      Append3(code, [0x0F], [0x80 | ConditionEncode(c)], Le32(Placeholder));
    }

    /** `jump_if_cmp`: a compare, then a conditional jump to the target. */
    method JumpIfCmp(lhs: Operand, c: Condition, rhs: Operand, target: Label)
      requires CmpHandles(lhs, rhs)
      requires |machineCode| + 20 < OffsetLimit
      requires target.offset.Some? ==> target.offset.value < OffsetLimit
      modifies this, target
      ensures machineCode == AfterJump(old(machineCode) + AssemblerSpec.Cmp(lhs, rhs) + JumpIfBytes(c), old(target.offset))
      ensures target.jumpSlots == old(target.jumpSlots) + [|old(machineCode)| + |AssemblerSpec.Cmp(lhs, rhs)| + 6]
      ensures target.offset == old(target.offset)
    {
      Cmp(lhs, rhs);
      JumpIfLabel(c, target);
    }

    method SetIf(c: Condition, dst: Operand)
      requires IsRegisterOrMemory(dst)
      modifies this
      ensures machineCode == old(machineCode) + AssemblerSpec.SetIf(c, dst)
    {
      var code := machineCode;
      EmitRexForSlash(dst, No);
      Emit8(0x0F);
      Emit8(0x90 | ConditionEncode(c));
      EmitModRmSlash(0, dst);
      Append4(code, RexForSlash(dst, No), [0x0F], [0x90 | ConditionEncode(c)], ModRmSlash(0, dst));
    }

    method MovIf(c: Condition, dst: Operand, src: Operand)
      requires dst.RegisterOperand? && src.RegisterOperand?
      modifies this
      ensures machineCode == old(machineCode) + AssemblerSpec.MovIf(c, dst, src)
    {
      var code := machineCode;
      EmitRexForMr(dst, src, Yes);
      Emit8(0x0F);
      Emit8(0x40 | ConditionEncode(c));
      EmitModRmRm(dst, src);
      Append4(code, RexForMr(dst, src, Yes), [0x0F], [0x40 | ConditionEncode(c)], ModRmRm(dst, src));
    }

    method Test(lhs: Operand, rhs: Operand)
      requires TestHandles(lhs, rhs)
      modifies this
      ensures machineCode == old(machineCode) + AssemblerSpec.Test(lhs, rhs)
    {
      var c := machineCode;
      if rhs.RegisterOperand? && !rhs.isFloat && IsRegisterOrMemory(lhs) {
        EmitRexForMr(lhs, rhs, Yes);
        Emit8(0x85);
        EmitModRmMr(lhs, rhs);
        Append3(c, RexForMr(lhs, rhs, Yes), [0x85], ModRmMr(lhs, rhs));
      } else {
        EmitRexForSlash(lhs, Yes);
        Emit8(0xF7);
        EmitModRmSlash(0, lhs);
        Emit32(LowDword(OffsetOrImmediate(rhs)));
        Append4(c, RexForSlash(lhs, Yes), [0xF7], ModRmSlash(0, lhs), Le32(LowDword(OffsetOrImmediate(rhs))));
      }
    }

    method Cmp(lhs: Operand, rhs: Operand)
      requires CmpHandles(lhs, rhs)
      modifies this
      ensures machineCode == old(machineCode) + AssemblerSpec.Cmp(lhs, rhs)
    {
      var c := machineCode;
      if rhs.RegisterOperand? {
        EmitRexForMr(lhs, rhs, Yes);
        Emit8(0x39);
        EmitModRmMr(lhs, rhs);
        Append3(c, RexForMr(lhs, rhs, Yes), [0x39], ModRmMr(lhs, rhs));
      } else if FitsInI8(rhs) {
        EmitRexForSlash(lhs, Yes);
        Emit8(0x83);
        EmitModRmSlash(7, lhs);
        Emit8(LowByte(OffsetOrImmediate(rhs)));
        Append4(c, RexForSlash(lhs, Yes), [0x83], ModRmSlash(7, lhs), [LowByte(OffsetOrImmediate(rhs))]);
      } else {
        EmitRexForSlash(lhs, Yes);
        Emit8(0x81);
        EmitModRmSlash(7, lhs);
        Emit32(LowDword(OffsetOrImmediate(rhs)));
        Append4(c, RexForSlash(lhs, Yes), [0x81], ModRmSlash(7, lhs), Le32(LowDword(OffsetOrImmediate(rhs))));
      }
    }

    method CallRax()
      modifies this
      ensures machineCode == old(machineCode) + AssemblerSpec.CallRax()
    {
      Emit8(0xFF);
      EmitModRmSlash(2, RegisterOperand(RAX, false));
    }

    method Shr(dst: Operand, count: Operand)
      requires dst.RegisterOperand? && count.ImmediateOperand? && FitsInU8(count)
      modifies this
      ensures machineCode == old(machineCode) + AssemblerSpec.Shr(dst, count)
    {
      var c := machineCode;
      EmitRexForSlash(dst, Yes);
      Emit8(0xC1);
      EmitModRmSlash(5, dst);
      Emit8(LowByte(OffsetOrImmediate(count)));
      Append4(c, RexForSlash(dst, Yes), [0xC1], ModRmSlash(5, dst), [LowByte(OffsetOrImmediate(count))]);
    }
  }

  class Label {
    var offset: Option<nat>
    var jumpSlots: seq<nat>

    /** `Label::new`: unbound, no slots. */
    constructor ()
      ensures offset.None? && jumpSlots == []
    {
      offset := None;
      jumpSlots := [];
    }

    /** `add_jump`: records the slot; a bound target patches it at once. */
    method AddJump(asm: Assembler, slotEnd: nat)
      requires 4 <= slotEnd == |asm.machineCode| < OffsetLimit
      requires offset.Some? ==> offset.value < OffsetLimit
      modifies this, asm
      ensures jumpSlots == old(jumpSlots) + [slotEnd] && offset == old(offset)
      ensures asm.machineCode == AfterJump(old(asm.machineCode), offset)
    {
      jumpSlots := jumpSlots + [slotEnd];
      if offset.Some? {
        LinkJump(asm, slotEnd);
      }
    }

    /** `link`: binds the target to the end of the code. */
    method Link(asm: Assembler)
      requires offset.None? && SlotsInside(asm.machineCode, jumpSlots)
      modifies this, asm
      ensures offset == Some(|old(asm.machineCode)|) && jumpSlots == old(jumpSlots)
      ensures asm.machineCode == LinkAll(old(asm.machineCode), |old(asm.machineCode)|, jumpSlots)
    {
      LinkTo(asm, |asm.machineCode|);
    }

    /** `link_to`: binds the label (once: binding twice fails an assertion)
        and patches every recorded slot. */
    method LinkTo(asm: Assembler, linkOffset: nat)
      requires offset.None? && SlotsInside(asm.machineCode, jumpSlots) && linkOffset < OffsetLimit
      modifies this, asm
      ensures offset == Some(linkOffset) && jumpSlots == old(jumpSlots)
      ensures asm.machineCode == LinkAll(old(asm.machineCode), linkOffset, jumpSlots)
    {
      offset := Some(linkOffset);
      var i := 0;
      while i < |jumpSlots|
        invariant i <= |jumpSlots| && |asm.machineCode| == |old(asm.machineCode)|
        invariant SlotsInside(asm.machineCode, jumpSlots[i..])
        invariant LinkAll(asm.machineCode, linkOffset, jumpSlots[i..]) == LinkAll(old(asm.machineCode), linkOffset, jumpSlots)
        modifies asm
      {
        var rest := jumpSlots[i..];
        assert rest[0] == jumpSlots[i] && rest[1..] == jumpSlots[i + 1..];
        LinkJump(asm, jumpSlots[i]);
        i := i + 1;
      }
    }

    /** `link_jump`: writes the displacement from the slot's end to the target
        into the four bytes before it. */
    method LinkJump(asm: Assembler, slotEnd: nat)
      requires offset.Some? && offset.value < OffsetLimit
      requires 4 <= slotEnd <= |asm.machineCode| < OffsetLimit
      modifies asm
      ensures asm.machineCode == AssemblerSpec.LinkJump(old(asm.machineCode), offset.value, slotEnd)
    {
      var d := Le32(Displacement(offset.value, slotEnd));
      var code := asm.machineCode;
      asm.machineCode := code[..slotEnd - 4] + d + code[slotEnd..];
    }
  }
}
