/** The x86-64 encoder of the JIT as functions: the ModR/M and REX bytes
    (Intel 64 and IA-32 Architectures Software Developer's Manual, Vol. 2A,
    sections 2.1.5 and 2.2.1), register numbers, the `tttn` condition field
    (Appendix B.1.4.7), operands, and the bytes each instruction method of
    `Assembler` appends. An `assert!` or `unreachable!` of the encoder is a
    precondition here. */
module AssemblerSpec {
  import opened Wrappers
  import opened Ints

  // ---------------------------------------------------------------- ModR/M

  /** The `mod` field values of `ModRmEnum`. */
  const ModMem: bv8 := 0
  const ModMemDisp8: bv8 := 1
  const ModMemDisp32: bv8 := 2
  const ModReg: bv8 := 3

  /** `ModRm::new`: `mod` in bits 7-6, `reg` in bits 5-3, `rm` in bits 2-0;
      each input is cut to its field's width. */
  function ModRmNew(rm: bv8, reg: bv8, mode: bv8): (raw: bv8)
    ensures raw >> 6 == mode & 3
    ensures (raw >> 3) & 7 == reg & 7
    ensures raw & 7 == rm & 7
  {
    ((mode & 3) << 6) | ((reg & 7) << 3) | (rm & 7)
  }

  /** `ModRm::set_mode`: only bits 7-6 change. */
  function SetMode(raw: bv8, mode: bv8): (r: bv8)
    ensures r >> 6 == mode & 3
    ensures r & 0x3F == raw & 0x3F
  {
    ((mode & 3) << 6) | (raw & 0x3F)
  }

  // ---------------------------------------------------------------- REX

  /** `Rex::new`: `0100` in the high nibble, then `W R X B` in bits 3..0. */
  function RexNew(b: bv8, x: bv8, r: bv8, w: bv8): (raw: bv8)
  {
    0x40 | (w << 3) | (r << 2) | (x << 1) | b
  }

  /** A REX byte built from single bits has the fixed nibble and the four bits in place. */
  lemma RexLayout(b: bv8, x: bv8, r: bv8, w: bv8)
    requires b <= 1 && x <= 1 && r <= 1 && w <= 1
    ensures RexNew(b, x, r, w) >> 4 == 4
    ensures RexNew(b, x, r, w) & 1 == b && (RexNew(b, x, r, w) >> 1) & 1 == x
    ensures (RexNew(b, x, r, w) >> 2) & 1 == r && (RexNew(b, x, r, w) >> 3) & 1 == w
  {
  }

  /** `Rex::decode` as written: bits 6, 5, 4 and 3. */
  function RexDecodeAsWritten(raw: bv8): (r: (bv8, bv8, bv8, bv8))
    ensures r.0 <= 1 && r.1 <= 1 && r.2 <= 1 && r.3 <= 1
  {
    ((raw >> 6) & 1, (raw >> 5) & 1, (raw >> 4) & 1, (raw >> 3) & 1)
  }

  /** As written, decoding a REX byte gives (1, 0, 0, W) whatever B, X and R
      were: the fixed nibble is read in place of B, X and R. */
  lemma RexDecodeAsWrittenLosesFields(b: bv8, x: bv8, r: bv8, w: bv8)
    requires b <= 1 && x <= 1 && r <= 1 && w <= 1
    ensures RexDecodeAsWritten(RexNew(b, x, r, w)) == (1, 0, 0, w)
    ensures RexDecodeAsWritten(RexNew(0, 1, 1, 1)) != (0, 1, 1, 1)
  {
  }

  /** `Rex::decode` as the field layout declares it: B, X, R, W from bits 0 to 3. */
  function RexDecode(raw: bv8): (r: (bv8, bv8, bv8, bv8))
    ensures r.0 <= 1 && r.1 <= 1 && r.2 <= 1 && r.3 <= 1
  {
    (raw & 1, (raw >> 1) & 1, (raw >> 2) & 1, (raw >> 3) & 1)
  }

  /** Decoding undoes `Rex::new` on single bits. */
  lemma RexRoundTrip(b: bv8, x: bv8, r: bv8, w: bv8)
    requires b <= 1 && x <= 1 && r <= 1 && w <= 1
    ensures RexDecode(RexNew(b, x, r, w)) == (b, x, r, w)
  {
    RexLayout(b, x, r, w);
  }

  /** `RexW`. */
  datatype RexW = No | Yes

  function RexWEncode(w: RexW): (n: bv8)
    ensures n <= 1 && (n == 1 <==> w == Yes)
  {
    match w
    case No => 0
    case Yes => 1
  }

  // ---------------------------------------------------------------- registers, conditions, immediates

  datatype Register =
    | RAX | RCX | RDX | RBX | RSP | RBP | RSI | RDI
    | R8 | R9 | R10 | R11 | R12 | R13 | R14 | R15
    | XMM0 | XMM1 | XMM2 | XMM3 | XMM4 | XMM5 | XMM6 | XMM7
    | XMM8 | XMM9 | XMM10 | XMM11 | XMM12 | XMM13 | XMM14 | XMM15

  /** The position of a register in the declaration. */
  function RegisterIndex(r: Register): (n: nat)
    ensures n < 32
  {
    match r
    case RAX => 0 case RCX => 1 case RDX => 2 case RBX => 3
    case RSP => 4 case RBP => 5 case RSI => 6 case RDI => 7
    case R8 => 8 case R9 => 9 case R10 => 10 case R11 => 11
    case R12 => 12 case R13 => 13 case R14 => 14 case R15 => 15
    case XMM0 => 16 case XMM1 => 17 case XMM2 => 18 case XMM3 => 19
    case XMM4 => 20 case XMM5 => 21 case XMM6 => 22 case XMM7 => 23
    case XMM8 => 24 case XMM9 => 25 case XMM10 => 26 case XMM11 => 27
    case XMM12 => 28 case XMM13 => 29 case XMM14 => 30 case XMM15 => 31
  }

  /** `Register::encode`: a general register and the XMM register of the same
      number share it. */
  function RegisterEncode(r: Register): (n: bv8)
    ensures n < 16
  {
    match r
    case RAX | XMM0 => 0
    case RCX | XMM1 => 1
    case RDX | XMM2 => 2
    case RBX | XMM3 => 3
    case RSP | XMM4 => 4
    case RBP | XMM5 => 5
    case RSI | XMM6 => 6
    case RDI | XMM7 => 7
    case R8 | XMM8 => 8
    case R9 | XMM9 => 9
    case R10 | XMM10 => 10
    case R11 | XMM11 => 11
    case R12 | XMM12 => 12
    case R13 | XMM13 => 13
    case R14 | XMM14 => 14
    case R15 | XMM15 => 15
  }

  /** Rn and XMMn are both encoded as n: the encoding is the declaration
      index modulo 16. */
  lemma RegisterEncodeIsIndexMod16(r: Register)
    ensures RegisterEncode(r) as nat == RegisterIndex(r) % 16
  {
    match r
    case _ =>
  }

  datatype Condition =
    | Overflow | EqualTo | NotEqualTo
    | UnsignedGreaterThan | UnsignedGreaterThanOrEqualTo | UnsignedLessThan | UnsignedLessThanOrEqualTo
    | ParityEven | ParityOdd
    | SignedGreaterThan | SignedGreaterThanOrEqualTo | SignedLessThan | SignedLessThanOrEqualTo
    | Unordered | NotUnordered
    | Below | BelowOrEqual | Above | AboveOrEqual

  /** `Condition::encode`: the `tttn` field. Aliases share a code. */
  function ConditionEncode(c: Condition): (n: bv8)
    ensures n <= 0xF
  {
    match c
    case Overflow => 0x0
    case EqualTo => 0x4
    case NotEqualTo => 0x5
    case UnsignedGreaterThan | Above => 0x7
    case UnsignedGreaterThanOrEqualTo | AboveOrEqual => 0x3
    case UnsignedLessThan | Below => 0x2
    case UnsignedLessThanOrEqualTo | BelowOrEqual => 0x6
    case ParityEven | Unordered => 0xA
    case ParityOdd | NotUnordered => 0xB
    case SignedGreaterThan => 0xF
    case SignedGreaterThanOrEqualTo => 0xD
    case SignedLessThan => 0xC
    case SignedLessThanOrEqualTo => 0xE
  }

  /** The opposite condition, where the enumeration has one. */
  function Negation(c: Condition): Option<Condition> {
    match c
    case Overflow => None
    case EqualTo => Some(NotEqualTo)
    case NotEqualTo => Some(EqualTo)
    case UnsignedGreaterThan => Some(UnsignedLessThanOrEqualTo)
    case UnsignedLessThanOrEqualTo => Some(UnsignedGreaterThan)
    case UnsignedGreaterThanOrEqualTo => Some(UnsignedLessThan)
    case UnsignedLessThan => Some(UnsignedGreaterThanOrEqualTo)
    case ParityEven => Some(ParityOdd)
    case ParityOdd => Some(ParityEven)
    case SignedGreaterThan => Some(SignedLessThanOrEqualTo)
    case SignedLessThanOrEqualTo => Some(SignedGreaterThan)
    case SignedGreaterThanOrEqualTo => Some(SignedLessThan)
    case SignedLessThan => Some(SignedGreaterThanOrEqualTo)
    case Unordered => Some(NotUnordered)
    case NotUnordered => Some(Unordered)
    case Below => Some(AboveOrEqual)
    case AboveOrEqual => Some(Below)
    case BelowOrEqual => Some(Above)
    case Above => Some(BelowOrEqual)
  }

  /** In the `tttn` field the low bit negates the condition, and aliases
      share a code. */
  lemma ConditionCodes(c: Condition)
    ensures Negation(c).Some? ==> ConditionEncode(Negation(c).value) == ConditionEncode(c) ^ 1
    ensures ConditionEncode(Above) == ConditionEncode(UnsignedGreaterThan)
    ensures ConditionEncode(AboveOrEqual) == ConditionEncode(UnsignedGreaterThanOrEqualTo)
    ensures ConditionEncode(Below) == ConditionEncode(UnsignedLessThan)
    ensures ConditionEncode(BelowOrEqual) == ConditionEncode(UnsignedLessThanOrEqualTo)
    ensures ConditionEncode(Unordered) == ConditionEncode(ParityEven)
    ensures ConditionEncode(NotUnordered) == ConditionEncode(ParityOdd)
  {
    match c
    case _ =>
  }

  datatype Immediate = Immediate8(i8: bv8) | Immediate32(i32: bv32) | Immediate64(i64: bv64)

  /** `Immediate::to_le_bytes`. */
  function ImmediateBytes(imm: Immediate): (r: seq<bv8>)
    ensures |r| == 1 || |r| == 4 || |r| == 8
  {
    match imm
    case Immediate8(b) => [b]
    case Immediate32(d) => Le32(d)
    case Immediate64(q) => Le64(q)
  }

  /** The bytes have the immediate's width and read back as its value. */
  lemma ImmediateBytesRoundTrip(imm: Immediate)
    ensures imm.Immediate8? ==> ImmediateBytes(imm) == [imm.i8]
    ensures imm.Immediate32? ==> |ImmediateBytes(imm)| == 4 && FromLe32(ImmediateBytes(imm)) == imm.i32
    ensures imm.Immediate64? ==> |ImmediateBytes(imm)| == 8 && FromLe64(ImmediateBytes(imm)) == imm.i64
  {
    match imm
    case Immediate8(_) =>
    case Immediate32(d) => Le32RoundTrip(d);
    case Immediate64(q) => Le64RoundTrip(q);
  }

  // ---------------------------------------------------------------- operands

  /** `Operand`: a register (with its float flag), a base register and an
      offset, or an immediate. */
  datatype Operand =
    | RegisterOperand(reg: Register, isFloat: bool)
    | MemoryOperand(base: Register, offset: bv64)
    | ImmediateOperand(imm: Immediate)

  predicate IsRegisterOrMemory(op: Operand) {
    op.RegisterOperand? || op.MemoryOperand?
  }

  /** `register_or_memory_base_to_underlying`: the register number, cut to
      three bits for a memory base. */
  function BaseNumber(op: Operand): (n: bv8)
    requires IsRegisterOrMemory(op)
    ensures op.RegisterOperand? ==> n == RegisterEncode(op.reg)
    ensures op.MemoryOperand? ==> n == RegisterEncode(op.base) & 7 && n < 8
  {
    match op
    case RegisterOperand(r, _) => RegisterEncode(r)
    case MemoryOperand(r, _) => RegisterEncode(r) & 7
  }

  /** `offset_or_immediate`: the offset, or the immediate zero-extended. */
  function OffsetOrImmediate(op: Operand): (v: bv64)
    requires !op.RegisterOperand?
    ensures op.MemoryOperand? ==> v == op.offset
  {
    match op
    case MemoryOperand(_, offset) => offset
    case ImmediateOperand(Immediate8(b)) => b as bv64
    case ImmediateOperand(Immediate32(d)) => d as bv64
    case ImmediateOperand(Immediate64(q)) => q
  }

  predicate FitsInU8(op: Operand)
    requires op.ImmediateOperand?
  {
    OffsetOrImmediate(op) <= 0xFF
  }

  predicate FitsInU32(op: Operand)
    requires op.ImmediateOperand?
  {
    OffsetOrImmediate(op) <= 0xFFFF_FFFF
  }

  /** The 64-bit word, read as `i64`, lies in -128..127. */
  predicate FitsSigned8(q: bv64) {
    q <= 0x7F || q >= 0xFFFF_FFFF_FFFF_FF80
  }

  /** The 64-bit word, read as `i64`, lies in -2^31..2^31-1. */
  predicate FitsSigned32(q: bv64) {
    q <= 0x7FFF_FFFF || q >= 0xFFFF_FFFF_8000_0000
  }

  /** `fits_in_i8` as written: `as i64 <= 127`, only the upper bound, so
      every negative value passes. */
  predicate FitsInI8AsWritten(op: Operand)
    requires op.ImmediateOperand?
  {
    OffsetOrImmediate(op) <= 0x7F || OffsetOrImmediate(op) >= 0x8000_0000_0000_0000
  }

  /** `fits_in_i32` as written: `as i64 <= 2^31-1`, only the upper bound. */
  predicate FitsInI32AsWritten(op: Operand)
    requires op.ImmediateOperand?
  {
    OffsetOrImmediate(op) <= 0x7FFF_FFFF || OffsetOrImmediate(op) >= 0x8000_0000_0000_0000
  }

  /** `fits_in_i8`: the value, read as `i64`, is in the range of a byte
      that the processor sign-extends. */
  predicate FitsInI8(op: Operand)
    requires op.ImmediateOperand?
  {
    FitsSigned8(OffsetOrImmediate(op))
  }

  /** `fits_in_i32`: likewise for a sign-extended 32-bit field. */
  predicate FitsInI32(op: Operand)
    requires op.ImmediateOperand?
  {
    FitsSigned32(OffsetOrImmediate(op))
  }

  /** The processor's sign extension of an 8-bit and a 32-bit field to 64 bits. */
  function SignExtend8(b: bv8): bv64 {
    if b < 0x80 then b as bv64 else 0xFFFF_FFFF_FFFF_FF00 | b as bv64
  }

  function SignExtend32(d: bv32): bv64 {
    if d < 0x8000_0000 then d as bv64 else 0xFFFF_FFFF_0000_0000 | d as bv64
  }

  /** `value as u8` and `value as u32`: the low bits. */
  function LowByte(q: bv64): bv8 {
    (q & 0xFF) as bv8
  }

  function LowDword(q: bv64): bv32 {
    (q & 0xFFFF_FFFF) as bv32
  }

  /** A word fits in eight signed bits exactly when its low byte
      sign-extends back to it. */
  lemma SignExtendLowByte(q: bv64)
    ensures FitsSigned8(q) <==> SignExtend8(LowByte(q)) == q
  {
  }

  lemma LowDwordBits(q: bv64)
    ensures LowDword(q) as bv64 == q & 0xFFFF_FFFF
    ensures LowDword(q) < 0x8000_0000 <==> q & 0xFFFF_FFFF < 0x8000_0000
  {
  }

  lemma NegativeDword(q: bv64)
    requires q >= 0xFFFF_FFFF_8000_0000
    ensures q & 0xFFFF_FFFF >= 0x8000_0000
    ensures 0xFFFF_FFFF_0000_0000 | (q & 0xFFFF_FFFF) == q
  {
  }

  /** A word fits in 32 signed bits exactly when its low four bytes
      sign-extend back to it. */
  lemma SignExtendLowDword(q: bv64)
    ensures FitsSigned32(q) <==> SignExtend32(LowDword(q)) == q
  {
    LowDwordBits(q);
    if q >= 0xFFFF_FFFF_8000_0000 {
      NegativeDword(q);
    }
  }

  /** As written, `fits_in_i8` accepts -256, whose low byte sign-extends to 0:
      `push` would push 0 in place of -256. */
  lemma FitsInI8AsWrittenAcceptsTooSmall()
    ensures var op := ImmediateOperand(Immediate64(0xFFFF_FFFF_FFFF_FF00));
            FitsInI8AsWritten(op) && !FitsInI8(op) && SignExtend8(LowByte(OffsetOrImmediate(op))) == 0
  {
  }

  /** The corrected checks accept fewer values than the ones as written. */
  lemma FitsCorrectedNarrower(op: Operand)
    requires op.ImmediateOperand?
    ensures FitsInI8(op) ==> FitsInI8AsWritten(op)
    ensures FitsInI32(op) ==> FitsInI32AsWritten(op)
  {
  }

  // ---------------------------------------------------------------- ModR/M and REX emission

  /** `emit_modrm`: the ModR/M byte with the mode the operand needs, then
      any displacement. The offset is unsigned, so the `< 127` half of the
      8-bit test already rules out every offset that `as i64` makes
      negative: only offsets 1 to 126 take the 8-bit form, and every other
      non-zero offset takes 32 bits. */
  function ModRmBytes(raw: bv8, rm: Operand): (r: seq<bv8>)
    requires IsRegisterOrMemory(rm)
    ensures rm.RegisterOperand? ==> r == [SetMode(raw, ModReg)]
    ensures rm.MemoryOperand? && rm.offset == 0 ==> r == [SetMode(raw, ModMem)]
    ensures rm.MemoryOperand? && 1 <= rm.offset <= 126 ==> r == [SetMode(raw, ModMemDisp8), LowByte(rm.offset)]
    ensures rm.MemoryOperand? && rm.offset >= 127 ==>
              r == [SetMode(raw, ModMemDisp32)] + Le32(LowDword(rm.offset))
  {
    match rm
    case RegisterOperand(_, _) => [SetMode(raw, ModReg)]
    case MemoryOperand(_, d) =>
      if d == 0 then [SetMode(raw, ModMem)]
      else if d < 127 then [SetMode(raw, ModMemDisp8), LowByte(d)]
      else [SetMode(raw, ModMemDisp32)] + Le32(LowDword(d))
  }

  /** The displacement that follows the ModR/M byte, as the processor reads
      it: none in mode 00, one sign-extended byte in mode 01, four in mode 10.
      For any offset that fits in 32 signed bits, it is the operand's offset. */
  lemma ModRmDisplacement(raw: bv8, base: Register, offset: bv64)
    requires FitsSigned32(offset)
    ensures var r := ModRmBytes(raw, MemoryOperand(base, offset));
            (r[0] >> 6 == ModMem ==> |r| == 1 && offset == 0)
            && (r[0] >> 6 == ModMemDisp8 ==> |r| == 2 && SignExtend8(r[1]) == offset)
            && (r[0] >> 6 == ModMemDisp32 ==> |r| == 5 && SignExtend32(FromLe32(r[1..])) == offset)
            && r[0] >> 6 != ModReg
  {
    var r := ModRmBytes(raw, MemoryOperand(base, offset));
    if offset >= 127 {
      assert r[1..] == Le32(LowDword(offset));
      Le32RoundTrip(LowDword(offset));
      SignExtendLowDword(offset);
    }
  }

  /** The ModR/M byte `m` holds `reg` in its reg field and the operand's
      register number in its rm field, in register mode exactly when the
      operand is a register. */
  predicate ModRmNames(m: bv8, reg: bv8, rm: Operand)
    requires IsRegisterOrMemory(rm)
  {
    (m >> 3) & 7 == reg & 7 && m & 7 == BaseNumber(rm) & 7 && (m >> 6 == ModReg <==> rm.RegisterOperand?)
  }

  /** `emit_modrm_rm`: `reg` from the source register, `rm` from the
      destination, the mode from the source (so always register mode). */
  function ModRmRm(dst: Operand, src: Operand): (r: seq<bv8>)
    requires IsRegisterOrMemory(dst) && src.RegisterOperand?
    ensures |r| == 1 && r[0] >> 6 == ModReg
    ensures (r[0] >> 3) & 7 == BaseNumber(src) & 7 && r[0] & 7 == BaseNumber(dst) & 7
  {
    ModRmBytes(ModRmNew(BaseNumber(dst), BaseNumber(src), 0), src)
  }

  /** `emit_modrm_mr`: the same fields, the mode taken from the destination. */
  function ModRmMr(dst: Operand, src: Operand): (r: seq<bv8>)
    requires IsRegisterOrMemory(dst) && src.RegisterOperand?
    ensures |r| >= 1 && ModRmNames(r[0], BaseNumber(src), dst)
  {
    ModRmBytes(ModRmNew(BaseNumber(dst), BaseNumber(src), 0), dst)
  }

  /** `emit_modrm_slash`: an opcode extension in `reg`. */
  function ModRmSlash(slash: bv8, rm: Operand): (r: seq<bv8>)
    requires IsRegisterOrMemory(rm)
    ensures |r| >= 1 && ModRmNames(r[0], slash, rm)
    ensures rm.RegisterOperand? ==> |r| == 1
  {
    ModRmBytes(ModRmNew(BaseNumber(rm), slash, 0), rm)
  }

  /** `emit_rex_for_rm`: nothing when W is clear and both numbers are below
      8, else a REX with B from the source and R from the destination. */
  function RexForRm(dst: Operand, src: Operand, w: RexW): (r: seq<bv8>)
    requires IsRegisterOrMemory(src) && dst.RegisterOperand?
    ensures r == [] <==> w == No && BaseNumber(dst) < 8 && BaseNumber(src) < 8
    ensures r != [] ==>
              |r| == 1 && r[0] >> 4 == 4
              && RexDecode(r[0]) == (if BaseNumber(src) >= 8 then 1 else 0, 0, if BaseNumber(dst) >= 8 then 1 else 0, RexWEncode(w))
  {
    if w == No && BaseNumber(dst) < 8 && BaseNumber(src) < 8 then []
    else [RexNew(if BaseNumber(src) >= 8 then 1 else 0, 0, if BaseNumber(dst) >= 8 then 1 else 0, RexWEncode(w))]
  }

  /** `emit_rex_for_mr`: B from the destination and R from the source. */
  function RexForMr(dst: Operand, src: Operand, w: RexW): (r: seq<bv8>)
    requires IsRegisterOrMemory(dst) && src.RegisterOperand?
    ensures r == [] <==> w == No && BaseNumber(dst) < 8 && BaseNumber(src) < 8
    ensures r != [] ==>
              |r| == 1 && r[0] >> 4 == 4
              && RexDecode(r[0]) == (if BaseNumber(dst) >= 8 then 1 else 0, 0, if BaseNumber(src) >= 8 then 1 else 0, RexWEncode(w))
  {
    if w == No && BaseNumber(dst) < 8 && BaseNumber(src) < 8 then []
    else [RexNew(if BaseNumber(dst) >= 8 then 1 else 0, 0, if BaseNumber(src) >= 8 then 1 else 0, RexWEncode(w))]
  }

  /** `emit_rex_for_slash` (and `emit_rex_for_oi`): B from the operand. */
  function RexForSlash(arg: Operand, w: RexW): (r: seq<bv8>)
    requires IsRegisterOrMemory(arg)
    ensures r == [] <==> w == No && BaseNumber(arg) < 8
    ensures r != [] ==> r == [RexNew(if BaseNumber(arg) >= 8 then 1 else 0, 0, 0, RexWEncode(w))]
  {
    if w == No && BaseNumber(arg) < 8 then []
    else [RexNew(if BaseNumber(arg) >= 8 then 1 else 0, 0, 0, RexWEncode(w))]
  }

  // ---------------------------------------------------------------- instructions

  /** The operand shapes `mov` handles; any other pair reaches `todo!`. */
  predicate MovHandles(dst: Operand, src: Operand) {
    (src.RegisterOperand? && !src.isFloat && IsRegisterOrMemory(dst))
    || (dst.RegisterOperand? && src.ImmediateOperand?)
  }

  /** `mov` as written: the no-op shortcut compares the destination's base
      number with the source register even when the destination is memory. */
  function MovAsWritten(dst: Operand, src: Operand): seq<bv8>
    requires MovHandles(dst, src)
  {
    if src.RegisterOperand? && !src.isFloat && IsRegisterOrMemory(dst) then
      if BaseNumber(dst) == BaseNumber(src) then []
      else RexForMr(dst, src, Yes) + [0x89] + ModRmMr(dst, src)
    else MovImmediate(dst, src)
  }

  /** As written, a store of RAX through RAX (`mov [rax+8], rax`) emits nothing. */
  lemma MovAsWrittenDropsStore()
    ensures MovAsWritten(MemoryOperand(RAX, 8), RegisterOperand(RAX, false)) == []
  {
  }

  /** `mov`: a register moved onto itself emits nothing; any other register
      source is `REX.W 89 /r`; an immediate goes through MovImmediate. */
  function Mov(dst: Operand, src: Operand): (r: seq<bv8>)
    requires MovHandles(dst, src)
    ensures src.RegisterOperand? && !src.isFloat && IsRegisterOrMemory(dst) ==>
              (r == [] <==> dst.RegisterOperand? && BaseNumber(dst) == BaseNumber(src))
  {
    if src.RegisterOperand? && !src.isFloat && IsRegisterOrMemory(dst) then
      if dst.RegisterOperand? && BaseNumber(dst) == BaseNumber(src) then []
      else RexForMr(dst, src, Yes) + [0x89] + ModRmMr(dst, src)
    else MovImmediate(dst, src)
  }

  /** `mov r, imm`: zero becomes `xor r32, r32`; a value that fits in 32 bits
      is `B8+r imm32`; anything else is `REX.W B8+r imm64`. */
  function MovImmediate(dst: Operand, src: Operand): (r: seq<bv8>)
    requires dst.RegisterOperand? && src.ImmediateOperand?
    ensures OffsetOrImmediate(src) == 0 ==> r == RexForMr(dst, dst, No) + [0x31] + ModRmMr(dst, dst)
  {
    var v := OffsetOrImmediate(src);
    if v == 0 then RexForMr(dst, dst, No) + [0x31] + ModRmMr(dst, dst)
    else if FitsInU32(src) then RexForSlash(dst, No) + [0xB8 | RegisterEncode(dst.reg)] + Le32(LowDword(v))
    else RexForSlash(dst, Yes) + [0xB8 | RegisterEncode(dst.reg)] + Le64(v)
  }

  /** A store to memory is never dropped, and `xor r32, r32` for a low
      register is exactly two bytes, `31` and a register-mode ModR/M. */
  lemma MovEncodings(dst: Operand, src: Operand)
    ensures dst.MemoryOperand? && src.RegisterOperand? && !src.isFloat ==>
              Mov(dst, src) == RexForMr(dst, src, Yes) + [0x89] + ModRmMr(dst, src) && |Mov(dst, src)| >= 3
    ensures dst.RegisterOperand? && src.ImmediateOperand? && OffsetOrImmediate(src) == 0 && RegisterEncode(dst.reg) < 8 ==>
              var n := RegisterEncode(dst.reg);
              Mov(dst, src) == [0x31, 0xC0 | (n << 3) | n]
  {
    if dst.RegisterOperand? && src.ImmediateOperand? && OffsetOrImmediate(src) == 0 && RegisterEncode(dst.reg) < 8 {
      var n := RegisterEncode(dst.reg);
      assert ModRmNew(n, n, 0) == (n << 3) | n;
    }
  }

  /** The shapes `push` handles. */
  predicate PushHandles(op: Operand) {
    op.RegisterOperand? || (op.ImmediateOperand? && (FitsInI8(op) || FitsInI32(op)))
  }

  /** `push`: `REX.B 50+r`, `6A ib` or `68 id`. */
  function Push(op: Operand): (r: seq<bv8>)
    requires PushHandles(op)
    ensures op.RegisterOperand? ==>
              r == (if RegisterEncode(op.reg) >= 8 then [0x41] else []) + [0x50 | (RegisterEncode(op.reg) & 7)]
  {
    match op
    case RegisterOperand(reg, _) => RexForSlash(op, No) + [0x50 | (RegisterEncode(reg) & 7)]
    case ImmediateOperand(_) =>
      if FitsInI8(op) then [0x6A, LowByte(OffsetOrImmediate(op))]
      else [0x68] + Le32(LowDword(OffsetOrImmediate(op)))
  }

  /** `pop`: `REX.B 58+r`. The register number is not cut to three bits, but
      bit 3 of `58` is already set, so the byte is the same. */
  function Pop(op: Operand): (r: seq<bv8>)
    requires op.RegisterOperand?
    ensures r == (if RegisterEncode(op.reg) >= 8 then [0x41] else []) + [0x58 | (RegisterEncode(op.reg) & 7)]
  {
    assert 0x58 | RegisterEncode(op.reg) == 0x58 | (RegisterEncode(op.reg) & 7);
    RexForSlash(op, No) + [0x58 | RegisterEncode(op.reg)]
  }

  /** The immediate `push` writes sign-extends back to the value pushed. */
  lemma PushImmediateValue(op: Operand)
    requires op.ImmediateOperand? && PushHandles(op)
    ensures FitsInI8(op) ==>
              (Push(op)[0] == 0x6A && |Push(op)| == 2 && SignExtend8(Push(op)[1]) == OffsetOrImmediate(op))
    ensures !FitsInI8(op) ==>
              (Push(op)[0] == 0x68 && |Push(op)| == 5 && SignExtend32(FromLe32(Push(op)[1..])) == OffsetOrImmediate(op))
  {
    var q := OffsetOrImmediate(op);
    SignExtendLowByte(q);
    if !FitsInI8(op) {
      assert Push(op)[1..] == Le32(LowDword(q));
      Le32RoundTrip(LowDword(q));
      SignExtendLowDword(q);
    }
  }

  /** `push_callee_saved_registers`: RBX, RBP, R12, R13, R14, R15. */
  function PushCalleeSaved(): seq<bv8> {
    Push(RegisterOperand(RBX, false)) + Push(RegisterOperand(RBP, false)) + Push(RegisterOperand(R12, false))
    + Push(RegisterOperand(R13, false)) + Push(RegisterOperand(R14, false)) + Push(RegisterOperand(R15, false))
  }

  /** `pop_callee_saved_registers`: the same registers in reverse order. */
  function PopCalleeSaved(): seq<bv8> {
    Pop(RegisterOperand(R15, false)) + Pop(RegisterOperand(R14, false)) + Pop(RegisterOperand(R13, false))
    + Pop(RegisterOperand(R12, false)) + Pop(RegisterOperand(RBP, false)) + Pop(RegisterOperand(RBX, false))
  }

  /** `pop` undoes `push`: the same REX prefix, and the opcode `58+r` is
      `50+r` with bit 3 set. */
  lemma PopMatchesPush(op: Operand)
    requires op.RegisterOperand?
    ensures |Pop(op)| == |Push(op)|
    ensures Pop(op)[..|Pop(op)| - 1] == Push(op)[..|Push(op)| - 1]
    ensures Pop(op)[|Pop(op)| - 1] == Push(op)[|Push(op)| - 1] | 0x08
  {
  }

  function Trap(): seq<bv8> { [0xCC] }

  /** `ret`: `C2 iw` with a count, `C3` without. */
  function Ret(bytes: Option<bv16>): (r: seq<bv8>)
    ensures bytes.None? ==> r == [0xC3]
    ensures bytes.Some? ==> |r| == 3 && r[0] == 0xC2 && r[1..] == Le16(bytes.value)
  {
    match bytes
    case Some(n) => [0xC2] + Le16(n)
    case None => [0xC3]
  }

  function Leave(): seq<bv8> { [0xC9] }

  /** `enter`: `push rbp; mov rbp, rsp`. */
  function Enter(): (r: seq<bv8>)
    ensures r == [0x55, 0x48, 0x89, 0xE5]
  {
    Push(RegisterOperand(RBP, false)) + Mov(RegisterOperand(RBP, false), RegisterOperand(RSP, false))
  }

  /** `exit`: `leave; ret`. */
  function Exit(): (r: seq<bv8>)
    ensures r == [0xC9, 0xC3]
  {
    Leave() + Ret(None)
  }

  /** The shapes `add`, `sub` and `cmp` handle with their integer forms. */
  predicate ArithHandles(dst: Operand, src: Operand) {
    (src.RegisterOperand? && !src.isFloat && IsRegisterOrMemory(dst))
    || (src.ImmediateOperand? && IsRegisterOrMemory(dst) && (FitsInI8(src) || FitsInI32(src)))
    || (dst.RegisterOperand? && dst.isFloat && src.RegisterOperand? && src.isFloat)
  }

  /** The common shape of `add` and `sub`: `op /r` for a register source,
      `83 /ext ib` or `81 /ext id` for an immediate, and the scalar-double
      form `F2 0F sse /r` for two float registers. */
  function Arith(dst: Operand, src: Operand, op: bv8, ext: bv8, sse: bv8): (r: seq<bv8>)
    requires ArithHandles(dst, src)
  {
    if src.RegisterOperand? && !src.isFloat && IsRegisterOrMemory(dst) then
      RexForMr(dst, src, Yes) + [op] + ModRmMr(dst, src)
    else if src.ImmediateOperand? && IsRegisterOrMemory(dst) && FitsInI8(src) then
      RexForSlash(dst, Yes) + [0x83] + ModRmSlash(ext, dst) + [LowByte(OffsetOrImmediate(src))]
    else if src.ImmediateOperand? && IsRegisterOrMemory(dst) && FitsInI32(src) then
      RexForSlash(dst, Yes) + [0x81] + ModRmSlash(ext, dst) + Le32(LowDword(OffsetOrImmediate(src)))
    else [0xF2, 0x0F, sse] + ModRmRm(dst, src)
  }

  /** An immediate form of `add` or `sub`: the extension in the ModR/M
      byte, and an immediate that the processor sign-extends back to the
      operand's value, one byte after `83` and four after `81`. */
  lemma ArithImmediateValue(dst: Operand, src: Operand, op: bv8, ext: bv8, sse: bv8)
    requires ArithHandles(dst, src) && src.ImmediateOperand?
    ensures var r := Arith(dst, src, op, ext, sse);
            var k := |RexForSlash(dst, Yes)|;
            var i := k + 1 + |ModRmSlash(ext, dst)|;
            |r| > k + 1 && ModRmNames(r[k + 1], ext, dst)
            && (FitsInI8(src) ==> r[k] == 0x83 && |r| == i + 1 && SignExtend8(r[i]) == OffsetOrImmediate(src))
            && (!FitsInI8(src) ==> r[k] == 0x81 && |r| == i + 4 && SignExtend32(FromLe32(r[i..])) == OffsetOrImmediate(src))
  {
    var q := OffsetOrImmediate(src);
    var r := Arith(dst, src, op, ext, sse);
    var i := |RexForSlash(dst, Yes)| + 1 + |ModRmSlash(ext, dst)|;
    SignExtendLowByte(q);
    if !FitsInI8(src) {
      assert r[i..] == Le32(LowDword(q));
      Le32RoundTrip(LowDword(q));
      SignExtendLowDword(q);
    }
  }

  /** `sub`: `29 /r`, `83 /5`, `81 /5`, `F2 0F 5C`. */
  function Sub(dst: Operand, src: Operand): seq<bv8>
    requires ArithHandles(dst, src)
  {
    Arith(dst, src, 0x29, 5, 0x5C)
  }

  /** `add`: `01 /r`, `83 /0`, `81 /0`, `F2 0F 58`. */
  function Add(dst: Operand, src: Operand): seq<bv8>
    requires ArithHandles(dst, src)
  {
    Arith(dst, src, 0x01, 0, 0x58)
  }

  /** `inc32` and `dec32` before any overflow jump: `FF /0` and `FF /1`. */
  function Inc32(op: Operand): (r: seq<bv8>)
    requires IsRegisterOrMemory(op)
    ensures var k := |RexForSlash(op, No)|; |r| > k + 1 && r[k] == 0xFF && ModRmNames(r[k + 1], 0, op)
  {
    RexForSlash(op, No) + [0xFF] + ModRmSlash(0, op)
  }

  function Dec32(op: Operand): (r: seq<bv8>)
    requires IsRegisterOrMemory(op)
    ensures var k := |RexForSlash(op, No)|; |r| > k + 1 && r[k] == 0xFF && ModRmNames(r[k + 1], 1, op)
  {
    RexForSlash(op, No) + [0xFF] + ModRmSlash(1, op)
  }

  /** The placeholder written into a jump's displacement. */
  const Placeholder: bv32 := 0xDEAD_BEEF

  /** `jump` and `jump_label`: `E9` and a 32-bit displacement to patch. */
  function JumpBytes(): (r: seq<bv8>)
    ensures |r| == 5 && r[0] == 0xE9
  {
    [0xE9] + Le32(Placeholder)
  }

  /** `jump_if_label`: `0F 80+cc` and a 32-bit displacement to patch. */
  function JumpIfBytes(c: Condition): (r: seq<bv8>)
    ensures |r| == 6
  {
    [0x0F, 0x80 | ConditionEncode(c)] + Le32(Placeholder)
  }

  /** `jump_op`: `FF /4`. */
  function JumpOp(op: Operand): (r: seq<bv8>)
    requires IsRegisterOrMemory(op)
    ensures var k := |RexForSlash(op, No)|; |r| > k + 1 && r[k] == 0xFF && ModRmNames(r[k + 1], 4, op)
  {
    RexForSlash(op, No) + [0xFF] + ModRmSlash(4, op)
  }

  /** `set_if`: `0F 90+cc /0`. */
  function SetIf(c: Condition, dst: Operand): (r: seq<bv8>)
    requires IsRegisterOrMemory(dst)
    ensures var k := |RexForSlash(dst, No)|;
            |r| > k + 2 && r[k] == 0x0F && r[k + 1] >> 4 == 9 && r[k + 1] & 0xF == ConditionEncode(c)
            && ModRmNames(r[k + 2], 0, dst)
  {
    RexForSlash(dst, No) + [0x0F, 0x90 | ConditionEncode(c)] + ModRmSlash(0, dst)
  }

  /** `mov_if`: `REX.W 0F 40+cc /r`. */
  function MovIf(c: Condition, dst: Operand, src: Operand): (r: seq<bv8>)
    requires dst.RegisterOperand? && src.RegisterOperand?
    ensures |r| == 4 && r[0] >> 4 == 4 && RexDecode(r[0]).3 == 1
    ensures r[1] == 0x0F && r[2] >> 4 == 4 && r[2] & 0xF == ConditionEncode(c)
    ensures r[3] >> 6 == ModReg && (r[3] >> 3) & 7 == BaseNumber(src) & 7 && r[3] & 7 == BaseNumber(dst) & 7
  {
    RexForMr(dst, src, Yes) + [0x0F, 0x40 | ConditionEncode(c)] + ModRmRm(dst, src)
  }

  /** The shapes `test` handles. */
  predicate TestHandles(lhs: Operand, rhs: Operand) {
    (rhs.RegisterOperand? && !rhs.isFloat && IsRegisterOrMemory(lhs))
    || (rhs.ImmediateOperand? && IsRegisterOrMemory(lhs) && FitsInI32(rhs))
  }

  /** `test`: `REX.W 85 /r` or `REX.W F7 /0 id`. */
  function Test(lhs: Operand, rhs: Operand): seq<bv8>
    requires TestHandles(lhs, rhs)
  {
    if rhs.RegisterOperand? && !rhs.isFloat && IsRegisterOrMemory(lhs) then
      RexForMr(lhs, rhs, Yes) + [0x85] + ModRmMr(lhs, rhs)
    else RexForSlash(lhs, Yes) + [0xF7] + ModRmSlash(0, lhs) + Le32(LowDword(OffsetOrImmediate(rhs)))
  }

  /** The immediate form of `test`: `F7 /0` and four bytes that the
      processor sign-extends back to the operand's value. */
  lemma TestImmediateValue(lhs: Operand, rhs: Operand)
    requires TestHandles(lhs, rhs) && rhs.ImmediateOperand?
    ensures var r := Test(lhs, rhs);
            var k := |RexForSlash(lhs, Yes)|;
            var i := k + 1 + |ModRmSlash(0, lhs)|;
            |r| == i + 4 && r[k] == 0xF7 && ModRmNames(r[k + 1], 0, lhs)
            && SignExtend32(FromLe32(r[i..])) == OffsetOrImmediate(rhs)
  {
    var q := OffsetOrImmediate(rhs);
    var i := |RexForSlash(lhs, Yes)| + 1 + |ModRmSlash(0, lhs)|;
    assert Test(lhs, rhs)[i..] == Le32(LowDword(q));
    Le32RoundTrip(LowDword(q));
    SignExtendLowDword(q);
  }

  /** The shapes `cmp` handles. A float register compared with memory takes
      the `ucomisd` arm, whose `emit_modrm_rm` then fails its assertion, so it
      is not among them. */
  predicate CmpHandles(lhs: Operand, rhs: Operand) {
    (rhs.RegisterOperand? && IsRegisterOrMemory(lhs))
    || (rhs.ImmediateOperand? && IsRegisterOrMemory(lhs) && (FitsInI8(rhs) || FitsInI32(rhs)))
  }

  /** `cmp`: `REX.W 39 /r`, `83 /7 ib` or `81 /7 id`. */
  function Cmp(lhs: Operand, rhs: Operand): seq<bv8>
    requires CmpHandles(lhs, rhs)
  {
    if rhs.RegisterOperand? then RexForMr(lhs, rhs, Yes) + [0x39] + ModRmMr(lhs, rhs)
    else if FitsInI8(rhs) then
      RexForSlash(lhs, Yes) + [0x83] + ModRmSlash(7, lhs) + [LowByte(OffsetOrImmediate(rhs))]
    else RexForSlash(lhs, Yes) + [0x81] + ModRmSlash(7, lhs) + Le32(LowDword(OffsetOrImmediate(rhs)))
  }

  /** An immediate form of `cmp`: `/7` in the ModR/M byte, and an
      immediate that sign-extends back to the operand's value, one byte
      after `83` and four after `81`. */
  lemma CmpImmediateValue(lhs: Operand, rhs: Operand)
    requires CmpHandles(lhs, rhs) && rhs.ImmediateOperand?
    ensures var r := Cmp(lhs, rhs);
            var k := |RexForSlash(lhs, Yes)|;
            var i := k + 1 + |ModRmSlash(7, lhs)|;
            |r| > k + 1 && ModRmNames(r[k + 1], 7, lhs)
            && (FitsInI8(rhs) ==> r[k] == 0x83 && |r| == i + 1 && SignExtend8(r[i]) == OffsetOrImmediate(rhs))
            && (!FitsInI8(rhs) ==> r[k] == 0x81 && |r| == i + 4 && SignExtend32(FromLe32(r[i..])) == OffsetOrImmediate(rhs))
  {
    var q := OffsetOrImmediate(rhs);
    var r := Cmp(lhs, rhs);
    var i := |RexForSlash(lhs, Yes)| + 1 + |ModRmSlash(7, lhs)|;
    SignExtendLowByte(q);
    if !FitsInI8(rhs) {
      assert r[i..] == Le32(LowDword(q));
      Le32RoundTrip(LowDword(q));
      SignExtendLowDword(q);
    }
  }

  /** `call_rax`: `FF /2` on RAX. */
  function CallRax(): (r: seq<bv8>)
    ensures r == [0xFF, 0xD0]
  {
    [0xFF] + ModRmSlash(2, RegisterOperand(RAX, false))
  }

  /** `shr`: `REX.W C1 /5 ib`. */
  function Shr(dst: Operand, count: Operand): (r: seq<bv8>)
    requires dst.RegisterOperand? && count.ImmediateOperand? && FitsInU8(count)
    ensures |r| == 4 && r[0] >> 4 == 4 && RexDecode(r[0]).3 == 1
    ensures r[1] == 0xC1 && ModRmNames(r[2], 5, dst) && r[3] as bv64 == OffsetOrImmediate(count)
  {
    RexForSlash(dst, Yes) + [0xC1] + ModRmSlash(5, dst) + [LowByte(OffsetOrImmediate(count))]
  }

  // ---------------------------------------------------------------- jump patching

  /** Offsets that `as i64` keeps non-negative. */
  const OffsetLimit: nat := 0x8000_0000_0000_0000

  /** The displacement `link_jump` writes: the label's offset minus the end
      of the slot, as a 64-bit subtraction, cut to its low 32 bits. */
  function Displacement(target: nat, slotEnd: nat): bv32
    requires target < OffsetLimit && slotEnd < OffsetLimit
  {
    Distance32(target as bv64, slotEnd as bv64)
  }

  /** The same on the two offsets as 64-bit words. */
  function Distance32(target: bv64, slotEnd: bv64): bv32 {
    LowDword(target - slotEnd)
  }

  /** When the distance fits in 32 signed bits, the displacement the
      processor sign-extends is the label's offset minus the end of the jump,
      so the jump lands on the label. */
  lemma DisplacementReachesTarget(target: bv64, slotEnd: bv64)
    requires FitsSigned32(target - slotEnd)
    ensures SignExtend32(Distance32(target, slotEnd)) == target - slotEnd
  {
    SignExtendLowDword(target - slotEnd);
  }

  /** `link_jump`: the four bytes ending at the slot end become the displacement. */
  function LinkJump(code: seq<bv8>, target: nat, slotEnd: nat): (r: seq<bv8>)
    requires 4 <= slotEnd <= |code| < OffsetLimit && target < OffsetLimit
    ensures |r| == |code|
    ensures r[slotEnd - 4..slotEnd] == Le32(Displacement(target, slotEnd))
    ensures forall i :: 0 <= i < |code| && !(slotEnd - 4 <= i < slotEnd) ==> r[i] == code[i]
  {
    code[..slotEnd - 4] + Le32(Displacement(target, slotEnd)) + code[slotEnd..]
  }

  /** Every slot of a label lies inside the code. */
  predicate SlotsInside(code: seq<bv8>, slots: seq<nat>) {
    |code| < OffsetLimit && forall i :: 0 <= i < |slots| ==> 4 <= slots[i] <= |code|
  }

  /** `link_to`'s loop: each recorded slot patched, in order. */
  function LinkAll(code: seq<bv8>, target: nat, slots: seq<nat>): (r: seq<bv8>)
    requires SlotsInside(code, slots) && target < OffsetLimit
    ensures |r| == |code|
    decreases |slots|
  {
    if slots == [] then code else LinkAll(LinkJump(code, target, slots[0]), target, slots[1..])
  }

  /** No two slots share a byte. */
  predicate SlotsDisjoint(slots: seq<nat>) {
    forall i, j :: 0 <= i < |slots| && 0 <= j < |slots| && i != j ==>
      slots[i] + 4 <= slots[j] || slots[j] + 4 <= slots[i]
  }

  /** Inside the window of one slot. */
  predicate InSlot(slots: seq<nat>, i: int) {
    exists k :: 0 <= k < |slots| && slots[k] - 4 <= i < slots[k]
  }

  /** A byte in the first slot's window is in no later slot's window. */
  lemma FirstSlotApart(slots: seq<nat>, i: int)
    requires slots != [] && SlotsDisjoint(slots) && slots[0] - 4 <= i < slots[0]
    ensures !InSlot(slots[1..], i)
  {
    forall m | 0 <= m < |slots| - 1
      ensures !(slots[1..][m] - 4 <= i < slots[1..][m])
    {
      assert slots[1..][m] == slots[m + 1];
    }
  }

  /** A byte in no slot's window is in neither the first nor a later one. */
  lemma OutsideSlots(slots: seq<nat>, i: int)
    requires slots != [] && !InSlot(slots, i)
    ensures !(slots[0] - 4 <= i < slots[0]) && !InSlot(slots[1..], i)
  {
    forall m | 0 <= m < |slots| - 1
      ensures !(slots[1..][m] - 4 <= i < slots[1..][m])
    {
      assert slots[1..][m] == slots[m + 1];
    }
  }

  /** Linking changes no byte outside the slots. */
  lemma {:induction false} LinkAllKeeps(code: seq<bv8>, target: nat, slots: seq<nat>)
    requires SlotsInside(code, slots) && target < OffsetLimit
    ensures forall i :: 0 <= i < |code| && !InSlot(slots, i) ==> LinkAll(code, target, slots)[i] == code[i]
    decreases |slots|
  {
    if slots != [] {
      var c1 := LinkJump(code, target, slots[0]);
      LinkAllKeeps(c1, target, slots[1..]);
      forall i | 0 <= i < |code| && !InSlot(slots, i)
        ensures LinkAll(code, target, slots)[i] == code[i]
      {
        OutsideSlots(slots, i);
      }
    }
  }

  /** After linking, every slot of disjoint slots holds its displacement to the label. */
  lemma {:induction false} LinkAllPatches(code: seq<bv8>, target: nat, slots: seq<nat>)
    requires SlotsInside(code, slots) && SlotsDisjoint(slots) && target < OffsetLimit
    ensures forall k :: 0 <= k < |slots| ==>
              LinkAll(code, target, slots)[slots[k] - 4..slots[k]] == Le32(Displacement(target, slots[k]))
    decreases |slots|
  {
    if slots != [] {
      var c1 := LinkJump(code, target, slots[0]);
      var rest := slots[1..];
      assert SlotsDisjoint(rest) by {
        forall i, j | 0 <= i < |rest| && 0 <= j < |rest| && i != j
          ensures rest[i] + 4 <= rest[j] || rest[j] + 4 <= rest[i]
        {
          assert rest[i] == slots[i + 1] && rest[j] == slots[j + 1];
        }
      }
      LinkAllPatches(c1, target, rest);
      LinkAllKeeps(c1, target, rest);
      var r := LinkAll(code, target, slots);
      forall k | 0 <= k < |slots|
        ensures r[slots[k] - 4..slots[k]] == Le32(Displacement(target, slots[k]))
      {
        if k == 0 {
          forall i | slots[0] - 4 <= i < slots[0]
            ensures r[i] == c1[i]
          {
            FirstSlotApart(slots, i);
          }
          assert r[slots[0] - 4..slots[0]] == c1[slots[0] - 4..slots[0]];
        } else {
          assert slots[k] == rest[k - 1];
        }
      }
    }
  }
}
