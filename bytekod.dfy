/** The bytecode of the Rust pipeline: opcodes and their byte encoding, the
    `Code` buffer that bytecode is emitted into and read back from
    (little-endian operands, in-place patching), the constants a module
    pools, and the walk over a buffer that `Code::print` performs. */
module Bytekod {
  import opened Wrappers
  import opened Ints

  /** `Opcode`, in declaration order. */
  datatype Opcode =
    | LoadConst | LoadName | LoadAttribute | LoadAttributeSelf | LoadMethod
    | StoreName | StoreAttribute
    | PopTop
    | UnaryAdd | UnarySub | UnaryNot | UnaryBoolNot
    | BinaryAdd | BinarySub | BinaryMul | BinaryDiv | BinaryMod | BinaryPow
    | BinaryAnd | BinaryOr | BinaryXor | BinaryLeftShift | BinaryRightShift
    | BinaryBooleanAnd | BinaryBooleanOr | BinaryBooleanEqual | BinaryBooleanNotEqual
    | BinaryBooleanGreaterThan | BinaryBooleanGreaterThanOrEqualTo
    | BinaryBooleanLessThan | BinaryBooleanLessThanOrEqualTo
    | Call | Return
    | Jump | PopJumpIfFalse
    | BuildTuple | BuildList | BuildDict
    | ExtendList | Subscript
    | UnpackSequence

  /** The position of an opcode in the declaration of `Opcode`. */
  function Index(op: Opcode): (n: nat)
    ensures n <= 0x28
  {
    match op
    case LoadConst => 0
    case LoadName => 1
    case LoadAttribute => 2
    case LoadAttributeSelf => 3
    case LoadMethod => 4
    case StoreName => 5
    case StoreAttribute => 6
    case PopTop => 7
    case UnaryAdd => 8
    case UnarySub => 9
    case UnaryNot => 10
    case UnaryBoolNot => 11
    case BinaryAdd => 12
    case BinarySub => 13
    case BinaryMul => 14
    case BinaryDiv => 15
    case BinaryMod => 16
    case BinaryPow => 17
    case BinaryAnd => 18
    case BinaryOr => 19
    case BinaryXor => 20
    case BinaryLeftShift => 21
    case BinaryRightShift => 22
    case BinaryBooleanAnd => 23
    case BinaryBooleanOr => 24
    case BinaryBooleanEqual => 25
    case BinaryBooleanNotEqual => 26
    case BinaryBooleanGreaterThan => 27
    case BinaryBooleanGreaterThanOrEqualTo => 28
    case BinaryBooleanLessThan => 29
    case BinaryBooleanLessThanOrEqualTo => 30
    case Call => 31
    case Return => 32
    case Jump => 33
    case PopJumpIfFalse => 34
    case BuildTuple => 35
    case BuildList => 36
    case BuildDict => 37
    case ExtendList => 38
    case Subscript => 39
    case UnpackSequence => 40
  }

  /** `Opcode::encode` (`*self as u8`): the position in the declaration. */
  function Encode(op: Opcode): (b: bv8)
    ensures b as nat == Index(op)
  {
    Byte(Index(op))
  }

  /** The byte holding an opcode's number. */
  function Byte(n: nat): (b: bv8)
    requires n <= 0x28
    ensures b as nat == n
  {
    n as bv8
  }

  /** The arms `0x00 ..= 0x28` of `try_from`: the opcode with that code. */
  function OpcodeAt(n: nat): Opcode
    requires n <= 0x28
  {
    if n < 10 then
      [LoadConst, LoadName, LoadAttribute, LoadAttributeSelf, LoadMethod,
       StoreName, StoreAttribute, PopTop, UnaryAdd, UnarySub][n]
    else if n < 20 then
      [UnaryNot, UnaryBoolNot, BinaryAdd, BinarySub, BinaryMul,
       BinaryDiv, BinaryMod, BinaryPow, BinaryAnd, BinaryOr][n - 10]
    else if n < 30 then
      [BinaryXor, BinaryLeftShift, BinaryRightShift, BinaryBooleanAnd, BinaryBooleanOr,
       BinaryBooleanEqual, BinaryBooleanNotEqual, BinaryBooleanGreaterThan,
       BinaryBooleanGreaterThanOrEqualTo, BinaryBooleanLessThan][n - 20]
    else if n < 40 then
      [BinaryBooleanLessThanOrEqualTo, Call, Return, Jump, PopJumpIfFalse,
       BuildTuple, BuildList, BuildDict, ExtendList, Subscript][n - 30]
    else UnpackSequence
  }

  /** What `Opcode::try_from` returns. */
  datatype Decoded = Ok(op: Opcode) | Err(message: string)

  /** `Opcode::try_from(byte)`: the opcode for `0x00 ..= 0x28`, "Unknown
      opcode" for `0x80 ..= 0xFF` and "Invalid opcode" in between. */
  function TryFrom(b: bv8): (r: Decoded)
    ensures r.Ok? <==> b <= 0x28
    ensures 0x29 <= b < 0x80 ==> r == Err("Invalid opcode")
    ensures 0x80 <= b ==> r == Err("Unknown opcode")
  {
    if b <= 0x28 then Ok(OpcodeAt(b as nat))
    else if b >= 0x80 then Err("Unknown opcode")
    else Err("Invalid opcode")
  }

  /** Decoding an encoded opcode gives it back. */
  lemma DecodeEncode(op: Opcode)
    ensures TryFrom(Encode(op)) == Ok(op)
  {
    if Index(op) < 20 {
      IndexLow(op);
    } else {
      IndexHigh(op);
    }
  }

  lemma IndexLow(op: Opcode)
    requires Index(op) < 20
    ensures OpcodeAt(Index(op)) == op
  {
    match op {
      case LoadConst =>
      case LoadName =>
      case LoadAttribute =>
      case LoadAttributeSelf =>
      case LoadMethod =>
      case StoreName =>
      case StoreAttribute =>
      case PopTop =>
      case UnaryAdd =>
      case UnarySub =>
      case UnaryNot =>
      case UnaryBoolNot =>
      case BinaryAdd =>
      case BinarySub =>
      case BinaryMul =>
      case BinaryDiv =>
      case BinaryMod =>
      case BinaryPow =>
      case BinaryAnd =>
      case BinaryOr =>
      case _ =>
    }
  }

  lemma IndexHigh(op: Opcode)
    requires 20 <= Index(op)
    ensures OpcodeAt(Index(op)) == op
  {
    match op {
      case BinaryXor =>
      case BinaryLeftShift =>
      case BinaryRightShift =>
      case BinaryBooleanAnd =>
      case BinaryBooleanOr =>
      case BinaryBooleanEqual =>
      case BinaryBooleanNotEqual =>
      case BinaryBooleanGreaterThan =>
      case BinaryBooleanGreaterThanOrEqualTo =>
      case BinaryBooleanLessThan =>
      case BinaryBooleanLessThanOrEqualTo =>
      case Call =>
      case Return =>
      case Jump =>
      case PopJumpIfFalse =>
      case BuildTuple =>
      case BuildList =>
      case BuildDict =>
      case ExtendList =>
      case Subscript =>
      case UnpackSequence =>
      case _ =>
    }
  }

  /** Encoding a decoded byte gives the byte back: the codes are exactly
      `0x00 ..= 0x28`, one per opcode, in declaration order. */
  lemma EncodeDecode(b: bv8)
    requires TryFrom(b).Ok?
    ensures Encode(TryFrom(b).op) == b
  {
    var n := b as nat;
    if n < 20 {
      OpcodeAtLow(n);
    } else {
      OpcodeAtHigh(n);
    }
    assert Index(OpcodeAt(n)) == n;
  }

  lemma OpcodeAtLow(n: nat)
    requires n < 20
    ensures Index(OpcodeAt(n)) == n
  {
  }

  lemma OpcodeAtHigh(n: nat)
    requires 20 <= n <= 0x28
    ensures Index(OpcodeAt(n)) == n
  {
  }

  /** Two opcodes with the same byte are the same opcode. */
  lemma EncodeInjective(a: Opcode, b: Opcode)
    requires Encode(a) == Encode(b)
    ensures a == b
  {
    DecodeEncode(a);
    DecodeEncode(b);
  }

  /** The opcodes `Code::print` reads a 4-byte operand after. */
  predicate HasOperand(op: Opcode) {
    match op
    case Jump | PopJumpIfFalse | Call | BuildTuple | BuildList | BuildDict
       | LoadName | LoadMethod | LoadAttribute | LoadAttributeSelf
       | StoreName | StoreAttribute | LoadConst | UnpackSequence => true
    case _ => false
  }

  /** The number of operand bytes after an opcode byte. */
  function OperandLength(op: Opcode): (n: nat)
    ensures n == 4 || n == 0
    ensures n == 4 <==> HasOperand(op)
  {
    if HasOperand(op) then 4 else 0
  }

  // ---------------------------------------------------------------- the buffer

  /** `read32`: four bytes at `o`, least significant first. */
  function ReadU32(code: seq<bv8>, o: nat): bv32
    requires o + 4 <= |code|
  {
    FromLe32(code[o..o + 4])
  }

  /** `read64`: eight bytes at `o`, least significant first. */
  function ReadU64(code: seq<bv8>, o: nat): bv64
    requires o + 8 <= |code|
  {
    FromLe64(code[o..o + 8])
  }

  /** The bytes after `patch32(o, v)`. */
  function Patched32(code: seq<bv8>, o: nat, v: bv32): (r: seq<bv8>)
    requires o + 4 <= |code|
    ensures |r| == |code|
    ensures forall i :: 0 <= i < |code| && !(o <= i < o + 4) ==> r[i] == code[i]
    ensures r[o..o + 4] == Le32(v)
  {
    code[..o] + Le32(v) + code[o + 4..]
  }

  /** `read32` at the offset `emit32(v)` returned reads `v`, whatever was
      emitted after it. */
  lemma ReadAfterEmit32(code: seq<bv8>, v: bv32, rest: seq<bv8>)
    ensures ReadU32(code + Le32(v) + rest, |code|) == v
  {
    assert (code + Le32(v) + rest)[|code|..|code| + 4] == Le32(v);
    Le32RoundTrip(v);
  }

  /** Two instructions with operands after some code: the code is kept
      and both operands read back. */
  lemma TwoInstructions(code: seq<bv8>, op1: bv8, x1: bv32, op2: bv8, x2: bv32)
    ensures var all := code + [op1] + Le32(x1) + [op2] + Le32(x2);
            var n := |code|;
            |all| == n + 10 && all[..n] == code && all[n] == op1 && all[n + 5] == op2 &&
            ReadU32(all, n + 1) == x1 && ReadU32(all, n + 6) == x2
  {
    var first := code + [op1] + Le32(x1);
    var all := first + [op2] + Le32(x2);
    var n := |code|;
    assert all[..n] == code && all[n] == op1 && all[n + 5] == op2 by {
      assert all == code + ([op1] + Le32(x1) + [op2] + Le32(x2));
    }
    assert ReadU32(all, n + 1) == x1 by {
      assert all == code + [op1] + Le32(x1) + ([op2] + Le32(x2));
      ReadAfterEmit32(code + [op1], x1, [op2] + Le32(x2));
    }
    assert ReadU32(all, n + 6) == x2 by {
      assert all == first + [op2] + Le32(x2) + [];
      ReadAfterEmit32(first + [op2], x2, []);
    }
  }

  /** `read64` at the offset `emit64(v)` returned reads `v`. */
  lemma ReadAfterEmit64(code: seq<bv8>, v: bv64, rest: seq<bv8>)
    ensures ReadU64(code + Le64(v) + rest, |code|) == v
  {
    assert (code + Le64(v) + rest)[|code|..|code| + 8] == Le64(v);
    Le64RoundTrip(v);
  }

  /** `read32` at a patched offset reads the patched value. */
  lemma ReadAfterPatch32(code: seq<bv8>, o: nat, v: bv32)
    requires o + 4 <= |code|
    ensures ReadU32(Patched32(code, o, v), o) == v
  {
    Le32RoundTrip(v);
  }

  /** A patch leaves a 4-byte read that does not overlap it unchanged. */
  lemma ReadBesidePatch32(code: seq<bv8>, o: nat, v: bv32, p: nat)
    requires o + 4 <= |code| && p + 4 <= |code|
    requires p + 4 <= o || o + 4 <= p
    ensures ReadU32(Patched32(code, o, v), p) == ReadU32(code, p)
  {
    assert Patched32(code, o, v)[p..p + 4] == code[p..p + 4];
  }

  /** A second patch at the same offset overrides the first. */
  lemma PatchTwice(code: seq<bv8>, o: nat, v: bv32, w: bv32)
    requires o + 4 <= |code|
    ensures Patched32(Patched32(code, o, v), o, w) == Patched32(code, o, w)
  {
  }

  // ---------------------------------------------------------------- instructions and `print`

  /** One instruction: an opcode and, when it has one, its operand. */
  datatype Instr = Instr(op: Opcode, operand: bv32)

  /** The bytes the compiler emits for an instruction: `emit8` of the
      opcode, then `emit32` of the operand when the opcode has one. */
  function EncodeInstr(ins: Instr): (r: seq<bv8>)
    ensures |r| == 1 + OperandLength(ins.op)
  {
    [Encode(ins.op)] + (if HasOperand(ins.op) then Le32(ins.operand) else [])
  }

  function Assemble(prog: seq<Instr>): seq<bv8> {
    if prog == [] then [] else EncodeInstr(prog[0]) + Assemble(prog[1..])
  }

  /** One line `Code::print` writes: the offset of the opcode, the opcode,
      and the operand it read. */
  datatype Line = Line(offset: nat, op: Opcode, operand: Option<bv32>)

  /** What `Code::print` does with a buffer: the lines it writes, or where
      it panics, in the `unwrap` of an undecodable byte or in the `read32`
      of an operand cut off by the end of the buffer. */
  datatype Listing = Listed(lines: seq<Line>) | BadOpcode(offset: nat, message: string) | Truncated(offset: nat)

  /** The lines `lines` followed by a listing. */
  function Prepend(lines: seq<Line>, l: Listing): Listing {
    match l
    case Listed(rest) => Listed(lines + rest)
    case _ => l
  }

  /** Prepending line by line is prepending all of them at once. */
  lemma PrependLine(lines: seq<Line>, l: Line, rest: Listing)
    ensures Prepend(lines, Prepend([l], rest)) == Prepend(lines + [l], rest)
  {
    if rest.Listed? {
      assert lines + ([l] + rest.lines) == lines + [l] + rest.lines;
    }
  }

  /** The loop of `Code::print` from offset `i`. */
  function ListFrom(code: seq<bv8>, i: nat): Listing
    decreases |code| - i
  {
    if i >= |code| then Listed([])
    else match TryFrom(code[i])
      case Err(m) => BadOpcode(i, m)
      case Ok(op) =>
        if !HasOperand(op) then Prepend([Line(i, op, None)], ListFrom(code, i + 1))
        else if i + 5 > |code| then Truncated(i)
        else Prepend([Line(i, op, Some(ReadU32(code, i + 1)))], ListFrom(code, i + 5))
  }

  /** One pass of the loop of `Code::print` over an opcode byte. */
  lemma ListFromOpcode(code: seq<bv8>, i: nat, op: Opcode)
    requires i < |code| && TryFrom(code[i]) == Ok(op)
    ensures !HasOperand(op) ==> ListFrom(code, i) == Prepend([Line(i, op, None)], ListFrom(code, i + 1))
    ensures HasOperand(op) && i + 5 > |code| ==> ListFrom(code, i) == Truncated(i)
    ensures HasOperand(op) && i + 5 <= |code| ==>
              ListFrom(code, i) == Prepend([Line(i, op, Some(ReadU32(code, i + 1)))], ListFrom(code, i + 5))
  {
  }

  /** The lines an instruction sequence placed at `offset` should list as. */
  function LinesOf(prog: seq<Instr>, offset: nat): seq<Line> {
    if prog == [] then []
    else
      [LineOf(prog[0], offset)] + LinesOf(prog[1..], offset + |EncodeInstr(prog[0])|)
  }

  /** The line `print` should write for an instruction at `offset`. */
  function LineOf(ins: Instr, offset: nat): Line {
    Line(offset, ins.op, if HasOperand(ins.op) then Some(ins.operand) else None)
  }

  /** `print` reads an emitted instruction back as its line and goes on
      right after it. */
  lemma ListInstr(pre: seq<bv8>, ins: Instr, rest: seq<bv8>)
    ensures ListFrom(pre + EncodeInstr(ins) + rest, |pre|)
            == Prepend([LineOf(ins, |pre|)], ListFrom(pre + EncodeInstr(ins) + rest, |pre| + |EncodeInstr(ins)|))
  {
    var code := pre + EncodeInstr(ins) + rest;
    assert code[|pre|] == Encode(ins.op);
    DecodeEncode(ins.op);
    ListFromOpcode(code, |pre|, ins.op);
    if HasOperand(ins.op) {
      assert code == (pre + [Encode(ins.op)]) + Le32(ins.operand) + rest;
      ReadAfterEmit32(pre + [Encode(ins.op)], ins.operand, rest);
    }
  }

  /** Round trip: `print` over emitted instructions lists exactly those
      instructions, each at the offset it was emitted at. */
  lemma {:induction false} ListAssembled(pre: seq<bv8>, prog: seq<Instr>)
    ensures ListFrom(pre + Assemble(prog), |pre|) == Listed(LinesOf(prog, |pre|))
    decreases |prog|
  {
    if prog == [] {
      assert pre + Assemble(prog) == pre;
    } else {
      var ins := prog[0];
      var rest := Assemble(prog[1..]);
      assert pre + Assemble(prog) == pre + EncodeInstr(ins) + rest;
      ListInstr(pre, ins, rest);
      ListAssembled(pre + EncodeInstr(ins), prog[1..]);
    }
  }

  // ---------------------------------------------------------------- constants and modules

  /** A `Code` as a value, the way `Constant::Code` holds one. */
  datatype CodeValue = CodeValue(name: string, params: seq<string>, code: seq<bv8>)

  /** `Constant`. `Float` is not part of this model. */
  datatype Constant =
    | Null
    | Int(i: i64)
    | Str(s: string)
    | CodeConst(c: CodeValue)
    | Tuple(items: seq<Constant>)

  /** `Code`: a named, parameterised byte buffer. Only the bytes change
      once a code exists: the parameters are filled in right after
      `Code::new`, which the model folds into the constructor. */
  class Code {
    const name: string
    const params: seq<string>
    var code: seq<bv8>

    function Value(): CodeValue
      reads this
    {
      CodeValue(name, params, code)
    }

    /** `Code::new`. */
    constructor (name: string, params: seq<string>, code: seq<bv8>)
      ensures Value() == CodeValue(name, params, code)
    {
      this.name := name;
      this.params := params;
      this.code := code;
    }

    /** `emit`: appends the bytes and returns the offset they start at. */
    method Emit(other: seq<bv8>) returns (at: nat)
      modifies this
      ensures code == old(code) + other && at == |old(code)|
    {
      code := code + other;
      at := |code| - |other|;
    }

    /** `emit8`. */
    method Emit8(b: bv8) returns (at: nat)
      modifies this
      ensures code == old(code) + [b] && at == |old(code)|
    {
      at := Emit([b]);
    }

    /** `emit16`. */
    method Emit16(w: bv16) returns (at: nat)
      modifies this
      ensures code == old(code) + Le16(w) && at == |old(code)|
    {
      at := Emit(Le16(w));
    }

    /** `emit32`. */
    method Emit32(d: bv32) returns (at: nat)
      modifies this
      ensures code == old(code) + Le32(d) && at == |old(code)|
    {
      at := Emit(Le32(d));
    }

    /** `emit64`. */
    method Emit64(q: bv64) returns (at: nat)
      modifies this
      ensures code == old(code) + Le64(q) && at == |old(code)|
    {
      at := Emit(Le64(q));
    }

    /** `read8`: the byte at the offset, and the offset past it; indexing
        past the end is a panic (None). */
    method Read8(offset: nat) returns (r: Option<(bv8, nat)>)
      ensures r.Some? <==> offset < |code|
      ensures r.Some? ==> r.value == (code[offset], offset + 1)
    {
      if offset >= |code| {
        return None;
      }
      r := Some((code[offset], offset + 1));
    }

    /** `read32`: the four bytes at the offset, least significant first,
        and the offset past them; a panic (None) unless all four are
        inside the code. */
    method Read32(offset: nat) returns (r: Option<(bv32, nat)>)
      ensures r.Some? <==> offset + 4 <= |code|
      ensures r.Some? ==> r.value == (ReadU32(code, offset), offset + 4)
    {
      if offset + 4 > |code| {
        return None;
      }
      var d := (code[offset] as bv32) | ((code[offset + 1] as bv32) << 8)
             | ((code[offset + 2] as bv32) << 16) | ((code[offset + 3] as bv32) << 24);
      r := Some((d, offset + 4));
    }

    /** `read64`: likewise with eight bytes. */
    method Read64(offset: nat) returns (r: Option<(bv64, nat)>)
      ensures r.Some? <==> offset + 8 <= |code|
      ensures r.Some? ==> r.value == (ReadU64(code, offset), offset + 8)
    {
      if offset + 8 > |code| {
        return None;
      }
      var q := (code[offset] as bv64) | ((code[offset + 1] as bv64) << 8)
             | ((code[offset + 2] as bv64) << 16) | ((code[offset + 3] as bv64) << 24)
             | ((code[offset + 4] as bv64) << 32) | ((code[offset + 5] as bv64) << 40)
             | ((code[offset + 6] as bv64) << 48) | ((code[offset + 7] as bv64) << 56);
      r := Some((q, offset + 8));
    }

    /** `patch32`: overwrites the four bytes at the offset; `ok` is false
        for the index panic when they are not all inside the code. */
    method Patch32(offset: nat, value: bv32) returns (ok: bool)
      modifies this
      ensures ok <==> offset + 4 <= old(|code|)
      ensures ok ==> code == Patched32(old(code), offset, value)
      ensures !ok ==> code == old(code)
    {
      if offset + 4 > |code| {
        return false;
      }
      code := code[offset := (value & 0xFF) as bv8];
      code := code[offset + 1 := ((value >> 8) & 0xFF) as bv8];
      code := code[offset + 2 := ((value >> 16) & 0xFF) as bv8];
      code := code[offset + 3 := ((value >> 24) & 0xFF) as bv8];
      ok := true;
    }

    /** `print`, without the console: the lines it writes, or the panic it
        ends in. */
    method Print() returns (r: Listing)
      ensures r == ListFrom(code, 0)
    {
      var i := 0;
      var lines: seq<Line> := [];
      while i < |code|
        invariant i <= |code|
        invariant Prepend(lines, ListFrom(code, i)) == ListFrom(code, 0)
        decreases |code| - i
      {
        var b := Read8(i);
        var j := i + 1;
        var d := TryFrom(b.value.0);
        if d.Err? {
          return BadOpcode(i, d.message);
        }
        ListFromOpcode(code, i, d.op);
        var line := Line(i, d.op, None);
        if HasOperand(d.op) {
          var x := Read32(j);
          if x.None? {
            return Truncated(i);
          }
          line := Line(i, d.op, Some(x.value.0));
          j := x.value.1;
        }
        PrependLine(lines, line, ListFrom(code, j));
        lines := lines + [line];
        i := j;
      }
      assert lines + [] == lines;
      r := Listed(lines);
    }
  }

  /** `Module`: a name, the name and constant pools the compiler interns
      into, and the entry code. */
  class Module {
    var name: string
    var namePool: seq<string>
    var constantPool: seq<Constant>
    var entry: Code

    /** `Module::new`: empty pools and an unnamed, empty entry code. */
    constructor (name: string)
      ensures this.name == name && namePool == [] && constantPool == []
      ensures fresh(entry) && entry.Value() == CodeValue("", [], [])
    {
      this.name := name;
      namePool := [];
      constantPool := [];
      entry := new Code("", [], []);
    }
  }
}
