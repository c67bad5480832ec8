/**
 * The instruction set: opcode numbers, the operand record of every
 * instruction, the byte encoding written by `Instruction::write` and the
 * decoding performed by `fetch` followed by `Instruction::read`.
 *
 * An encoded instruction is one opcode byte followed by its operand fields,
 * in declared order, each at its fixed width, with no padding.
 */
module Opcodes {
  import opened Util
  import opened Values
  import opened Wrappers

  // Opcode numbers, consecutive from 0 in the order of the opcode list.
  const ALLOC: uint8 := 0
  const MOVE: uint8 := 1
  const LOAD_CONST: uint8 := 2
  const CALL: uint8 := 3
  const CALL_DYNAMIC: uint8 := 4
  /** Listed as `jump`: an unconditional relative branch with an `i32` offset. */
  const BRANCH: uint8 := 5
  const RETURN: uint8 := 6
  const ADD_S64: uint8 := 7
  const SUB_S64: uint8 := 8
  const MUL_S64: uint8 := 9
  const DIV_S64: uint8 := 10
  const REM_S64: uint8 := 11
  const ADD_F64: uint8 := 12
  const SUB_F64: uint8 := 13
  const MUL_F64: uint8 := 14
  const DIV_F64: uint8 := 15
  const REM_F64: uint8 := 16
  const PRINT_S64: uint8 := 17
  const PRINT_F64: uint8 := 18
  const PRINT_PROC: uint8 := 19
  const HALT: uint8 := 20

  // Opcodes the interpreter dispatches on that the opcode list does not
  // number. Their numbers here are placeholders: nothing below depends on
  // them except that all opcodes are distinct.
  const MOVE_VALUE: uint8 := 21
  const LOAD_PROC: uint8 := 22
  const BRANCH_Z: uint8 := 23
  const BRANCH_NZ: uint8 := 24
  const BRANCH_LZ: uint8 := 25
  const BRANCH_LEZ: uint8 := 26
  const BRANCH_GZ: uint8 := 27
  const BRANCH_GEZ: uint8 := 28
  const BREAKPOINT: uint8 := 29

  /** The test of a conditional branch on the integer in its `src` slot. */
  datatype Cond = Z | Nz | Lz | Lez | Gz | Gez {
    predicate Holds(x: int) {
      match this
      case Z => x == 0
      case Nz => x != 0
      case Lz => x < 0
      case Lez => x <= 0
      case Gz => x > 0
      case Gez => x >= 0
    }
  }

  datatype PrintKind = PrintS64 | PrintF64 | PrintProc

  /** One decoded instruction with its operand record. */
  datatype Instruction =
    | Alloc(size: uint16)
    | Move(dst: int16, src: int16)
    | MoveValue(dst: int16, value: int64)
    | LoadConst(dst: int16, index: uint32)
    | LoadProc(dst: int16, index: uint32)
    | Call(index: uint32)
    | CallDynamic(src: int16)
    | Branch(offset: int32)
    | BranchIf(cond: Cond, src: int16, offset: int32)
    | Return
    | IntArith(op: ArithOp, dst: int16, left: int16, right: int16)
    | FloatArith(op: ArithOp, dst: int16, left: int16, right: int16)
    | Print(kind: PrintKind, src: int16)
    | Halt
    | Breakpoint

  function OpIndex(op: ArithOp): (k: nat)
    ensures k < 5
  {
    match op
    case Add => 0
    case Sub => 1
    case Mul => 2
    case Div => 3
    case Rem => 4
  }

  function OpOfIndex(k: nat): ArithOp
    requires k < 5
  {
    [Add, Sub, Mul, Div, Rem][k]
  }

  function CondIndex(c: Cond): (k: nat)
    ensures k < 6
  {
    match c
    case Z => 0
    case Nz => 1
    case Lz => 2
    case Lez => 3
    case Gz => 4
    case Gez => 5
  }

  function CondOfIndex(k: nat): Cond
    requires k < 6
  {
    [Z, Nz, Lz, Lez, Gz, Gez][k]
  }

  /** `opcode()`: the opcode constant of the instruction's kind. */
  function Opcode(i: Instruction): uint8 {
    match i
    case Alloc(_) => ALLOC
    case Move(_, _) => MOVE
    case MoveValue(_, _) => MOVE_VALUE
    case LoadConst(_, _) => LOAD_CONST
    case LoadProc(_, _) => LOAD_PROC
    case Call(_) => CALL
    case CallDynamic(_) => CALL_DYNAMIC
    case Branch(_) => BRANCH
    case BranchIf(c, _, _) => BRANCH_Z + CondIndex(c)
    case Return => RETURN
    case IntArith(op, _, _, _) => ADD_S64 + OpIndex(op)
    case FloatArith(op, _, _, _) => ADD_F64 + OpIndex(op)
    case Print(k, _) => (match k case PrintS64 => PRINT_S64 case PrintF64 => PRINT_F64 case PrintProc => PRINT_PROC)
    case Halt => HALT
    case Breakpoint => BREAKPOINT
  }

  /** One operand field: its declared type and its value. */
  datatype Operand = Operand(t: NumType, x: int) {
    predicate Fits() {
      t.Fits(x)
    }
  }

  predicate AllFit(fs: seq<Operand>) {
    forall k | 0 <= k < |fs| :: fs[k].Fits()
  }

  /** The operand fields of an instruction, in declared order. */
  function Fields(i: Instruction): (fs: seq<Operand>)
    ensures AllFit(fs)
  {
    match i
    case Alloc(size) => [Operand(U16, size)]
    case Move(dst, src) => [Operand(I16, dst), Operand(I16, src)]
    case MoveValue(dst, value) => [Operand(I16, dst), Operand(I64, value)]
    case LoadConst(dst, index) => [Operand(I16, dst), Operand(U32, index)]
    case LoadProc(dst, index) => [Operand(I16, dst), Operand(U32, index)]
    case Call(index) => [Operand(U32, index)]
    case CallDynamic(src) => [Operand(I16, src)]
    case Branch(offset) => [Operand(I32, offset)]
    case BranchIf(_, src, offset) => [Operand(I16, src), Operand(I32, offset)]
    case Return => []
    case IntArith(_, dst, left, right) => [Operand(I16, dst), Operand(I16, left), Operand(I16, right)]
    case FloatArith(_, dst, left, right) => [Operand(I16, dst), Operand(I16, left), Operand(I16, right)]
    case Print(_, src) => [Operand(I16, src)]
    case Halt => []
    case Breakpoint => []
  }

  /** The operand types the reader expects after opcode `op`; `None` for an unknown opcode. */
  function Layout(op: uint8): Option<seq<NumType>> {
    if op == ALLOC then Some([U16])
    else if op == MOVE then Some([I16, I16])
    else if op == MOVE_VALUE then Some([I16, I64])
    else if op == LOAD_CONST || op == LOAD_PROC then Some([I16, U32])
    else if op == CALL then Some([U32])
    else if op == CALL_DYNAMIC then Some([I16])
    else if op == BRANCH then Some([I32])
    else if BRANCH_Z <= op <= BRANCH_GEZ then Some([I16, I32])
    else if op == RETURN || op == HALT || op == BREAKPOINT then Some([])
    else if ADD_S64 <= op <= REM_F64 then Some([I16, I16, I16])
    else if PRINT_S64 <= op <= PRINT_PROC then Some([I16])
    else None
  }

  predicate FitLayout(ks: seq<NumType>, vs: seq<int>) {
    |vs| == |ks| && forall k | 0 <= k < |ks| :: ks[k].Fits(vs[k])
  }

  /** Assembles the instruction of opcode `op` from its operand values, in declared order. */
  function Build(op: uint8, vs: seq<int>): Instruction
    requires Layout(op).Some? && FitLayout(Layout(op).value, vs)
  {
    if op == ALLOC then Alloc(vs[0])
    else if op == MOVE then Move(vs[0], vs[1])
    else if op == MOVE_VALUE then MoveValue(vs[0], vs[1])
    else if op == LOAD_CONST then LoadConst(vs[0], vs[1])
    else if op == LOAD_PROC then LoadProc(vs[0], vs[1])
    else if op == CALL then Call(vs[0])
    else if op == CALL_DYNAMIC then CallDynamic(vs[0])
    else if op == BRANCH then Branch(vs[0])
    else if BRANCH_Z <= op <= BRANCH_GEZ then BranchIf(CondOfIndex(op - BRANCH_Z), vs[0], vs[1])
    else if op == RETURN then Return
    else if op == HALT then Halt
    else if op == BREAKPOINT then Breakpoint
    else if ADD_S64 <= op <= REM_S64 then IntArith(OpOfIndex(op - ADD_S64), vs[0], vs[1], vs[2])
    else if ADD_F64 <= op <= REM_F64 then FloatArith(OpOfIndex(op - ADD_F64), vs[0], vs[1], vs[2])
    else if op == PRINT_S64 then Print(PrintS64, vs[0])
    else if op == PRINT_F64 then Print(PrintF64, vs[0])
    else Print(PrintProc, vs[0])
  }

  /** The instructions that change the frame structure are built from their own opcodes only. */
  lemma BuildKind(op: uint8, vs: seq<int>)
    requires Layout(op).Some? && FitLayout(Layout(op).value, vs)
    ensures Build(op, vs).Alloc? <==> op == ALLOC
    ensures Build(op, vs).Call? <==> op == CALL
    ensures Build(op, vs).CallDynamic? <==> op == CALL_DYNAMIC
    ensures Build(op, vs).Return? <==> op == RETURN
  {
  }

  function TypesOf(fs: seq<Operand>): (ks: seq<NumType>)
    ensures |ks| == |fs|
  {
    if fs == [] then [] else TypesOf(fs[..|fs| - 1]) + [fs[|fs| - 1].t]
  }

  function ValuesOf(fs: seq<Operand>): (vs: seq<int>)
    ensures |vs| == |fs|
  {
    if fs == [] then [] else ValuesOf(fs[..|fs| - 1]) + [fs[|fs| - 1].x]
  }

  /** The sum of the widths of the first `n` of `ks`. */
  function WidthUpTo(ks: seq<NumType>, n: nat): nat
    requires n <= |ks|
  {
    if n == 0 then 0 else WidthUpTo(ks, n - 1) + ks[n - 1].Width()
  }

  /** The sum of the widths of `ks`. */
  function TotalWidth(ks: seq<NumType>): nat {
    WidthUpTo(ks, |ks|)
  }

  /** The first fields lie within all of them. */
  lemma {:induction false} WidthUpToBound(ks: seq<NumType>, k: nat)
    requires k <= |ks|
    ensures WidthUpTo(ks, k) <= TotalWidth(ks)
    decreases |ks| - k
  {
    if k < |ks| {
      WidthUpToBound(ks, k + 1);
    }
  }

  /** Appending a type leaves the widths of the earlier ones unchanged. */
  lemma {:induction false} WidthUpToSnoc(ks: seq<NumType>, t: NumType, n: nat)
    requires n <= |ks|
    ensures WidthUpTo(ks + [t], n) == WidthUpTo(ks, n)
  {
    if n > 0 {
      assert (ks + [t])[n - 1] == ks[n - 1];
      WidthUpToSnoc(ks, t, n - 1);
    }
  }

  /** One more field adds its width. */
  lemma TotalWidthSnoc(ks: seq<NumType>, t: NumType)
    ensures TotalWidth(ks + [t]) == TotalWidth(ks) + t.Width()
  {
    WidthUpToSnoc(ks, t, |ks|);
    assert (ks + [t])[|ks|] == t;
  }

  /** The types and the values of one to three fields. */
  lemma OneField(a: Operand)
    ensures TypesOf([a]) == [a.t] && ValuesOf([a]) == [a.x]
  {
    assert [a][..0] == [];
  }

  lemma TwoFields(a: Operand, b: Operand)
    ensures TypesOf([a, b]) == [a.t, b.t] && ValuesOf([a, b]) == [a.x, b.x]
  {
    assert [a, b][..1] == [a];
    OneField(a);
  }

  lemma ThreeFields(a: Operand, b: Operand, c: Operand)
    ensures TypesOf([a, b, c]) == [a.t, b.t, c.t] && ValuesOf([a, b, c]) == [a.x, b.x, c.x]
  {
    assert [a, b, c][..2] == [a, b];
    TwoFields(a, b);
  }

  /** The total width of zero to three fields. */
  lemma TotalWidthShort(a: NumType, b: NumType, c: NumType)
    ensures TotalWidth([]) == 0
    ensures TotalWidth([a]) == a.Width()
    ensures TotalWidth([a, b]) == a.Width() + b.Width()
    ensures TotalWidth([a, b, c]) == a.Width() + b.Width() + c.Width()
  {
    assert WidthUpTo([a], 1) == a.Width();
    assert WidthUpTo([a, b], 1) == a.Width();
    assert WidthUpTo([a, b], 2) == a.Width() + b.Width();
    assert WidthUpTo([a, b, c], 1) == a.Width();
    assert WidthUpTo([a, b, c], 2) == a.Width() + b.Width();
  }

  /** The operand fields written one after the other. */
  function EncodeOperands(fs: seq<Operand>): (bs: seq<uint8>)
    ensures |bs| == TotalWidth(TypesOf(fs))
  {
    if fs == [] then []
    else
      var n := |fs| - 1;
      TotalWidthSnoc(TypesOf(fs[..n]), fs[n].t);
      LeLength(fs[n].t, fs[n].x);
      EncodeOperands(fs[..n]) + ToBytes(fs[n].t, fs[n].x)
  }

  /** A `u8` is written as itself. */
  lemma SingleByte(x: uint8)
    ensures ToBytes(U8, x) == [x]
  {
    assert LeBytes(x / 256, 0) == [];
  }

  /** Writing one more field appends its bytes. */
  lemma EncodeOperandsSnoc(fs: seq<Operand>, k: nat)
    requires k < |fs|
    ensures EncodeOperands(fs[..k + 1]) == EncodeOperands(fs[..k]) + ToBytes(fs[k].t, fs[k].x)
  {
    assert fs[..k + 1][..k] == fs[..k];
  }

  /** `write`: the opcode byte, then every operand field in declared order. */
  function Encode(i: Instruction): seq<uint8> {
    [Opcode(i)] + EncodeOperands(Fields(i))
  }

  /** Reads the first `n` fields of types `ks`, one after the other, starting at `off`. */
  function ReadUpTo(code: seq<uint8>, off: nat, ks: seq<NumType>, n: nat): (vs: seq<int>)
    requires n <= |ks| && off + WidthUpTo(ks, n) <= |code|
    ensures |vs| == n
  {
    if n == 0 then []
    else ReadUpTo(code, off, ks, n - 1) + [FromCode(ks[n - 1], code, off + WidthUpTo(ks, n - 1))]
  }

  /** Reads fields of types `ks`, one after the other, starting at `off`. */
  function ReadOperands(code: seq<uint8>, off: nat, ks: seq<NumType>): (vs: seq<int>)
    requires off + TotalWidth(ks) <= |code|
    ensures |vs| == |ks|
  {
    ReadUpTo(code, off, ks, |ks|)
  }

  /** Appending a type leaves the reads of the earlier ones unchanged. */
  lemma {:induction false} ReadUpToSnoc(code: seq<uint8>, off: nat, ks: seq<NumType>, t: NumType, n: nat)
    requires n <= |ks| && off + WidthUpTo(ks, n) <= |code|
    ensures WidthUpTo(ks + [t], n) == WidthUpTo(ks, n)
    ensures ReadUpTo(code, off, ks + [t], n) == ReadUpTo(code, off, ks, n)
  {
    WidthUpToSnoc(ks, t, n);
    if n > 0 {
      assert (ks + [t])[n - 1] == ks[n - 1];
      WidthUpToSnoc(ks, t, n - 1);
      ReadUpToSnoc(code, off, ks, t, n - 1);
    }
  }

  /** Every value among the first `n` read fits the type it was read as. */
  lemma {:induction false} ReadUpToFit(code: seq<uint8>, off: nat, ks: seq<NumType>, n: nat)
    requires n <= |ks| && off + WidthUpTo(ks, n) <= |code|
    ensures forall k | 0 <= k < n :: ks[k].Fits(ReadUpTo(code, off, ks, n)[k])
  {
    if n > 0 {
      ReadUpToFit(code, off, ks, n - 1);
    }
  }

  /** Every value read fits the type it was read as. */
  lemma ReadOperandsFit(code: seq<uint8>, off: nat, ks: seq<NumType>)
    requires off + TotalWidth(ks) <= |code|
    ensures FitLayout(ks, ReadOperands(code, off, ks))
  {
    ReadUpToFit(code, off, ks, |ks|);
  }

  datatype DecodeResult = Decoded(insn: Instruction, next: nat) | Unknown | Truncated

  /**
   * `Instruction::read` for opcode `op`, its operands starting at `off`:
   * `Unknown` when no instruction has that opcode, `Truncated` when the
   * operands would run past the end of the code.
   */
  function Decode(op: uint8, code: seq<uint8>, off: nat): (r: DecodeResult)
    ensures r.Decoded? ==> off <= r.next <= |code|
  {
    match Layout(op)
    case None => Unknown
    case Some(ks) =>
      if off + TotalWidth(ks) <= |code| then
        ReadOperandsFit(code, off, ks);
        Decoded(Build(op, ReadOperands(code, off, ks)), off + TotalWidth(ks))
      else Truncated
  }

  /** `fetch` (one opcode byte) followed by the reading of that opcode's operands. */
  function DecodeAt(code: seq<uint8>, off: nat): (r: DecodeResult)
    ensures r.Decoded? ==> off < r.next <= |code|
  {
    if off < |code| then Decode(code[off], code, off + 1) else Truncated
  }

  /** The encodings of `insns`, concatenated: the code of one procedure. */
  function EncodeAll(insns: seq<Instruction>): seq<uint8> {
    if insns == [] then [] else EncodeAll(insns[..|insns| - 1]) + Encode(insns[|insns| - 1])
  }

  /** Writes one operand field with the writer of its type. */
  method WriteOperand(out: ByteVec, o: Operand)
    requires o.Fits()
    modifies out
    ensures out.bytes == old(out.bytes) + ToBytes(o.t, o.x)
  {
    match o.t
    case U8 => out.WriteU8(o.x);
    case U16 => out.WriteU16(o.x);
    case U32 => out.WriteU32(o.x);
    case U64 => out.WriteU64(o.x);
    case I8 => out.WriteI8(o.x);
    case I16 => out.WriteI16(o.x);
    case I32 => out.WriteI32(o.x);
    case I64 => out.WriteI64(o.x);
  }

  /** Writes the fields `fs` in order. */
  method WriteOperands(out: ByteVec, fs: seq<Operand>)
    requires AllFit(fs)
    modifies out
    ensures out.bytes == old(out.bytes) + EncodeOperands(fs)
  {
    for k := 0 to |fs|
      invariant out.bytes == old(out.bytes) + EncodeOperands(fs[..k])
    {
      ghost var before := out.bytes;
      WriteOperand(out, fs[k]);
      WrittenOneMore(old(out.bytes), before, fs, k);
    }
    assert fs[..|fs|] == fs;
  }

  /** Writing field `k` after the first `k` leaves the first `k + 1` written. */
  lemma WrittenOneMore(start: seq<uint8>, before: seq<uint8>, fs: seq<Operand>, k: nat)
    requires k < |fs| && before == start + EncodeOperands(fs[..k])
    ensures before + ToBytes(fs[k].t, fs[k].x) == start + EncodeOperands(fs[..k + 1])
  {
    EncodeOperandsSnoc(fs, k);
  }

  /** `Instruction::write`: appends the encoding of `insn` to `out`. */
  method WriteInstruction(insn: Instruction, out: ByteVec)
    modifies out
    ensures out.bytes == old(out.bytes) + Encode(insn)
  {
    var op := Opcode(insn);
    ghost var start, rest := out.bytes, EncodeOperands(Fields(insn));
    out.WriteU8(op);
    SingleByte(op);
    assert out.bytes == start + [op];
    WriteOperands(out, Fields(insn));
    assert out.bytes == start + [op] + rest;
    assert Encode(insn) == [op] + rest;
  }

  /** The reader expects exactly the operand types the writer emits, for every instruction. */
  lemma LayoutOfOpcode(i: Instruction)
    ensures Layout(Opcode(i)) == Some(TypesOf(Fields(i)))
  {
    match i
    case Alloc(size) => OneField(Operand(U16, size));
    case Move(dst, src) => TwoFields(Operand(I16, dst), Operand(I16, src));
    case MoveValue(dst, value) => TwoFields(Operand(I16, dst), Operand(I64, value));
    case LoadConst(dst, index) => TwoFields(Operand(I16, dst), Operand(U32, index));
    case LoadProc(dst, index) => TwoFields(Operand(I16, dst), Operand(U32, index));
    case Call(index) => OneField(Operand(U32, index));
    case CallDynamic(src) => OneField(Operand(I16, src));
    case Branch(offset) => OneField(Operand(I32, offset));
    case BranchIf(_, src, offset) => TwoFields(Operand(I16, src), Operand(I32, offset));
    case Return =>
    case IntArith(_, dst, left, right) => ThreeFields(Operand(I16, dst), Operand(I16, left), Operand(I16, right));
    case FloatArith(_, dst, left, right) => ThreeFields(Operand(I16, dst), Operand(I16, left), Operand(I16, right));
    case Print(_, src) => OneField(Operand(I16, src));
    case Halt =>
    case Breakpoint =>
  }

  /** The values of fitting fields fit the fields' types. */
  lemma {:induction false} FieldsFit(fs: seq<Operand>)
    requires AllFit(fs)
    ensures FitLayout(TypesOf(fs), ValuesOf(fs))
  {
    if fs != [] {
      var n := |fs| - 1;
      FieldsFit(fs[..n]);
      assert forall k | 0 <= k < n :: fs[..n][k] == fs[k];
    }
  }

  /** Building from the opcode and the operand values of `i` gives back `i`. */
  lemma BuildFields(i: Instruction)
    ensures Layout(Opcode(i)).Some? && FitLayout(Layout(Opcode(i)).value, ValuesOf(Fields(i)))
    ensures Build(Opcode(i), ValuesOf(Fields(i))) == i
  {
    LayoutOfOpcode(i);
    FieldsFit(Fields(i));
    if i.Alloc? || i.Call? || i.CallDynamic? || i.Branch? || i.Print? {
      BuildOneField(i);
    } else if i.Move? || i.MoveValue? || i.LoadConst? || i.LoadProc? || i.BranchIf? {
      BuildTwoFields(i);
    } else if i.IntArith? || i.FloatArith? {
      BuildThreeFields(i);
    }
  }

  /** `BuildFields` for the instructions with one operand. */
  lemma BuildOneField(i: Instruction)
    requires i.Alloc? || i.Call? || i.CallDynamic? || i.Branch? || i.Print?
    requires Layout(Opcode(i)).Some? && FitLayout(Layout(Opcode(i)).value, ValuesOf(Fields(i)))
    ensures Build(Opcode(i), ValuesOf(Fields(i))) == i
  {
    if i.Alloc? {
      OneField(Operand(U16, i.size));
    } else if i.Call? {
      OneField(Operand(U32, i.index));
    } else if i.CallDynamic? {
      OneField(Operand(I16, i.src));
    } else if i.Branch? {
      OneField(Operand(I32, i.offset));
    } else {
      OneField(Operand(I16, i.src));
    }
  }

  /** `BuildFields` for the instructions with two operands. */
  lemma BuildTwoFields(i: Instruction)
    requires i.Move? || i.MoveValue? || i.LoadConst? || i.LoadProc? || i.BranchIf?
    requires Layout(Opcode(i)).Some? && FitLayout(Layout(Opcode(i)).value, ValuesOf(Fields(i)))
    ensures Build(Opcode(i), ValuesOf(Fields(i))) == i
  {
    if i.Move? {
      TwoFields(Operand(I16, i.dst), Operand(I16, i.src));
    } else if i.MoveValue? {
      TwoFields(Operand(I16, i.dst), Operand(I64, i.value));
    } else if i.LoadConst? {
      TwoFields(Operand(I16, i.dst), Operand(U32, i.index));
    } else if i.LoadProc? {
      TwoFields(Operand(I16, i.dst), Operand(U32, i.index));
    } else {
      TwoFields(Operand(I16, i.src), Operand(I32, i.offset));
      assert CondOfIndex(Opcode(i) - BRANCH_Z) == i.cond;
    }
  }

  /** `BuildFields` for the arithmetic instructions, with three operands. */
  lemma BuildThreeFields(i: Instruction)
    requires i.IntArith? || i.FloatArith?
    requires Layout(Opcode(i)).Some? && FitLayout(Layout(Opcode(i)).value, ValuesOf(Fields(i)))
    ensures Build(Opcode(i), ValuesOf(Fields(i))) == i
  {
    ThreeFields(Operand(I16, i.dst), Operand(I16, i.left), Operand(I16, i.right));
    if i.IntArith? {
      assert OpOfIndex(Opcode(i) - ADD_S64) == i.op;
    } else {
      assert OpOfIndex(Opcode(i) - ADD_F64) == i.op;
    }
  }

  /** The bytes `bs` are found in `code` from offset `off` on. */
  predicate Occurs(code: seq<uint8>, off: nat, bs: seq<uint8>) {
    off + |bs| <= |code| && forall k | 0 <= k < |bs| :: code[off + k] == bs[k]
  }

  /** Bytes found at `off` are the slice of the code that starts there. */
  lemma OccursSlice(code: seq<uint8>, off: nat, bs: seq<uint8>)
    requires Occurs(code, off, bs)
    ensures code[off..off + |bs|] == bs
  {
    var window := code[off..off + |bs|];
    assert |window| == |bs|;
    forall k | 0 <= k < |bs|
      ensures window[k] == bs[k]
    {
      assert window[k] == code[off + k];
    }
  }

  /** The two halves of a concatenation found in the code are found at their own offsets. */
  lemma Window(code: seq<uint8>, off: nat, a: seq<uint8>, b: seq<uint8>)
    requires Occurs(code, off, a + b)
    ensures Occurs(code, off, a) && Occurs(code, off + |a|, b)
  {
    forall k | 0 <= k < |a|
      ensures code[off + k] == a[k]
    {
      assert (a + b)[k] == a[k];
    }
    forall k | 0 <= k < |b|
      ensures code[off + |a| + k] == b[k]
    {
      assert (a + b)[|a| + k] == b[k];
    }
  }

  /** Bytes found in the code are still found there when more code follows. */
  lemma OccursExtended(code: seq<uint8>, more: seq<uint8>, off: nat, bs: seq<uint8>)
    requires Occurs(code, off, bs)
    ensures Occurs(code + more, off, bs)
  {
    forall k | 0 <= k < |bs|
      ensures (code + more)[off + k] == bs[k]
    {
      assert code[off + k] == bs[k];
    }
  }

  /** Reading one more field reads it right after the others. */
  lemma ReadOperandsSnoc(code: seq<uint8>, off: nat, ks: seq<NumType>, t: NumType, w: nat)
    requires w == off + TotalWidth(ks) && w + t.Width() <= |code|
    ensures TotalWidth(ks + [t]) == TotalWidth(ks) + t.Width()
    ensures ReadOperands(code, off, ks + [t]) == ReadOperands(code, off, ks) + [FromCode(t, code, w)]
  {
    TotalWidthSnoc(ks, t);
    ReadUpToSnoc(code, off, ks, t, |ks|);
    assert (ks + [t])[|ks|] == t;
  }

  /** The last field of a non-empty record, split off the others. */
  lemma SplitLast(fs: seq<Operand>)
    requires fs != []
    ensures var n := |fs| - 1;
            && TypesOf(fs) == TypesOf(fs[..n]) + [fs[n].t]
            && ValuesOf(fs) == ValuesOf(fs[..n]) + [fs[n].x]
            && EncodeOperands(fs) == EncodeOperands(fs[..n]) + ToBytes(fs[n].t, fs[n].x)
  {
  }

  /** The fields before the last of a fitting record fit too. */
  lemma AllFitPrefix(fs: seq<Operand>, n: nat)
    requires AllFit(fs) && n <= |fs|
    ensures AllFit(fs[..n])
  {
    forall k | 0 <= k < n
      ensures fs[..n][k].Fits()
    {
      assert fs[..n][k] == fs[k];
    }
  }

  /** Reading the fields that `EncodeOperands` wrote recovers their values. */
  lemma {:induction false} ReadEncodedOperands(code: seq<uint8>, off: nat, fs: seq<Operand>)
    requires AllFit(fs) && Occurs(code, off, EncodeOperands(fs))
    ensures off + TotalWidth(TypesOf(fs)) <= |code|
    ensures ReadOperands(code, off, TypesOf(fs)) == ValuesOf(fs)
  {
    if fs != [] {
      var init := fs[..|fs| - 1];
      EncodedPrefix(code, off, fs);
      ReadEncodedOperands(code, off, init);
      ReadEncodedLast(code, off, fs);
    }
  }

  /** The fields before the last of an encoded record are encoded at the same place. */
  lemma EncodedPrefix(code: seq<uint8>, off: nat, fs: seq<Operand>)
    requires fs != [] && AllFit(fs) && Occurs(code, off, EncodeOperands(fs))
    ensures var init := fs[..|fs| - 1]; AllFit(init) && Occurs(code, off, EncodeOperands(init))
  {
    var n := |fs| - 1;
    SplitLast(fs);
    AllFitPrefix(fs, n);
    Window(code, off, EncodeOperands(fs[..n]), ToBytes(fs[n].t, fs[n].x));
  }

  /** Reading the last field of an encoded record, after the others were read back, reads the whole record back. */
  lemma ReadEncodedLast(code: seq<uint8>, off: nat, fs: seq<Operand>)
    requires fs != [] && AllFit(fs) && Occurs(code, off, EncodeOperands(fs))
    requires var init := fs[..|fs| - 1];
             off + TotalWidth(TypesOf(init)) <= |code| && ReadOperands(code, off, TypesOf(init)) == ValuesOf(init)
    ensures ReadOperands(code, off, TypesOf(fs)) == ValuesOf(fs)
  {
    var n := |fs| - 1;
    var init, t, x := fs[..n], fs[n].t, fs[n].x;
    var prefix, last := EncodeOperands(init), ToBytes(t, x);
    var ks, w := TypesOf(init), off + |prefix|;
    assert TypesOf(fs) == ks + [t] && ValuesOf(fs) == ValuesOf(init) + [x] && EncodeOperands(fs) == prefix + last by {
      SplitLast(fs);
    }
    Window(code, off, prefix, last);
    LastField(code, w, t, x);
    ReadSnoc(code, off, ks, ValuesOf(init), t, x, w);
  }

  /** The bytes of a field found in the code read back as its value. */
  lemma LastField(code: seq<uint8>, w: nat, t: NumType, x: int)
    requires t.Fits(x) && Occurs(code, w, ToBytes(t, x))
    ensures w + t.Width() <= |code| && FromCode(t, code, w) == x
  {
    ToBytesRoundTrip(t, x);
    OccursSlice(code, w, ToBytes(t, x));
    FromCodeSlice(t, code, w);
  }

  /** Reading one more field whose bytes hold `x` appends `x` to the values read. */
  lemma ReadSnoc(code: seq<uint8>, off: nat, ks: seq<NumType>, vs: seq<int>, t: NumType, x: int, w: nat)
    requires w == off + TotalWidth(ks) && w + t.Width() <= |code|
    requires ReadOperands(code, off, ks) == vs && FromCode(t, code, w) == x
    ensures TotalWidth(ks + [t]) == TotalWidth(ks) + t.Width()
    ensures ReadOperands(code, off, ks + [t]) == vs + [x]
  {
    ReadOperandsSnoc(code, off, ks, t, w);
  }

  /**
   * Decoding round trip: wherever the encoding of `i` sits in the code,
   * fetching and reading there yields `i` and moves the cursor just past it.
   */
  lemma DecodeEncoded(code: seq<uint8>, off: nat, i: Instruction)
    requires Occurs(code, off, Encode(i))
    ensures DecodeAt(code, off) == Decoded(i, off + |Encode(i)|)
  {
    DecodeOccurring(code, off, i, off + |Encode(i)|);
  }

  /** Decoding where bytes `bs` are found, when `bs` is the opcode of `i` followed by fields that build `i`. */
  lemma DecodeBuilt(code: seq<uint8>, off: nat, i: Instruction, op: uint8, fs: seq<Operand>, bs: seq<uint8>)
    requires Layout(op) == Some(TypesOf(fs)) && FitLayout(TypesOf(fs), ValuesOf(fs)) && AllFit(fs)
    requires Build(op, ValuesOf(fs)) == i && bs == [op] + EncodeOperands(fs) && Occurs(code, off, bs)
    ensures DecodeAt(code, off) == Decoded(i, off + |bs|)
  {
    DecodeWritten(code, off, op, fs);
  }

  /** What decoding needs to know about the encoding of `i`: its opcode's layout, its fields, and how they are laid out. */
  lemma EncodeParts(i: Instruction)
    ensures var op, fs := Opcode(i), Fields(i);
            && AllFit(fs) && Layout(op) == Some(TypesOf(fs)) && FitLayout(TypesOf(fs), ValuesOf(fs))
            && Build(op, ValuesOf(fs)) == i && Encode(i) == [op] + EncodeOperands(fs)
  {
    LayoutOfOpcode(i);
    BuildFields(i);
  }

  /** Decoding an opcode byte followed by the encoding of fields of its layout yields the instruction built from their values. */
  lemma DecodeWritten(code: seq<uint8>, off: nat, op: uint8, fs: seq<Operand>)
    requires AllFit(fs) && Layout(op) == Some(TypesOf(fs)) && FitLayout(TypesOf(fs), ValuesOf(fs))
    requires Occurs(code, off, [op] + EncodeOperands(fs))
    ensures DecodeAt(code, off) == Decoded(Build(op, ValuesOf(fs)), off + 1 + |EncodeOperands(fs)|)
  {
    OpcodeThenOperands(code, off, op, EncodeOperands(fs));
    ReadEncodedOperands(code, off + 1, fs);
    DecodeFields(code, off, op, TypesOf(fs), ValuesOf(fs), off + 1 + |EncodeOperands(fs)|);
  }

  /** An opcode byte followed by operand bytes, found in the code: the opcode is at `off`, the operands just after. */
  lemma OpcodeThenOperands(code: seq<uint8>, off: nat, op: uint8, operands: seq<uint8>)
    requires Occurs(code, off, [op] + operands)
    ensures off < |code| && code[off] == op && Occurs(code, off + 1, operands)
  {
    Window(code, off, [op], operands);
    assert code[off + 0] == [op][0];
  }

  /** Decoding an opcode byte followed by fields of the opcode's layout yields the instruction built from the values read. */
  lemma DecodeFields(code: seq<uint8>, off: nat, op: uint8, ks: seq<NumType>, vs: seq<int>, next: nat)
    requires off < |code| && code[off] == op && Layout(op) == Some(ks) && next == off + 1 + TotalWidth(ks) <= |code|
    requires FitLayout(ks, vs) && ReadOperands(code, off + 1, ks) == vs
    ensures DecodeAt(code, off) == Decoded(Build(op, vs), next)
  {
  }

  /** Encoded length is one opcode byte plus the widths of the operand fields the opcode's layout lists. */
  lemma EncodedLength(i: Instruction)
    ensures |Encode(i)| == 1 + TotalWidth(Layout(Opcode(i)).value)
  {
    LayoutOfOpcode(i);
  }

  /** The position of the `k`-th instruction when `insns` is encoded into one buffer. */
  function OffsetOf(insns: seq<Instruction>, k: nat): nat
    requires k <= |insns|
  {
    |EncodeAll(insns[..k])|
  }

  /** The encoding of the first `k` instructions is found at the start of the encoding of all of them. */
  lemma {:induction false} EncodeAllPrefix(insns: seq<Instruction>, k: nat)
    requires k <= |insns|
    ensures Occurs(EncodeAll(insns), 0, EncodeAll(insns[..k]))
  {
    if k < |insns| {
      var n := |insns| - 1;
      assert insns[..n][..k] == insns[..k];
      EncodeAllPrefix(insns[..n], k);
      OccursExtended(EncodeAll(insns[..n]), Encode(insns[n]), 0, EncodeAll(insns[..k]));
    } else {
      assert insns[..k] == insns;
    }
  }

  /** The encoding of `insns[k]` is found in the whole encoding between the offsets of `k` and `k + 1`. */
  lemma EncodedAt(insns: seq<Instruction>, k: nat)
    requires k < |insns|
    ensures OffsetOf(insns, k + 1) == OffsetOf(insns, k) + |Encode(insns[k])| <= |EncodeAll(insns)|
    ensures Occurs(EncodeAll(insns), OffsetOf(insns, k), Encode(insns[k]))
  {
    EncodeAllSnoc(insns, k);
    EncodeAllPrefix(insns, k + 1);
    OccursAfter(EncodeAll(insns), EncodeAll(insns[..k]), Encode(insns[k]), EncodeAll(insns[..k + 1]));
  }

  /** When `pre + here` is found at the start of `whole`, `here` is found right after `pre`. */
  lemma OccursAfter(whole: seq<uint8>, pre: seq<uint8>, here: seq<uint8>, joined: seq<uint8>)
    requires joined == pre + here && Occurs(whole, 0, joined)
    ensures |pre| + |here| == |joined| <= |whole| && Occurs(whole, |pre|, here)
  {
    Window(whole, 0, pre, here);
  }

  /** The encoding of the first `k + 1` instructions extends that of the first `k` by the encoding of `insns[k]`. */
  lemma EncodeAllSnoc(insns: seq<Instruction>, k: nat)
    requires k < |insns|
    ensures EncodeAll(insns[..k + 1]) == EncodeAll(insns[..k]) + Encode(insns[k])
  {
    var pre := insns[..k + 1];
    assert pre[..k] == insns[..k] && pre[k] == insns[k];
  }

  /**
   * Encoding a list of instructions into one buffer and decoding it from
   * offset 0 yields the instructions in order: the `k`-th decode starts where
   * the encoding of `insns[k]` starts and ends where the next one starts.
   */
  lemma DecodeSequence(insns: seq<Instruction>, k: nat)
    requires k < |insns|
    ensures OffsetOf(insns, k + 1) == OffsetOf(insns, k) + |Encode(insns[k])|
    ensures DecodeAt(EncodeAll(insns), OffsetOf(insns, k)) == Decoded(insns[k], OffsetOf(insns, k + 1))
  {
    EncodedAt(insns, k);
    DecodeOccurring(EncodeAll(insns), OffsetOf(insns, k), insns[k], OffsetOf(insns, k + 1));
  }

  /** Decoding where the encoding of `i` is found yields `i` and the offset `next` just past it. */
  lemma DecodeOccurring(code: seq<uint8>, off: nat, i: Instruction, next: nat)
    requires Occurs(code, off, Encode(i)) && next == off + |Encode(i)|
    ensures DecodeAt(code, off) == Decoded(i, next)
  {
    EncodeParts(i);
    DecodeBuilt(code, off, i, Opcode(i), Fields(i), Encode(i));
  }
}
