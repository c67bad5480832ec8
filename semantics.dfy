/**
 * The meaning of one instruction of the register machine, of one
 * fetch-and-execute step and of a run, as pure functions over a snapshot of
 * the interpreter (program counter and call stack) and of its program
 * (constant table, procedure table).
 *
 * Every step ends in one of three ways: the next machine state, a panic of
 * the interpreter (an index out of range, an unknown opcode, a division by
 * zero or `i64::MIN / -1`), or `Undefined` — an access through a raw pointer
 * that leaves its allocation, a read of a cell that holds no value, or an
 * integer overflow whose outcome depends on the build profile. The model
 * promises nothing about the last kind.
 */
module Semantics {
  import opened Util
  import opened Wrappers
  import opened Values
  import opened Opcodes
  import opened FrameStack

  /** An entry of the constant table. */
  datatype Constant = S64Const(i: int64) | F64Const(f: Float)

  /** The value `load_const` stores for a constant. */
  function ConstValue(c: Constant): (v: Value)
    ensures c.S64Const? ==> v == S64(c.i)
    ensures c.F64Const? ==> v == F64(c.f)
  {
    match c
    case S64Const(i) => S64(i)
    case F64Const(f) => F64(f)
  }

  /** The tables the interpreter executes, and the float arithmetic of the host. */
  datatype Program = Program(consts: seq<Constant>, procs: seq<seq<uint8>>, fpu: FloatUnit)

  /** The number of cells of the call stack of a new interpreter. */
  const STACK_SIZE: nat := 4096

  /** The interpreter's state: program counter (`None` is null) and call stack. */
  datatype Machine = Machine(pc: Option<Addr>, stack: StackState)

  /**
   * The reasons the interpreter, its debugger or the operand-stack
   * interpreter panics.
   */
  datatype Fault =
    | UnknownOpcode(op: uint8)
    | NoSuchProc(index: nat)
    | NoSuchConstant(index: nat)
    | DivideByZero
    | DivideOverflow
    | NoCallFrame
    | OffsetOutOfBounds(offset: nat)
    | EmptyStack                      // `pop().unwrap()` on an empty operand stack
    | StackIndexOutOfRange(offset: nat) // `load`/`store` reaching below the operand stack
    | NotAProc(index: nat)            // calling a constant that is not a procedure

  datatype Outcome<T> = Next(state: T) | Panic(fault: Fault) | Undefined

  /** An address inside a procedure, or one past its last byte. */
  predicate ValidAddr(p: Program, a: Addr) {
    a.proc < |p.procs| && a.offset <= |p.procs[a.proc]|
  }

  /**
   * The machine invariant: `sp` inside the block, the program counter and
   * every return address saved on the stack are code addresses of the program.
   */
  predicate Wf(p: Program, m: Machine) {
    && m.stack.Valid()
    && (m.pc.Some? ==> ValidAddr(p, m.pc.value))
    && forall k | 0 <= k < |m.stack.mem| && m.stack.mem[k].Ret? && m.stack.mem[k].ra.Some? ::
         ValidAddr(p, m.stack.mem[k].ra.value)
  }

  const I64_MIN: int := -0x8000_0000_0000_0000

  function Abs(x: int): nat {
    if x < 0 then -x else x
  }

  /** Integer division rounding toward zero, as `/` on `i64` does. */
  function TruncDiv(a: int, b: int): int
    requires b != 0
  {
    var q := Abs(a) / Abs(b);
    if (a < 0) == (b < 0) then q else -q
  }

  /** The remainder that goes with `TruncDiv`, as `%` on `i64` computes it. */
  function TruncRem(a: int, b: int): int
    requires b != 0
  {
    a - b * TruncDiv(a, b)
  }

  /** Euclidean division of naturals: the quotient is at most the dividend, and at most half of it for divisors of two or more. */
  lemma NatDivision(x: nat, y: nat)
    requires y >= 1
    ensures x == y * (x / y) + x % y && 0 <= x % y < y
    ensures 0 <= x / y <= x
    ensures y >= 2 ==> 2 * (x / y) <= x
  {
    var q := x / y;
    assert q >= 0;
    assert y * q >= q by {
      assert y * q == q + (y - 1) * q;
      assert (y - 1) * q >= 0;
    }
    if y >= 2 {
      assert y * q >= 2 * q by {
        assert y * q == 2 * q + (y - 2) * q;
        assert (y - 2) * q >= 0;
      }
    }
  }

  /**
   * `TruncDiv` and `TruncRem` are the quotient and remainder of division
   * rounding toward zero: they recombine to the dividend, the remainder is
   * smaller than the divisor and has the dividend's sign, and the quotient's
   * magnitude is that of the dividend divided by that of the divisor.
   */
  lemma TruncDivision(a: int, b: int)
    requires b != 0
    ensures a == b * TruncDiv(a, b) + TruncRem(a, b)
    ensures Abs(TruncRem(a, b)) < Abs(b)
    ensures TruncRem(a, b) == 0 || (TruncRem(a, b) < 0 <==> a < 0)
    ensures Abs(TruncDiv(a, b)) == Abs(a) / Abs(b)
  {
    var x: int, y: int := Abs(a), Abs(b);
    NatDivision(x, y);
    var q: int, r: int := x / y, x % y;
    NegatedProducts(y, q);
    var d := TruncDiv(a, b);
    assert d == (if (a < 0) == (b < 0) then q else -q);
    assert b == (if b < 0 then -y else y);
    assert b * d == (if a < 0 then -(y * q) else y * q);
    assert TruncRem(a, b) == (if a < 0 then -r else r);
  }

  /** Negating either factor of a product negates it, and negating both keeps it. */
  lemma NegatedProducts(y: int, q: int)
    ensures y * -q == -(y * q) && -y * q == -(y * q) && -y * -q == y * q
  {
  }

  /** The only `i64` division whose quotient does not fit is `i64::MIN / -1`; every remainder fits. */
  lemma QuotientFits(a: int64, b: int64)
    requires b != 0
    ensures I64.Fits(TruncDiv(a, b)) <==> !(a == I64_MIN && b == -1)
    ensures I64.Fits(TruncRem(a, b))
  {
    TruncDivision(a, b);
    NatDivision(Abs(a), Abs(b));
    if Abs(b) == 1 {
      assert Abs(a) / 1 == Abs(a);
      assert TruncDiv(a, b) == (if b == 1 then a as int else -(a as int));
    }
  }

  /**
   * `left OP right` on two `i64`: division and remainder panic on a zero
   * divisor and on `i64::MIN / -1`; an overflowing sum, difference or product
   * panics or wraps depending on the build profile, so it is `Undefined`.
   */
  function IntOp(op: ArithOp, a: int64, b: int64): (r: Outcome<int64>)
    ensures r.Panic? ==> (op == Div || op == Rem) && (b == 0 || (a == I64_MIN && b == -1))
  {
    match op
    case Add => if I64.Fits(a + b) then Next(a + b) else Undefined
    case Sub => if I64.Fits(a - b) then Next(a - b) else Undefined
    case Mul => if I64.Fits(a * b) then Next(a * b) else Undefined
    case Div =>
      if b == 0 then Panic(DivideByZero)
      else if a == I64_MIN && b == -1 then Panic(DivideOverflow)
      else QuotientFits(a, b); Next(TruncDiv(a, b))
    case Rem =>
      if b == 0 then Panic(DivideByZero)
      else if a == I64_MIN && b == -1 then Panic(DivideOverflow)
      else QuotientFits(a, b); Next(TruncRem(a, b))
  }

  /** The machine with a new stack, or `Undefined` when the stack operation was undefined. */
  function WithStack(m: Machine, r: Option<StackState>): (o: Outcome<Machine>)
    ensures r.Some? <==> o.Next?
    ensures o.Next? ==> o.state == m.(stack := r.value)
  {
    match r
    case None => Undefined
    case Some(s) => Next(m.(stack := s))
  }

  /** `store` into a slot of the running call. */
  function StoreTo(m: Machine, dst: int16, v: Value): Outcome<Machine> {
    WithStack(m, Stored(m.stack, dst, v))
  }

  /** `push_call_frame`: saves the program counter as return address and enters the procedure at its first byte. */
  function CallProc(m: Machine, index: nat): (o: Outcome<Machine>)
    requires m.stack.Valid()
    ensures o.Next? <==> m.stack.sp >= 2
    ensures o.Next? ==> o.state == Machine(Some(Addr(index, 0)), Pushed(m.stack, m.pc).value)
  {
    match Pushed(m.stack, m.pc)
    case None => Undefined
    case Some(s) => Next(Machine(Some(Addr(index, 0)), s))
  }

  /**
   * `branch_rel`: moves the program counter by `offset` bytes from where it
   * is (just past the branch instruction). A target outside the procedure's
   * code (or one past it) leaves the allocation.
   */
  function BranchTo(p: Program, m: Machine, offset: int): (o: Outcome<Machine>)
    requires m.pc.Some? && m.pc.value.proc < |p.procs|
    ensures o.Next? <==> 0 <= m.pc.value.offset + offset <= |p.procs[m.pc.value.proc]|
    ensures o.Next? ==> o.state == m.(pc := Some(Addr(m.pc.value.proc, m.pc.value.offset + offset)))
  {
    var a := m.pc.value;
    var target := a.offset + offset;
    if 0 <= target <= |p.procs[a.proc]| then Next(m.(pc := Some(Addr(a.proc, target)))) else Undefined
  }

  /** Loads both operands as `s64`, computes and stores the result in `dst`. */
  function IntArithStep(m: Machine, op: ArithOp, dst: int16, left: int16, right: int16): Outcome<Machine> {
    match (Loaded(m.stack, left), Loaded(m.stack, right))
    case (Some(l), Some(r)) =>
      (match (AsS64(l), AsS64(r))
       case (Some(a), Some(b)) =>
         (match IntOp(op, a, b)
          case Next(x) => StoreTo(m, dst, S64(x))
          case Panic(f) => Panic(f)
          case Undefined => Undefined)
       case _ => Undefined)
    case _ => Undefined
  }

  /** Loads both operands as `f64`, applies the host's float arithmetic and stores the result in `dst`. */
  function FloatArithStep(p: Program, m: Machine, op: ArithOp, dst: int16, left: int16, right: int16): Outcome<Machine> {
    match (Loaded(m.stack, left), Loaded(m.stack, right))
    case (Some(l), Some(r)) =>
      (match (AsF64(l), AsF64(r))
       case (Some(a), Some(b)) => StoreTo(m, dst, F64(p.fpu(op, a, b)))
       case _ => Undefined)
    case _ => Undefined
  }

  /**
   * The effect of one decoded instruction, the program counter already past
   * it (`execute` after `read`).
   */
  function Apply(p: Program, m: Machine, insn: Instruction): Outcome<Machine>
    requires Wf(p, m) && m.pc.Some?
  {
    match insn
    case Alloc(size) => WithStack(m, Allocated(m.stack, size))
    case Move(dst, src) =>
      (match Loaded(m.stack, src)
       case Some(v) => StoreTo(m, dst, v)
       case None => Undefined)
    case MoveValue(dst, value) => StoreTo(m, dst, S64(value))
    case LoadConst(dst, index) =>
      if index < |p.consts| then StoreTo(m, dst, ConstValue(p.consts[index])) else Panic(NoSuchConstant(index))
    case LoadProc(dst, index) =>
      if index < |p.procs| then StoreTo(m, dst, ProcRef(index)) else Panic(NoSuchProc(index))
    case Call(index) =>
      if index < |p.procs| then CallProc(m, index) else Panic(NoSuchProc(index))
    case CallDynamic(src) =>
      (match Loaded(m.stack, src)
       case Some(ProcRef(i)) => if i < |p.procs| then CallProc(m, i) else Undefined
       case _ => Undefined)
    case Branch(offset) => BranchTo(p, m, offset)
    case BranchIf(cond, src, offset) =>
      (match Loaded(m.stack, src)
       case Some(v) =>
         (match AsS64(v)
          case Some(x) => if cond.Holds(x) then BranchTo(p, m, offset) else Next(m)
          case None => Undefined)
       case None => Undefined)
    case Return =>
      (match Returned(m.stack)
       case Some((s, ra)) => Next(Machine(ra, s))
       case None => Undefined)
    case IntArith(op, dst, left, right) => IntArithStep(m, op, dst, left, right)
    case FloatArith(op, dst, left, right) => FloatArithStep(p, m, op, dst, left, right)
    case Print(kind, src) =>
      (match Loaded(m.stack, src)
       case Some(_) => Next(m)
       case None => Undefined)
    case Halt => Next(m.(pc := None))
    case Breakpoint => Next(m)
  }

  /**
   * `execute(opcode)`, the program counter just past the opcode byte: reads
   * the operands the opcode's layout lists, then applies the instruction. An
   * unknown opcode panics; operands running past the end of the code are read
   * from outside the allocation.
   */
  function Execute(p: Program, m: Machine, opcode: uint8): Outcome<Machine>
    requires Wf(p, m) && m.pc.Some?
  {
    var a := m.pc.value;
    match Decode(opcode, p.procs[a.proc], a.offset)
    case Unknown => Panic(UnknownOpcode(opcode))
    case Truncated => Undefined
    case Decoded(insn, next) => Apply(p, m.(pc := Some(Addr(a.proc, next))), insn)
  }

  /**
   * `execute` of a known opcode whose operands lie inside the code: the
   * instruction built from the operands read, applied with the program
   * counter past them.
   */
  lemma ExecuteDecoded(p: Program, m: Machine, opcode: uint8)
    requires Wf(p, m) && m.pc.Some? && Layout(opcode).Some?
    requires m.pc.value.offset + TotalWidth(Layout(opcode).value) <= |p.procs[m.pc.value.proc]|
    ensures var a, ks := m.pc.value, Layout(opcode).value;
            var code := p.procs[a.proc];
            FitLayout(ks, ReadOperands(code, a.offset, ks)) &&
            Execute(p, m, opcode) == Apply(p, m.(pc := Some(Addr(a.proc, a.offset + TotalWidth(ks)))), Build(opcode, ReadOperands(code, a.offset, ks)))
  {
    var a, ks := m.pc.value, Layout(opcode).value;
    var code := p.procs[a.proc];
    ReadOperandsFit(code, a.offset, ks);
    var insn := Build(opcode, ReadOperands(code, a.offset, ks));
    assert Decode(opcode, code, a.offset) == Decoded(insn, a.offset + TotalWidth(ks));
  }

  /** `fetch` then `execute`: one step of `run`. Fetching through a null or past-the-end pointer is undefined. */
  function Step(p: Program, m: Machine): Outcome<Machine>
    requires Wf(p, m)
  {
    match m.pc
    case None => Undefined
    case Some(a) =>
      if a.offset < |p.procs[a.proc]| then
        Execute(p, m.(pc := Some(Addr(a.proc, a.offset + 1))), p.procs[a.proc][a.offset])
      else Undefined
  }

  datatype RunResult = Halted(m: Machine) | Faulted(fault: Fault) | OutOfFuel(m: Machine) | RunUndefined

  /** `Step` on every machine: a machine outside the invariant has no defined next state. */
  function StepFn(p: Program): Machine -> Outcome<Machine> {
    m => if Wf(p, m) then Step(p, m) else Undefined
  }

  /**
   * The loop of `run` over any step function: steps while the program
   * counter is not null, at most `fuel` times, and stops at the first panic
   * or undefined step.
   */
  function Iterate(step: Machine -> Outcome<Machine>, m: Machine, fuel: nat): RunResult
    decreases fuel, 0
  {
    if m.pc.None? then Halted(m)
    else if fuel == 0 then OutOfFuel(m)
    else IterateNext(step, m, fuel - 1)
  }

  /** One step of the loop of `run` from `m`, then `fuel` more. */
  function IterateNext(step: Machine -> Outcome<Machine>, m: Machine, fuel: nat): RunResult
    decreases fuel, 1
  {
    match step(m)
    case Next(m') => Iterate(step, m', fuel)
    case Panic(f) => Faulted(f)
    case Undefined => RunUndefined
  }

  /** `run`: fetch and execute until the program counter is null. The loop need not terminate, so the model runs at most `fuel` steps. */
  function Run(p: Program, m: Machine, fuel: nat): RunResult {
    Iterate(StepFn(p), m, fuel)
  }

  /** Storing a value keeps the machine invariant: it writes a value cell, never a return address. */
  lemma StoreKeepsWf(p: Program, m: Machine, dst: int16, v: Value)
    requires Wf(p, m) && StoreTo(m, dst, v).Next?
    ensures Wf(p, StoreTo(m, dst, v).state)
  {
    var m' := StoreTo(m, dst, v).state;
    var i := SlotIndex(m.stack.fp.value, dst);
    forall k | 0 <= k < |m'.stack.mem| && m'.stack.mem[k].Ret? && m'.stack.mem[k].ra.Some?
      ensures ValidAddr(p, m'.stack.mem[k].ra.value)
    {
      assert k != i;
      assert m'.stack.mem[k] == m.stack.mem[k];
    }
  }

  /** Entering a procedure keeps the invariant: the saved return address is the current, valid, program counter. */
  lemma CallKeepsWf(p: Program, m: Machine, index: nat)
    requires Wf(p, m) && index < |p.procs| && CallProc(m, index).Next?
    ensures Wf(p, CallProc(m, index).state)
  {
    var m' := CallProc(m, index).state;
    var f := m'.stack.sp;
    forall k | 0 <= k < |m'.stack.mem| && m'.stack.mem[k].Ret? && m'.stack.mem[k].ra.Some?
      ensures ValidAddr(p, m'.stack.mem[k].ra.value)
    {
      if k == f + 1 {
        assert m'.stack.mem[k] == Ret(m.pc);
      } else {
        assert k != f;
        assert m'.stack.mem[k] == m.stack.mem[k];
      }
    }
  }

  /** Every instruction keeps the machine invariant. */
  lemma ApplyKeepsWf(p: Program, m: Machine, insn: Instruction)
    requires Wf(p, m) && m.pc.Some? && Apply(p, m, insn).Next?
    ensures Wf(p, Apply(p, m, insn).state)
  {
    match insn
    case Alloc(size) =>
    case Move(dst, src) => StoreKeepsWf(p, m, dst, Loaded(m.stack, src).value);
    case MoveValue(dst, value) => StoreKeepsWf(p, m, dst, S64(value));
    case LoadConst(dst, index) => StoreKeepsWf(p, m, dst, ConstValue(p.consts[index]));
    case LoadProc(dst, index) => StoreKeepsWf(p, m, dst, ProcRef(index));
    case Call(index) => CallKeepsWf(p, m, index);
    case CallDynamic(src) => CallKeepsWf(p, m, Loaded(m.stack, src).value.proc);
    case Branch(offset) =>
    case BranchIf(cond, src, offset) =>
    case Return =>
      var f := m.stack.fp.value;
      assert m.stack.mem[f + 1].Ret?;
    case IntArith(op, dst, left, right) =>
      var a, b := AsS64(Loaded(m.stack, left).value).value, AsS64(Loaded(m.stack, right).value).value;
      StoreKeepsWf(p, m, dst, S64(IntOp(op, a, b).state));
    case FloatArith(op, dst, left, right) =>
      var a, b := AsF64(Loaded(m.stack, left).value).value, AsF64(Loaded(m.stack, right).value).value;
      StoreKeepsWf(p, m, dst, F64(p.fpu(op, a, b)));
    case Print(kind, src) =>
    case Halt =>
    case Breakpoint =>
  }

  /** `execute` keeps the machine invariant. */
  lemma ExecuteKeepsWf(p: Program, m: Machine, opcode: uint8)
    requires Wf(p, m) && m.pc.Some? && Execute(p, m, opcode).Next?
    ensures Wf(p, Execute(p, m, opcode).state)
  {
    var a := m.pc.value;
    var d := Decode(opcode, p.procs[a.proc], a.offset);
    ApplyKeepsWf(p, m.(pc := Some(Addr(a.proc, d.next))), d.insn);
  }

  /** One fetch-and-execute step keeps the machine invariant. */
  lemma StepKeepsWf(p: Program, m: Machine)
    requires Wf(p, m) && Step(p, m).Next?
    ensures Wf(p, Step(p, m).state)
  {
    var a := m.pc.value;
    ExecuteKeepsWf(p, m.(pc := Some(Addr(a.proc, a.offset + 1))), p.procs[a.proc][a.offset]);
  }
}
