/**
 * The older operand-stack interpreter (`rt`): a table of constants
 * (integers, floats and procedures), a stack of call frames (the code of a
 * procedure and an offset into it) and an operand stack of untagged values.
 * Instructions take their operands from the top of the operand stack and
 * push their result; `run` executes the top frame's instruction at its
 * offset until no frame is left.
 *
 * Outcomes reuse the register machine's `Outcome`: the next state, a panic
 * (an `unwrap` on an empty stack, an index out of range, a constant that is
 * not a procedure, a division by zero or `i64::MIN / -1`), or `Undefined`
 * (reading a cell through a view it does not hold, following something that
 * is not a procedure pointer, an integer overflow whose outcome depends on
 * the build profile).
 */
module StackVm {
  import opened Util
  import opened Wrappers
  import opened Values
  import S = Semantics
  import Interpreter

  /**
   * An instruction. The five integer operations (`AddI64` … `RemI64`) and
   * the five float operations (`AddF64` … `RemF64`) are written with the
   * operation they perform.
   */
  datatype Insn =
    | StackAlloc(capacity: uint32)
    | Copy
    | Swap
    | Load(offset: uint32)
    | Store(offset: uint32)
    | LoadConst(index: uint32)
    | Call
    | CallImmediate(index: uint32)
    | Jump(distance: int32)
    | ArithI64(op: ArithOp)
    | ArithF64(op: ArithOp)
    | PrintI64
    | PrintF64
    | PrintProc

  /**
   * A cell of the operand stack: the untagged union `Value`, with the
   * variant it was last written as made explicit. `UNIT` writes no bytes,
   * so it is `None`; a procedure pointer `ProcRef(i)` points at the
   * procedure owned by constant number `i`.
   */
  type Slot = Option<Value>

  const UNIT: Slot := None

  /** An entry of the constant table; a procedure is its code. */
  datatype Constant = IntConst(i: int64) | FloatConst(f: Float) | ProcConst(code: seq<Insn>)

  /** `StackFrame`: the code being run and the offset of the next instruction in it. */
  datatype Frame = Frame(code: seq<Insn>, offset: uint64)

  /** The interpreter's state. */
  datatype VmState = VmState(constants: seq<Constant>, frames: seq<Frame>, stack: seq<Slot>)

  type Outcome = S.Outcome<VmState>

  /** The number of values of `usize`, the type of a frame's offset. */
  const WORD: nat := 0x1_0000_0000_0000_0000

  /** A panic or an undefined outcome, carried over to another result type. */
  function Fail<A, B>(o: S.Outcome<A>): (r: S.Outcome<B>)
    requires !o.Next?
    ensures !r.Next? && (r.Panic? <==> o.Panic?)
    ensures r.Panic? ==> r.fault == o.fault
  {
    if o.Panic? then S.Panic(o.fault) else S.Undefined
  }

  /** `n` cells holding `UNIT`. */
  function Units(n: nat): (r: seq<Slot>)
    ensures |r| == n && forall k | 0 <= k < n :: r[k] == UNIT
  {
    seq(n, _ => UNIT)
  }

  /** The stack with one value pushed. */
  function Pushed(s: VmState, v: Slot): VmState {
    s.(stack := s.stack + [v])
  }

  /** `pop().unwrap()`: the top cell and the stack below it; an empty stack panics. */
  function Popped(stack: seq<Slot>): (o: S.Outcome<(Slot, seq<Slot>)>)
    ensures o.Next? <==> stack != []
    ensures o.Panic? ==> o.fault == S.EmptyStack
    ensures o.Next? ==> o.state.1 + [o.state.0] == stack
  {
    if stack == [] then S.Panic(S.EmptyStack) else S.Next((stack[|stack| - 1], stack[..|stack| - 1]))
  }

  /** `pop2`: the top cell, then the one below it, and the rest of the stack. */
  function Popped2(stack: seq<Slot>): S.Outcome<(Slot, Slot, seq<Slot>)> {
    var o := Popped(stack);
    if !o.Next? then Fail(o)
    else
      var o' := Popped(o.state.1);
      if !o'.Next? then Fail(o') else S.Next((o.state.0, o'.state.0, o'.state.1))
  }

  /** Reading a cell as `i64`: a float's bits are reinterpreted; `UNIT` and a pointer cannot be read. */
  function ReadI64(v: Slot): Option<int64> {
    if v.None? then None else AsS64(v.value)
  }

  /** Reading a cell as `f64`: an integer's bits are reinterpreted; `UNIT` and a pointer cannot be read. */
  function ReadF64(v: Slot): Option<Float> {
    if v.None? then None else AsF64(v.value)
  }

  /** `pop_i64`: pops the top cell and reads it as `i64`. */
  function PoppedI64(stack: seq<Slot>): S.Outcome<(int64, seq<Slot>)> {
    var o := Popped(stack);
    if !o.Next? then Fail(o)
    else if ReadI64(o.state.0).None? then S.Undefined
    else S.Next((ReadI64(o.state.0).value, o.state.1))
  }

  /** `pop2_i64`: the top operand, then the one below it, as `i64`. */
  function Popped2I64(stack: seq<Slot>): S.Outcome<(int64, int64, seq<Slot>)> {
    var o := PoppedI64(stack);
    if !o.Next? then Fail(o)
    else
      var o' := PoppedI64(o.state.1);
      if !o'.Next? then Fail(o') else S.Next((o.state.0, o'.state.0, o'.state.1))
  }

  /** `pop_f64`: pops the top cell and reads it as `f64`. */
  function PoppedF64(stack: seq<Slot>): S.Outcome<(Float, seq<Slot>)> {
    var o := Popped(stack);
    if !o.Next? then Fail(o)
    else if ReadF64(o.state.0).None? then S.Undefined
    else S.Next((ReadF64(o.state.0).value, o.state.1))
  }

  /** `pop2_f64`: the top operand, then the one below it, as `f64`. */
  function Popped2F64(stack: seq<Slot>): S.Outcome<(Float, Float, seq<Slot>)> {
    var o := PoppedF64(stack);
    if !o.Next? then Fail(o)
    else
      var o' := PoppedF64(o.state.1);
      if !o'.Next? then Fail(o') else S.Next((o.state.0, o'.state.0, o'.state.1))
  }

  /** `pop_proc`: pops the top cell and reads it as a pointer; `UNIT` holds no pointer bits. */
  function PoppedProc(stack: seq<Slot>): S.Outcome<(Value, seq<Slot>)> {
    var o := Popped(stack);
    if !o.Next? then Fail(o)
    else if o.state.0.None? then S.Undefined
    else S.Next((o.state.0.value, o.state.1))
  }

  /** `copy`: pushes a duplicate of the top cell. */
  function Copied(s: VmState): Outcome {
    if s.stack == [] then S.Panic(S.EmptyStack) else S.Next(Pushed(s, s.stack[|s.stack| - 1]))
  }

  /** `swap`: pops the top two cells and pushes them back, the old top first. */
  function Swapped(s: VmState): Outcome {
    var o := Popped2(s.stack);
    if !o.Next? then Fail(o)
    else
      var (top, bottom, rest) := o.state;
      S.Next(s.(stack := rest + [top, bottom]))
  }

  /**
   * `load(offset)`: pushes the cell at `len - offset - 1`. Reaching below
   * the stack panics (on the subtraction in a debug build, on the index
   * otherwise).
   */
  function LoadedAt(s: VmState, offset: nat): Outcome {
    if offset + 1 > |s.stack| then S.Panic(S.StackIndexOutOfRange(offset))
    else S.Next(Pushed(s, s.stack[|s.stack| - offset - 1]))
  }

  /** `store(offset)`: pops a cell, then writes it at `len - offset - 1` of what is left. */
  function StoredAt(s: VmState, offset: nat): Outcome {
    var o := Popped(s.stack);
    if !o.Next? then Fail(o)
    else
      var (v, rest) := o.state;
      if offset + 1 > |rest| then S.Panic(S.StackIndexOutOfRange(offset))
      else S.Next(s.(stack := rest[|rest| - offset - 1 := v]))
  }

  /** The cell `load_const` pushes for constant number `index`: a procedure is pushed as a pointer to it. */
  function ConstSlot(c: Constant, index: nat): Slot {
    match c
    case IntConst(i) => Some(S64(i))
    case FloatConst(f) => Some(F64(f))
    case ProcConst(_) => Some(ProcRef(index))
  }

  /** `load_const(index)`: an index outside the table panics. */
  function ConstLoaded(s: VmState, index: nat): Outcome {
    if index >= |s.constants| then S.Panic(S.NoSuchConstant(index))
    else S.Next(Pushed(s, ConstSlot(s.constants[index], index)))
  }

  /** An integer operation: `bottom OP top` replaces the two operands. */
  function IntArith(s: VmState, op: ArithOp): Outcome {
    var o := Popped2I64(s.stack);
    if !o.Next? then Fail(o)
    else
      var (top, bottom, rest) := o.state;
      var r := S.IntOp(op, bottom, top);
      if !r.Next? then Fail(r) else S.Next(s.(stack := rest + [Some(S64(r.state))]))
  }

  /** A float operation: `bottom OP top` replaces the two operands. */
  function FloatArith(s: VmState, op: ArithOp, fpu: FloatUnit): Outcome {
    var o := Popped2F64(s.stack);
    if !o.Next? then Fail(o)
    else
      var (top, bottom, rest) := o.state;
      S.Next(s.(stack := rest + [Some(F64(fpu(op, bottom, top)))]))
  }

  /** The three print instructions: pop the operand through their view; the output is not modelled. */
  function Printed(s: VmState, insn: Insn): Outcome
    requires insn.PrintI64? || insn.PrintF64? || insn.PrintProc?
  {
    if insn.PrintI64? then
      var o := PoppedI64(s.stack);
      if !o.Next? then Fail(o) else S.Next(s.(stack := o.state.1))
    else if insn.PrintF64? then
      var o := PoppedF64(s.stack);
      if !o.Next? then Fail(o) else S.Next(s.(stack := o.state.1))
    else
      var o := PoppedProc(s.stack);
      if !o.Next? then Fail(o) else S.Next(s.(stack := o.state.1))
  }

  /** The instructions that set the top frame's offset themselves instead of advancing it afterwards. */
  predicate Control(insn: Insn) {
    insn.Call? || insn.CallImmediate? || insn.Jump?
  }

  /** What a non-control instruction does before `evaluate` advances the offset: only the operand stack changes. */
  function Effect(s: VmState, insn: Insn, fpu: FloatUnit): (o: Outcome)
    requires !Control(insn)
    ensures o.Next? ==> o.state.constants == s.constants && o.state.frames == s.frames
  {
    match insn
    case StackAlloc(capacity) => S.Next(s.(stack := s.stack + Units(capacity)))
    case Copy => Copied(s)
    case Swap => Swapped(s)
    case Load(offset) => LoadedAt(s, offset)
    case Store(offset) => StoredAt(s, offset)
    case LoadConst(index) => ConstLoaded(s, index)
    case ArithI64(op) => IntArith(s, op)
    case ArithF64(op) => FloatArith(s, op, fpu)
    case PrintI64 => Printed(s, insn)
    case PrintF64 => Printed(s, insn)
    case PrintProc => Printed(s, insn)
  }

  /**
   * `inc_pc`: the top frame's offset plus one. No frame panics; an offset
   * at the top of `usize` overflows, which depends on the build profile.
   */
  function PcIncremented(s: VmState): Outcome {
    if s.frames == [] then S.Panic(S.NoCallFrame)
    else
      var n := |s.frames| - 1;
      if s.frames[n].offset + 1 < WORD then S.Next(s.(frames := s.frames[n := s.frames[n].(offset := s.frames[n].offset + 1)]))
      else S.Undefined
  }

  /** `jump(offset)`: adds the signed offset to the top frame's offset, wrapping around `usize`. */
  function Jumped(s: VmState, offset: int32): Outcome {
    if s.frames == [] then S.Panic(S.NoCallFrame)
    else
      var n := |s.frames| - 1;
      S.Next(s.(frames := s.frames[n := s.frames[n].(offset := (s.frames[n].offset + offset) % WORD)]))
  }

  /**
   * `push_call_frame(index)`: enters the procedure of constant `index` at
   * offset 0; an index outside the table, or a constant that is not a
   * procedure, panics.
   */
  function Entered(s: VmState, index: nat): Outcome {
    if index >= |s.constants| then S.Panic(S.NoSuchConstant(index))
    else if !s.constants[index].ProcConst? then S.Panic(S.NotAProc(index))
    else S.Next(s.(frames := s.frames + [Frame(s.constants[index].code, 0)]))
  }

  /** Whether a popped value is a pointer to a procedure of the constant table. */
  predicate IsProcPointer(s: VmState, v: Value) {
    v.ProcRef? && v.proc < |s.constants| && s.constants[v.proc].ProcConst?
  }

  /** `call`: pops a procedure pointer and enters that procedure at offset 0; following anything else is undefined. */
  function Called(s: VmState): Outcome {
    var o := PoppedProc(s.stack);
    if !o.Next? then Fail(o)
    else
      var (v, rest) := o.state;
      if IsProcPointer(s, v) then S.Next(s.(stack := rest, frames := s.frames + [Frame(s.constants[v.proc].code, 0)]))
      else S.Undefined
  }

  /**
   * `evaluate(insn)`: a call advances the caller's offset before entering
   * the callee, a jump only moves the offset, every other instruction takes
   * its effect and then advances the offset by one.
   */
  function Eval(s: VmState, insn: Insn, fpu: FloatUnit): Outcome {
    match insn
    case Call =>
      var o := PcIncremented(s);
      if !o.Next? then o else Called(o.state)
    case CallImmediate(index) =>
      var o := PcIncremented(s);
      if !o.Next? then o else Entered(o.state, index)
    case Jump(offset) => Jumped(s, offset)
    case _ =>
      var o := Effect(s, insn, fpu);
      if !o.Next? then o else PcIncremented(o.state)
  }

  /**
   * One iteration of the loop of `run`: a top frame whose offset is at or
   * past the end of its code is popped (the procedure returns); otherwise
   * its instruction is evaluated.
   */
  function RunStep(s: VmState, fpu: FloatUnit): Outcome
    requires s.frames != []
  {
    var f := s.frames[|s.frames| - 1];
    if f.offset >= |f.code| then S.Next(s.(frames := s.frames[..|s.frames| - 1]))
    else Eval(s, f.code[f.offset], fpu)
  }

  /** How `run` ends. */
  datatype RunResult =
    | Finished(state: VmState)   // no frame left
    | Faulted(fault: S.Fault)    // panicked
    | RunUndefined               // undefined behaviour on the way
    | OutOfFuel(state: VmState)  // the model's step bound ran out

  /** `run`: iterates while a frame is left. The loop need not terminate, so at most `fuel` iterations. */
  function RunLoop(s: VmState, fpu: FloatUnit, fuel: nat): RunResult
    decreases fuel, 0
  {
    if s.frames == [] then Finished(s)
    else if fuel == 0 then OutOfFuel(s)
    else RunNext(s, fpu, fuel - 1)
  }

  /** One iteration of the loop of `run`, then `fuel` more. */
  function RunNext(s: VmState, fpu: FloatUnit, fuel: nat): RunResult
    requires s.frames != []
    decreases fuel, 1
  {
    match RunStep(s, fpu)
    case Next(s') => RunLoop(s', fpu, fuel)
    case Panic(f) => Faulted(f)
    case Undefined => RunUndefined
  }

  /** `Runtime`: the constant table, the call frames and the operand stack, updated in place. */
  class Runtime {
    var constants: seq<Constant>
    var frames: seq<Frame>
    var stack: seq<Slot>

    function State(): VmState
      reads this
    {
      VmState(constants, frames, stack)
    }

    /** `Runtime::new`: everything empty. */
    constructor()
      ensures State() == VmState([], [], [])
    {
      constants, frames, stack := [], [], [];
    }

    /** `push_constant`: appends to the constant table. */
    method PushConstant(c: Constant)
      modifies this`constants
      ensures State() == old(State()).(constants := old(constants) + [c])
    {
      constants := constants + [c];
    }

    /** `push_call_frame(index)`. */
    method PushCallFrame(index: uint32) returns (fault: Option<S.Fault>)
      modifies this`frames
      ensures Interpreter.Agrees(Entered(old(State()), index), fault, State())
    {
      if index >= |constants| {
        return Some(S.NoSuchConstant(index));
      }
      match constants[index]
      case ProcConst(code) =>
        frames := frames + [Frame(code, 0)];
        fault := None;
      case _ =>
        fault := Some(S.NotAProc(index));
    }

    /** `pop`. */
    method Pop() returns (fault: Option<S.Fault>, v: Slot)
      modifies this`stack
      ensures Interpreter.Agrees(Popped(old(stack)), fault, (v, stack))
    {
      if stack == [] {
        return Some(S.EmptyStack), UNIT;
      }
      v := stack[|stack| - 1];
      stack := stack[..|stack| - 1];
      fault := None;
    }

    /** `pop2`: `(top, bottom)`. */
    method Pop2() returns (fault: Option<S.Fault>, top: Slot, bottom: Slot)
      modifies this`stack
      ensures Interpreter.Agrees(Popped2(old(stack)), fault, (top, bottom, stack))
    {
      fault, top := Pop();
      if fault.Some? {
        return fault, top, UNIT;
      }
      fault, bottom := Pop();
    }

    /** `pop_i64`. */
    method PopI64() returns (fault: Option<S.Fault>, x: int64)
      requires !PoppedI64(stack).Undefined?
      modifies this`stack
      ensures Interpreter.Agrees(PoppedI64(old(stack)), fault, (x, stack))
    {
      var v;
      fault, v := Pop();
      if fault.Some? {
        return fault, 0;
      }
      x := ReadI64(v).value;
    }

    /** `pop2_i64`: `(top, bottom)`. */
    method Pop2I64() returns (fault: Option<S.Fault>, top: int64, bottom: int64)
      requires !Popped2I64(stack).Undefined?
      modifies this`stack
      ensures Interpreter.Agrees(Popped2I64(old(stack)), fault, (top, bottom, stack))
    {
      fault, top := PopI64();
      if fault.Some? {
        return fault, top, 0;
      }
      fault, bottom := PopI64();
    }

    /** `pop_f64`. */
    method PopF64() returns (fault: Option<S.Fault>, x: Float)
      requires !PoppedF64(stack).Undefined?
      modifies this`stack
      ensures Interpreter.Agrees(PoppedF64(old(stack)), fault, (x, stack))
    {
      var v;
      fault, v := Pop();
      if fault.Some? {
        return fault, Float(0);
      }
      x := ReadF64(v).value;
    }

    /** `pop2_f64`: `(top, bottom)`. */
    method Pop2F64() returns (fault: Option<S.Fault>, top: Float, bottom: Float)
      requires !Popped2F64(stack).Undefined?
      modifies this`stack
      ensures Interpreter.Agrees(Popped2F64(old(stack)), fault, (top, bottom, stack))
    {
      fault, top := PopF64();
      if fault.Some? {
        return fault, top, Float(0);
      }
      fault, bottom := PopF64();
    }

    /** `pop_proc`: the popped cell read as a pointer. */
    method PopProc() returns (fault: Option<S.Fault>, v: Value)
      requires !PoppedProc(stack).Undefined?
      modifies this`stack
      ensures Interpreter.Agrees(PoppedProc(old(stack)), fault, (v, stack))
    {
      var c;
      fault, c := Pop();
      if fault.Some? {
        return fault, ProcRef(0);
      }
      v := c.value;
    }

    /** `push`, and `push_i64` / `push_f64` with the value written as that variant. */
    method Push(v: Slot)
      modifies this`stack
      ensures stack == old(stack) + [v]
    {
      stack := stack + [v];
    }

    /** `stack_alloc(capacity)`: pushes `capacity` units, one at a time. */
    method StackAlloc(capacity: uint32)
      modifies this`stack
      ensures stack == old(stack) + Units(capacity)
    {
      for i := 0 to capacity
        invariant stack == old(stack) + Units(i)
      {
        Push(UNIT);
        assert Units(i) + [UNIT] == Units(i + 1);
      }
    }

    /** `copy`. */
    method Copy() returns (fault: Option<S.Fault>)
      modifies this`stack
      ensures Interpreter.Agrees(Copied(old(State())), fault, State())
    {
      if stack == [] {
        return Some(S.EmptyStack);
      }
      var top := stack[|stack| - 1];
      Push(top);
      fault := None;
    }

    /** `swap`. */
    method Swap() returns (fault: Option<S.Fault>)
      modifies this`stack
      ensures Interpreter.Agrees(Swapped(old(State())), fault, State())
    {
      var top, bottom;
      fault, top, bottom := Pop2();
      if fault.Some? {
        return;
      }
      Push(top);
      Push(bottom);
    }

    /** `load(offset)`. */
    method Load(offset: uint32) returns (fault: Option<S.Fault>)
      modifies this`stack
      ensures Interpreter.Agrees(LoadedAt(old(State()), offset), fault, State())
    {
      if offset + 1 > |stack| {
        return Some(S.StackIndexOutOfRange(offset));
      }
      var index := |stack| - offset - 1;
      Push(stack[index]);
      fault := None;
    }

    /** `store(offset)`. */
    method Store(offset: uint32) returns (fault: Option<S.Fault>)
      modifies this`stack
      ensures Interpreter.Agrees(StoredAt(old(State()), offset), fault, State())
    {
      var value;
      fault, value := Pop();
      if fault.Some? {
        return;
      }
      if offset + 1 > |stack| {
        return Some(S.StackIndexOutOfRange(offset));
      }
      var index := |stack| - offset - 1;
      stack := stack[index := value];
    }

    /** `load_const(index)`. */
    method LoadConst(index: uint32) returns (fault: Option<S.Fault>)
      modifies this`stack
      ensures Interpreter.Agrees(ConstLoaded(old(State()), index), fault, State())
    {
      if index >= |constants| {
        return Some(S.NoSuchConstant(index));
      }
      Push(ConstSlot(constants[index], index));
      fault := None;
    }

    /** `call`: pops a procedure pointer and enters the procedure. */
    method Call() returns (fault: Option<S.Fault>)
      requires !Called(State()).Undefined?
      modifies this`stack, this`frames
      ensures Interpreter.Agrees(Called(old(State())), fault, State())
    {
      var v;
      fault, v := PopProc();
      if fault.Some? {
        return;
      }
      frames := frames + [Frame(constants[v.proc].code, 0)];
    }

    /** `call_immediate(proc)`: enters a procedure of the constant table. */
    method CallImmediate(index: nat)
      requires index < |constants| && constants[index].ProcConst?
      modifies this`frames
      ensures State() == old(State()).(frames := old(frames) + [Frame(constants[index].code, 0)])
    {
      frames := frames + [Frame(constants[index].code, 0)];
    }

    /** `jump(offset)`. */
    method Jump(offset: int32) returns (fault: Option<S.Fault>)
      modifies this`frames
      ensures Interpreter.Agrees(Jumped(old(State()), offset), fault, State())
    {
      if frames == [] {
        return Some(S.NoCallFrame);
      }
      var n := |frames| - 1;
      frames := frames[n := frames[n].(offset := (frames[n].offset + offset) % WORD)];
      fault := None;
    }

    /** `inc_pc`. */
    method IncPc() returns (fault: Option<S.Fault>)
      requires !PcIncremented(State()).Undefined?
      modifies this`frames
      ensures Interpreter.Agrees(PcIncremented(old(State())), fault, State())
    {
      if frames == [] {
        return Some(S.NoCallFrame);
      }
      var n := |frames| - 1;
      frames := frames[n := frames[n].(offset := frames[n].offset + 1)];
      fault := None;
    }

    /** The part of `evaluate` before the offset is advanced, for a non-control instruction. */
    method Perform(insn: Insn, fpu: FloatUnit) returns (fault: Option<S.Fault>)
      requires !Control(insn) && !Effect(State(), insn, fpu).Undefined?
      modifies this`stack
      ensures Interpreter.Agrees(Effect(old(State()), insn, fpu), fault, State())
    {
      match insn {
        case StackAlloc(capacity) =>
          StackAlloc(capacity);
          fault := None;
        case Copy => fault := Copy();
        case Swap => fault := Swap();
        case Load(offset) => fault := Load(offset);
        case Store(offset) => fault := Store(offset);
        case LoadConst(index) => fault := LoadConst(index);
        case ArithI64(op) =>
          var top, bottom;
          fault, top, bottom := Pop2I64();
          if fault.Some? {
            return;
          }
          var r := S.IntOp(op, bottom, top);
          if r.Panic? {
            return Some(r.fault);
          }
          Push(Some(S64(r.state)));
        case ArithF64(op) =>
          var top, bottom;
          fault, top, bottom := Pop2F64();
          if fault.Some? {
            return;
          }
          Push(Some(F64(fpu(op, bottom, top))));
        case PrintI64 =>
          var x;
          fault, x := PopI64();
        case PrintF64 =>
          var x;
          fault, x := PopF64();
        case PrintProc =>
          var x;
          fault, x := PopProc();
      }
    }

    /** `evaluate(insn)`. */
    method Evaluate(insn: Insn, fpu: FloatUnit) returns (fault: Option<S.Fault>)
      requires !Eval(State(), insn, fpu).Undefined?
      modifies this`stack, this`frames
      ensures Interpreter.Agrees(Eval(old(State()), insn, fpu), fault, State())
    {
      match insn {
        case Call =>
          fault := IncPc();
          if fault.None? {
            fault := Call();
          }
        case CallImmediate(index) =>
          fault := IncPc();
          if fault.Some? {
            return;
          }
          if index >= |constants| {
            return Some(S.NoSuchConstant(index));
          }
          if !constants[index].ProcConst? {
            return Some(S.NotAProc(index));
          }
          CallImmediate(index);
        case Jump(offset) => fault := Jump(offset);
        case _ =>
          fault := Perform(insn, fpu);
          if fault.None? {
            fault := IncPc();
          }
      }
    }

    /** `run`, at most `fuel` iterations of its loop. */
    method Run(fpu: FloatUnit, fuel: nat) returns (r: RunResult)
      requires !RunLoop(State(), fpu, fuel).RunUndefined?
      modifies this`stack, this`frames
      ensures r == RunLoop(old(State()), fpu, fuel)
      ensures r.Finished? || r.OutOfFuel? ==> State() == r.state
    {
      ghost var goal := RunLoop(State(), fpu, fuel);
      var n := fuel;
      while frames != []
        invariant RunLoop(State(), fpu, n) == goal
        decreases n
      {
        if n == 0 {
          return OutOfFuel(State());
        }
        ghost var before := State();
        assert RunLoop(before, fpu, n) == RunNext(before, fpu, n - 1);
        var f := frames[|frames| - 1];
        if f.offset >= |f.code| {
          frames := frames[..|frames| - 1];
        } else {
          var fault := Evaluate(f.code[f.offset], fpu);
          if fault.Some? {
            return Faulted(fault.value);
          }
        }
        assert State() == RunStep(before, fpu).state;
        n := n - 1;
      }
      r := Finished(State());
    }
  }
}
