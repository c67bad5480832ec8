/**
 * The interpreter object: a program counter, a call stack of 4096 cells, the
 * constant table and the procedure table, with the operations `execute` and
 * `run` are built from. Each method is proved against the pure semantics:
 * what it leaves in the object is what `Semantics` computes from the object
 * it found.
 */
module Interpreter {
  import opened Util
  import opened Wrappers
  import opened Values
  import opened Opcodes
  import opened FrameStack
  import opened Semantics
  import opened MachineProperties

  /**
   * A method reports outcome `o` of the semantics: it raises the fault of a
   * panic, and otherwise leaves the machine in the next state.
   */
  predicate Agrees<T(==)>(o: Outcome<T>, fault: Option<Fault>, now: T) {
    && (fault.None? <==> o.Next?)
    && (o.Next? ==> now == o.state)
    && (o.Panic? ==> fault == Some(o.fault))
  }

  class Runtime {
    var pc: Option<Addr>
    const stack: Stack
    var constants: seq<Constant>
    var procs: seq<seq<uint8>>

    predicate Valid()
      reads this, stack
    {
      stack.Valid()
    }

    /** The program counter and the call stack, as the semantics sees them. */
    function Snapshot(): Machine
      reads this, stack, stack.cells
    {
      Machine(pc, stack.State())
    }

    /** The tables, with the host's float arithmetic. */
    function Prog(fpu: FloatUnit): Program
      reads this`constants, this`procs
    {
      Program(constants, procs, fpu)
    }

    /** `Runtime::new`: a null program counter, an empty stack and empty tables. */
    constructor ()
      ensures Valid() && pc.None? && constants == [] && procs == []
      ensures stack.State() == Empty(STACK_SIZE) && fresh(stack) && fresh(stack.cells)
    {
      pc := None;
      stack := new Stack(STACK_SIZE);
      constants := [];
      procs := [];
    }

    /** `push_constant`: appends to the constant table. */
    method PushConstant(constant: Constant)
      modifies this`constants
      ensures constants == old(constants) + [constant]
    {
      constants := constants + [constant];
    }

    /** `push_proc`: appends a procedure's code to the procedure table. */
    method PushProc(code: seq<uint8>)
      modifies this`procs
      ensures procs == old(procs) + [code]
    {
      procs := procs + [code];
    }

    /**
     * `push_call_frame`: saves the program counter in a new frame record and
     * jumps to the first byte of procedure `proc`.
     */
    method PushCallFrame(proc: nat)
      requires Valid() && stack.sp >= 2
      modifies this`pc, stack, stack.cells
      ensures Valid() && Next(Snapshot()) == CallProc(old(Snapshot()), proc)
    {
      stack.PushFrame(pc);
      pc := Some(Addr(proc, 0));
    }

    /** `call`: calls procedure number `index`; panics when there is none. */
    method Call(index: uint32) returns (fault: Option<Fault>)
      requires Valid() && (index < |procs| ==> stack.sp >= 2)
      modifies this`pc, stack, stack.cells
      ensures fault == (if index < |procs| then None else Some(NoSuchProc(index)))
      ensures Valid()
      ensures fault.None? ==> Next(Snapshot()) == CallProc(old(Snapshot()), index)
    {
      if index >= |procs| {
        return Some(NoSuchProc(index));
      }
      PushCallFrame(index);
      fault := None;
    }

    /** `load_const`: stores constant number `index` into slot `dst`; panics when there is none. */
    method LoadConst(dst: int16, index: uint32) returns (fault: Option<Fault>)
      requires Valid() && (index < |constants| ==> SlotOk(stack.State(), dst))
      modifies stack.cells
      ensures fault == (if index < |constants| then None else Some(NoSuchConstant(index)))
      ensures Valid()
      ensures fault.None? ==> Next(Snapshot()) == StoreTo(old(Snapshot()), dst, ConstValue(constants[index]))
    {
      if index >= |constants| {
        return Some(NoSuchConstant(index));
      }
      var value := match constants[index] case S64Const(i) => S64(i) case F64Const(f) => F64(f);
      stack.Store(dst, value);
      fault := None;
    }

    /** `load_proc`: stores a pointer to procedure number `index` into slot `dst`; panics when there is none. */
    method LoadProc(dst: int16, index: uint32) returns (fault: Option<Fault>)
      requires Valid() && (index < |procs| ==> SlotOk(stack.State(), dst))
      modifies stack.cells
      ensures fault == (if index < |procs| then None else Some(NoSuchProc(index)))
      ensures Valid()
      ensures fault.None? ==> Next(Snapshot()) == StoreTo(old(Snapshot()), dst, ProcRef(index))
    {
      if index >= |procs| {
        return Some(NoSuchProc(index));
      }
      stack.Store(dst, ProcRef(index));
      fault := None;
    }

    /** `branch_rel`: moves the program counter by `offset` bytes. */
    method BranchRel(offset: int32)
      requires pc.Some? && 0 <= pc.value.offset + offset
      modifies this`pc
      ensures pc == Some(Addr(old(pc).value.proc, old(pc).value.offset + offset))
    {
      pc := Some(Addr(pc.value.proc, pc.value.offset + offset));
    }

    /** `Read::read::<T>`: the number of type `t` at the program counter, which moves past it. */
    method Read(t: NumType) returns (x: int)
      requires pc.Some? && pc.value.proc < |procs| && pc.value.offset + t.Width() <= |procs[pc.value.proc]|
      modifies this`pc
      ensures var a := old(pc).value;
              x == FromCode(t, procs[a.proc], a.offset) &&
              pc == Some(Addr(a.proc, a.offset + t.Width()))
    {
      var a := pc.value;
      x := FromCode(t, procs[a.proc], a.offset);
      pc := Some(Addr(a.proc, a.offset + t.Width()));
    }

    /** `fetch`: the opcode byte at the program counter, which moves past it. */
    method Fetch() returns (opcode: uint8)
      requires pc.Some? && pc.value.proc < |procs| && pc.value.offset < |procs[pc.value.proc]|
      modifies this`pc
      ensures var a := old(pc).value;
              opcode == procs[a.proc][a.offset] && pc == Some(Addr(a.proc, a.offset + 1))
    {
      ghost var a := pc.value;
      var x := Read(U8);
      FromCodeSlice(U8, procs[a.proc], a.offset);
      ByteValue(procs[a.proc][a.offset..a.offset + 1]);
      opcode := x;
    }

    /**
     * `<instruction>::read`: reads the operand fields of the types `ks`, one
     * after the other, in declared order.
     */
    method ReadFields(ks: seq<NumType>) returns (vs: seq<int>)
      requires pc.Some? && pc.value.proc < |procs| && pc.value.offset + TotalWidth(ks) <= |procs[pc.value.proc]|
      modifies this`pc
      ensures var a := old(pc).value;
              vs == ReadOperands(procs[a.proc], a.offset, ks) &&
              pc == Some(Addr(a.proc, a.offset + TotalWidth(ks)))
    {
      ghost var a := pc.value;
      ghost var code := procs[a.proc];
      vs := [];
      for k := 0 to |ks|
        invariant pc == Some(Addr(a.proc, a.offset + WidthUpTo(ks, k)))
        invariant a.offset + WidthUpTo(ks, k) <= |code|
        invariant vs == ReadUpTo(code, a.offset, ks, k)
      {
        ReadsOneMore(code, a.offset, ks, k);
        var x := Read(ks[k]);
        vs := vs + [x];
      }
    }

    /**
     * The body of `execute` for one decoded instruction, the program counter
     * already past it. A panic is reported as the fault.
     */
    method Apply(insn: Instruction, fpu: FloatUnit) returns (fault: Option<Fault>)
      requires Valid() && Wf(Prog(fpu), Snapshot()) && pc.Some?
      requires !Semantics.Apply(Prog(fpu), Snapshot(), insn).Undefined?
      modifies this`pc, stack, stack.cells
      ensures Valid()
      ensures Agrees(Semantics.Apply(old(Prog(fpu)), old(Snapshot()), insn), fault, Snapshot())
    {
      fault := None;
      match insn
      case Alloc(size) =>
        stack.Alloc(size);
      case Move(dst, src) =>
        var value := stack.Load(src);
        stack.Store(dst, value);
      case MoveValue(dst, value) =>
        stack.Store(dst, S64(value));
      case LoadConst(dst, index) =>
        fault := LoadConst(dst, index);
      case LoadProc(dst, index) =>
        fault := LoadProc(dst, index);
      case Call(index) =>
        fault := Call(index);
      case CallDynamic(src) =>
        var value := stack.Load(src);
        PushCallFrame(value.proc);
      case Branch(offset) =>
        BranchRel(offset);
      case BranchIf(cond, src, offset) =>
        var value := stack.Load(src);
        if cond.Holds(AsS64(value).value) {
          BranchRel(offset);
        }
      case Return =>
        var ra := stack.ReturnCall();
        pc := ra;
      case IntArith(op, dst, left, right) =>
        fault := IntArith(op, dst, left, right);
      case FloatArith(op, dst, left, right) =>
        var l := stack.Load(left);
        var r := stack.Load(right);
        stack.Store(dst, F64(fpu(op, AsF64(l).value, AsF64(r).value)));
      case Print(_, src) =>
        // The value is printed; output is not part of the model.
        var _ := stack.Load(src);
      case Halt =>
        pc := None;
      case Breakpoint =>
    }

    /** `add_s64` ... `rem_s64`: loads both operands as `s64` and stores the result in `dst`. */
    method IntArith(op: ArithOp, dst: int16, left: int16, right: int16) returns (fault: Option<Fault>)
      requires Valid() && !IntArithStep(Snapshot(), op, dst, left, right).Undefined?
      modifies stack.cells
      ensures Valid()
      ensures Agrees(IntArithStep(old(Snapshot()), op, dst, left, right), fault, Snapshot())
    {
      var l := stack.Load(left);
      var r := stack.Load(right);
      match IntOp(op, AsS64(l).value, AsS64(r).value)
      case Next(x) =>
        stack.Store(dst, S64(x));
        fault := None;
      case Panic(f) =>
        fault := Some(f);
    }

    /**
     * `execute`: reads the operands of `opcode` at the program counter and
     * performs the instruction; an unknown opcode panics.
     */
    method Execute(opcode: uint8, fpu: FloatUnit) returns (fault: Option<Fault>)
      requires Valid() && Wf(Prog(fpu), Snapshot()) && pc.Some?
      requires !Semantics.Execute(Prog(fpu), Snapshot(), opcode).Undefined?
      modifies this`pc, stack, stack.cells
      ensures Valid()
      ensures Agrees(Semantics.Execute(old(Prog(fpu)), old(Snapshot()), opcode), fault, Snapshot())
    {
      if Layout(opcode).None? {
        return Some(UnknownOpcode(opcode));
      }
      fault := ExecuteKnown(opcode, fpu);
    }

    /** `execute` on an opcode with a known operand layout. */
    method ExecuteKnown(opcode: uint8, fpu: FloatUnit) returns (fault: Option<Fault>)
      requires Valid() && Wf(Prog(fpu), Snapshot()) && pc.Some? && Layout(opcode).Some?
      requires !Semantics.Execute(Prog(fpu), Snapshot(), opcode).Undefined?
      modifies this`pc, stack, stack.cells
      ensures Valid()
      ensures Agrees(Semantics.Execute(old(Prog(fpu)), old(Snapshot()), opcode), fault, Snapshot())
    {
      ghost var m0, a := Snapshot(), pc.value;
      ghost var o := Semantics.Execute(Prog(fpu), m0, opcode);
      var ks := Layout(opcode).value;
      ExecuteDecoded(Prog(fpu), m0, opcode);
      var vs := ReadFields(ks);
      assert Snapshot() == m0.(pc := Some(Addr(a.proc, a.offset + TotalWidth(ks))));
      var insn := Build(opcode, vs);
      assert o == Semantics.Apply(Prog(fpu), Snapshot(), insn);
      fault := Apply(insn, fpu);
    }

    /** One iteration of `run`: `fetch` followed by `execute`. */
    method StepOnce(fpu: FloatUnit) returns (fault: Option<Fault>)
      requires Valid() && Wf(Prog(fpu), Snapshot()) && pc.Some?
      requires !Step(Prog(fpu), Snapshot()).Undefined?
      modifies this`pc, stack, stack.cells
      ensures Valid()
      ensures Agrees(Step(old(Prog(fpu)), old(Snapshot())), fault, Snapshot())
    {
      FetchDefined(Prog(fpu), Snapshot());
      var opcode := Fetch();
      fault := Execute(opcode, fpu);
    }

    /**
     * `run`: fetches and executes until the program counter is null. The
     * loop need not end, so it runs at most `fuel` steps.
     */
    method Run(fuel: nat, fpu: FloatUnit) returns (r: RunResult)
      requires Valid() && Wf(Prog(fpu), Snapshot())
      requires !Semantics.Run(Prog(fpu), Snapshot(), fuel).RunUndefined?
      modifies this`pc, stack, stack.cells
      ensures Valid()
      ensures r == Semantics.Run(old(Prog(fpu)), old(Snapshot()), fuel)
      ensures r.Halted? || r.OutOfFuel? ==> Snapshot() == r.m
    {
      ghost var p := Prog(fpu);
      ghost var m0 := Snapshot();
      var n := fuel;
      while pc.Some? && n > 0
        invariant Valid() && Prog(fpu) == p && Wf(p, Snapshot())
        invariant Semantics.Run(p, Snapshot(), n) == Semantics.Run(p, m0, fuel)
        decreases n
      {
        ghost var m := Snapshot();
        RunDefined(p, m, n);
        var fault := StepOnce(fpu);
        if fault.Some? {
          RunStop(p, m, n);
          return Faulted(fault.value);
        }
        RunStep(p, m, n);
        n := n - 1;
      }
      r := if pc.None? then Halted(Snapshot()) else OutOfFuel(Snapshot());
    }
  }

  /** Reading the first `k + 1` fields reads the first `k`, then the `k`-th right after them. */
  lemma ReadsOneMore(code: seq<uint8>, off: nat, ks: seq<NumType>, k: nat)
    requires k < |ks| && off + TotalWidth(ks) <= |code|
    ensures var w := off + WidthUpTo(ks, k);
            && w + ks[k].Width() == off + WidthUpTo(ks, k + 1) <= |code|
            && ReadUpTo(code, off, ks, k + 1) == ReadUpTo(code, off, ks, k) + [FromCode(ks[k], code, w)]
  {
    WidthUpToBound(ks, k + 1);
  }

  /** A step that is not undefined fetches inside the code. */
  lemma FetchDefined(p: Program, m: Machine)
    requires Wf(p, m) && m.pc.Some? && !Step(p, m).Undefined?
    ensures var a := m.pc.value;
            && a.offset < |p.procs[a.proc]|
            && Step(p, m) == Execute(p, m.(pc := Some(Addr(a.proc, a.offset + 1))), p.procs[a.proc][a.offset])
  {
  }

  /** A run with fuel left that is not undefined takes a step that is not undefined. */
  lemma RunDefined(p: Program, m: Machine, fuel: nat)
    requires Wf(p, m) && m.pc.Some? && fuel > 0 && !Run(p, m, fuel).RunUndefined?
    ensures !Step(p, m).Undefined?
  {
    assert Run(p, m, fuel) == IterateNext(StepFn(p), m, fuel - 1);
    assert StepFn(p)(m) == Step(p, m);
  }
}
