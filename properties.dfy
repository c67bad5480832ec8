/**
 * What the register machine promises about the programs it runs: how a step
 * relates to the instruction encoded at the program counter, what calls,
 * returns, branches and arithmetic do to the machine, and how runs compose.
 */
module MachineProperties {
  import opened Util
  import opened Wrappers
  import opened Values
  import opened Opcodes
  import opened FrameStack
  import opened Semantics

  /** The bytes at address `a` are the encoding of `insn`. */
  predicate EncodedAt(p: Program, a: Addr, insn: Instruction) {
    a.proc < |p.procs| && Occurs(p.procs[a.proc], a.offset, Encode(insn))
  }

  /**
   * Fetching and executing at an address where `insn` decodes, its operands
   * ending at `next`, applies `insn` with the program counter at `next`.
   */
  lemma StepAt(p: Program, m: Machine, a: Addr, insn: Instruction, next: nat)
    requires Wf(p, m) && m.pc == Some(a) && a.proc < |p.procs|
    requires DecodeAt(p.procs[a.proc], a.offset) == Decoded(insn, next)
    ensures Step(p, m) == Apply(p, m.(pc := Some(Addr(a.proc, next))), insn)
  {
    var code := p.procs[a.proc];
    DecodeAtOpcode(code, a.offset, insn, next);
    StepExecutes(p, m, a);
    ExecuteApplies(p, m, a, code[a.offset], insn, next);
  }

  /** Decoding at `off` fetches the opcode byte there and decodes its operands right after it. */
  lemma DecodeAtOpcode(code: seq<uint8>, off: nat, insn: Instruction, next: nat)
    requires DecodeAt(code, off) == Decoded(insn, next)
    ensures off < |code| && Decode(code[off], code, off + 1) == Decoded(insn, next)
  {
  }

  /** A step with the program counter inside the code executes the byte there, the program counter just past it. */
  lemma StepExecutes(p: Program, m: Machine, a: Addr)
    requires Wf(p, m) && m.pc == Some(a) && a.offset < |p.procs[a.proc]|
    ensures Step(p, m) == Execute(p, m.(pc := Some(Addr(a.proc, a.offset + 1))), p.procs[a.proc][a.offset])
  {
  }

  /** `execute` applies the instruction its operands decode to, the program counter past them. */
  lemma ExecuteApplies(p: Program, m: Machine, a: Addr, opcode: uint8, insn: Instruction, next: nat)
    requires Wf(p, m) && m.pc == Some(a) && a.proc < |p.procs|
    requires Decode(opcode, p.procs[a.proc], a.offset + 1) == Decoded(insn, next)
    ensures Execute(p, m.(pc := Some(Addr(a.proc, a.offset + 1))), opcode) == Apply(p, m.(pc := Some(Addr(a.proc, next))), insn)
  {
    var m1 := m.(pc := Some(Addr(a.proc, a.offset + 1)));
    assert m1.(pc := Some(Addr(a.proc, next))) == m.(pc := Some(Addr(a.proc, next)));
  }

  /** A `return` at the program counter comes back through the intact frame record of the running call. */
  lemma ReturnStep(p: Program, m: Machine)
    requires Wf(p, m) && m.pc.Some? && EncodedAt(p, m.pc.value, Return) && Record(m.stack).Some?
    ensures Step(p, m) == Next(Machine(Record(m.stack).value.1, m.stack.(fp := Record(m.stack).value.0)))
  {
    DecodeEncoded(p.procs[m.pc.value.proc], m.pc.value.offset, Return);
    StepAt(p, m, m.pc.value, Return, m.pc.value.offset + |Encode(Return)|);
  }

  /** A run at a `return` goes on from where the frame record of the running call leads. */
  lemma ReturnRun(p: Program, m: Machine, fuel: nat)
    requires Wf(p, m) && m.pc.Some? && EncodedAt(p, m.pc.value, Return) && Record(m.stack).Some?
    ensures Run(p, m, 1 + fuel) == Run(p, Machine(Record(m.stack).value.1, m.stack.(fp := Record(m.stack).value.0)), fuel)
  {
    ReturnStep(p, m);
    RunStep(p, m, 1 + fuel);
  }

  /** A byte that is no opcode makes the interpreter panic when it is fetched. */
  lemma UnknownOpcodePanics(p: Program, m: Machine)
    requires Wf(p, m) && m.pc.Some?
    requires var a := m.pc.value; a.offset < |p.procs[a.proc]| && Layout(p.procs[a.proc][a.offset]).None?
    ensures Step(p, m) == Panic(UnknownOpcode(p.procs[m.pc.value.proc][m.pc.value.offset]))
  {
  }

  /** `call` is five bytes long: the opcode and a `u32` procedure index. */
  lemma CallLength(index: uint32)
    ensures |Encode(Call(index))| == 5
  {
    EncodedLength(Call(index));
    TotalWidthShort(U32, U32, U32);
  }

  /**
   * `call index`: panics when there is no procedure `index`; otherwise pushes a
   * frame record whose return address is the instruction after the call and
   * enters the procedure at its first byte.
   */
  lemma CallStep(p: Program, m: Machine, index: uint32)
    requires Wf(p, m) && m.pc.Some? && EncodedAt(p, m.pc.value, Call(index))
    ensures index >= |p.procs| ==> Step(p, m) == Panic(NoSuchProc(index))
    ensures index < |p.procs| && m.stack.sp >= 2 ==>
              var ra := Addr(m.pc.value.proc, m.pc.value.offset + 5);
              Step(p, m) == Next(Machine(Some(Addr(index, 0)), Pushed(m.stack, Some(ra)).value))
  {
    CallLength(index);
    DecodeEncoded(p.procs[m.pc.value.proc], m.pc.value.offset, Call(index));
    StepAt(p, m, m.pc.value, Call(index), m.pc.value.offset + |Encode(Call(index))|);
  }

  /**
   * A conditional branch on the integer `x` in `src`: when its condition
   * holds, it moves the program counter by `offset` within the procedure,
   * and is undefined exactly when the target leaves the code; otherwise
   * execution falls through.
   */
  lemma BranchIfTaken(p: Program, m: Machine, cond: Cond, src: int16, offset: int32, x: int64)
    requires Wf(p, m) && m.pc.Some?
    requires Loaded(m.stack, src).Some? && AsS64(Loaded(m.stack, src).value) == Some(x)
    ensures var a, o := m.pc.value, Apply(p, m, BranchIf(cond, src, offset));
            && (!cond.Holds(x) ==> o == Next(m))
            && (cond.Holds(x) ==> (o.Next? <==> 0 <= a.offset + offset <= |p.procs[a.proc]|))
            && (cond.Holds(x) && o.Next? ==> o.state == m.(pc := Some(Addr(a.proc, a.offset + offset))))
  {
  }

  /**
   * Integer arithmetic stores its result in `dst` and leaves every other
   * slot, the frame record (caller's `fp` and return address) and the stack
   * pointers as they were.
   */
  lemma ArithWritesOnlyDst(p: Program, m: Machine, op: ArithOp, dst: int16, left: int16, right: int16, other: int16)
    requires Wf(p, m) && m.pc.Some?
    requires IntArithStep(m, op, dst, left, right).Next?
    ensures var a := AsS64(Loaded(m.stack, left).value).value;
            var b := AsS64(Loaded(m.stack, right).value).value;
            var next := IntArithStep(m, op, dst, left, right).state;
            && IntOp(op, a, b).Next?
            && Loaded(next.stack, dst) == Some(S64(IntOp(op, a, b).state))
            && (other != dst ==> Loaded(next.stack, other) == Loaded(m.stack, other))
            && next.pc == m.pc && next.stack.sp == m.stack.sp && next.stack.fp == m.stack.fp
            && Record(next.stack) == Record(m.stack)
  {
    var a := AsS64(Loaded(m.stack, left).value).value;
    var b := AsS64(Loaded(m.stack, right).value).value;
    var v := S64(IntOp(op, a, b).state);
    LoadAfterStore(m.stack, dst, v);
    if other != dst {
      StoreKeepsOtherSlots(m.stack, dst, v, other);
    }
    StoreKeepsRecord(m.stack, dst, v);
  }

  /**
   * The arithmetic of `i64` as the interpreter performs it: sums, differences
   * and products are exact when they fit and undefined otherwise; division
   * rounds toward zero and the remainder goes with it; both panic on a zero
   * divisor and on `i64::MIN / -1`.
   */
  lemma IntOpMeaning(op: ArithOp, a: int64, b: int64)
    ensures IntOp(op, a, b).Panic? <==> (op == Div || op == Rem) && (b == 0 || (a == I64_MIN && b == -1))
    ensures IntOp(op, a, b).Undefined? <==>
              || (op == Add && !I64.Fits(a + b))
              || (op == Sub && !I64.Fits(a - b))
              || (op == Mul && !I64.Fits(a * b))
    ensures IntOp(op, a, b).Panic? ==> IntOp(op, a, b).fault == (if b == 0 then DivideByZero else DivideOverflow)
    ensures op == Add && IntOp(op, a, b).Next? ==> IntOp(op, a, b).state == a + b
    ensures op == Sub && IntOp(op, a, b).Next? ==> IntOp(op, a, b).state == a - b
    ensures op == Mul && IntOp(op, a, b).Next? ==> IntOp(op, a, b).state == a * b
    ensures op == Div && IntOp(op, a, b).Next? ==>
              var q := IntOp(op, a, b).state;
              Abs(a - b * q) < Abs(b) && (a - b * q == 0 || (a - b * q < 0 <==> a < 0))
    ensures op == Rem && IntOp(op, a, b).Next? ==>
              var r := IntOp(op, a, b).state;
              Abs(r) < Abs(b) && (r == 0 || (r < 0 <==> a < 0)) && a == b * TruncDiv(a, b) + r
  {
    if (op == Div || op == Rem) && b != 0 {
      TruncDivision(a, b);
      QuotientFits(a, b);
    }
  }

  /** `halt` clears the program counter, so the run stops right after it. */
  lemma HaltStops(p: Program, m: Machine, fuel: nat)
    requires Wf(p, m) && m.pc.Some? && EncodedAt(p, m.pc.value, Halt)
    ensures Step(p, m).Next? && Step(p, m).state.pc.None?
    ensures Run(p, m, fuel + 1) == Halted(Step(p, m).state)
  {
    DecodeEncoded(p.procs[m.pc.value.proc], m.pc.value.offset, Halt);
    StepAt(p, m, m.pc.value, Halt, m.pc.value.offset + |Encode(Halt)|);
    RunStep(p, m, fuel + 1);
  }

  /** With fuel left and the program counter set, a run is one step followed by the rest of the run. */
  lemma RunStep(p: Program, m: Machine, fuel: nat)
    requires Wf(p, m) && m.pc.Some? && fuel > 0 && Step(p, m).Next?
    ensures Wf(p, Step(p, m).state)
    ensures Run(p, m, fuel) == Run(p, Step(p, m).state, fuel - 1)
  {
    StepKeepsWf(p, m);
    assert Run(p, m, fuel) == IterateNext(StepFn(p), m, fuel - 1);
    assert StepFn(p)(m) == Step(p, m);
  }

  /** With fuel left and the program counter set, a step that does not go on ends the run. */
  lemma RunStop(p: Program, m: Machine, fuel: nat)
    requires Wf(p, m) && m.pc.Some? && fuel > 0 && !Step(p, m).Next?
    ensures Run(p, m, fuel) == if Step(p, m).Panic? then Faulted(Step(p, m).fault) else RunUndefined
  {
    assert Run(p, m, fuel) == IterateNext(StepFn(p), m, fuel - 1);
    assert StepFn(p)(m) == Step(p, m);
  }

  /** A loop whose step function keeps an invariant ends, or runs out of fuel, in a state that satisfies it. */
  lemma {:induction false} IterateKeeps(step: Machine -> Outcome<Machine>, inv: Machine -> bool, m: Machine, fuel: nat)
    requires inv(m)
    requires forall x :: inv(x) && step(x).Next? ==> inv(step(x).state)
    ensures Iterate(step, m, fuel).Halted? ==> inv(Iterate(step, m, fuel).m) && Iterate(step, m, fuel).m.pc.None?
    ensures Iterate(step, m, fuel).OutOfFuel? ==> inv(Iterate(step, m, fuel).m)
    decreases fuel
  {
    if m.pc.Some? && fuel > 0 {
      assert Iterate(step, m, fuel) == IterateNext(step, m, fuel - 1);
      if step(m).Next? {
        IterateKeeps(step, inv, step(m).state, fuel - 1);
      }
    }
  }

  /** A run ends, or runs out of fuel, in a machine that satisfies the invariant. */
  lemma RunKeepsWf(p: Program, m: Machine, fuel: nat)
    requires Wf(p, m)
    ensures Run(p, m, fuel).Halted? ==> Wf(p, Run(p, m, fuel).m) && Run(p, m, fuel).m.pc.None?
    ensures Run(p, m, fuel).OutOfFuel? ==> Wf(p, Run(p, m, fuel).m)
  {
    var inv := x => Wf(p, x);
    forall x | inv(x) && StepFn(p)(x).Next?
      ensures inv(StepFn(p)(x).state)
    {
      StepKeepsWf(p, x);
    }
    IterateKeeps(StepFn(p), inv, m, fuel);
  }

  /** A loop that ends before its fuel is used up ends the same way with more fuel. */
  lemma {:induction false} IterateMonotone(step: Machine -> Outcome<Machine>, m: Machine, fuel: nat, more: nat)
    requires !Iterate(step, m, fuel).OutOfFuel?
    ensures Iterate(step, m, fuel + more) == Iterate(step, m, fuel)
    decreases fuel
  {
    if m.pc.Some? {
      assert Iterate(step, m, fuel) == IterateNext(step, m, fuel - 1);
      assert Iterate(step, m, fuel + more) == IterateNext(step, m, fuel + more - 1);
      if step(m).Next? {
        IterateMonotone(step, step(m).state, fuel - 1, more);
      }
    }
  }

  /** Looping `a + b` times is looping `a` times and then `b` more from where those stopped. */
  lemma {:induction false} IterateSplit(step: Machine -> Outcome<Machine>, m: Machine, a: nat, b: nat)
    requires Iterate(step, m, a).OutOfFuel?
    ensures Iterate(step, m, a + b) == Iterate(step, Iterate(step, m, a).m, b)
    decreases a
  {
    if a > 0 {
      assert Iterate(step, m, a) == IterateNext(step, m, a - 1);
      assert Iterate(step, m, a + b) == IterateNext(step, m, a + b - 1);
      IterateSplit(step, step(m).state, a - 1, b);
    }
  }

  /** A run that ends before its fuel is used up ends the same way with more fuel. */
  lemma RunMonotone(p: Program, m: Machine, fuel: nat, more: nat)
    requires !Run(p, m, fuel).OutOfFuel?
    ensures Run(p, m, fuel + more) == Run(p, m, fuel)
  {
    IterateMonotone(StepFn(p), m, fuel, more);
  }

  /** Running `a + b` steps is running `a` steps and then `b` more from where those stopped. */
  lemma RunSplit(p: Program, m: Machine, a: nat, b: nat)
    requires Run(p, m, a).OutOfFuel?
    ensures Run(p, m, a + b) == Run(p, Run(p, m, a).m, b)
  {
    IterateSplit(StepFn(p), m, a, b);
  }

  /**
   * An instruction other than a call or a return keeps the frame pointer and
   * the running call's frame record, writes values only, and moves `sp`
   * only for `alloc`, and then downwards.
   */
  lemma ApplyKeepsFrame(p: Program, m: Machine, insn: Instruction)
    requires Wf(p, m) && m.pc.Some? && Apply(p, m, insn).Next?
    requires !insn.Call? && !insn.CallDynamic? && !insn.Return?
    ensures var s := Apply(p, m, insn).state.stack;
            && s.fp == m.stack.fp && Record(s) == Record(m.stack) && ValueWrites(m.stack, s)
            && s.sp <= m.stack.sp && (!insn.Alloc? ==> s.sp == m.stack.sp)
  {
    match insn
    case Move(dst, src) => StoreKeepsRecord(m.stack, dst, Loaded(m.stack, src).value);
    case MoveValue(dst, value) => StoreKeepsRecord(m.stack, dst, S64(value));
    case LoadConst(dst, index) => StoreKeepsRecord(m.stack, dst, ConstValue(p.consts[index]));
    case LoadProc(dst, index) => StoreKeepsRecord(m.stack, dst, ProcRef(index));
    case IntArith(op, dst, left, right) =>
      var a, b := AsS64(Loaded(m.stack, left).value).value, AsS64(Loaded(m.stack, right).value).value;
      StoreKeepsRecord(m.stack, dst, S64(IntOp(op, a, b).state));
    case FloatArith(op, dst, left, right) =>
      var a, b := AsF64(Loaded(m.stack, left).value).value, AsF64(Loaded(m.stack, right).value).value;
      StoreKeepsRecord(m.stack, dst, F64(p.fpu(op, a, b)));
    case _ =>
  }

  /** The opcode at the program counter is neither a call nor a return. */
  predicate Plain(p: Program, m: Machine) {
    && Wf(p, m) && m.pc.Some?
    && var a := m.pc.value;
       a.offset < |p.procs[a.proc]| && p.procs[a.proc][a.offset] !in {CALL, CALL_DYNAMIC, RETURN}
  }

  /** A step at an opcode other than a call or a return keeps the frame pointer and the frame record. */
  lemma PlainStep(p: Program, m: Machine)
    requires Plain(p, m) && Step(p, m).Next?
    ensures var s := Step(p, m).state.stack;
            Wf(p, Step(p, m).state) && s.fp == m.stack.fp && Record(s) == Record(m.stack)
  {
    StepKeepsWf(p, m);
    var a := m.pc.value;
    var code := p.procs[a.proc];
    var op := code[a.offset];
    var m1 := m.(pc := Some(Addr(a.proc, a.offset + 1)));
    match Decode(op, code, a.offset + 1)
    case Decoded(insn, next) =>
      var ks := Layout(op).value;
      ReadOperandsFit(code, a.offset + 1, ks);
      BuildKind(op, ReadOperands(code, a.offset + 1, ks));
      ApplyKeepsFrame(p, m1.(pc := Some(Addr(a.proc, next))), insn);
    case _ =>
  }

  /**
   * `m` reaches `m'` in `n` steps of `step`, each taken from a machine with
   * a program counter set that satisfies `ok`.
   */
  predicate Steps(step: Machine -> Outcome<Machine>, ok: Machine -> bool, m: Machine, n: nat, m': Machine)
    decreases n
  {
    if n == 0 then m' == m
    else m.pc.Some? && ok(m) && step(m).Next? && Steps(step, ok, step(m).state, n - 1, m')
  }

  /**
   * An invariant that every such step keeps holds where the steps end, and
   * the loop goes on from there.
   */
  lemma {:induction false} StepsKeep(step: Machine -> Outcome<Machine>, ok: Machine -> bool, inv: Machine -> bool, m: Machine, n: nat, m': Machine, fuel: nat)
    requires Steps(step, ok, m, n, m') && inv(m)
    requires forall x :: inv(x) && ok(x) && step(x).Next? ==> inv(step(x).state)
    ensures inv(m')
    ensures Iterate(step, m, n + fuel) == Iterate(step, m', fuel)
    decreases n
  {
    if n > 0 {
      assert Iterate(step, m, n + fuel) == IterateNext(step, m, n + fuel - 1);
      StepsKeep(step, ok, inv, step(m).state, n - 1, m', fuel);
    }
  }

  /** `Plain` as a function value. */
  function PlainFn(p: Program): Machine -> bool {
    x => Plain(p, x)
  }

  /** `m` reaches `m'` in `n` steps, each at an opcode that is neither a call nor a return. */
  predicate PlainRun(p: Program, m: Machine, n: nat, m': Machine) {
    Steps(StepFn(p), PlainFn(p), m, n, m')
  }

  /**
   * Steps that neither call nor return keep the frame pointer and the frame
   * record of the running call, and the run goes on from where they end.
   */
  lemma PlainRunKeepsFrame(p: Program, m: Machine, n: nat, m': Machine, fuel: nat)
    requires Wf(p, m) && PlainRun(p, m, n, m')
    ensures Wf(p, m') && m'.stack.fp == m.stack.fp && Record(m'.stack) == Record(m.stack)
    ensures Run(p, m, n + fuel) == Run(p, m', fuel)
  {
    var inv := x => Wf(p, x) && x.stack.fp == m.stack.fp && Record(x.stack) == Record(m.stack);
    forall x | inv(x) && PlainFn(p)(x) && StepFn(p)(x).Next?
      ensures inv(StepFn(p)(x).state)
    {
      PlainStep(p, x);
    }
    StepsKeep(StepFn(p), PlainFn(p), inv, m, n, m', fuel);
  }

  /**
   * Calls and returns balance: a `call`, a callee body of `n` steps none of
   * which calls or returns, and the callee's `return` resume the caller just
   * after the five bytes of the call, with the caller's frame pointer; the
   * run goes on from there.
   */
  lemma CallThenReturn(p: Program, m: Machine, index: uint32, n: nat, body: Machine, fuel: nat)
    requires Wf(p, m) && m.pc.Some? && EncodedAt(p, m.pc.value, Call(index))
    requires index < |p.procs| && m.stack.sp >= 2
    requires var ra := Addr(m.pc.value.proc, m.pc.value.offset + 5);
             PlainRun(p, Machine(Some(Addr(index, 0)), Pushed(m.stack, Some(ra)).value), n, body)
    requires body.pc.Some? && EncodedAt(p, body.pc.value, Return)
    ensures var ra := Addr(m.pc.value.proc, m.pc.value.offset + 5);
            var back := Machine(Some(ra), body.stack.(fp := m.stack.fp));
            && StepFn(p)(body) == Next(back)
            && Run(p, m, n + 2 + fuel) == Run(p, back, fuel)
  {
    var ra := Addr(m.pc.value.proc, m.pc.value.offset + 5);
    var callee := Machine(Some(Addr(index, 0)), Pushed(m.stack, Some(ra)).value);
    var back := Machine(Some(ra), body.stack.(fp := m.stack.fp));
    CallRun(p, m, index, n + 1 + fuel);
    assert Run(p, m, 1 + (n + 1 + fuel)) == Run(p, callee, n + 1 + fuel);
    BodyReturns(p, callee, n, body, fuel);
    assert Record(callee.stack) == Some((m.stack.fp, Some(ra)));
    assert Run(p, callee, n + 1 + fuel) == Run(p, back, fuel);
    RunChain(p, m, callee, back, n, fuel);
  }

  /** A call step followed by `n + 1` steps is a run of `n + 2` steps. */
  lemma RunChain(p: Program, m: Machine, callee: Machine, back: Machine, n: nat, fuel: nat)
    requires Run(p, m, 1 + (n + 1 + fuel)) == Run(p, callee, n + 1 + fuel)
    requires Run(p, callee, n + 1 + fuel) == Run(p, back, fuel)
    ensures Run(p, m, n + 2 + fuel) == Run(p, back, fuel)
  {
    assert 1 + (n + 1 + fuel) == n + 2 + fuel;
  }

  /**
   * A call whose body runs `n` steps without calling or returning and then
   * executes `return` goes on from where its frame record leads.
   */
  lemma BodyReturns(p: Program, m: Machine, n: nat, body: Machine, fuel: nat)
    requires Wf(p, m) && Record(m.stack).Some? && PlainRun(p, m, n, body)
    requires body.pc.Some? && EncodedAt(p, body.pc.value, Return)
    ensures var back := Machine(Record(m.stack).value.1, body.stack.(fp := Record(m.stack).value.0));
            && StepFn(p)(body) == Next(back)
            && Run(p, m, n + 1 + fuel) == Run(p, back, fuel)
  {
    PlainRunKeepsFrame(p, m, n, body, 1 + fuel);
    assert Run(p, m, n + (1 + fuel)) == Run(p, body, 1 + fuel);
    assert Record(body.stack) == Record(m.stack);
    ReturnStep(p, body);
    ReturnRun(p, body, fuel);
    assert n + 1 + fuel == n + (1 + fuel);
  }

  /**
   * A run at a `call` goes on in the callee, whose frame record holds the
   * caller's frame pointer and the address after the call.
   */
  lemma CallRun(p: Program, m: Machine, index: uint32, fuel: nat)
    requires Wf(p, m) && m.pc.Some? && EncodedAt(p, m.pc.value, Call(index))
    requires index < |p.procs| && m.stack.sp >= 2
    ensures var ra := Addr(m.pc.value.proc, m.pc.value.offset + 5);
            var callee := Machine(Some(Addr(index, 0)), Pushed(m.stack, Some(ra)).value);
            && Wf(p, callee) && Record(callee.stack) == Some((m.stack.fp, Some(ra)))
            && Run(p, m, 1 + fuel) == Run(p, callee, fuel)
  {
    var ra := Addr(m.pc.value.proc, m.pc.value.offset + 5);
    CallStep(p, m, index);
    StepKeepsWf(p, m);
    PushThenReturn(m.stack, Some(ra));
    RunStep(p, m, 1 + fuel);
  }

  /**
   * The first call of a program, made on a fresh interpreter: its frame
   * record holds a null caller frame and a null return address.
   */
  function Start(p: Program, main: nat): (o: Outcome<Machine>)
    ensures main < |p.procs| <==> o.Next?
    ensures o.Next? ==> Wf(p, o.state) && o.state.pc == Some(Addr(main, 0))
    ensures o.Next? ==> Record(o.state.stack) == Some((None, None))
  {
    if main < |p.procs| then
      var m := Machine(None, Empty(STACK_SIZE));
      CallKeepsWf(p, m, main);
      CallProc(m, main)
    else Panic(NoSuchProc(main))
  }

  /**
   * Returning through the frame record of the first call clears the program
   * counter and the frame pointer: the program ends with the return of its
   * main procedure.
   */
  lemma MainReturnEnds(p: Program, main: nat, m: Machine)
    requires Start(p, main).Next? && Wf(p, m) && m.pc.Some?
    requires Record(m.stack) == Record(Start(p, main).state.stack)
    ensures Apply(p, m, Return) == Next(Machine(None, m.stack.(fp := None)))
  {
  }

  /**
   * A main procedure that runs `n` steps without calling or returning and
   * then executes `return` ends the program: the run halts right after it,
   * with a null program counter and a null frame pointer.
   */
  lemma MainBodyEnds(p: Program, main: nat, n: nat, body: Machine, fuel: nat)
    requires Start(p, main).Next? && PlainRun(p, Start(p, main).state, n, body)
    requires body.pc.Some? && EncodedAt(p, body.pc.value, Return)
    ensures Run(p, Start(p, main).state, n + 1 + fuel) == Halted(Machine(None, body.stack.(fp := None)))
  {
    OutermostReturnEnds(p, Start(p, main).state, n, body, fuel);
  }

  /** The same for any call whose frame record holds a null caller and a null return address. */
  lemma OutermostReturnEnds(p: Program, m: Machine, n: nat, body: Machine, fuel: nat)
    requires Wf(p, m) && Record(m.stack) == Some((None, None)) && PlainRun(p, m, n, body)
    requires body.pc.Some? && EncodedAt(p, body.pc.value, Return)
    ensures Run(p, m, n + 1 + fuel) == Halted(Machine(None, body.stack.(fp := None)))
  {
    var back := Machine(None, body.stack.(fp := None));
    BodyReturns(p, m, n, body, fuel);
    assert Run(p, back, fuel) == Halted(back);
  }
}
