/**
 * The meaning of the debugger: the interpreter's machine together with a
 * shadow call stack (one entry per procedure entered, with the number of
 * cells its frame allocated), the `paused` and `finished` flags, and a table
 * of breakpoints keyed by code address.
 *
 * The debugger executes the instructions that change the frame structure
 * (`alloc`, `call`, `call_dynamic`, `return`) itself, to keep its shadow
 * stack in step, turns the `breakpoint` instruction into a pause, and hands
 * every other opcode to the interpreter's `execute`.
 */
module DebugSemantics {
  import opened Util
  import opened Wrappers
  import opened Values
  import opened Opcodes
  import opened FrameStack
  import opened Semantics

  /** `CallFrameInfo`: the procedure a frame runs, its frame pointer and the cells it allocated. */
  datatype FrameInfo = FrameInfo(proc: nat, fp: Option<nat>, size: nat)

  /** `Breakpoint`: the procedure whose code holds the breakpoint's address. */
  datatype Breakpoint = BreakAt(proc: nat)

  /** The debugger's state: the machine, the shadow call stack and the two flags. */
  datatype DebugState = DebugState(m: Machine, callstack: seq<FrameInfo>, paused: bool, finished: bool)

  /** How `resume` and `resume_with_timeout` end. */
  datatype DebugRun =
    | Yielded(d: DebugState, hit: Option<Breakpoint>)  // returned, with the breakpoint met if any
    | Aborted(fault: Fault)                            // panicked
    | Unspecified                                      // undefined behaviour on the way
    | FuelSpent(d: DebugState)                         // the model's step bound ran out

  /** The opcodes `Debugger::execute` performs itself to keep its call stack in step. */
  predicate Tracked(opcode: uint8) {
    opcode == ALLOC || opcode == CALL || opcode == CALL_DYNAMIC || opcode == RETURN
  }

  /** The instructions of the tracked opcodes. */
  predicate TrackedInsn(insn: Instruction) {
    insn.Alloc? || insn.Call? || insn.CallDynamic? || insn.Return?
  }

  /** The shadow stack with `size` more cells counted to its top frame (`last_mut().unwrap().size += size`). */
  function GrowTop(cs: seq<FrameInfo>, size: nat): (r: seq<FrameInfo>)
    requires cs != []
    ensures |r| == |cs| && r[..|cs| - 1] == cs[..|cs| - 1]
    ensures r[|cs| - 1] == cs[|cs| - 1].(size := cs[|cs| - 1].size + size)
  {
    var n := |cs| - 1;
    cs[..n] + [cs[n].(size := cs[n].size + size)]
  }

  /**
   * One tracked instruction, the program counter already past its operands:
   * the interpreter's effect on the machine, then the bookkeeping of the
   * shadow stack. A panic of the instruction comes first; `unwrap` on an
   * empty shadow stack panics after the machine has moved.
   */
  function Tracking(p: Program, d: DebugState, insn: Instruction): (o: Outcome<DebugState>)
    requires Wf(p, d.m) && d.m.pc.Some?
    ensures o.Next? ==> o.state.paused == d.paused && o.state.finished == d.finished
  {
    match Apply(p, d.m, insn)
    case Panic(f) => Panic(f)
    case Undefined => Undefined
    case Next(m') =>
      var cs := d.callstack;
      match insn
      case Alloc(size) =>
        if cs == [] then Panic(NoCallFrame) else Next(d.(m := m', callstack := GrowTop(cs, size)))
      case Call(index) =>
        Next(d.(m := m', callstack := cs + [FrameInfo(index, m'.stack.fp, 0)]))
      case CallDynamic(src) =>
        (match Loaded(d.m.stack, src)
         case Some(ProcRef(i)) => Next(d.(m := m', callstack := cs + [FrameInfo(i, m'.stack.fp, 0)]))
         case _ => Undefined)
      case Return =>
        if cs == [] then Panic(NoCallFrame) else Next(d.(m := m', callstack := cs[..|cs| - 1]))
      case _ => Next(d.(m := m'))
  }

  /** An interpreter outcome with the debugger's bookkeeping left as it was. */
  function Lift(d: DebugState, o: Outcome<Machine>): (r: Outcome<DebugState>)
    ensures r.Next? <==> o.Next?
    ensures r.Next? ==> r.state == d.(m := o.state)
    ensures r.Panic? <==> o.Panic?
    ensures r.Panic? ==> r.fault == o.fault
  {
    match o
    case Next(m') => Next(d.(m := m'))
    case Panic(f) => Panic(f)
    case Undefined => Undefined
  }

  /**
   * `Debugger::execute(opcode)`, the program counter just past the opcode.
   * Running on after the debugger has finished trips a debug assertion, so
   * its outcome depends on the build profile.
   */
  function DExecute(p: Program, d: DebugState, opcode: uint8): (o: Outcome<DebugState>)
    requires Wf(p, d.m) && d.m.pc.Some?
    ensures o.Next? ==> !o.state.finished && o.state.paused == (d.paused || opcode == BREAKPOINT)
  {
    if d.finished then Undefined
    else if opcode == BREAKPOINT then Next(d.(paused := true))
    else if Tracked(opcode) then
      var a := d.m.pc.value;
      match Decode(opcode, p.procs[a.proc], a.offset)
      case Unknown => Panic(UnknownOpcode(opcode))
      case Truncated => Undefined
      case Decoded(insn, next) => Tracking(p, d.(m := d.m.(pc := Some(Addr(a.proc, next)))), insn)
    else Lift(d, Execute(p, d.m, opcode))
  }

  /** `Debugger::step`: `fetch` followed by `Debugger::execute`. */
  function DStep(p: Program, d: DebugState): (o: Outcome<DebugState>)
    requires Wf(p, d.m)
    ensures o.Next? ==> !o.state.finished
  {
    if d.finished then Undefined
    else
      match d.m.pc
      case None => Undefined
      case Some(a) =>
        if a.offset < |p.procs[a.proc]| then
          DExecute(p, d.(m := d.m.(pc := Some(Addr(a.proc, a.offset + 1)))), p.procs[a.proc][a.offset])
        else Undefined
  }

  /** `DStep` on every state: a machine outside the invariant has no defined next state. */
  function DStepFn(p: Program): DebugState -> Outcome<DebugState> {
    (d: DebugState) => if Wf(p, d.m) then DStep(p, d) else Undefined
  }

  /** The run that follows a step outcome. */
  function Then(o: Outcome<DebugState>, k: DebugState -> DebugRun): DebugRun {
    match o
    case Next(d) => k(d)
    case Panic(f) => Aborted(f)
    case Undefined => Unspecified
  }

  /** The optional first step of both resume operations (`skip_first`). */
  function SkipFirst(p: Program, d: DebugState, skipFirst: bool): Outcome<DebugState> {
    if skipFirst then DStepFn(p)(d) else Next(d)
  }

  /**
   * The loop of `resume`: while neither paused nor at a null program counter,
   * stop at a breakpoint (pausing) or step. Once the loop ends, the run is
   * marked finished. The loop need not terminate, so at most `fuel` steps.
   * It is written over any step function; `Resume` passes `DStepFn`.
   */
  function ResumeLoop(step: DebugState -> Outcome<DebugState>, bps: map<Addr, Breakpoint>, d: DebugState, fuel: nat): DebugRun
    decreases fuel, 0
  {
    if d.paused || d.m.pc.None? then Yielded(d.(finished := true), None)
    else if d.m.pc.value in bps then Yielded(d.(paused := true), Some(bps[d.m.pc.value]))
    else if fuel == 0 then FuelSpent(d)
    else ResumeNext(step, bps, d, fuel - 1)
  }

  /** One step of the loop of `resume` from `d`, then `fuel` more iterations. */
  function ResumeNext(step: DebugState -> Outcome<DebugState>, bps: map<Addr, Breakpoint>, d: DebugState, fuel: nat): DebugRun
    decreases fuel, 1
  {
    Then(step(d), d' => ResumeLoop(step, bps, d', fuel))
  }

  /** The loop of `resume` with the debugger's own step. */
  function ResumeFrom(p: Program, bps: map<Addr, Breakpoint>, d: DebugState, fuel: nat): DebugRun {
    ResumeLoop(DStepFn(p), bps, d, fuel)
  }

  /** `Debugger::resume(skip_first)`, at most `fuel` steps of its loop. */
  function Resume(p: Program, bps: map<Addr, Breakpoint>, d: DebugState, skipFirst: bool, fuel: nat): DebugRun {
    if d.finished then Unspecified
    else Then(SkipFirst(p, d, skipFirst), d' => ResumeFrom(p, bps, d', fuel))
  }

  /** Iterations of `resume_with_timeout` between two looks at the clock. */
  const ITERS_PER_CHECK: nat := 255

  /**
   * The loop of `resume_with_timeout`, `iters` iterations before the look at
   * the clock that ends it: a paused debugger returns at once, a null program
   * counter finishes the run, a breakpoint pauses it; otherwise one step.
   */
  function TimeoutLoop(step: DebugState -> Outcome<DebugState>, bps: map<Addr, Breakpoint>, d: DebugState, iters: nat): DebugRun
    decreases iters, 0
  {
    if iters == 0 then Yielded(d, None)
    else if d.paused then Yielded(d, None)
    else if d.m.pc.None? then Yielded(d.(finished := true), None)
    else if d.m.pc.value in bps then Yielded(d.(paused := true), Some(bps[d.m.pc.value]))
    else TimeoutNext(step, bps, d, iters - 1)
  }

  /** One step of the loop of `resume_with_timeout` from `d`, then `iters` more iterations. */
  function TimeoutNext(step: DebugState -> Outcome<DebugState>, bps: map<Addr, Breakpoint>, d: DebugState, iters: nat): DebugRun
    decreases iters, 1
  {
    Then(step(d), d' => TimeoutLoop(step, bps, d', iters))
  }

  /**
   * `Debugger::resume_with_timeout(skip_first, timeout)`. The clock is an
   * input: `batches` is the number of batches of `ITERS_PER_CHECK`
   * iterations that run before the clock reports the timeout as elapsed.
   */
  function ResumeWithTimeout(p: Program, bps: map<Addr, Breakpoint>, d: DebugState, skipFirst: bool, batches: nat): DebugRun
    requires batches >= 1
  {
    if d.finished then Unspecified
    else Then(SkipFirst(p, d, skipFirst), d' => TimeoutFrom(p, bps, d', ITERS_PER_CHECK * batches))
  }

  /** The loop of `resume_with_timeout` with the debugger's own step. */
  function TimeoutFrom(p: Program, bps: map<Addr, Breakpoint>, d: DebugState, iters: nat): DebugRun {
    TimeoutLoop(DStepFn(p), bps, d, iters)
  }

  /**
   * `Debugger::new(runtime, main)`: calls `main` (panicking when there is no
   * such procedure), records it as the only frame and starts paused.
   */
  function Attach(p: Program, m: Machine, main: nat): (o: Outcome<DebugState>)
    requires m.stack.Valid()
    ensures o.Panic? <==> main >= |p.procs|
    ensures o.Next? ==> o.state.paused && !o.state.finished && o.state.m.pc == Some(Addr(main, 0))
    ensures o.Next? ==> o.state.callstack == [FrameInfo(main, o.state.m.stack.fp, 0)]
  {
    if main >= |p.procs| then Panic(NoSuchProc(main))
    else
      match CallProc(m, main)
      case Next(m') => Next(DebugState(m', [FrameInfo(main, m'.stack.fp, 0)], true, false))
      case _ => Undefined
  }

  /**
   * `add_breakpoint(proc_index, offset)`: nothing for an unknown procedure;
   * an offset outside its code panics (the bounds-checked `&code[offset]`);
   * otherwise the address maps to a breakpoint of that procedure.
   */
  function AddedBreakpoint(procs: seq<seq<uint8>>, bps: map<Addr, Breakpoint>, index: nat, offset: nat): Outcome<map<Addr, Breakpoint>> {
    if index >= |procs| then Next(bps)
    else if offset >= |procs[index]| then Panic(OffsetOutOfBounds(offset))
    else Next(bps[Addr(index, offset) := BreakAt(index)])
  }
}
