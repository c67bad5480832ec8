/**
 * The debugger object: an interpreter, a table of breakpoints, a shadow call
 * stack and the `paused` / `finished` flags the debugger window toggles and
 * reads. Each method is proved against the pure semantics of the debugger.
 */
module Debugging {
  import opened Util
  import opened Wrappers
  import opened Values
  import opened Opcodes
  import opened FrameStack
  import opened Semantics
  import opened DebugSemantics
  import opened DebugProperties
  import opened Interpreter

  class Debugger {
    const runtime: Runtime
    var breakpoints: map<Addr, Breakpoint>
    var callstack: seq<FrameInfo>
    var paused: bool
    var finished: bool
    /** The frame pointer the runtime had before `main` was called: the bottom of the frames the shadow stack names. */
    ghost var base: Option<nat>

    predicate Valid()
      reads this, runtime, runtime.stack
    {
      runtime.Valid()
    }

    /** The machine, the shadow call stack and the flags, as the semantics sees them. */
    function State(): DebugState
      reads this, runtime, runtime.stack, runtime.stack.cells
    {
      DebugState(runtime.Snapshot(), callstack, paused, finished)
    }

    /** The fields of `Debugger::new` once `main` has been called: one frame, paused, no breakpoints. */
    constructor (rt: Runtime, main: nat, ghost base: Option<nat>)
      requires rt.Valid()
      ensures Valid()
      ensures runtime == rt && breakpoints == map[] && this.base == base
      ensures callstack == [FrameInfo(main, rt.stack.fp, 0)] && paused && !finished
    {
      this.base := base;
      runtime := rt;
      breakpoints := map[];
      callstack := [FrameInfo(main, rt.stack.fp, 0)];
      paused := true;
      finished := false;
    }

    /** `add_breakpoint(proc_index, offset)`. */
    method AddBreakpoint(procIndex: uint32, offset: nat) returns (fault: Option<Fault>)
      modifies this`breakpoints
      ensures Agrees(AddedBreakpoint(runtime.procs, old(breakpoints), procIndex, offset), fault, breakpoints)
    {
      if procIndex >= |runtime.procs| {
        return None;
      }
      if offset >= |runtime.procs[procIndex]| {
        return Some(OffsetOutOfBounds(offset));
      }
      breakpoints := breakpoints[Addr(procIndex, offset) := BreakAt(procIndex)];
      fault := None;
    }

    /**
     * The arms of `Debugger::execute` for `alloc`, `call`, `call_dynamic`
     * and `return`, the operands already read: the interpreter's effect,
     * then the shadow stack's bookkeeping.
     */
    method Track(insn: Instruction, fpu: FloatUnit) returns (fault: Option<Fault>)
      requires Valid() && Wf(runtime.Prog(fpu), runtime.Snapshot()) && runtime.pc.Some? && TrackedInsn(insn)
      requires !Tracking(runtime.Prog(fpu), State(), insn).Undefined?
      modifies this`callstack, runtime`pc, runtime.stack, runtime.stack.cells
      ensures Valid()
      ensures Agrees(Tracking(old(runtime.Prog(fpu)), old(State()), insn), fault, State())
    {
      fault := None;
      match insn
      case Alloc(size) =>
        runtime.stack.Alloc(size);
        if callstack == [] {
          return Some(NoCallFrame);
        }
        var n := |callstack| - 1;
        callstack := callstack[n := callstack[n].(size := callstack[n].size + size)];
        assert callstack == GrowTop(old(callstack), size);
      case Call(index) =>
        fault := runtime.Call(index);
        if fault.None? {
          callstack := callstack + [FrameInfo(index, runtime.stack.fp, 0)];
        }
      case CallDynamic(src) =>
        var value := runtime.stack.Load(src);
        runtime.PushCallFrame(value.proc);
        callstack := callstack + [FrameInfo(value.proc, runtime.stack.fp, 0)];
      case Return =>
        var ra := runtime.stack.ReturnCall();
        runtime.pc := ra;
        if callstack == [] {
          return Some(NoCallFrame);
        }
        callstack := callstack[..|callstack| - 1];
    }

    /** `Debugger::execute(opcode)`, the program counter just past the opcode. */
    method Execute(opcode: uint8, fpu: FloatUnit) returns (fault: Option<Fault>)
      requires Valid() && Wf(runtime.Prog(fpu), runtime.Snapshot()) && runtime.pc.Some?
      requires !DExecute(runtime.Prog(fpu), State(), opcode).Undefined?
      modifies this`callstack, this`paused, runtime`pc, runtime.stack, runtime.stack.cells
      ensures Valid()
      ensures Agrees(DExecute(old(runtime.Prog(fpu)), old(State()), opcode), fault, State())
    {
      if opcode == BREAKPOINT {
        paused := true;
        return None;
      }
      if !Tracked(opcode) {
        fault := runtime.Execute(opcode, fpu);
        return;
      }
      fault := ExecuteTracked(opcode, fpu);
    }

    /** The arm of `Debugger::execute` for an opcode whose instruction the shadow stack follows. */
    method ExecuteTracked(opcode: uint8, fpu: FloatUnit) returns (fault: Option<Fault>)
      requires Valid() && Wf(runtime.Prog(fpu), runtime.Snapshot()) && runtime.pc.Some? && Tracked(opcode)
      requires !DExecute(runtime.Prog(fpu), State(), opcode).Undefined?
      modifies this`callstack, runtime`pc, runtime.stack, runtime.stack.cells
      ensures Valid()
      ensures Agrees(DExecute(old(runtime.Prog(fpu)), old(State()), opcode), fault, State())
    {
      ghost var p, d0, a := runtime.Prog(fpu), State(), runtime.pc.value;
      var ks := Layout(opcode).value;
      TrackedDecoded(p, d0, opcode);
      ghost var d1 := d0.(m := d0.m.(pc := Some(Addr(a.proc, a.offset + TotalWidth(ks)))));
      ghost var o := Tracking(p, d1, Build(opcode, ReadOperands(p.procs[a.proc], a.offset, ks)));
      assert DExecute(p, d0, opcode) == o;
      var vs := runtime.ReadFields(ks);
      assert runtime.Prog(fpu) == p && State() == d1;
      assert Tracking(runtime.Prog(fpu), State(), Build(opcode, vs)) == o;
      fault := Track(Build(opcode, vs), fpu);
    }

    /** `Debugger::step`: `fetch`, then the debugger's `execute`. */
    method Step(fpu: FloatUnit) returns (fault: Option<Fault>)
      requires Valid() && Wf(runtime.Prog(fpu), runtime.Snapshot())
      requires !DStep(runtime.Prog(fpu), State()).Undefined?
      modifies this`callstack, this`paused, runtime`pc, runtime.stack, runtime.stack.cells
      ensures Valid()
      ensures Agrees(DStep(old(runtime.Prog(fpu)), old(State())), fault, State())
    {
      ghost var p, d0 := runtime.Prog(fpu), State();
      DFetchDefined(p, d0);
      ghost var a := runtime.pc.value;
      var opcode := runtime.Fetch();
      assert State() == d0.(m := d0.m.(pc := Some(Addr(a.proc, a.offset + 1))));
      fault := Execute(opcode, fpu);
    }

    /**
     * `Debugger::resume(skip_first)`: at most `fuel` iterations of its loop.
     * Returns what the semantics computes; when the call returns normally,
     * the object holds the state it reports.
     */
    method Resume(skipFirst: bool, fuel: nat, fpu: FloatUnit) returns (r: DebugRun)
      requires Valid() && Tracks(runtime.Prog(fpu), State(), base)
      requires !DebugSemantics.Resume(runtime.Prog(fpu), breakpoints, State(), skipFirst, fuel).Unspecified?
      modifies this`callstack, this`paused, this`finished, runtime`pc, runtime.stack, runtime.stack.cells
      ensures Valid()
      ensures r == DebugSemantics.Resume(old(runtime.Prog(fpu)), breakpoints, old(State()), skipFirst, fuel)
      ensures r.Yielded? || r.FuelSpent? ==> State() == r.d
      ensures !r.Aborted? ==> Tracks(runtime.Prog(fpu), State(), base)
    {
      ghost var p, d0, bps := runtime.Prog(fpu), State(), breakpoints;
      ghost var goal := DebugSemantics.Resume(p, bps, d0, skipFirst, fuel);
      ResumeStart(p, bps, d0, skipFirst, fuel);
      if skipFirst {
        var fault := Step(fpu);
        if fault.Some? {
          return Aborted(fault.value);
        }
        DStepKeepsTracks(p, d0, base);
        assert State() == DStep(p, d0).state;
      }
      r := ResumeRest(fpu, fuel, goal);
    }

    /** The loop of `resume`, from the state the optional first step left. */
    method ResumeRest(fpu: FloatUnit, fuel: nat, ghost goal: DebugRun) returns (r: DebugRun)
      requires Valid() && Tracks(runtime.Prog(fpu), State(), base)
      requires ResumeFrom(runtime.Prog(fpu), breakpoints, State(), fuel) == goal && !goal.Unspecified?
      modifies this`callstack, this`paused, this`finished, runtime`pc, runtime.stack, runtime.stack.cells
      ensures Valid()
      ensures r == goal
      ensures r.Yielded? || r.FuelSpent? ==> State() == r.d
      ensures !r.Aborted? ==> Tracks(runtime.Prog(fpu), State(), base)
    {
      ghost var p, bps := runtime.Prog(fpu), breakpoints;
      var n := fuel;
      while !paused && runtime.pc.Some?
        invariant Valid() && Tracks(p, State(), base) && breakpoints == bps
        invariant ResumeFrom(p, bps, State(), n) == goal
        decreases n
      {
        var stop;
        r, stop := ResumeIteration(fpu, n, goal);
        if stop {
          return;
        }
        n := n - 1;
      }
      ghost var last := State();
      ResumeLoopStops(p, bps, last, n);
      TracksFlags(p, last, base, paused, true);
      finished := true;
      assert State() == last.(finished := true);
      r := Yielded(State(), None);
    }

    /**
     * One iteration of the loop of `resume`, `n` steps of fuel left: stops at
     * a breakpoint, when the fuel is spent or on a panic, and otherwise steps.
     */
    method ResumeIteration(fpu: FloatUnit, n: nat, ghost goal: DebugRun) returns (r: DebugRun, stop: bool)
      requires Valid() && Tracks(runtime.Prog(fpu), State(), base) && !paused && runtime.pc.Some?
      requires ResumeFrom(runtime.Prog(fpu), breakpoints, State(), n) == goal && !goal.Unspecified?
      modifies this`callstack, this`paused, runtime`pc, runtime.stack, runtime.stack.cells
      ensures Valid() && breakpoints == old(breakpoints)
      ensures stop ==> r == goal && (r.Yielded? || r.FuelSpent? ==> State() == r.d)
      ensures stop && !r.Aborted? ==> Tracks(runtime.Prog(fpu), State(), base)
      ensures !stop ==> n > 0 && Tracks(runtime.Prog(fpu), State(), base) && ResumeFrom(runtime.Prog(fpu), breakpoints, State(), n - 1) == goal
    {
      ghost var p, bps, before := runtime.Prog(fpu), breakpoints, State();
      ResumeLoopStops(p, bps, before, n);
      if runtime.pc.value in breakpoints {
        TracksFlags(p, before, base, true, false);
        paused := true;
        return Yielded(State(), Some(breakpoints[runtime.pc.value])), true;
      }
      if n == 0 {
        return FuelSpent(State()), true;
      }
      ResumeLoopUnfold(p, bps, before, n);
      var fault := Step(fpu);
      if fault.Some? {
        return Aborted(fault.value), true;
      }
      DStepKeepsTracks(p, before, base);
      assert State() == DStep(p, before).state;
      r, stop := FuelSpent(State()), false;
    }

    /**
     * `Debugger::resume_with_timeout(skip_first, timeout)`. The clock is an
     * input: it reports the timeout as elapsed at the end of batch number
     * `batches` of `ITERS_PER_CHECK` iterations, and not before.
     */
    method ResumeWithTimeout(skipFirst: bool, batches: nat, fpu: FloatUnit) returns (r: DebugRun)
      requires batches >= 1
      requires Valid() && Tracks(runtime.Prog(fpu), State(), base)
      requires !DebugSemantics.ResumeWithTimeout(runtime.Prog(fpu), breakpoints, State(), skipFirst, batches).Unspecified?
      modifies this`callstack, this`paused, this`finished, runtime`pc, runtime.stack, runtime.stack.cells
      ensures Valid()
      ensures r == DebugSemantics.ResumeWithTimeout(old(runtime.Prog(fpu)), breakpoints, old(State()), skipFirst, batches)
      ensures r.Yielded? ==> State() == r.d
      ensures !r.Aborted? ==> Tracks(runtime.Prog(fpu), State(), base)
    {
      ghost var p, d0, bps := runtime.Prog(fpu), State(), breakpoints;
      ghost var goal := DebugSemantics.ResumeWithTimeout(p, bps, d0, skipFirst, batches);
      TimeoutStart(p, bps, d0, skipFirst, batches);
      if skipFirst {
        var fault := Step(fpu);
        if fault.Some? {
          return Aborted(fault.value);
        }
        DStepKeepsTracks(p, d0, base);
        assert State() == DStep(p, d0).state;
      }
      var k, left := 1, ITERS_PER_CHECK * batches;
      while true
        invariant 1 <= k <= batches && left == ITERS_PER_CHECK * (batches - k + 1)
        invariant Valid() && Tracks(p, State(), base) && breakpoints == bps
        invariant TimeoutFrom(p, bps, State(), left) == goal
        decreases batches - k
      {
        r, left := TimeoutBatch(fpu, left, goal);
        if r.Yielded? || r.Aborted? {
          return;
        }
        // The clock is read after a full batch.
        if k == batches {
          return Yielded(State(), None);
        }
        k := k + 1;
      }
    }

    /**
     * One batch of `ITERS_PER_CHECK` iterations of the loop of
     * `resume_with_timeout`, `rest` iterations to go after it. Returns
     * `FuelSpent` when the batch ran to its end, the loop's own result
     * otherwise.
     */
    method TimeoutBatch(fpu: FloatUnit, iters: nat, ghost goal: DebugRun) returns (r: DebugRun, left: nat)
      requires iters >= ITERS_PER_CHECK
      requires Valid() && Tracks(runtime.Prog(fpu), State(), base)
      requires TimeoutFrom(runtime.Prog(fpu), breakpoints, State(), iters) == goal
      requires !goal.Unspecified?
      modifies this`callstack, this`paused, this`finished, runtime`pc, runtime.stack, runtime.stack.cells
      ensures Valid() && breakpoints == old(breakpoints)
      ensures !r.Aborted? ==> Tracks(runtime.Prog(fpu), State(), base)
      ensures r.Yielded? || r.Aborted? ==> r == goal
      ensures r.Yielded? ==> State() == r.d
      ensures !r.Yielded? && !r.Aborted? ==>
                r.FuelSpent? && left == iters - ITERS_PER_CHECK && TimeoutFrom(runtime.Prog(fpu), breakpoints, State(), left) == goal
    {
      ghost var p, bps := runtime.Prog(fpu), breakpoints;
      left := iters;
      for i := 0 to ITERS_PER_CHECK
        invariant left == iters - i
        invariant Valid() && Tracks(p, State(), base) && breakpoints == bps
        invariant TimeoutFrom(p, bps, State(), left) == goal
      {
        var stop;
        r, stop := TimeoutIteration(fpu, left, goal);
        if stop {
          return;
        }
        left := left - 1;
      }
      r := FuelSpent(State());
    }

    /**
     * One iteration of the loop of `resume_with_timeout`, `left` iterations
     * to go: yields when paused, when the program has finished or at a
     * breakpoint, and otherwise steps.
     */
    method TimeoutIteration(fpu: FloatUnit, left: nat, ghost goal: DebugRun) returns (r: DebugRun, stop: bool)
      requires left > 0
      requires Valid() && Tracks(runtime.Prog(fpu), State(), base)
      requires TimeoutFrom(runtime.Prog(fpu), breakpoints, State(), left) == goal && !goal.Unspecified?
      modifies this`callstack, this`paused, this`finished, runtime`pc, runtime.stack, runtime.stack.cells
      ensures Valid() && breakpoints == old(breakpoints)
      ensures stop ==> (r.Yielded? || r.Aborted?) && r == goal
      ensures stop && r.Yielded? ==> State() == r.d && Tracks(runtime.Prog(fpu), State(), base)
      ensures !stop ==> Tracks(runtime.Prog(fpu), State(), base) && TimeoutFrom(runtime.Prog(fpu), breakpoints, State(), left - 1) == goal
    {
      ghost var p, bps, before := runtime.Prog(fpu), breakpoints, State();
      if paused {
        return Yielded(State(), None), true;
      }
      if runtime.pc.None? {
        TracksFlags(p, before, base, paused, true);
        finished := true;
        return Yielded(State(), None), true;
      }
      if runtime.pc.value in breakpoints {
        TracksFlags(p, before, base, true, finished);
        paused := true;
        return Yielded(State(), Some(breakpoints[runtime.pc.value])), true;
      }
      TimeoutLoopUnfold(p, bps, before, left);
      var fault := Step(fpu);
      if fault.Some? {
        return Aborted(fault.value), true;
      }
      DStepKeepsTracks(p, before, base);
      assert State() == DStep(p, before).state;
      r, stop := FuelSpent(State()), false;
    }
  }

  /**
   * `Debugger::new(runtime, main)`: calls `main` (panicking when there is no
   * such procedure), then builds the debugger around the runtime.
   */
  method NewDebugger(rt: Runtime, main: uint32, fpu: FloatUnit) returns (fault: Option<Fault>, dbg: Debugger?)
    requires rt.Valid() && !Attach(rt.Prog(fpu), rt.Snapshot(), main).Undefined?
    modifies rt`pc, rt.stack, rt.stack.cells
    ensures fault.None? <==> Attach(old(rt.Prog(fpu)), old(rt.Snapshot()), main).Next?
    ensures fault.Some? ==> fault == Some(Attach(old(rt.Prog(fpu)), old(rt.Snapshot()), main).fault)
    ensures fault.None? ==>
              dbg != null && fresh(dbg) && dbg.runtime == rt && dbg.Valid() && dbg.breakpoints == map[] &&
              dbg.base == old(rt.stack.fp) &&
              dbg.State() == Attach(old(rt.Prog(fpu)), old(rt.Snapshot()), main).state
  {
    ghost var base := rt.stack.fp;
    fault := rt.Call(main);
    if fault.Some? {
      return fault, null;
    }
    dbg := new Debugger(rt, main, base);
  }

  /**
   * A tracked opcode whose operands lie inside the code: the debugger's
   * `execute` is the tracked instruction built from the operands read,
   * applied with the program counter past them.
   */
  lemma TrackedDecoded(p: Program, d: DebugState, opcode: uint8)
    requires Wf(p, d.m) && d.m.pc.Some? && Tracked(opcode) && !DExecute(p, d, opcode).Undefined?
    ensures var a, ks := d.m.pc.value, Layout(opcode).value;
            var code := p.procs[a.proc];
            a.offset + TotalWidth(ks) <= |code| && FitLayout(ks, ReadOperands(code, a.offset, ks)) &&
            TrackedInsn(Build(opcode, ReadOperands(code, a.offset, ks))) &&
            DExecute(p, d, opcode) == Tracking(p, d.(m := d.m.(pc := Some(Addr(a.proc, a.offset + TotalWidth(ks))))), Build(opcode, ReadOperands(code, a.offset, ks)))
  {
    var a, ks := d.m.pc.value, Layout(opcode).value;
    ReadOperandsFit(p.procs[a.proc], a.offset, ks);
  }

  /** A debugger step that is not undefined fetches, inside the code, the opcode its `execute` runs. */
  lemma DFetchDefined(p: Program, d: DebugState)
    requires Wf(p, d.m) && !DStep(p, d).Undefined?
    ensures !d.finished && d.m.pc.Some? && d.m.pc.value.offset < |p.procs[d.m.pc.value.proc]|
    ensures var a := d.m.pc.value;
            DStep(p, d) == DExecute(p, d.(m := d.m.(pc := Some(Addr(a.proc, a.offset + 1)))), p.procs[a.proc][a.offset])
  {
  }
}
