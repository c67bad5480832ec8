/**
 * What the debugger promises: it moves the machine exactly as the
 * interpreter does, its shadow call stack follows the frames the machine
 * enters and leaves, a stop at a breakpoint leaves the program paused at
 * that breakpoint's address, and the two resume loops agree wherever both
 * stop on their own.
 */
module DebugProperties {
  import opened Util
  import opened Wrappers
  import opened Values
  import opened Opcodes
  import opened FrameStack
  import opened Semantics
  import opened DebugSemantics
  import opened MachineProperties

  /** The `breakpoint` instruction has no operands and leaves the interpreter's machine as it is. */
  lemma BreakpointIsNoOp(p: Program, m: Machine)
    requires Wf(p, m) && m.pc.Some?
    ensures Execute(p, m, BREAKPOINT) == Next(m)
  {
    var a := m.pc.value;
    assert Layout(BREAKPOINT) == Some([]);
    assert ReadOperands(p.procs[a.proc], a.offset, []) == [];
    assert Decode(BREAKPOINT, p.procs[a.proc], a.offset) == Decoded(Breakpoint, a.offset);
    assert m.(pc := Some(Addr(a.proc, a.offset))) == m;
  }

  /**
   * The debugger's `execute` moves the machine exactly as the interpreter's:
   * the same next machine, the same panics, the same undefined cases. Its
   * only panic of its own is `unwrap` on an empty shadow stack, after an
   * `alloc` or a `return`.
   */
  lemma DebugMovesAsRuntime(p: Program, d: DebugState, opcode: uint8)
    requires Wf(p, d.m) && d.m.pc.Some? && !d.finished
    ensures DExecute(p, d, opcode).Next? ==> Execute(p, d.m, opcode) == Next(DExecute(p, d, opcode).state.m)
    ensures DExecute(p, d, opcode).Undefined? <==> Execute(p, d.m, opcode).Undefined?
    ensures Execute(p, d.m, opcode).Panic? ==> DExecute(p, d, opcode) == Panic(Execute(p, d.m, opcode).fault)
    ensures DExecute(p, d, opcode).Panic? && !Execute(p, d.m, opcode).Panic? ==>
              DExecute(p, d, opcode).fault == NoCallFrame && d.callstack == [] && (opcode == ALLOC || opcode == RETURN)
  {
    if opcode == BREAKPOINT {
      BreakpointIsNoOp(p, d.m);
    }
  }

  /**
   * How one step of the debugger changes its shadow call stack: a call pushes
   * an entry naming the procedure entered and its new frame, a return pops
   * the top entry, an `alloc` adds the cells it reserved to the top entry,
   * anything else leaves it as it was. Only `breakpoint` pauses.
   */
  lemma DebugCallstack(p: Program, d: DebugState, opcode: uint8, d': DebugState)
    requires Wf(p, d.m) && d.m.pc.Some? && DExecute(p, d, opcode) == Next(d')
    ensures opcode == CALL || opcode == CALL_DYNAMIC ==>
              d'.m.pc.Some? && d'.m.pc.value.offset == 0 &&
              d'.callstack == d.callstack + [FrameInfo(d'.m.pc.value.proc, d'.m.stack.fp, 0)]
    ensures opcode == RETURN ==> d.callstack != [] && d'.callstack == d.callstack[..|d.callstack| - 1]
    ensures opcode == ALLOC ==>
              d.callstack != [] && d'.m.stack.sp <= d.m.stack.sp &&
              d'.callstack == GrowTop(d.callstack, d.m.stack.sp - d'.m.stack.sp)
    ensures !Tracked(opcode) ==> d'.callstack == d.callstack
  {
    if Tracked(opcode) {
      var a := d.m.pc.value;
      match Decode(opcode, p.procs[a.proc], a.offset)
      case Decoded(insn, next) =>
        var m1 := d.m.(pc := Some(Addr(a.proc, next)));
        assert Tracking(p, d.(m := m1), insn) == Next(d');
        var ks := Layout(opcode).value;
        assert insn == Build(opcode, ReadOperands(p.procs[a.proc], a.offset, ks));
    }
  }

  /**
   * The shadow stack `cs` names the chain of live frames from `s.fp`,
   * innermost last: the top entry holds `fp`, which lies at or above `sp`,
   * and returning through the running call's frame record, when it is
   * intact, leaves the rest of the shadow stack naming the rest of the
   * chain. Below the bottom entry lies `base`, the frame pointer the runtime
   * had when the debugger attached (null for a new runtime).
   */
  predicate Shadows(s: StackState, cs: seq<FrameInfo>, base: Option<nat>)
    decreases |cs|
  {
    if cs == [] then s.fp == base
    else
      && s.fp == cs[|cs| - 1].fp && s.fp.Some? && s.sp <= s.fp.value
      && (CanReturn(s) ==> Shadows(Returned(s).value.0, cs[..|cs| - 1], base))
  }

  /**
   * What the relation means: returning `j` times through intact records
   * reaches the frame the shadow stack names `j` entries below its top, and
   * `base` once the shadow stack is used up. Above a new runtime (`base`
   * null) no return is possible after that, so the shadow stack holds
   * exactly one entry per live call frame.
   */
  lemma {:induction false} ShadowDepth(s: StackState, cs: seq<FrameInfo>, base: Option<nat>, j: nat)
    requires Shadows(s, cs, base) && j <= |cs| && Unwound(s, j).Some?
    ensures Unwound(s, j).value.fp == if j == |cs| then base else cs[|cs| - 1 - j].fp
    ensures j == |cs| && base.None? ==> Unwound(s, j + 1).None?
    decreases j
  {
    if j > 0 {
      var t := Returned(s).value.0;
      assert Unwound(s, j) == Unwound(t, j - 1);
      ShadowDepth(t, cs[..|cs| - 1], base, j - 1);
      assert Unwound(s, j + 1) == Unwound(t, j);
    } else if cs == [] && base.None? {
      assert Unwound(s, 1) == None;
    }
  }

  /**
   * The relation survives any change that keeps `fp`, lowers `sp` at most,
   * and writes only values at or above `sp` (below it, anything).
   */
  lemma {:induction false} ShadowsKept(s: StackState, t: StackState, cs: seq<FrameInfo>, base: Option<nat>)
    requires Shadows(s, cs, base) && t.fp == s.fp && t.sp <= s.sp && |t.mem| == |s.mem|
    requires forall k | s.sp <= k < |s.mem| :: t.mem[k] == s.mem[k] || t.mem[k].Val?
    ensures Shadows(t, cs, base)
    decreases |cs|
  {
    if cs != [] && CanReturn(t) {
      var f := s.fp.value;
      assert t.mem[f] == s.mem[f] && t.mem[f + 1] == s.mem[f + 1];
      ShadowsKept(Returned(s).value.0, Returned(t).value.0, cs[..|cs| - 1], base);
    }
  }

  /** Pushing a frame record and a shadow entry for it keeps the relation. */
  lemma ShadowsPush(s: StackState, ra: Option<Addr>, cs: seq<FrameInfo>, base: Option<nat>, proc: nat)
    requires s.Valid() && Shadows(s, cs, base) && Pushed(s, ra).Some?
    ensures Shadows(Pushed(s, ra).value, cs + [FrameInfo(proc, Pushed(s, ra).value.fp, 0)], base)
  {
    var t := Pushed(s, ra).value;
    var cs' := cs + [FrameInfo(proc, t.fp, 0)];
    ShadowsKept(s, t.(fp := s.fp), cs, base);
    assert cs'[..|cs'| - 1] == cs;
  }

  /** Counting more cells to the top shadow frame keeps the relation. */
  lemma ShadowsGrow(s: StackState, cs: seq<FrameInfo>, base: Option<nat>, size: nat)
    requires Shadows(s, cs, base) && cs != []
    ensures Shadows(s, GrowTop(cs, size), base)
  {
    assert GrowTop(cs, size)[..|cs| - 1] == cs[..|cs| - 1];
  }

  /** The tracked instructions keep the relation between the shadow stack and the frame chain. */
  lemma TrackingKeepsShadows(p: Program, d: DebugState, insn: Instruction, base: Option<nat>)
    requires Wf(p, d.m) && d.m.pc.Some? && TrackedInsn(insn) && Tracking(p, d, insn).Next?
    requires Shadows(d.m.stack, d.callstack, base)
    ensures Shadows(Tracking(p, d, insn).state.m.stack, Tracking(p, d, insn).state.callstack, base)
  {
    var s := d.m.stack;
    match insn
    case Alloc(size) =>
      ShadowsKept(s, Allocated(s, size).value, d.callstack, base);
      ShadowsGrow(Allocated(s, size).value, d.callstack, base, size);
    case Call(index) =>
      ShadowsPush(s, d.m.pc, d.callstack, base, index);
    case CallDynamic(src) =>
      ShadowsPush(s, d.m.pc, d.callstack, base, Loaded(s, src).value.proc);
    case Return =>
  }

  /** Every opcode the debugger executes keeps the relation between the shadow stack and the frame chain. */
  lemma DExecuteKeepsShadows(p: Program, d: DebugState, opcode: uint8, base: Option<nat>)
    requires Wf(p, d.m) && d.m.pc.Some? && DExecute(p, d, opcode).Next?
    requires Shadows(d.m.stack, d.callstack, base)
    ensures Shadows(DExecute(p, d, opcode).state.m.stack, DExecute(p, d, opcode).state.callstack, base)
  {
    var a := d.m.pc.value;
    var code := p.procs[a.proc];
    if opcode != BREAKPOINT {
      match Decode(opcode, code, a.offset)
      case Decoded(insn, next) =>
        var ks := Layout(opcode).value;
        ReadOperandsFit(code, a.offset, ks);
        BuildKind(opcode, ReadOperands(code, a.offset, ks));
        var d1 := d.(m := d.m.(pc := Some(Addr(a.proc, next))));
        if Tracked(opcode) {
          assert DExecute(p, d, opcode) == Tracking(p, d1, insn);
          TrackingKeepsShadows(p, d1, insn, base);
        } else {
          assert Execute(p, d.m, opcode) == Apply(p, d1.m, insn);
          ApplyKeepsFrame(p, d1.m, insn);
          ShadowsKept(d.m.stack, Apply(p, d1.m, insn).state.stack, d.callstack, base);
        }
      case _ =>
    }
  }

  /**
   * The debugger's invariant: the machine invariant, every entry of the
   * shadow stack names a procedure of the program, and the shadow stack
   * names the live frames above `base`, one entry per frame.
   */
  predicate Tracks(p: Program, d: DebugState, base: Option<nat>) {
    && Wf(p, d.m)
    && (forall k | 0 <= k < |d.callstack| :: d.callstack[k].proc < |p.procs|)
    && Shadows(d.m.stack, d.callstack, base)
  }

  /** The invariant does not depend on the two flags. */
  lemma TracksFlags(p: Program, d: DebugState, base: Option<nat>, paused: bool, finished: bool)
    requires Tracks(p, d, base)
    ensures Tracks(p, d.(paused := paused, finished := finished), base)
  {
  }

  /** Every step of the debugger keeps its invariant. */
  lemma DExecuteKeepsTracks(p: Program, d: DebugState, opcode: uint8, base: Option<nat>)
    requires Tracks(p, d, base) && d.m.pc.Some? && DExecute(p, d, opcode).Next?
    ensures Tracks(p, DExecute(p, d, opcode).state, base)
  {
    var d' := DExecute(p, d, opcode).state;
    DebugMovesAsRuntime(p, d, opcode);
    ExecuteKeepsWf(p, d.m, opcode);
    DebugCallstack(p, d, opcode, d');
    DExecuteKeepsShadows(p, d, opcode, base);
    if opcode == CALL || opcode == CALL_DYNAMIC {
      assert Wf(p, d'.m);
      assert d'.m.pc.value.proc < |p.procs|;
    }
  }

  /** `Debugger::step` keeps the invariant. */
  lemma DStepKeepsTracks(p: Program, d: DebugState, base: Option<nat>)
    requires Tracks(p, d, base) && DStep(p, d).Next?
    ensures Tracks(p, DStep(p, d).state, base)
  {
    var a := d.m.pc.value;
    DExecuteKeepsTracks(p, d.(m := d.m.(pc := Some(Addr(a.proc, a.offset + 1)))), p.procs[a.proc][a.offset], base);
  }

  /**
   * A new debugger satisfies the invariant, stopped at the first byte of
   * `main`, its one shadow entry naming the frame of that call above the
   * runtime's frame pointer at the time.
   */
  lemma AttachTracks(p: Program, m: Machine, main: nat)
    requires Wf(p, m) && Attach(p, m, main).Next?
    ensures Tracks(p, Attach(p, m, main).state, m.stack.fp)
  {
    CallKeepsWf(p, m, main);
    var s := Pushed(m.stack, m.pc).value;
    assert Returned(s).value.0.fp == m.stack.fp;
  }

  /** A step function that never marks the run finished, as the debugger's step does not. */
  ghost predicate Unfinishing(step: DebugState -> Outcome<DebugState>) {
    forall d :: step(d).Next? ==> !step(d).state.finished
  }

  lemma DStepUnfinishing(p: Program)
    ensures Unfinishing(DStepFn(p))
  {
  }

  /**
   * `resume` returns a breakpoint only when it stops, paused and unfinished,
   * at that breakpoint's address; otherwise it marks the run finished, which
   * leaves the program counter non-null only when the debugger was paused
   * (by the `breakpoint` instruction, or before it started).
   */
  lemma {:induction false} ResumeLoopEnds(step: DebugState -> Outcome<DebugState>, bps: map<Addr, Breakpoint>, d: DebugState, fuel: nat, d': DebugState, hit: Option<Breakpoint>)
    requires Unfinishing(step) && !d.finished && ResumeLoop(step, bps, d, fuel) == Yielded(d', hit)
    ensures hit.Some? ==> d'.paused && !d'.finished && d'.m.pc.Some? && d'.m.pc.value in bps && bps[d'.m.pc.value] == hit.value
    ensures hit.None? ==> d'.finished && (d'.m.pc.Some? ==> d'.paused)
    decreases fuel
  {
    if d.paused || d.m.pc.None? || d.m.pc.value in bps || fuel == 0 {
    } else {
      assert ResumeNext(step, bps, d, fuel - 1) == Yielded(d', hit);
      match step(d)
      case Next(d1) =>
        ResumeLoopEnds(step, bps, d1, fuel - 1, d', hit);
      case Panic(_) =>
      case Undefined =>
    }
  }

  /** `Debugger::resume` ends as its loop does. */
  lemma ResumeEnds(p: Program, bps: map<Addr, Breakpoint>, d: DebugState, skipFirst: bool, fuel: nat, d': DebugState, hit: Option<Breakpoint>)
    requires Resume(p, bps, d, skipFirst, fuel) == Yielded(d', hit)
    ensures hit.Some? ==> d'.paused && !d'.finished && d'.m.pc.Some? && d'.m.pc.value in bps && bps[d'.m.pc.value] == hit.value
    ensures hit.None? ==> d'.finished && (d'.m.pc.Some? ==> d'.paused)
  {
    match SkipFirst(p, d, skipFirst)
    case Next(d1) =>
      if skipFirst {
      }
      DStepUnfinishing(p);
      ResumeLoopEnds(DStepFn(p), bps, d1, fuel, d', hit);
  }

  /** A paused debugger told to resume without a first step marks the run finished at once and stays paused. */
  lemma ResumeWhilePaused(p: Program, bps: map<Addr, Breakpoint>, d: DebugState, fuel: nat)
    requires d.paused && !d.finished
    ensures Resume(p, bps, d, false, fuel) == Yielded(d.(finished := true), None)
  {
  }

  /**
   * `resume_with_timeout` returns a breakpoint only when it stops, paused,
   * at that breakpoint's address; it marks the run finished only at a null
   * program counter; it never finishes a paused run.
   */
  lemma {:induction false} TimeoutLoopEnds(step: DebugState -> Outcome<DebugState>, bps: map<Addr, Breakpoint>, d: DebugState, iters: nat, d': DebugState, hit: Option<Breakpoint>)
    requires Unfinishing(step) && !d.finished && TimeoutLoop(step, bps, d, iters) == Yielded(d', hit)
    ensures hit.Some? ==> d'.paused && !d'.finished && d'.m.pc.Some? && d'.m.pc.value in bps && bps[d'.m.pc.value] == hit.value
    ensures d'.finished ==> d'.m.pc.None? && !d'.paused
    decreases iters
  {
    if iters == 0 || d.paused || d.m.pc.None? || d.m.pc.value in bps {
    } else {
      assert TimeoutNext(step, bps, d, iters - 1) == Yielded(d', hit);
      match step(d)
      case Next(d1) =>
        TimeoutLoopEnds(step, bps, d1, iters - 1, d', hit);
      case Panic(_) =>
      case Undefined =>
    }
  }

  /** `Debugger::resume_with_timeout` ends as its loop does. */
  lemma ResumeWithTimeoutEnds(p: Program, bps: map<Addr, Breakpoint>, d: DebugState, skipFirst: bool, batches: nat, d': DebugState, hit: Option<Breakpoint>)
    requires batches >= 1 && ResumeWithTimeout(p, bps, d, skipFirst, batches) == Yielded(d', hit)
    ensures hit.Some? ==> d'.paused && !d'.finished && d'.m.pc.Some? && d'.m.pc.value in bps && bps[d'.m.pc.value] == hit.value
    ensures d'.finished ==> d'.m.pc.None? && !d'.paused
  {
    match SkipFirst(p, d, skipFirst)
    case Next(d1) =>
      DStepUnfinishing(p);
      TimeoutLoopEnds(DStepFn(p), bps, d1, ITERS_PER_CHECK * batches, d', hit);
  }

  /** A paused debugger asked to resume with a timeout, without a first step, returns at once and changes nothing. */
  lemma TimeoutWhilePaused(p: Program, bps: map<Addr, Breakpoint>, d: DebugState, batches: nat)
    requires d.paused && !d.finished && batches >= 1
    ensures ResumeWithTimeout(p, bps, d, false, batches) == Yielded(d, None)
  {
    assert ITERS_PER_CHECK * batches >= 1;
  }

  /**
   * The two loops agree: when the timed loop stops on its own (at a
   * breakpoint or at the end of the program) within `iters` iterations, the
   * untimed loop with as many steps stops in the same state with the same
   * result.
   */
  lemma {:induction false} TimeoutAgreesWithResume(step: DebugState -> Outcome<DebugState>, bps: map<Addr, Breakpoint>, d: DebugState, iters: nat, d': DebugState, hit: Option<Breakpoint>)
    requires Unfinishing(step) && !d.finished
    requires TimeoutLoop(step, bps, d, iters) == Yielded(d', hit) && (hit.Some? || d'.finished)
    ensures ResumeLoop(step, bps, d, iters) == Yielded(d', hit)
    decreases iters
  {
    if iters == 0 || d.paused || d.m.pc.None? || d.m.pc.value in bps {
    } else {
      assert TimeoutNext(step, bps, d, iters - 1) == Yielded(d', hit);
      assert ResumeLoop(step, bps, d, iters) == ResumeNext(step, bps, d, iters - 1);
      match step(d)
      case Next(d1) =>
        TimeoutAgreesWithResume(step, bps, d1, iters - 1, d', hit);
      case Panic(_) =>
      case Undefined =>
    }
  }

  /** One iteration of the loop of `resume` that neither stops nor runs out of fuel: its step decides the rest. */
  lemma ResumeLoopUnfold(p: Program, bps: map<Addr, Breakpoint>, d: DebugState, n: nat)
    requires Wf(p, d.m) && !d.paused && d.m.pc.Some? && d.m.pc.value !in bps && n > 0
    ensures DStep(p, d).Undefined? ==> ResumeFrom(p, bps, d, n) == Unspecified
    ensures DStep(p, d).Panic? ==> ResumeFrom(p, bps, d, n) == Aborted(DStep(p, d).fault)
    ensures DStep(p, d).Next? ==> ResumeFrom(p, bps, d, n) == ResumeFrom(p, bps, DStep(p, d).state, n - 1)
  {
    assert ResumeFrom(p, bps, d, n) == ResumeNext(DStepFn(p), bps, d, n - 1);
    assert DStepFn(p)(d) == DStep(p, d);
  }

  /** The three ways the loop of `resume` stops without stepping. */
  lemma ResumeLoopStops(p: Program, bps: map<Addr, Breakpoint>, d: DebugState, n: nat)
    ensures d.paused || d.m.pc.None? ==> ResumeFrom(p, bps, d, n) == Yielded(d.(finished := true), None)
    ensures !d.paused && d.m.pc.Some? && d.m.pc.value in bps ==>
              ResumeFrom(p, bps, d, n) == Yielded(d.(paused := true), Some(bps[d.m.pc.value]))
    ensures !d.paused && d.m.pc.Some? && d.m.pc.value !in bps && n == 0 ==> ResumeFrom(p, bps, d, n) == FuelSpent(d)
  {
  }

  /** One iteration of the loop of `resume_with_timeout` that does not return: its step decides the rest. */
  lemma TimeoutLoopUnfold(p: Program, bps: map<Addr, Breakpoint>, d: DebugState, n: nat)
    requires Wf(p, d.m) && !d.paused && d.m.pc.Some? && d.m.pc.value !in bps && n > 0
    ensures DStep(p, d).Undefined? ==> TimeoutFrom(p, bps, d, n) == Unspecified
    ensures DStep(p, d).Panic? ==> TimeoutFrom(p, bps, d, n) == Aborted(DStep(p, d).fault)
    ensures DStep(p, d).Next? ==> TimeoutFrom(p, bps, d, n) == TimeoutFrom(p, bps, DStep(p, d).state, n - 1)
  {
    assert TimeoutFrom(p, bps, d, n) == TimeoutNext(DStepFn(p), bps, d, n - 1);
    assert DStepFn(p)(d) == DStep(p, d);
  }

  /** How `resume` starts: with the loop, or with one step (`skip_first`) whose outcome decides the rest. */
  lemma ResumeStart(p: Program, bps: map<Addr, Breakpoint>, d: DebugState, skipFirst: bool, fuel: nat)
    requires Wf(p, d.m) && !d.finished
    ensures !skipFirst ==> Resume(p, bps, d, skipFirst, fuel) == ResumeFrom(p, bps, d, fuel)
    ensures skipFirst && DStep(p, d).Undefined? ==> Resume(p, bps, d, skipFirst, fuel) == Unspecified
    ensures skipFirst && DStep(p, d).Panic? ==> Resume(p, bps, d, skipFirst, fuel) == Aborted(DStep(p, d).fault)
    ensures skipFirst && DStep(p, d).Next? ==> Resume(p, bps, d, skipFirst, fuel) == ResumeFrom(p, bps, DStep(p, d).state, fuel)
  {
    assert DStepFn(p)(d) == DStep(p, d);
  }

  /** How `resume_with_timeout` starts, likewise. */
  lemma TimeoutStart(p: Program, bps: map<Addr, Breakpoint>, d: DebugState, skipFirst: bool, batches: nat)
    requires Wf(p, d.m) && !d.finished && batches >= 1
    ensures !skipFirst ==> ResumeWithTimeout(p, bps, d, skipFirst, batches) == TimeoutFrom(p, bps, d, ITERS_PER_CHECK * batches)
    ensures skipFirst && DStep(p, d).Undefined? ==> ResumeWithTimeout(p, bps, d, skipFirst, batches) == Unspecified
    ensures skipFirst && DStep(p, d).Panic? ==> ResumeWithTimeout(p, bps, d, skipFirst, batches) == Aborted(DStep(p, d).fault)
    ensures skipFirst && DStep(p, d).Next? ==>
              ResumeWithTimeout(p, bps, d, skipFirst, batches) == TimeoutFrom(p, bps, DStep(p, d).state, ITERS_PER_CHECK * batches)
  {
    assert DStepFn(p)(d) == DStep(p, d);
  }

  /** Every breakpoint's address lies inside the code of the procedure it names. */
  predicate BreakpointsValid(procs: seq<seq<uint8>>, bps: map<Addr, Breakpoint>) {
    forall a | a in bps :: a.proc < |procs| && a.offset < |procs[a.proc]| && bps[a] == BreakAt(a.proc)
  }

  /**
   * `add_breakpoint` panics exactly for an offset outside the code of an
   * existing procedure, keeps the table valid, and adds exactly the one
   * address.
   */
  lemma AddBreakpointValid(procs: seq<seq<uint8>>, bps: map<Addr, Breakpoint>, index: nat, offset: nat)
    requires BreakpointsValid(procs, bps)
    ensures AddedBreakpoint(procs, bps, index, offset).Panic? <==> index < |procs| && offset >= |procs[index]|
    ensures AddedBreakpoint(procs, bps, index, offset).Next? ==>
              var bps' := AddedBreakpoint(procs, bps, index, offset).state;
              BreakpointsValid(procs, bps') &&
              bps'.Keys == if index < |procs| then bps.Keys + {Addr(index, offset)} else bps.Keys
  {
  }

  /**
   * A breakpoint added at an address stops both resume loops there: a
   * running debugger whose program counter reaches it pauses and reports it.
   */
  lemma BreakpointStops(p: Program, bps: map<Addr, Breakpoint>, index: nat, offset: nat, bps': map<Addr, Breakpoint>, d: DebugState, n: nat)
    requires AddedBreakpoint(p.procs, bps, index, offset) == Next(bps') && index < |p.procs|
    requires d.m.pc == Some(Addr(index, offset)) && !d.paused
    ensures ResumeLoop(DStepFn(p), bps', d, n) == Yielded(d.(paused := true), Some(BreakAt(index)))
    ensures TimeoutLoop(DStepFn(p), bps', d, n + 1) == Yielded(d.(paused := true), Some(BreakAt(index)))
  {
  }
}
