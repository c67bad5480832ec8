/** What the operand-stack interpreter's instructions do to the operand stack and to the call frames. */
module StackVmProperties {
  import opened Util
  import opened Wrappers
  import opened Values
  import S = Semantics
  import opened StackVm

  /** `pop` undoes `push`. */
  lemma PopUndoesPush(stack: seq<Slot>, v: Slot)
    ensures Popped(stack + [v]) == S.Next((v, stack))
  {
    assert (stack + [v])[..|stack|] == stack;
  }

  /**
   * `pop2` returns the top first and the operand below it second: on a
   * stack that ends with `bottom, top` it yields `(top, bottom)`.
   */
  lemma Pop2Order(rest: seq<Slot>, bottom: Slot, top: Slot)
    ensures Popped2(rest + [bottom, top]) == S.Next((top, bottom, rest))
  {
    PopUndoesPush(rest + [bottom], top);
    assert rest + [bottom, top] == rest + [bottom] + [top];
    PopUndoesPush(rest, bottom);
  }

  /** `pop2_i64` likewise, on two integer operands. */
  lemma Pop2I64Order(rest: seq<Slot>, bottom: int64, top: int64)
    ensures Popped2I64(rest + [Some(S64(bottom)), Some(S64(top))]) == S.Next((top, bottom, rest))
  {
    PopUndoesPush(rest + [Some(S64(bottom))], Some(S64(top)));
    assert rest + [Some(S64(bottom)), Some(S64(top))] == rest + [Some(S64(bottom))] + [Some(S64(top))];
    PopUndoesPush(rest, Some(S64(bottom)));
  }

  /** The top frame with its offset replaced. */
  function WithOffset(frames: seq<Frame>, offset: uint64): seq<Frame>
    requires frames != []
  {
    frames[..|frames| - 1] + [frames[|frames| - 1].(offset := offset)]
  }

  /** Whether the top frame exists and its offset can be advanced by one without overflow. */
  predicate CanAdvance(s: VmState) {
    s.frames != [] && s.frames[|s.frames| - 1].offset + 1 < WORD
  }

  /**
   * `inc_pc` adds exactly one to the top frame's offset and changes
   * nothing else; it panics exactly when there is no frame.
   */
  lemma IncPcAdvances(s: VmState)
    ensures PcIncremented(s).Panic? <==> s.frames == []
    ensures PcIncremented(s).Next? <==> CanAdvance(s)
    ensures CanAdvance(s) ==>
              PcIncremented(s).state == s.(frames := WithOffset(s.frames, s.frames[|s.frames| - 1].offset + 1))
  {
    if CanAdvance(s) {
      var n := |s.frames| - 1;
      assert s.frames[n := s.frames[n].(offset := s.frames[n].offset + 1)] == WithOffset(s.frames, s.frames[n].offset + 1);
    }
  }

  /**
   * Every instruction other than a call or a jump advances the top frame's
   * offset by exactly one and leaves the other frames and the constants as
   * they were.
   */
  lemma AdvancesByOne(s: VmState, insn: Insn, fpu: FloatUnit)
    requires !Control(insn) && Eval(s, insn, fpu).Next?
    ensures CanAdvance(s)
    ensures Eval(s, insn, fpu).state.frames == WithOffset(s.frames, s.frames[|s.frames| - 1].offset + 1)
    ensures Eval(s, insn, fpu).state.constants == s.constants
  {
    var s1 := Effect(s, insn, fpu).state;
    IncPcAdvances(s1);
  }

  /**
   * `Jump(d)` adds `d` to the jump's own offset, wrapping around `usize`,
   * with no further increment; the operand stack is unchanged. Without a
   * frame it panics.
   */
  lemma JumpMoves(s: VmState, d: int32, fpu: FloatUnit)
    ensures Eval(s, Jump(d), fpu).Panic? <==> s.frames == []
    ensures s.frames != [] ==>
              var top := s.frames[|s.frames| - 1];
              Eval(s, Jump(d), fpu) == S.Next(s.(frames := WithOffset(s.frames, (top.offset + d) % WORD)))
    ensures s.frames != [] && 0 <= s.frames[|s.frames| - 1].offset + d < WORD ==>
              Eval(s, Jump(d), fpu).state.frames[|s.frames| - 1].offset == s.frames[|s.frames| - 1].offset + d
  {
    if s.frames != [] {
      var n := |s.frames| - 1;
      var o := (s.frames[n].offset + d) % WORD;
      assert s.frames[n := s.frames[n].(offset := o)] == WithOffset(s.frames, o);
    }
  }

  /**
   * An integer instruction replaces the two operands on top of the stack by
   * `bottom OP top`, so the stack shrinks by one; a panic of the operation
   * (division by zero, `i64::MIN / -1`) is the instruction's panic.
   */
  lemma IntArithOnTop(s: VmState, op: ArithOp, rest: seq<Slot>, bottom: int64, top: int64, fpu: FloatUnit)
    requires s.stack == rest + [Some(S64(bottom)), Some(S64(top))]
    ensures S.IntOp(op, bottom, top).Panic? ==> Eval(s, ArithI64(op), fpu) == S.Panic(S.IntOp(op, bottom, top).fault)
    ensures S.IntOp(op, bottom, top).Undefined? ==> Eval(s, ArithI64(op), fpu).Undefined?
    ensures S.IntOp(op, bottom, top).Next? && CanAdvance(s) ==>
              && Eval(s, ArithI64(op), fpu).Next?
              && Eval(s, ArithI64(op), fpu).state.stack == rest + [Some(S64(S.IntOp(op, bottom, top).state))]
              && |Eval(s, ArithI64(op), fpu).state.stack| == |s.stack| - 1
  {
    Pop2I64Order(rest, bottom, top);
    if S.IntOp(op, bottom, top).Next? {
      IncPcAdvances(IntArith(s, op).state);
    }
  }

  /**
   * `swap` exchanges the top two cells and keeps the length; it panics on a
   * stack of fewer than two cells.
   */
  lemma SwapExchanges(s: VmState)
    ensures Swapped(s).Next? <==> |s.stack| >= 2
    ensures Swapped(s).Panic? <==> |s.stack| < 2
    ensures |s.stack| >= 2 ==>
              var n := |s.stack|;
              Swapped(s).state == s.(stack := s.stack[..n - 2] + [s.stack[n - 1], s.stack[n - 2]])
  {
    if |s.stack| >= 2 {
      var n := |s.stack|;
      assert s.stack == s.stack[..n - 2] + [s.stack[n - 2], s.stack[n - 1]];
      Pop2Order(s.stack[..n - 2], s.stack[n - 2], s.stack[n - 1]);
    } else if |s.stack| == 1 {
      assert Popped(s.stack).state.1 == [];
    }
  }

  /** Swapping twice restores the stack. */
  lemma SwapTwice(s: VmState)
    requires Swapped(s).Next?
    ensures Swapped(Swapped(s).state) == S.Next(s)
  {
    SwapExchanges(s);
    var s1 := Swapped(s).state;
    SwapExchanges(s1);
    var n := |s.stack|;
    assert s1.stack[..n - 2] == s.stack[..n - 2];
    assert s1.stack[..n - 2] + [s1.stack[n - 1], s1.stack[n - 2]] == s.stack;
  }

  /** `copy` pushes a duplicate of the top: on a non-empty stack it is `load(0)`. */
  lemma CopyIsLoadZero(s: VmState)
    ensures Copied(s).Panic? <==> s.stack == []
    ensures s.stack != [] ==> Copied(s) == LoadedAt(s, 0) && Copied(s).state.stack == s.stack + [s.stack[|s.stack| - 1]]
  {
  }

  /**
   * `load(k)` pushes the cell `k` below the top (`k = 0` is the top
   * itself), and panics when there is no such cell.
   */
  lemma LoadPicks(s: VmState, k: nat)
    ensures LoadedAt(s, k).Next? <==> k < |s.stack|
    ensures LoadedAt(s, k).Panic? <==> k >= |s.stack|
    ensures k < |s.stack| ==> LoadedAt(s, k).state == s.(stack := s.stack + [s.stack[|s.stack| - 1 - k]])
  {
  }

  /**
   * `store(k)` pops the top and overwrites the cell `k` below the new top
   * with it: the stack shrinks by one, that cell holds the old top and
   * every other cell is unchanged.
   */
  lemma StoreWrites(s: VmState, k: nat)
    ensures StoredAt(s, k).Next? <==> k + 2 <= |s.stack|
    ensures StoredAt(s, k).Panic? <==> k + 2 > |s.stack|
    ensures k + 2 <= |s.stack| ==>
              var n := |s.stack| - 1;
              var s' := StoredAt(s, k).state;
              && s'.constants == s.constants && s'.frames == s.frames
              && |s'.stack| == n
              && s'.stack[n - 1 - k] == s.stack[n]
              && forall j | 0 <= j < n && j != n - 1 - k :: s'.stack[j] == s.stack[j]
  {
  }

  /** A `load(k)` right after a `store(k)` pushes the stored cell back. */
  lemma StoreThenLoad(s: VmState, k: nat)
    requires StoredAt(s, k).Next?
    ensures var s' := StoredAt(s, k).state;
            LoadedAt(s', k) == S.Next(s'.(stack := s'.stack + [s.stack[|s.stack| - 1]]))
  {
    StoreWrites(s, k);
  }

  /** `stack_alloc(n)` pushes exactly `n` units and advances the offset. */
  lemma StackAllocPushesUnits(s: VmState, n: uint32, fpu: FloatUnit)
    requires CanAdvance(s)
    ensures Eval(s, StackAlloc(n), fpu).Next?
    ensures var s' := Eval(s, StackAlloc(n), fpu).state;
            && |s'.stack| == |s.stack| + n
            && s'.stack[..|s.stack|] == s.stack
            && forall j | |s.stack| <= j < |s'.stack| :: s'.stack[j] == UNIT
  {
    var s1 := s.(stack := s.stack + Units(n));
    IncPcAdvances(s1);
    assert s1.stack[..|s.stack|] == s.stack;
  }

  /** `load_const(i)` pushes the constant; a procedure is pushed as a pointer to itself. */
  lemma LoadConstPushes(s: VmState, i: nat)
    ensures ConstLoaded(s, i).Panic? <==> i >= |s.constants|
    ensures i < |s.constants| ==>
              var c := s.constants[i];
              var top := ConstLoaded(s, i).state.stack[|s.stack|];
              && ConstLoaded(s, i).state.stack[..|s.stack|] == s.stack
              && (c.IntConst? ==> ReadI64(top) == Some(c.i))
              && (c.FloatConst? ==> ReadF64(top) == Some(c.f))
              && (c.ProcConst? ==> top == Some(ProcRef(i)) && IsProcPointer(s, top.value))
  {
    if i < |s.constants| {
      assert ConstLoaded(s, i).state.stack[..|s.stack|] == s.stack;
    }
  }

  /**
   * `push_call_frame(i)` enters constant `i` at offset 0 when it is a
   * procedure, and panics otherwise.
   */
  lemma EnterPanics(s: VmState, i: nat)
    ensures Entered(s, i).Panic? <==> i >= |s.constants| || !s.constants[i].ProcConst?
    ensures Entered(s, i).Next? <==> i < |s.constants| && s.constants[i].ProcConst?
    ensures Entered(s, i).Next? ==> Entered(s, i).state == s.(frames := s.frames + [Frame(s.constants[i].code, 0)])
  {
  }

  /**
   * `CallImmediate(i)` advances the caller's offset by one, then enters the
   * procedure at offset 0: a return to the caller resumes after the call.
   */
  lemma CallImmediateEnters(s: VmState, i: uint32, fpu: FloatUnit)
    requires CanAdvance(s) && i < |s.constants| && s.constants[i].ProcConst?
    ensures Eval(s, CallImmediate(i), fpu).Next?
    ensures Eval(s, CallImmediate(i), fpu).state ==
              s.(frames := WithOffset(s.frames, s.frames[|s.frames| - 1].offset + 1) + [Frame(s.constants[i].code, 0)])
  {
    IncPcAdvances(s);
  }

  /**
   * `Call` pops a procedure pointer, advances the caller's offset by one and
   * enters the procedure at offset 0.
   */
  lemma CallEnters(s: VmState, rest: seq<Slot>, i: nat, fpu: FloatUnit)
    requires CanAdvance(s) && s.stack == rest + [Some(ProcRef(i))]
    requires i < |s.constants| && s.constants[i].ProcConst?
    ensures Eval(s, Call, fpu).Next?
    ensures Eval(s, Call, fpu).state ==
              s.(stack := rest, frames := WithOffset(s.frames, s.frames[|s.frames| - 1].offset + 1) + [Frame(s.constants[i].code, 0)])
  {
    IncPcAdvances(s);
    PopUndoesPush(rest, Some(ProcRef(i)));
  }

  /**
   * `run` pops a frame whose offset is at or past the end of its code, so
   * the frame below (the caller) runs on from its own offset.
   */
  lemma RunReturns(s: VmState, fpu: FloatUnit)
    requires s.frames != [] && s.frames[|s.frames| - 1].offset >= |s.frames[|s.frames| - 1].code|
    ensures RunStep(s, fpu) == S.Next(s.(frames := s.frames[..|s.frames| - 1]))
    ensures |RunStep(s, fpu).state.frames| == |s.frames| - 1
  {
  }

  /** `run` stops exactly when no frame remains. */
  lemma {:induction false} RunEndsWithoutFrames(s: VmState, fpu: FloatUnit, fuel: nat)
    ensures s.frames == [] ==> RunLoop(s, fpu, fuel) == Finished(s)
    ensures RunLoop(s, fpu, fuel).Finished? ==> RunLoop(s, fpu, fuel).state.frames == []
    ensures RunLoop(s, fpu, fuel).OutOfFuel? ==> RunLoop(s, fpu, fuel).state.frames != []
    decreases fuel
  {
    if s.frames != [] && fuel > 0 {
      assert RunLoop(s, fpu, fuel) == RunNext(s, fpu, fuel - 1);
      match RunStep(s, fpu)
      case Next(s') => RunEndsWithoutFrames(s', fpu, fuel - 1);
      case Panic(_) =>
      case Undefined =>
    }
  }

  /** More fuel does not change a run that ended within the fuel it had. */
  lemma {:induction false} RunMoreFuel(s: VmState, fpu: FloatUnit, fuel: nat, more: nat)
    requires !RunLoop(s, fpu, fuel).OutOfFuel?
    ensures RunLoop(s, fpu, fuel + more) == RunLoop(s, fpu, fuel)
    decreases fuel
  {
    if s.frames != [] {
      assert RunLoop(s, fpu, fuel) == RunNext(s, fpu, fuel - 1);
      assert RunLoop(s, fpu, fuel + more) == RunNext(s, fpu, fuel + more - 1);
      match RunStep(s, fpu)
      case Next(s') => RunMoreFuel(s', fpu, fuel - 1, more);
      case Panic(_) =>
      case Undefined =>
    }
  }
}
