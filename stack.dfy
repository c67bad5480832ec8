/**
 * The call stack of the register machine: a fixed block of cells that grows
 * downwards, a stack pointer `sp` (the lowest allocated cell) and a frame
 * pointer `fp` (the frame record of the running call, or null).
 *
 * A frame record is two cells: at `fp` the caller's frame pointer, at
 * `fp + 1` the return address. Slot `s >= 0` of the running call is the cell
 * `fp - 1 - s` (its locals, below the record); slot `s < 0` is the cell
 * `fp + 1 - s` (parameters and results, above the record, `-1` nearest).
 *
 * Pointers are cell indices. An access through a raw pointer that would
 * leave the block, or a read of an uninitialised cell, is undefined
 * behaviour. A frame-record cell read as a value gives, in the original, the
 * address saved there; the model has no addresses and cannot express it.
 * Likewise a `return` through a record whose cells a store has overwritten
 * follows whatever bits the values left there. The pure operations below
 * return `None` for all of these, and the methods require them not to occur.
 */
module FrameStack {
  import opened Util
  import opened Wrappers
  import opened Values

  /** One cell of the block. */
  datatype Cell =
    | Val(v: Value)                 // a value written by a store
    | Link(caller: Option<nat>)     // first half of a frame record: the caller's frame pointer
    | Ret(ra: Option<Addr>)         // second half of a frame record: the return address
    | Uninit                        // never written

  datatype StackState = StackState(mem: seq<Cell>, sp: nat, fp: Option<nat>) {
    predicate Valid() {
      sp <= |mem|
    }
  }

  /** The cell index slot `slot` names in the frame whose record is at `fp`. */
  function SlotIndex(fp: nat, slot: int16): int {
    if slot < 0 then fp + 1 - slot else fp - 1 - slot
  }

  /**
   * The slot names a cell of the block. Slot `-32768` is excluded: its
   * negation overflows `i16`.
   */
  predicate SlotOk(s: StackState, slot: int16) {
    s.fp.Some? && slot != -0x8000 && 0 <= SlotIndex(s.fp.value, slot) < |s.mem|
  }

  /** `Stack::new`: `size` uninitialised cells, `sp` one past the top, `fp` null. */
  function Empty(size: nat): (s: StackState)
    ensures s.Valid() && |s.mem| == size && s.sp == size && s.fp.None?
    ensures forall k | 0 <= k < size :: s.mem[k].Uninit?
  {
    StackState(seq(size, _ => Uninit), size, None)
  }

  /** `alloc`: reserves `n` cells below `sp`; moving `sp` below the block is undefined. */
  function Allocated(s: StackState, n: nat): (r: Option<StackState>)
    ensures r.Some? <==> n <= s.sp
    ensures r.Some? ==> r.value.sp + n == s.sp && r.value.mem == s.mem && r.value.fp == s.fp
  {
    if n <= s.sp then Some(s.(sp := s.sp - n)) else None
  }

  /** `load`: the value in a slot; `None` when the slot is outside the block or holds no value. */
  function Loaded(s: StackState, slot: int16): (r: Option<Value>)
    ensures r.Some? ==> SlotOk(s, slot) && s.mem[SlotIndex(s.fp.value, slot)] == Val(r.value)
    ensures SlotOk(s, slot) && s.mem[SlotIndex(s.fp.value, slot)].Val? ==> r.Some?
  {
    if SlotOk(s, slot) && s.mem[SlotIndex(s.fp.value, slot)].Val? then
      Some(s.mem[SlotIndex(s.fp.value, slot)].v)
    else None
  }

  /** `store`: writes a value into a slot; `None` when the slot is outside the block. */
  function Stored(s: StackState, slot: int16, v: Value): (r: Option<StackState>)
    ensures r.Some? <==> SlotOk(s, slot)
    ensures r.Some? ==> r.value.sp == s.sp && r.value.fp == s.fp && |r.value.mem| == |s.mem|
  {
    if SlotOk(s, slot) then Some(s.(mem := s.mem[SlotIndex(s.fp.value, slot) := Val(v)])) else None
  }

  /**
   * `push_frame`: reserves two cells, makes them the new frame record
   * (caller's `fp`, then `ra`) and points `fp` at it.
   */
  function Pushed(s: StackState, ra: Option<Addr>): (r: Option<StackState>)
    requires s.Valid()
    ensures r.Some? <==> s.sp >= 2
    ensures r.Some? ==> r.value.Valid() && r.value.sp + 2 == s.sp && r.value.fp == Some(r.value.sp)
  {
    if s.sp >= 2 then
      var f := s.sp - 2;
      Some(StackState(s.mem[f := Link(s.fp)][f + 1 := Ret(ra)], f, Some(f)))
    else None
  }

  /** The running call has an intact frame record inside the block. */
  predicate CanReturn(s: StackState) {
    s.fp.Some? && s.fp.value + 1 < |s.mem| && s.mem[s.fp.value].Link? && s.mem[s.fp.value + 1].Ret?
  }

  /**
   * `return_call`: restores the caller's frame pointer and yields the return
   * address; `sp` stays where it is. `None` when there is no intact record.
   */
  function Returned(s: StackState): (r: Option<(StackState, Option<Addr>)>)
    ensures r.Some? <==> CanReturn(s)
    ensures r.Some? ==> r.value.0 == s.(fp := s.mem[s.fp.value].caller) && r.value.1 == s.mem[s.fp.value + 1].ra
  {
    if CanReturn(s) then
      var f := s.fp.value;
      Some((s.(fp := s.mem[f].caller), s.mem[f + 1].ra))
    else None
  }

  /** The frame record of the running call, when it is intact: the caller's frame pointer and the return address. */
  function Record(s: StackState): (r: Option<(Option<nat>, Option<Addr>)>)
    ensures r.Some? <==> CanReturn(s)
    ensures r.Some? ==> Returned(s) == Some((s.(fp := r.value.0), r.value.1))
  {
    if CanReturn(s) then Some((s.mem[s.fp.value].caller, s.mem[s.fp.value + 1].ra)) else None
  }

  /**
   * `n` returns in a row, each through an intact frame record; `None` once
   * one of them finds none. Returns move only `fp`.
   */
  function Unwound(s: StackState, n: nat): (r: Option<StackState>)
    ensures r.Some? ==> r.value.mem == s.mem && r.value.sp == s.sp
    decreases n
  {
    if n == 0 then Some(s)
    else
      match Returned(s)
      case None => None
      case Some((t, _)) => Unwound(t, n - 1)
  }

  /** `t` is `s` with some cells overwritten by values: no frame record is written. */
  predicate ValueWrites(s: StackState, t: StackState) {
    |t.mem| == |s.mem| && forall k | 0 <= k < |s.mem| :: t.mem[k] == s.mem[k] || t.mem[k].Val?
  }

  /** Distinct slots of one frame are distinct cells, and no slot is a cell of the frame record. */
  lemma SlotsDistinct(fp: nat, a: int16, b: int16)
    requires a != -0x8000 && b != -0x8000
    ensures a != b ==> SlotIndex(fp, a) != SlotIndex(fp, b)
    ensures SlotIndex(fp, a) != fp && SlotIndex(fp, a) != fp + 1
  {
  }

  /** A stored value is loaded back from the same slot. */
  lemma LoadAfterStore(s: StackState, slot: int16, v: Value)
    requires Stored(s, slot, v).Some?
    ensures Loaded(Stored(s, slot, v).value, slot) == Some(v)
  {
  }

  /** A store changes only its own slot: every other slot loads what it loaded before. */
  lemma StoreKeepsOtherSlots(s: StackState, slot: int16, v: Value, other: int16)
    requires Stored(s, slot, v).Some? && other != slot
    ensures Loaded(Stored(s, slot, v).value, other) == Loaded(s, other)
  {
    if s.fp.Some? && other != -0x8000 {
      SlotsDistinct(s.fp.value, slot, other);
    }
  }

  /** A store never touches the frame record, so the running call can still return as before. */
  lemma StoreKeepsRecord(s: StackState, slot: int16, v: Value)
    requires Stored(s, slot, v).Some?
    ensures Returned(Stored(s, slot, v).value) == (if CanReturn(s) then Some((Returned(s).value.0.(mem := Stored(s, slot, v).value.mem), Returned(s).value.1)) else None)
    ensures Record(Stored(s, slot, v).value) == Record(s) && ValueWrites(s, Stored(s, slot, v).value)
  {
    SlotsDistinct(s.fp.value, slot, slot);
  }

  /**
   * Returning right after pushing a frame gives back the return address that
   * was pushed and the caller's frame pointer; the two cells the frame
   * record took stay reserved, so `sp` ends two below where it was.
   */
  lemma PushThenReturn(s: StackState, ra: Option<Addr>)
    requires s.Valid() && Pushed(s, ra).Some?
    ensures Returned(Pushed(s, ra).value).Some?
    ensures var (t, back) := Returned(Pushed(s, ra).value).value;
            back == ra && t.fp == s.fp && t.sp + 2 == s.sp &&
            |t.mem| == |s.mem| && forall k | 0 <= k < |s.mem| && k != t.sp && k != t.sp + 1 :: t.mem[k] == s.mem[k]
  {
  }

  /**
   * Argument passing: in a callee entered when the caller's `sp` was `L`
   * cells below the caller's frame record (the caller has `L` locals), the
   * callee's slot `-k` is the caller's slot `L - k`.
   */
  lemma ParameterIsCallerLocal(s: StackState, ra: Option<Addr>, locals: nat, k: int16)
    requires s.Valid() && Pushed(s, ra).Some?
    requires s.fp.Some? && s.sp + locals == s.fp.value
    requires 1 <= k <= locals && locals - k < 0x8000
    ensures SlotIndex(Pushed(s, ra).value.fp.value, -k) == SlotIndex(s.fp.value, (locals - k) as int16)
  {
  }

  /**
   * A value the callee stores into its parameter slot `-k` is what the caller
   * loads from its local slot `locals - k` once the callee has returned.
   */
  lemma ResultReachesCaller(s: StackState, ra: Option<Addr>, locals: nat, k: int16, v: Value)
    requires s.Valid() && Pushed(s, ra).Some?
    requires s.fp.Some? && s.sp + locals == s.fp.value && s.fp.value < |s.mem|
    requires 1 <= k <= locals && locals - k < 0x8000
    ensures Stored(Pushed(s, ra).value, -k, v).Some?
    ensures var callee := Stored(Pushed(s, ra).value, -k, v).value;
            Returned(callee).Some? &&
            Loaded(Returned(callee).value.0, (locals - k) as int16) == Some(v)
  {
    var pushed := Pushed(s, ra).value;
    ParameterIsCallerLocal(s, ra, locals, k);
    LoadAfterStore(pushed, -k, v);
    SlotsDistinct(pushed.fp.value, -k, -k);
  }

  /** The stack as the interpreter owns it: a boxed block of cells with the two pointers. */
  class Stack {
    const cells: array<Cell>
    var sp: nat
    var fp: Option<nat>

    predicate Valid()
      reads this
    {
      sp <= cells.Length
    }

    function State(): StackState
      reads this, cells
    {
      StackState(cells[..], sp, fp)
    }

    /** `Stack::new` */
    constructor (size: nat)
      ensures Valid() && State() == Empty(size) && fresh(cells)
    {
      cells := new Cell[size](_ => Uninit);
      sp := size;
      fp := None;
    }

    /** `alloc` */
    method Alloc(n: nat)
      requires Valid() && n <= sp
      modifies this`sp
      ensures Valid() && Some(State()) == Allocated(old(State()), n)
    {
      sp := sp - n;
    }

    /** `load` */
    method Load(slot: int16) returns (v: Value)
      requires Valid() && Loaded(State(), slot).Some?
      ensures Some(v) == Loaded(State(), slot)
    {
      var f := fp.value;
      if slot < 0 {
        v := cells[f + 1 + (-slot)].v;
      } else {
        v := cells[f - 1 - slot].v;
      }
    }

    /** `store` */
    method Store(slot: int16, v: Value)
      requires Valid() && SlotOk(State(), slot)
      modifies cells
      ensures Valid() && Some(State()) == Stored(old(State()), slot, v)
    {
      var f := fp.value;
      if slot < 0 {
        cells[f + 1 + (-slot)] := Val(v);
      } else {
        cells[f - 1 - slot] := Val(v);
      }
    }

    /** `push_frame` */
    method PushFrame(ra: Option<Addr>)
      requires Valid() && sp >= 2
      modifies this`sp, this`fp, cells
      ensures Valid() && Some(State()) == Pushed(old(State()), ra)
    {
      var oldFp := fp;
      Alloc(2);
      fp := Some(sp);
      cells[sp] := Link(oldFp);
      cells[sp + 1] := Ret(ra);
    }

    /** `return_call` */
    method ReturnCall() returns (ra: Option<Addr>)
      requires Valid() && CanReturn(State())
      modifies this`fp
      ensures Valid() && Some((State(), ra)) == Returned(old(State()))
    {
      var f := fp.value;
      fp := cells[f].caller;
      ra := cells[f + 1].ra;
    }
  }
}
