# simple-vm, modelled in Dafny

This project models the core of `simple-vm`, a small bytecode virtual machine written in Rust, and proves properties of the model. The model has five parts.

- **The byte writer and the instruction set.** The `Write` trait writes little-endian integers into a `Vec<u8>` (`src/util.rs`). The opcode list (`src/opcodes.rs`) gives every instruction an opcode byte followed by its fixed-width operand fields. `Instruction::write` and `Instruction::read` encode and decode them.
- **The register machine's call stack.** `src/runtime/stack.rs` keeps a fixed block of 4096 cells that grows downwards, with a stack pointer `sp` and a frame pointer `fp`. A frame record is two cells: the caller's frame pointer and the return address. Slot `s >= 0` is a local below the record; slot `s < 0` is a parameter or result above it.
- **The register machine** (`src/runtime.rs`). `fetch` reads an opcode byte at the program counter and `execute` reads its operands and performs the instruction. `run` repeats this until the program counter is null.
- **The debugger** (`src/runtime/debug.rs`). It handles `alloc`, `call`, `call_dynamic` and `return` itself so that its shadow call stack stays in step. It turns `breakpoint` into a pause and keeps a table of breakpoints by code address. It offers `step`, `resume` and `resume_with_timeout`.
- **The older operand-stack interpreter** (`src/rt.rs`). It has a constant table of integers, floats and procedures, a stack of call frames (code plus offset) and an operand stack of untagged values. `run` evaluates the top frame's instruction until no frame is left.

Files:
- `util.dfy`: integer types, their little-endian images and the class `ByteVec`, the `Write` implementation for `Vec<u8>`.
- `values.dfy`: the `Value` union, its views, float bits and the arithmetic operations.
- `opcodes.dfy`: opcode numbers, the operand layouts, encoding, decoding and their round trip.
- `stack.dfy`: the cell block as pure functions and as the class `Stack` over an `array`.
- `semantics.dfy` and `properties.dfy`: the meaning of an instruction, a step and a run of the register machine, and what is proved about them.
- `runtime.dfy`: the class `Runtime`, each method proved against the functions of `semantics.dfy`.
- `debug_semantics.dfy`, `debug_properties.dfy` and `debugger.dfy`: the same three layers for the debugger.
- `rt.dfy` and `rt_properties.dfy`: the operand-stack interpreter, as functions, the class `Runtime` and lemmas.

Every step of a machine ends in one of three ways:
- the next state;
- a panic of the Rust program (`Fault`): an index out of range, an unknown opcode, a division by zero, `i64::MIN / -1`, or an `unwrap` on `None`;
- `Undefined`.

`Undefined` covers four things:
- behaviour the Rust code leaves undefined: a raw pointer leaving its allocation, a read of an uninitialised cell (a stack cell never written, or a `UNIT` cell of `rt.rs`), or a call through a procedure pointer that holds no procedure;
- a pointer read as a number, which the Rust code defines (it yields the address) but the model cannot express, since its pointers are indices: a procedure pointer read as an `i64` or `f64`, a frame-record cell of the call stack loaded as a value, or a `return` through a frame record whose cells were overwritten by values;
- an integer overflow whose outcome depends on the build profile;
- a debug assertion whose outcome depends on the build profile.

The model promises nothing about `Undefined`. The methods require that it does not occur. Loops that need not end (`run`, `resume`) take a fuel bound.

Behaviour of the code worth noting:
- `Debugger::new` starts the debugger paused. So `resume(false)` on a fresh debugger returns no breakpoint at once and marks the run finished, with the program counter still set (`ResumeWhilePaused`). `resume_with_timeout(false, _)` returns at once and leaves the flags unchanged (`TimeoutWhilePaused`).
- A division by zero or `i64::MIN / -1` of the integer instructions is a panic, not undefined behaviour: that is what Rust's `/` and `%` on `i64` do.
- `runtime.rs` and `debug.rs` import instructions the opcode list of `opcodes.rs` does not declare: `MoveValue`, `LoadProc`, `Branch`, the six conditional branches, `AddS64` … `RemS64`, `PrintS64` and `Breakpoint`.
  - `Branch` is the listed `jump`, which has the same `i32` operand.
  - `AddS64` … `RemS64` are the listed `add_i64` … `rem_i64`.
  - `PrintS64` is `print_i64`.
  - The others get the opcode numbers 21 to 29, after the 21 listed ones. No proof depends on those numbers beyond their being distinct.

## Model

| member | source | states |
|---|---|---|
| Util.Image | src/util.rs:8-38 | the unsigned image `to_ne_bytes` encodes lies below `2^(8·width)`, is congruent to the number, and is the number itself (or the number plus the modulus when negative) for a value of the type |
| Util.Interpret | src/runtime.rs:295-304 | reading an image back gives a value of the type, congruent to the image |
| Util.FromBytes | src/runtime.rs:295-304 | `read_unaligned` of `width` bytes gives a value of the type read |
| Util.FromCode | src/runtime.rs:295-304 | reading a type's width of bytes at an offset of the code gives a value of that type |
| Util.FromCodeSlice | src/runtime.rs:295-304 | reading at an offset of the code is reading the slice of the type's width that starts there |
| Util.LeLength | src/util.rs:8-38 | `write_*` writes exactly the type's width in bytes |
| Util.ToBytesRoundTrip | src/util.rs:8-38 | reading back the bytes written for a value of the type gives that value |
| Util.FromBytesRoundTrip | src/runtime.rs:295-304 | writing back the value read from `width` bytes gives those bytes |
| Util.SameBitsSameBytes | src/util.rs:8-38 | a signed and an unsigned number of the same width and bits write the same bytes |
| Util.ByteVec.constructor | src/util.rs:41-45 | a new vector holds no bytes |
| Util.ByteVec.Write | src/util.rs:41-45 | `write` appends exactly the given bytes |
| Util.ByteVec.WriteI8 | src/util.rs:8-10 | appends the 1-byte image of the `i8` |
| Util.ByteVec.WriteU8 | src/util.rs:12-14 | appends the 1-byte image of the `u8` |
| Util.ByteVec.WriteI16 | src/util.rs:16-18 | appends the 2-byte little-endian image of the `i16` |
| Util.ByteVec.WriteU16 | src/util.rs:20-22 | appends the 2-byte little-endian image of the `u16` |
| Util.ByteVec.WriteI32 | src/util.rs:24-26 | appends the 4-byte little-endian image of the `i32` |
| Util.ByteVec.WriteU32 | src/util.rs:28-30 | appends the 4-byte little-endian image of the `u32` |
| Util.ByteVec.WriteI64 | src/util.rs:32-34 | appends the 8-byte little-endian image of the `i64` |
| Util.ByteVec.WriteU64 | src/util.rs:36-38 | appends the 8-byte little-endian image of the `u64` |
| Values.AsS64 | src/value.rs:16-21 | the `s64` view of a value: the integer written, or a float's bits reinterpreted; a procedure pointer has none |
| Values.AsF64 | src/value.rs:16-21 | the `f64` view: the float written, or an integer's bits reinterpreted; a procedure pointer has none |
| Values.AsProc | src/value.rs:16-21 | the `proc` view exists exactly for a procedure pointer, and is that procedure |
| Values.ReinterpretRoundTrip | src/value.rs:16-21 | an integer read as a float and back, or a float read as an integer and back, is unchanged |
| Opcodes.Fields | src/opcodes.rs:50-54 | every operand field of an instruction holds a value of its declared type |
| Opcodes.EncodeOperands | src/opcodes.rs:63-68 | the operand bytes are as long as the sum of the field widths |
| Opcodes.WidthUpToBound | src/opcodes.rs:72-79 | the first `k` fields of a layout end within the whole layout |
| Opcodes.TotalWidthSnoc | src/opcodes.rs:72-79 | one more field adds its width to the layout's width |
| Opcodes.WriteOperand | src/opcodes.rs:66 | writing one field appends its little-endian image |
| Opcodes.WriteOperands | src/opcodes.rs:65-67 | writing the fields in declared order appends their images one after the other |
| Opcodes.WrittenOneMore | src/opcodes.rs:65-67 | writing field `k` after the first `k` fields leaves the first `k + 1` written |
| Opcodes.WriteInstruction | src/opcodes.rs:63-68 | `write` appends the opcode byte followed by the operand bytes |
| Opcodes.ReadOperands | src/opcodes.rs:72-79 | reading the layout's fields gives one value per field |
| Opcodes.ReadUpToSnoc | src/opcodes.rs:72-79 | a field added to the layout leaves the reads of the earlier fields, and where they end, unchanged |
| Opcodes.ReadOperandsSnoc | src/opcodes.rs:72-79 | reading one more field reads it right after the others |
| Opcodes.ReadOperandsFit | src/opcodes.rs:72-79 | every field read holds a value of its type |
| Opcodes.Decode | src/opcodes.rs:72-79 | a decoded instruction ends inside the code, after its operands |
| Opcodes.DecodeAt | src/runtime.rs:115-117 | `fetch` and `read` together consume at least the opcode byte and stay inside the code |
| Opcodes.LayoutOfOpcode | src/opcodes.rs:45-58 | the opcode of every instruction is known, and its layout is the list of the instruction's field types |
| Opcodes.BuildFields | src/opcodes.rs:72-79 | assembling an instruction from its own opcode and field values gives back the instruction |
| Opcodes.EncodedLength | src/opcodes.rs:63-68 | an encoded instruction is one byte plus the width of its opcode's layout |
| Opcodes.ReadEncodedOperands | src/opcodes.rs:63-79 | reading operand fields where they were written gives back their values |
| Opcodes.DecodeFields | src/opcodes.rs:72-79 | decoding at an opcode byte whose operands read back as `vs` gives the instruction built from `vs`, and the offset just past the operands |
| Opcodes.DecodeEncoded | src/opcodes.rs:62-80 | decoding the bytes `write` produced gives back the instruction and the offset just past its encoding |
| Opcodes.DecodeOccurring | src/opcodes.rs:62-80 | decoding where an instruction's encoding is found gives that instruction and the given offset just past it |
| Opcodes.DecodeBuilt | src/opcodes.rs:62-80 | decoding where an opcode byte and the encoding of fields that build an instruction are found gives that instruction and the offset past them |
| Opcodes.DecodeWritten | src/opcodes.rs:62-80 | decoding an opcode byte followed by the encoding of fields of its layout gives the instruction built from their values |
| Opcodes.EncodeAllPrefix | src/runtime.rs:36-40 | the code of the first `k` instructions written is a prefix of the whole code |
| Opcodes.EncodedAt | src/runtime.rs:36-40 | the `k`-th instruction's encoding is found in the code from the offset of instruction `k`, which it separates from the offset of instruction `k + 1` |
| Opcodes.OccursAfter | src/runtime.rs:36-40 | when two pieces of code joined are found at the start of the code, the second is found right after the first |
| Opcodes.DecodeSequence | src/runtime.rs:36-40 | decoding at the offset of the `k`-th instruction written gives that instruction and the offset of the next one |
| FrameStack.Empty | src/runtime/stack.rs:32-42 | a new stack has `size` uninitialised cells, `sp` at the top of the block and a null `fp` |
| FrameStack.Allocated | src/runtime/stack.rs:46-50 | `alloc(n)` lowers `sp` by `n`, exactly when the block has `n` cells left, and changes nothing else |
| FrameStack.Loaded | src/runtime/stack.rs:54-61 | `load(slot)` gives the value in the slot's cell, exactly when that cell holds a value |
| FrameStack.Stored | src/runtime/stack.rs:65-73 | `store(slot, v)` is defined exactly when the slot's cell lies in the block, and keeps `sp`, `fp` and the size |
| FrameStack.Pushed | src/runtime/stack.rs:77-86 | `push_frame` lowers `sp` by two and makes the new `sp` the frame pointer, exactly when two cells are left |
| FrameStack.Returned | src/runtime/stack.rs:90-96 | `return_call` restores the caller's frame pointer and returns the saved return address, exactly when `fp` points at a frame record |
| FrameStack.SlotsDistinct | src/runtime/stack.rs:6-21 | distinct slots address distinct cells, and no slot addresses the frame record |
| FrameStack.LoadAfterStore | src/runtime/stack.rs:54-73 | a load from the slot just stored gives the stored value |
| FrameStack.StoreKeepsOtherSlots | src/runtime/stack.rs:54-73 | a store leaves every other slot's value unchanged |
| FrameStack.StoreKeepsRecord | src/runtime/stack.rs:99-122 | a store never changes what `return_call` restores |
| FrameStack.Unwound | src/runtime/stack.rs:90-96 | returns in a row move only the frame pointer, never the cells or `sp` |
| FrameStack.Record | src/runtime/stack.rs:90-96 | the running call's frame record exists exactly when `return_call` can return, and holds the frame pointer and address it gives |
| FrameStack.PushThenReturn | src/runtime/stack.rs:77-96 | `return_call` after `push_frame(ra)` returns `ra`, restores `fp`, and changes no cell other than the two of the record |
| FrameStack.ParameterIsCallerLocal | src/runtime/stack.rs:13-19 | the callee's slot `-k` is the caller's local `locals - k`: parameters are passed in the caller's last locals |
| FrameStack.ResultReachesCaller | src/runtime/stack.rs:17-21 | a value the callee stores in slot `-k` is what the caller loads from its local `locals - k` after the return |
| FrameStack.Stack.constructor | src/runtime/stack.rs:32-42 | `Stack::new(size)` is the empty stack of that size |
| FrameStack.Stack.Alloc | src/runtime/stack.rs:46-50 | the new state is `Allocated` of the old one |
| FrameStack.Stack.Load | src/runtime/stack.rs:54-61 | returns `Loaded` of the state |
| FrameStack.Stack.Store | src/runtime/stack.rs:65-73 | the new state is `Stored` of the old one |
| FrameStack.Stack.PushFrame | src/runtime/stack.rs:77-86 | the new state is `Pushed` of the old one |
| FrameStack.Stack.ReturnCall | src/runtime/stack.rs:90-96 | the new state and the address returned are `Returned` of the old state |
| Semantics.ConstValue | src/runtime.rs:86-89 | an integer constant loads as that integer, a float constant as that float |
| Semantics.TruncDivision | src/runtime.rs:214-225 | `/` and `%` on `i64` truncate toward zero: `a == b·q + r`, `|r| < |b|`, `r` has the sign of `a` |
| Semantics.QuotientFits | src/runtime.rs:214-225 | the quotient fits `i64` unless the operation is `i64::MIN / -1`; the remainder always fits |
| Semantics.IntOp | src/runtime.rs:196-225 | integer arithmetic panics only for a division or remainder by zero or of `i64::MIN` by `-1` |
| Semantics.WithStack | src/runtime.rs:119-278 | a stack operation's result becomes the machine's stack, and its failure is undefined |
| Semantics.CallProc | src/runtime.rs:101-106 | `push_call_frame` saves the program counter in a new frame record and jumps to offset 0 of the procedure, when two cells are left |
| Semantics.BranchTo | src/runtime.rs:109-113 | `branch_rel` moves the program counter by the offset, defined exactly when the target stays in the procedure |
| Semantics.ExecuteDecoded | src/runtime.rs:119-278 | `execute` of a known opcode applies the instruction built from the operands read, with the program counter past them |
| Semantics.StoreKeepsWf | src/runtime/stack.rs:65-73 | a store keeps the machine invariant |
| Semantics.CallKeepsWf | src/runtime.rs:101-106 | entering a procedure keeps the machine invariant: the saved return address is a code address |
| Semantics.ApplyKeepsWf | src/runtime.rs:121-275 | every instruction keeps the machine invariant |
| Semantics.ExecuteKeepsWf | src/runtime.rs:119-278 | `execute` keeps the machine invariant |
| Semantics.StepKeepsWf | src/runtime.rs:281-284 | `fetch` plus `execute` keeps the machine invariant |
| MachineProperties.StepAt | src/runtime.rs:281-284 | a step where an instruction decodes, its operands ending at `next`, applies that instruction with the program counter at `next` |
| MachineProperties.DecodeAtOpcode | src/runtime.rs:115-117 | a decode fetches the opcode byte at the address and reads the operands right after it |
| MachineProperties.StepExecutes | src/runtime.rs:281-284 | a step inside the code executes the byte at the program counter, with the program counter just past it |
| MachineProperties.ExecuteApplies | src/runtime.rs:119-278 | `execute` of an opcode whose operands decode to an instruction applies it, the program counter past the operands |
| MachineProperties.ReturnStep | src/runtime.rs:192-195 | a `return` comes back to the return address of the running call's frame record with the caller's frame pointer |
| MachineProperties.ReturnRun | src/runtime.rs:192-195 | a run at a `return` continues from where the frame record leads |
| MachineProperties.UnknownOpcodePanics | src/runtime.rs:275 | an opcode with no layout panics with that opcode |
| MachineProperties.CallLength | src/opcodes.rs:14 | `call` encodes in five bytes |
| MachineProperties.CallStep | src/runtime.rs:143-146 | `call` of an unknown procedure panics; otherwise it pushes a record holding the address after the call and enters the procedure at offset 0 |
| MachineProperties.CallThenReturn | src/runtime.rs:143-195 | a `call`, a callee body of any number of steps that neither call nor return, and the callee's `return` resume the caller just after the five-byte call with the caller's `fp`; the run goes on from there |
| MachineProperties.CallRun | src/runtime.rs:143-146 | a run at a `call` continues in the callee, whose frame record holds the caller's `fp` and the address after the call |
| MachineProperties.BodyReturns | src/runtime.rs:192-195 | a body of steps that neither call nor return, then `return`, continues where the running call's frame record leads |
| MachineProperties.BranchIfTaken | src/runtime.rs:156-191 | a conditional branch moves the program counter by its offset within the same procedure when the test holds (undefined exactly when the target leaves the code), and changes nothing when it fails |
| MachineProperties.ArithWritesOnlyDst | src/runtime.rs:196-225 | integer arithmetic stores the result in `dst`, leaves every other slot, `pc`, `sp` and `fp` alone and keeps the frame record |
| MachineProperties.ApplyKeepsFrame | src/runtime.rs:121-275 | every instruction other than a call or return keeps `fp` and the frame record, writes values only, and lowers `sp` only for `alloc` |
| MachineProperties.PlainStep | src/runtime.rs:280-285 | a step at an opcode other than a call or return keeps the invariant, `fp` and the frame record |
| MachineProperties.StepsKeep | src/runtime.rs:280-285 | an invariant kept by every step of a run of `n` steps holds at its end, and the loop continues from there |
| MachineProperties.PlainRunKeepsFrame | src/runtime.rs:280-285 | steps that neither call nor return keep `fp` and the running call's frame record, and the run continues from their end |
| MachineProperties.IntOpMeaning | src/runtime.rs:196-225 | sum, difference and product when they fit `i64`; overflow is undefined; truncating quotient and remainder; exactly division by zero and `i64::MIN / -1` panic |
| MachineProperties.HaltStops | src/runtime.rs:271-273 | `halt` nulls the program counter and `run` stops there |
| MachineProperties.RunStep | src/runtime.rs:280-285 | a run that takes a step continues from the next state with one step less |
| MachineProperties.RunStop | src/runtime.rs:280-285 | a run stops at the first panic or undefined step |
| MachineProperties.IterateKeeps | src/runtime.rs:280-285 | an invariant every step keeps holds where the loop halts or runs out of fuel |
| MachineProperties.RunKeepsWf | src/runtime.rs:280-285 | a run ends in a machine that satisfies the invariant, with a null program counter when it halted |
| MachineProperties.IterateMonotone | src/runtime.rs:280-285 | more fuel does not change a run that ended |
| MachineProperties.IterateSplit | src/runtime.rs:280-285 | running `a + b` steps is running `a` steps and then `b` more |
| MachineProperties.RunMonotone | src/runtime.rs:280-285 | more fuel does not change a run that halted, panicked or was undefined |
| MachineProperties.RunSplit | src/runtime.rs:280-285 | a run of `a + b` steps is a run of `a` steps continued for `b` steps |
| MachineProperties.Start | src/runtime.rs:73-78 | `call(main)` on a new runtime panics exactly for an unknown procedure, and otherwise enters it at offset 0 with a frame record holding a null caller and a null return address |
| MachineProperties.MainReturnEnds | src/runtime.rs:192-195 | returning through the first call's frame record nulls the program counter and the frame pointer, so the program ends |
| MachineProperties.MainBodyEnds | src/runtime.rs:280-285 | a main procedure that runs steps that neither call nor return and then `return` halts the run right after, with null `pc` and `fp` |
| MachineProperties.OutermostReturnEnds | src/runtime.rs:280-285 | the same for any call whose frame record holds a null caller and return address |
| Interpreter.Runtime.constructor | src/runtime.rs:56-63 | a new runtime has a null program counter, empty tables and an empty stack of 4096 cells |
| Interpreter.Runtime.PushConstant | src/runtime.rs:65-67 | appends the constant to the constant table |
| Interpreter.Runtime.PushProc | src/runtime.rs:69-71 | appends the code to the procedure table |
| Interpreter.Runtime.PushCallFrame | src/runtime.rs:101-106 | the new machine is `CallProc` of the old one |
| Interpreter.Runtime.Call | src/runtime.rs:73-78 | panics exactly for an unknown procedure; otherwise the new machine is `CallProc` of the old one |
| Interpreter.Runtime.LoadConst | src/runtime.rs:80-91 | panics exactly for an unknown constant; otherwise stores the constant's value in `dst` |
| Interpreter.Runtime.LoadProc | src/runtime.rs:93-98 | panics exactly for an unknown procedure; otherwise stores a pointer to it in `dst` |
| Interpreter.Runtime.BranchRel | src/runtime.rs:109-113 | moves the program counter by the offset |
| Interpreter.Runtime.Read | src/runtime.rs:295-304 | gives `FromCode` of the type at the program counter, a value of the type, and advances the program counter by the width |
| Interpreter.Runtime.Fetch | src/runtime.rs:115-117 | returns the byte at the program counter and advances it by one |
| Interpreter.Runtime.ReadFields | src/opcodes.rs:72-79 | reads the layout's fields in order, giving `ReadOperands` at the program counter, and advances the program counter past them |
| Interpreter.Runtime.Apply | src/runtime.rs:121-275 | the new machine and the panic agree with `Semantics.Apply` |
| Interpreter.Runtime.IntArith | src/runtime.rs:196-225 | the new machine and the panic agree with the integer arithmetic step |
| Interpreter.Runtime.Execute | src/runtime.rs:119-278 | the new machine and the panic agree with `Semantics.Execute` |
| Interpreter.Runtime.ExecuteKnown | src/runtime.rs:119-274 | for an opcode with a layout, the new machine and the panic agree with `Semantics.Execute` |
| Interpreter.Runtime.StepOnce | src/runtime.rs:282-283 | one `fetch` and `execute` agree with `Step` |
| Interpreter.Runtime.Run | src/runtime.rs:280-285 | the result is `Semantics.Run` of the initial machine, and the runtime ends in the machine reported |
| Interpreter.FetchDefined | src/runtime.rs:115-117 | a defined step fetches inside the code and executes the opcode found there |
| Interpreter.ReadsOneMore | src/opcodes.rs:72-79 | reading `k + 1` fields reads the first `k`, then field `k` right after them, inside the code |
| Interpreter.RunDefined | src/runtime.rs:280-285 | a run that is not undefined takes a first step that is not undefined |
| DebugSemantics.GrowTop | src/runtime/debug.rs:55 | the top entry of the shadow stack grows by `size` and the others are unchanged |
| DebugSemantics.Tracking | src/runtime/debug.rs:51-79 | a tracked instruction leaves the `paused` and `finished` flags unchanged |
| DebugSemantics.Lift | src/runtime/debug.rs:83 | an instruction handed to the interpreter moves the machine as the interpreter does and panics as it does |
| DebugSemantics.DExecute | src/runtime/debug.rs:48-85 | executing an opcode never finishes the run; `breakpoint` pauses it and every other opcode keeps the `paused` flag |
| DebugSemantics.DStep | src/runtime/debug.rs:87-91 | a debugger step never finishes the run |
| DebugSemantics.Attach | src/runtime/debug.rs:27-38 | `new(runtime, main)` panics exactly for an unknown `main`; otherwise it starts paused, not finished, at offset 0 of `main`, with `main` as the only shadow frame |
| DebugProperties.BreakpointIsNoOp | src/runtime.rs:274 | the interpreter executes `breakpoint` as a no-op |
| DebugProperties.DebugMovesAsRuntime | src/runtime/debug.rs:48-85 | the debugger moves the machine exactly as the interpreter does; it adds only the shadow stack's `unwrap` panics, on `alloc` and `return` |
| DebugProperties.DebugCallstack | src/runtime/debug.rs:51-79 | a call pushes a shadow frame for the callee, `return` pops one, `alloc` grows the top frame by the cells allocated, and other opcodes leave the shadow stack alone |
| DebugProperties.TracksFlags | src/runtime/debug.rs:17-24 | the shadow-stack invariant does not depend on the two flags |
| DebugProperties.ShadowDepth | src/runtime/debug.rs:57-79 | returning `j` times reaches the frame named `j` entries below the top; on a new runtime no return is left once the shadow stack is used up, so it holds one entry per live call frame |
| DebugProperties.ShadowsKept | src/runtime/debug.rs:83 | a change that keeps `fp`, lowers `sp` at most and writes only values keeps the relation |
| DebugProperties.ShadowsPush | src/runtime/debug.rs:57-73 | pushing a frame record and a shadow entry for it keeps the relation |
| DebugProperties.ShadowsGrow | src/runtime/debug.rs:55 | counting cells to the top shadow entry keeps the relation |
| DebugProperties.TrackingKeepsShadows | src/runtime/debug.rs:51-79 | `alloc`, `call`, `call_dynamic` and `return` keep the relation |
| DebugProperties.DExecuteKeepsShadows | src/runtime/debug.rs:48-85 | every opcode the debugger executes keeps the relation |
| DebugProperties.DExecuteKeepsTracks | src/runtime/debug.rs:48-85 | every opcode keeps the machine invariant, shadow entries naming known procedures, and the shadow stack naming the live frames one for one |
| DebugProperties.DStepKeepsTracks | src/runtime/debug.rs:87-91 | a debugger step keeps that invariant, including the one-for-one naming of live frames |
| DebugProperties.AttachTracks | src/runtime/debug.rs:27-38 | a new debugger satisfies that invariant, its one shadow entry naming the frame of the call of `main` above the runtime's earlier frame pointer |
| DebugProperties.DStepUnfinishing | src/runtime/debug.rs:87-91 | no step sets `finished` |
| DebugProperties.ResumeLoopEnds | src/runtime/debug.rs:98-106 | the loop of `resume` returns a breakpoint only when paused at that breakpoint's address, and otherwise returns finished, paused if the program counter is still set |
| DebugProperties.ResumeEnds | src/runtime/debug.rs:93-107 | the same for `resume`, whether or not it skips the first instruction |
| DebugProperties.ResumeWhilePaused | src/runtime/debug.rs:93-107 | `resume(false)` on a paused debugger returns no breakpoint at once and marks the run finished |
| DebugProperties.TimeoutLoopEnds | src/runtime/debug.rs:119-139 | the loop of `resume_with_timeout` returns a breakpoint only when paused at its address, and finishes only on a null program counter |
| DebugProperties.ResumeWithTimeoutEnds | src/runtime/debug.rs:109-140 | the same for `resume_with_timeout` |
| DebugProperties.TimeoutWhilePaused | src/runtime/debug.rs:122-125 | `resume_with_timeout(false, _)` on a paused debugger returns no breakpoint and changes nothing |
| DebugProperties.TimeoutAgreesWithResume | src/runtime/debug.rs:109-140 | when `resume_with_timeout` meets a breakpoint or finishes before the timeout, `resume` given the same steps returns the same |
| DebugProperties.ResumeLoopUnfold | src/runtime/debug.rs:98-104 | an iteration of `resume` that meets no breakpoint is one step, then the rest of the loop |
| DebugProperties.ResumeLoopStops | src/runtime/debug.rs:98-106 | the loop of `resume` stops when paused, at a null program counter, or at a breakpoint address |
| DebugProperties.TimeoutLoopUnfold | src/runtime/debug.rs:122-135 | an iteration of `resume_with_timeout` that meets no breakpoint is one step, then the rest of the batch |
| DebugProperties.ResumeStart | src/runtime/debug.rs:93-97 | `resume(skip_first)` first takes the skipped step, if any, then runs its loop |
| DebugProperties.TimeoutStart | src/runtime/debug.rs:109-118 | `resume_with_timeout(skip_first)` first takes the skipped step, if any, then runs its batches |
| DebugProperties.AddBreakpointValid | src/runtime/debug.rs:40-46 | `add_breakpoint` ignores an unknown procedure, panics on an offset outside its code, and otherwise adds exactly that address; every key stays a code address |
| DebugProperties.BreakpointStops | src/runtime/debug.rs:99-102 | both loops stop, paused, at an added breakpoint and return it |
| Debugging.Debugger.constructor | src/runtime/debug.rs:29-37 | around a valid runtime, the debugger starts valid, with no breakpoints, `main` as the only shadow frame, paused and not finished |
| Debugging.Debugger.AddBreakpoint | src/runtime/debug.rs:40-46 | the new table and the panic agree with `AddedBreakpoint` |
| Debugging.Debugger.Track | src/runtime/debug.rs:51-79 | the new state and the panic agree with `Tracking` |
| Debugging.Debugger.Execute | src/runtime/debug.rs:48-85 | the new state and the panic agree with `DExecute` |
| Debugging.Debugger.ExecuteTracked | src/runtime/debug.rs:51-79 | for a tracked opcode, the new state and the panic agree with `DExecute` |
| Debugging.Debugger.Step | src/runtime/debug.rs:87-91 | the new state and the panic agree with `DStep` |
| Debugging.Debugger.Resume | src/runtime/debug.rs:93-107 | the result is `DebugSemantics.Resume` of the initial state, the debugger ends in the state reported, and unless it panicked the shadow-stack invariant `Tracks` holds again, so it can be resumed |
| Debugging.Debugger.ResumeRest | src/runtime/debug.rs:98-106 | the loop of `resume` ends with the result `ResumeFrom` gives from the state it starts in, keeping `Tracks` unless it panicked |
| Debugging.Debugger.ResumeIteration | src/runtime/debug.rs:98-104 | one iteration either ends the loop with its result (keeping `Tracks` unless it panicked) or leaves a `Tracks` state from which the remaining loop gives the same result |
| Debugging.Debugger.ResumeWithTimeout | src/runtime/debug.rs:109-140 | the result is `DebugSemantics.ResumeWithTimeout` of the initial state, a returned state is the debugger's, and unless it panicked `Tracks` holds again |
| Debugging.Debugger.TimeoutBatch | src/runtime/debug.rs:122-135 | a batch of 255 iterations either ends the loop with its result or leaves a state from which the remaining iterations give the same result |
| Debugging.Debugger.TimeoutIteration | src/runtime/debug.rs:122-134 | one iteration yields when paused, finished or at a breakpoint with the loop's result, and otherwise steps to a state from which one iteration fewer gives the same result |
| Debugging.NewDebugger | src/runtime/debug.rs:27-38 | `Debugger::new` panics exactly when `Attach` does, and otherwise builds a debugger in the state `Attach` gives |
| Debugging.TrackedDecoded | src/runtime/debug.rs:51-79 | a tracked opcode reads its operands from inside the code and performs `Tracking` of the instruction built from them |
| Debugging.DFetchDefined | src/runtime/debug.rs:87-91 | a debugger step that is not undefined is unfinished, fetches inside the code and executes the opcode found there |
| StackVm.Units | src/rt.rs:119-124 | `n` cells, each `UNIT` |
| StackVm.Popped | src/rt.rs:70-72 | `pop().unwrap()` panics exactly on an empty stack, and otherwise splits off the top cell |
| StackVm.Effect | src/rt.rs:189-263 | a non-control instruction changes only the operand stack |
| StackVm.Runtime.constructor | src/rt.rs:47-53 | a new runtime has no constants, frames or values |
| StackVm.Runtime.PushConstant | src/rt.rs:55-57 | appends the constant and changes nothing else |
| StackVm.Runtime.PushCallFrame | src/rt.rs:59-67 | the new state and the panic agree with `Entered` |
| StackVm.Runtime.Pop | src/rt.rs:70-72 | the cell, the new stack and the panic agree with `Popped` |
| StackVm.Runtime.Pop2 | src/rt.rs:75-77 | the top, the one below it, the new stack and the panic agree with `Popped2` |
| StackVm.Runtime.PopI64 | src/rt.rs:80-82 | agrees with `PoppedI64` |
| StackVm.Runtime.Pop2I64 | src/rt.rs:85-87 | agrees with `Popped2I64` |
| StackVm.Runtime.PopF64 | src/rt.rs:90-92 | agrees with `PoppedF64` |
| StackVm.Runtime.Pop2F64 | src/rt.rs:95-97 | agrees with `Popped2F64` |
| StackVm.Runtime.PopProc | src/rt.rs:100-102 | agrees with `PoppedProc` |
| StackVm.Runtime.Push | src/rt.rs:105-117 | appends the value to the operand stack |
| StackVm.Runtime.StackAlloc | src/rt.rs:119-124 | appends `capacity` cells holding `UNIT` |
| StackVm.Runtime.Copy | src/rt.rs:127-130 | agrees with `Copied` |
| StackVm.Runtime.Swap | src/rt.rs:133-137 | agrees with `Swapped` |
| StackVm.Runtime.Load | src/rt.rs:140-143 | agrees with `LoadedAt` |
| StackVm.Runtime.Store | src/rt.rs:146-150 | agrees with `StoredAt` |
| StackVm.Runtime.LoadConst | src/rt.rs:152-161 | agrees with `ConstLoaded` |
| StackVm.Runtime.Call | src/rt.rs:163-169 | agrees with `Called` |
| StackVm.Runtime.CallImmediate | src/rt.rs:171-176 | pushes a frame at offset 0 of the procedure's code |
| StackVm.Runtime.Jump | src/rt.rs:179-182 | agrees with `Jumped` |
| StackVm.Runtime.IncPc | src/rt.rs:185-187 | agrees with `PcIncremented` |
| StackVm.Runtime.Perform | src/rt.rs:190-262 | agrees with `Effect` |
| StackVm.Runtime.Evaluate | src/rt.rs:189-265 | agrees with `Eval` |
| StackVm.Runtime.Run | src/rt.rs:267-277 | the result is `RunLoop` of the initial state, and the runtime ends in the state reported |
| StackVmProperties.PopUndoesPush | src/rt.rs:70-107 | popping right after a push gives back the value pushed and the stack before it |
| StackVmProperties.Pop2Order | src/rt.rs:75-77 | `pop2` returns the top cell first and the one below it second |
| StackVmProperties.Pop2I64Order | src/rt.rs:85-87 | `pop2_i64` returns the top integer first and the one below it second |
| StackVmProperties.IncPcAdvances | src/rt.rs:185-187 | `inc_pc` panics exactly without a frame, and otherwise adds one to the top frame's offset |
| StackVmProperties.AdvancesByOne | src/rt.rs:264 | every instruction other than a call or a jump advances the top frame by one and keeps the constants |
| StackVmProperties.JumpMoves | src/rt.rs:179-182 | `jump` panics exactly without a frame; it adds the distance to the top frame's offset modulo `2^64`, exactly when the sum is in range |
| StackVmProperties.IntArithOnTop | src/rt.rs:214-233 | integer arithmetic replaces the top two integers with `bottom OP top`, one cell fewer; a panic or undefined result of `OP` carries through |
| StackVmProperties.SwapExchanges | src/rt.rs:133-137 | `swap` exchanges the top two cells, and panics exactly when fewer than two are there |
| StackVmProperties.SwapTwice | src/rt.rs:133-137 | swapping twice restores the state |
| StackVmProperties.CopyIsLoadZero | src/rt.rs:127-143 | `copy` is `load(0)`: it duplicates the top cell, and panics exactly on an empty stack |
| StackVmProperties.LoadPicks | src/rt.rs:140-143 | `load(k)` pushes a copy of the cell `k` below the top, and panics exactly when there is none |
| StackVmProperties.StoreWrites | src/rt.rs:146-150 | `store(k)` pops the top cell into the cell `k` below the new top, leaves every other cell alone, and panics exactly when fewer than `k + 2` cells are there |
| StackVmProperties.StoreThenLoad | src/rt.rs:140-150 | `load(k)` after `store(k)` pushes the value stored |
| StackVmProperties.StackAllocPushesUnits | src/rt.rs:119-124 | `stack_alloc(n)` appends `n` `UNIT` cells above the unchanged stack |
| StackVmProperties.LoadConstPushes | src/rt.rs:152-161 | `load_const` panics exactly for an index outside the table; otherwise it pushes the integer, the float, or a pointer to the procedure |
| StackVmProperties.EnterPanics | src/rt.rs:59-67 | `push_call_frame` panics exactly for an index outside the table or a constant that is not a procedure, and otherwise pushes a frame at offset 0 |
| StackVmProperties.CallImmediateEnters | src/rt.rs:202-209 | a `CallImmediate` first advances the caller past it, then enters the procedure at offset 0 |
| StackVmProperties.CallEnters | src/rt.rs:197-201 | `Call` pops a procedure pointer, advances the caller and enters that procedure at offset 0 |
| StackVmProperties.RunReturns | src/rt.rs:270-273 | a frame whose offset is at or past the end of its code is popped |
| StackVmProperties.RunEndsWithoutFrames | src/rt.rs:267-277 | `run` with no frame finishes at once; a finished run has no frame left; a run out of fuel still has one |
| StackVmProperties.RunMoreFuel | src/rt.rs:267-277 | more fuel does not change a run that finished, panicked or was undefined |

## Left out

- `src/main.rs` and the debugger's window (`src/runtime/debug/app.rs`) are not part of this model: they are a host program and a user interface.
- Floating-point arithmetic is a parameter `FloatUnit` of the model, a function of the operation and two floats given as bit patterns; IEEE 754 is not modelled.
- The output of the print instructions is not modelled. Only the operand reads they make are.
- `Runtime::run_debug` has the same body as `run` and is modelled by `Interpreter.Runtime.Run`.
- The `make_runtime!`, `proc!`, `opcodes!`, `create_constants!` and `create_asm!` macros are modelled by what they generate: the `Instruction` datatype, its opcodes, `Encode` and `Decode`, and `EncodeAll` for a procedure's code.
- Interpreter.Runtime.Run: the loop need not terminate. The model runs at most `fuel` iterations and reports `OutOfFuel` with the state reached.
- StackVm.Runtime.Run: at most `fuel` iterations, as above.
- Debugging.Debugger.Resume: at most `fuel` iterations of its loop, as above.
- Debugging.Debugger.ResumeWithTimeout: the clock is an input, the number of batches of 255 iterations that run before the deadline check reports the timeout; `Instant` is not modelled.
- `rt.rs` groups its integer and float instructions by `ArithOp`. The model's `ArithI64(op)` stands for `AddI64` … `RemI64`, and `ArithF64(op)` for `AddF64` … `RemF64`.
- Overflow of the `i64` operations and of `inc_pc` is `Undefined` in the model. It panics in a debug build and wraps in a release build.
- An integer read as a float, or a float read as an integer, reinterprets the bits, as the Rust unions do. A procedure pointer read as an `i64` or `f64` (for example by a conditional branch of `runtime.rs` or by `pop_i64` of `rt.rs`) yields its address in the Rust code; the model has no addresses for procedures and makes that read `Undefined`. A cell of `rt.rs` written as `UNIT` holds no bytes, and reading it is `Undefined` as well.
- Pointers are indices. A procedure pointer is the procedure's index in the table, a stack pointer a cell index, and a code address a procedure number and offset. Pointer identity in the breakpoint table is address equality.
- FrameStack.Loaded: a frame-record cell (the saved frame pointer or return address) loaded as a value yields the saved pointer's address in the Rust code; the model has no addresses and makes the load `None`, so the instruction reading it is `Undefined`. Ordinary code meets this: `return_call` does not release the record, so a later call from the same frame can find a stale record cell at slot `-1` before anything is stored there.
- FrameStack.Returned: `None` when a store has overwritten a cell of the running call's frame record; the Rust code then returns to whatever address the value's bits spell, which the model cannot follow.
- CallThenReturn: covers a callee body whose steps neither call nor return; a body with nested calls is not covered by one lemma, although `CallRun`, `BodyReturns` and `RunSplit` compose for it.
- DStepKeepsTracks: the shadow stack names the frames reached through intact frame records; once a store overwrites a record cell of an outer frame (which the Rust code allows through a negative slot), the relation says nothing about the frames beyond it.
- Every method of the classes requires that its step is not `Undefined`. For undefined behaviour the model states nothing.
- Debugging.Debugger.constructor: covers the part of `Debugger::new` after `runtime.call(main)`; the call itself and its panic are in `Debugging.NewDebugger`.
- The `debug_assert!(!self.finished)` of the debugger is `Undefined` when it fails, since its outcome depends on the build profile; the `resume` functions return `Unspecified` for a finished debugger.
- Opcode numbers 21 to 29 (`MOVE_VALUE` … `BREAKPOINT`) are placeholders, since the opcode list does not number them. The proofs use only that they are distinct.
- StackVm.Runtime.CallImmediate: requires a constant that is a procedure; the panics of the lookup are stated by `StackVm.Entered` and `StackVmProperties.EnterPanics`, and `Evaluate` checks them before the call.
