# Tx: a verified model of the compiler, the virtual machine and its runtime

Tx is a small typed language. A single-pass compiler with a precedence-climbing parser
emits bytecode for a stack machine with closures, a mark-and-sweep collector and interned
strings. This project models these parts in Dafny and proves what they promise each other.
`dafny verify dfyconfig.toml` checks all of it. Nothing was executed.

## The parts and the main results

**Compiling and running** (`Language`, `Codegen`, `Emitter`, `Machine`, `Interpreter`,
`Simulation`, `Correctness`, `Pipeline`, `Acceptance`, `Operators`, `Meaning`). Class
`Emitter.Parser` has the emitting methods of the parser: they append bytes, patch jumps, pool constants, push and pop locals, and walk over a
finished loop to rewrite the placeholders of its breaks. Each is proved to write the code that
`Codegen` gives for its tree. `Simulation` proves that this code, decoded from bytes by the
machine, does from any stack what direct evaluation of the tree does, for literals, locals,
globals, operators, `and`/`or`, `if`, blocks, `while`, `loop`, `break`, `continue`, functions,
calls, `return` and recursion, runtime errors included. `Pipeline.CompileAndRun` puts it
together: compiling by the parser's methods and running the dispatch loop of class `Interpreter.VM` on mutable
stack, frames and globals agrees with evaluation and never gets stuck. It runs out of reserved
slots only where the compiler's count does not reach the operand height: `Slots` computes that
count from the tree, for loops and their exits too, and `Capacity` shows that a machine with
fewer slots differs in nothing else. The evaluator has fuel; the theorems hold for every amount,
in both directions (`Correctness.ScriptCorrect`, `Correctness.MachineIsEvaluator`).

Three modules say in their own terms what the parts above share. `Acceptance` tells from the tree
which programs are accepted: every accepted program is legal, and every legal one of moderate
size is accepted. `Operators` states what the machine's opcodes answer as numbers and truth, and
`Meaning` what arithmetic, logic, branches and loops come to.

**Closures** (`Resolve`, `Closures`, `Cells`, `Upvalues`). `Cells` gives the simple meaning of
variables: one shared cell each. Class `Upvalues.VM` has the machine's pointers into the stack,
its sorted list of open upvalues, and reallocation of the stack; over every legal run it refines
the cells. `Resolve` compiles names to slots, captures and globals. `Closures` runs that code
next to a semantics of lexical scoping: functions may be called at any later time, any number of
times and after their scope has ended, and loops declare their locals anew in every turn.
`Closures.ScriptReaches` and `Closures.RunScript` prove that both read the same values, on shared
cells and on the machine with its upvalues.

**Memory** (`Bits`, `HashMap`, `Collector`, `Interning`, `Mutator`). The open-addressing table
refines a finite map, with tombstones and growth. Marking is exact on every heap, sweeping
keeps exactly the reachable objects in order, and the weak string table stays canonical even
if a collection runs inside its own rehash. Roots and references are told field by field, and
none dangles after a collection. `Mutator` proves over whole runs of allocation, stores, loads,
globals and collections that a program sees what it would see if nothing were ever freed.

**Types** (`Types`). Equality and assignability of nested unions and function types, the checks
of operators and calls as the compiler makes them, and their soundness for the machine. Equality
and assignability are characterised exactly, by the sets of types and by values and calls.

**Text and bytes** (`Precedence`, `Grouping`, `Printing`, `Climber`, `Bytecode`, `Chunks`). Class
`Climber.Parser` climbs precedences over tokens. `Grouping` proves that any chain of operators is
taken apart at its weakest class first, with the classes written out, and how signs, calls, casts
and assignments bind; parsing minimally parenthesised text gives the tree back. Instruction
streams decode to what was emitted, and the run-length line table, searched by bisection, gives every byte's own line.

## Hypotheses

- A local's index is its position in `locals`, not the stack height. Right operands and call
  arguments therefore declare no locals and contain no `break` or `continue` out of themselves
  (`Codegen.Placed`). `Correctness.PendingOperandMisread` shows what happens otherwise, and
  `Printing.LoweredPlaced` that trees of operators, calls and assignments always comply;
  `Pipeline.SupportedByTrees` says the same of whole programs.
- The walk that patches a loop takes every closure for one with a one-byte index
  (`LoopWalk.LongClosureMisread`), and can rewrite its index (`LoopWalk.LongClosureRewritten`).
  The flag `aligned` of `Codegen.Gen` says that closures inside loops have short indices.
- `continue`, and `break` out of `while`, drop locals with plain `POP`, which closes nothing. A
  legal run pops only slots that no closure captured. That is exactly what closures need to read
  right whatever comes next (`Upvalues.VM.PopIsSafe`); for a turn of a loop it says that no
  closure made in the turn captured its locals (`Cells.CapturedSince`,
  `Upvalues.VM.TurnAndReuse`), and `Upvalues.ContinueOverCaptured` runs a program where one did.
- The running count of slots is not set back at the exit of a `while`, nor after `break` and
  `continue`, so it can fall behind. `Simulation` and `Correctness` are about images whose slots
  reach the operand height. `Pipeline.CompileAndRun` assumes nothing of the kind: out of slots is
  one more outcome there, possible only where a count does not reach the height, which
  `Slots.ReservedExactly` computes from the tree. `Shortage.IdleLoopOverflows` runs the machine
  into it.
- Set equality of types is symmetric exactly from unions without duplicates
  (`Types.SymmetricIff`); unions that are parsed or built by `add` have none.
- Hash-map keys that are equal hash equally: the hash is any function of the key.
- Jump distances fit 16 bits and indices fit 24 bits. Beyond them the model refuses the code,
  where the source reports an error or asserts.

## Model

| member | source | states |
|---|---|---|
| `Bytecode.OpByteRoundTrip` | tx-runtime/include/tx/opcodes.inc:3-44 | Every opcode is recovered from the byte that stands for it: the numbering is injective. |
| `Bytecode.OperandRoundTrip` | tx-runtime/include/tx/chunk.hxx:63-81 | An operand of n bytes, least significant first, reads back as the value written whenever the value is below 256^n. |
| `Bytecode.CaptureWidth` | tx-runtime/include/tx/compiler_inl.hxx:263-270 | The byte count of a captured index is the least positive one in which the index fits. |
| `Bytecode.DecodeCaptureAt` | tx-runtime/include/tx/chunk.hxx:83-99 | A capture written as flag byte and 1 to 3 index bytes reads back with the same locality, index and length, for every index below 2^24. |
| `Bytecode.DecodeAt` | tx-runtime/include/tx/chunk.hxx:63-99 | Decoding at the start of an encoded instruction gives that instruction and the position just after its bytes, short and long forms and closures with captures included. |
| `Bytecode.DecodeAllEncoded` | tx-runtime/include/tx/compiler_inl.hxx:231-301 | Sequential decoding of any list of emitted instructions recovers exactly that list and stays aligned to the end. |
| `Chunks.OperandBytes` | tx-runtime/include/tx/chunk.hxx:63-70 | The shifting loop produces the n least significant bytes in the order the decoder expects. |
| `Chunks.ReadMultibyteOperand` | tx-runtime/include/tx/chunk.hxx:72-81 | The accumulating loop reads the little-endian value of n bytes. |
| `Chunks.ReadClosureOperand` | tx-runtime/include/tx/chunk.hxx:83-99 | The flag byte and index bytes decode to the capture that was written, with its total length. |
| `Chunks.CountBytes` | tx-runtime/include/tx/compiler_inl.hxx:263-270 | The shifting loop counts the least positive number of bytes that hold the index. |
| `Chunks.Chunk.constructor` | tx-runtime/include/tx/chunk.hxx:105-108 | A new chunk is empty and its line table is sound. |
| `Chunks.Chunk.WriteLine` | tx-runtime/include/tx/chunk.hxx:116-119 | A run is started only when the line changes; the table stays a sound description of the lines of all bytes so far. |
| `Chunks.Chunk.WriteBytes` | tx-runtime/include/tx/chunk.hxx:126-131 | The bytes are appended, each is attributed to the given line, and the run-length table still describes every byte; a table without empty runs stays so if and only if a byte is appended or no run is started. |
| `Chunks.Chunk.WriteMultibyteOperand` | tx-runtime/include/tx/chunk.hxx:133-142 | The operand is appended little-endian, with its bytes attributed to the given line. |
| `Chunks.Chunk.OverwriteOperand` | tx-runtime/include/tx/compiler_inl.hxx:317-324 | Only the operand's own bytes change; the line of every byte stays. |
| `Chunks.Chunk.WriteInstruction` | tx-runtime/include/tx/chunk.hxx:144-155 | Opcode and operand are appended, attributed to the given line, and the recorded offsets stay strictly increasing from 0. |
| `Chunks.Chunk.WriteClosureOperand` | tx-runtime/include/tx/compiler_inl.hxx:260-299 | One capture is appended in its shortest form, attributed to the given line. |
| `Chunks.Chunk.WriteClosure` | tx-runtime/include/tx/compiler_inl.hxx:253-301 | A closure instruction with all its captures is appended in the form the decoder reads, attributed to the given line. |
| `Chunks.Chunk.GetLine` | tx-runtime/include/tx/chunk.hxx:157-174 | Bisection terminates and returns the line given when that byte was written, for every byte of every sound chunk. |
| `Chunks.Chunk.WriteAll` | tx-runtime/include/tx/chunk.hxx:144-155 | Writing a list of instructions with their lines yields their encoding, and every byte of an instruction carries its line. |
| `Chunks.LineOfInstruction` | tx-runtime/include/tx/chunk.hxx:157-174 | The line recorded at the first byte of the k-th instruction is the line given for the k-th instruction. |
| `Chunks.RoundTrip` | tx-runtime/include/tx/chunk.hxx:63-174 | For every list of instructions and lines, the written chunk decodes to the list and looks up each instruction's own line. |
| `Emitter.Parser.EmitInstruction` | tx-runtime/include/tx/compiler.hxx:224-241 | One instruction is appended, the running slot count moves by its stack effect, and the maximum is kept. |
| `Emitter.Parser.AddConstant` | tx-runtime/include/tx/compiler_inl.hxx:216-228 | Equal constants share one index; a new one goes to the end and the existing ones keep theirs. |
| `Emitter.Parser.EmitVarLengthInstruction` | tx-runtime/include/tx/compiler_inl.hxx:231-246 | Below 256 the one-byte form is chosen, below 2^24 the three-byte form, and otherwise the instruction is refused. |
| `Emitter.Parser.EmitConstant` | tx-runtime/include/tx/compiler_inl.hxx:248-251 | The emitted instruction loads the given constant from the table, or the code is refused because the table is full. |
| `Emitter.Parser.EmitJump` | tx-runtime/include/tx/compiler_inl.hxx:303-307 | A jump with a placeholder distance is appended and the returned offset is that of its operand. |
| `Emitter.Parser.EmitHole` | tx-runtime/include/tx/compiler_inl.hxx:1299-1323 | The placeholder of a break is appended, with no effect on the slot count. |
| `Emitter.Parser.EmitLoop` | tx-runtime/include/tx/compiler_inl.hxx:309-315 | The backward distance leads exactly to the given start, and is refused if and only if it exceeds 16 bits. |
| `Emitter.Parser.PatchJump` | tx-runtime/include/tx/compiler_inl.hxx:317-324 | The jump is aimed just past the current end, no other byte changes, and it is refused if and only if the distance exceeds 16 bits. |
| `Emitter.Parser.PatchJumpsInLoop` | tx-runtime/include/tx/compiler_inl.hxx:394-432 | The walk turns every placeholder of the loop, and nothing else, into a jump to the loop's end; it never fails on a loop whose own backward jump was accepted. |
| `Emitter.Parser.WalkOver` | tx-runtime/include/tx/compiler_inl.hxx:395-431 | One step of the walk ends at the next instruction boundary and rewrites the instruction only if it is a placeholder. |
| `Emitter.Parser.SkipClosure` | tx-runtime/include/tx/compiler_inl.hxx:398-425 | Stepping over a short closure lands just after its captures. |
| `Emitter.Parser.BeginScope` | tx-runtime/include/tx/compiler_inl.hxx:366-368 | The scope depth grows by one and nothing else changes. |
| `Emitter.Parser.EndScope` | tx-runtime/include/tx/compiler_inl.hxx:370-383 | Exactly the locals of the closed scope are dropped, with one instruction that drops as many slots from under the result, or none if there are none. |
| `Emitter.Parser.ResolveLocal` | tx-runtime/include/tx/compiler_inl.hxx:552-568 | The index is that of the latest local of that name, or -1 if there is none. |
| `Emitter.Parser.DeclareLocal` | tx-runtime/include/tx/compiler_inl.hxx:960-993 | A local is refused if and only if the same scope has the name already or the local limit is reached; otherwise it is appended, uninitialised. |
| `Emitter.Parser.MarkInitialized` | tx-runtime/include/tx/compiler_inl.hxx:1020-1027 | The last local gets the current depth, no other local changes. |
| `Emitter.Parser.DefineLocal` | tx-runtime/include/tx/compiler_inl.hxx:1029-1035 | A declared and initialised local is visible at the current depth; output, loop and scope are untouched. |
| `Emitter.Parser.Expression` | tx-runtime/include/tx/compiler_inl.hxx:1037-1039 | For every tree: refused exactly when the code function reports an error, else exactly that code is appended, the slot count follows it, and locals, scope and innermost loop are as before. |
| `Emitter.Parser.LiteralExpr` | tx-runtime/include/tx/compiler_inl.hxx:521-550 | Nil and booleans get their own opcodes, other literals a shared constant, as the code proved correct requires. |
| `Emitter.Parser.NamedVariable` | tx-runtime/include/tx/compiler_inl.hxx:604-658 | A name is a local if one is visible, else a known global, else refused; assignment emits its right side first. |
| `Emitter.Parser.UnaryExpr` | tx-runtime/include/tx/compiler_inl.hxx:664-685 | The operand's code is followed by the operator's opcode. |
| `Emitter.Parser.BinaryExpr` | tx-runtime/include/tx/compiler_inl.hxx:441-477 | Left operand, right operand, then the operator's opcode: the code that leaves the operator's value. |
| `Emitter.Parser.AndExpr` | tx-runtime/include/tx/compiler_inl.hxx:807-817 | After both patches the short-circuit jump leads just past the right operand, as the code proved correct requires. |
| `Emitter.Parser.OrExpr` | tx-runtime/include/tx/compiler_inl.hxx:819-831 | After patching, a truthy left operand jumps past the right one and a falsy one is dropped first. |
| `Emitter.Parser.IfExpr` | tx-runtime/include/tx/compiler_inl.hxx:738-772 | After patching, each branch is entered with the condition dropped and both end at the same place; a missing else gives Nil. |
| `Emitter.Parser.LoopExpr` | tx-runtime/include/tx/compiler_inl.hxx:774-792 | The body repeats, and every break of this loop is patched to the place just past it. |
| `Emitter.Parser.BeginLoop` | tx-runtime/include/tx/compiler_inl.hxx:385-392 | The loop record holds the current code position and depth, so that breaks inside drop the locals declared since. |
| `Emitter.Parser.EndLoop` | tx-runtime/include/tx/compiler_inl.hxx:434-439 | The enclosing loop is restored and exactly the placeholders of the ended loop are resolved to its end. |
| `Emitter.Parser.CallExpr` | tx-runtime/include/tx/compiler_inl.hxx:496-513 | Callee and arguments are emitted in order, followed by a call with their count. |
| `Emitter.Parser.ArgumentList` | tx-runtime/include/tx/compiler_inl.hxx:479-494 | Arguments are emitted left to right and counted; more than 255 are refused. |
| `Emitter.Parser.FnExpr` | tx-runtime/include/tx/compiler_inl.hxx:794-805 | A closure over the function's constant is emitted, in the form for its index. |
| `Emitter.Parser.Block` | tx-runtime/include/tx/compiler_inl.hxx:730-735 | A block leaves the locals, scope and loop as it found them and drops the slots of its own locals from under its value. |
| `Emitter.Parser.BlockNoScope` | tx-runtime/include/tx/compiler_inl.hxx:688-727 | Declarations add locals of the current depth, statements none, and the last expression or Nil is the value. |
| `Emitter.Parser.Statement` | tx-runtime/include/tx/compiler_inl.hxx:1409-1454 | Every kind of statement emits the code proved correct for it, or is refused exactly when that reports an error. |
| `Emitter.Parser.ExpressionStatement` | tx-runtime/include/tx/compiler_inl.hxx:1436-1449 | The value of the expression is dropped. |
| `Emitter.Parser.ReturnStatement` | tx-runtime/include/tx/compiler_inl.hxx:1336-1361 | The value is emitted and returned; outside of functions the statement is refused. |
| `Emitter.Parser.WhileStatement` | tx-runtime/include/tx/compiler_inl.hxx:1264-1281 | Condition, exit jump, body and backward jump lie as the simulation of while requires, breaks patched to just past the statement. |
| `Emitter.Parser.EmitPopInnermostLoop` | tx-runtime/include/tx/compiler_inl.hxx:1283-1297 | Exactly the locals declared since the loop began are dropped, from under the value of a break or singly with POP. |
| `Emitter.Parser.BreakStatement` | tx-runtime/include/tx/compiler_inl.hxx:1299-1323 | A break of a loop expression carries a value, one of a while none; the placeholder follows, and outside of loops it is refused. |
| `Emitter.Parser.ContinueStatement` | tx-runtime/include/tx/compiler_inl.hxx:1325-1334 | The locals declared since the loop began are dropped and the jump leads to the loop's start; outside of loops it is refused. |
| `Emitter.Parser.Begin` | tx-runtime/include/tx/compiler_inl.hxx:326-349 | A compiler starts with an empty chunk and one unnamed local, the callee's slot. |
| `Emitter.Parser.FunctionBody` | tx-runtime/include/tx/compiler_inl.hxx:1085-1124 | A function is refused exactly when its code function reports an error; otherwise its bytes, constants and slot reservation are those the correctness theorem is about. |
| `Emitter.Parser.Parameters` | tx-runtime/include/tx/compiler_inl.hxx:1095-1106 | Parameters become locals in order; they are refused if and only if there are more than 255 or two have one name. |
| `Emitter.Parser.ScriptBody` | tx-runtime/include/tx/compiler_inl.hxx:67-97 | The script is refused exactly when its code function reports an error, and otherwise that code is the output. |
| `Emitter.Parser.TopLevel` | tx-runtime/include/tx/compiler_inl.hxx:1208-1262 | One declaration or statement at top level emits the code of that part of the script and leaves no local behind. |
| `LoopWalk.ExprWalkable` | tx-runtime/include/tx/compiler_inl.hxx:394-432 | All code emitted for an expression inside a loop, nested loops included, consists of instructions the walk steps over correctly once long closures are excluded. |
| `LoopWalk.StmtWalkable` | tx-runtime/include/tx/compiler_inl.hxx:394-432 | The same for statements: no placeholder of an inner loop is left for an outer walk to find. |
| `LoopWalk.LongClosureMisread` | tx-runtime/include/tx/compiler_inl.hxx:417-417 | The walk lands on the next instruction after a closure without captures if and only if the constant index is below 256. |
| `LoopWalk.LongClosureRewritten` | tx-runtime/include/tx/compiler_inl.hxx:417-428 | When the middle byte of a long closure's index is the placeholder's opcode, the walk takes it for a placeholder, and the closure then names another constant. |
| `Machine.StepAt` | tx-runtime/include/tx/vm_inl.hxx:787-1021 | One turn of the dispatch loop on encoded code executes the instruction that was emitted there. |
| `Simulation.SimExpr` | tx-runtime/include/tx/compiler_inl.hxx:441-847 | For every expression, running its code from any stack does what direct evaluation does: same value on top, same locals and globals, same loop exit or runtime error; or both go on. |
| `Simulation.SimAnd` | tx-runtime/include/tx/compiler_inl.hxx:807-831 | `and` and `or` evaluate the right operand exactly when the left one does not decide, and leave the deciding operand itself. |
| `Simulation.SimIf` | tx-runtime/include/tx/compiler_inl.hxx:738-772 | Exactly the branch that the condition selects runs, and its value alone is left. |
| `Simulation.SimBlock` | tx-runtime/include/tx/compiler_inl.hxx:688-735 | A block leaves its value and the outer locals with their updates; its own locals are gone. |
| `Simulation.SimLoop` | tx-runtime/include/tx/compiler_inl.hxx:774-792 | A loop repeats until a break, arrives just past its code with the stack of its entry and the break's value, and passes on returns and errors. |
| `Simulation.SimWhile` | tx-runtime/include/tx/compiler_inl.hxx:1264-1281 | A while statement adds nothing to the stack, however it ends, and updates variables as evaluation does. |
| `Simulation.SimBreak` | tx-runtime/include/tx/compiler_inl.hxx:1299-1323 | A break arrives at the end of its own loop with the stack height of the loop's entry, plus the result for a loop expression. |
| `Simulation.SimContinue` | tx-runtime/include/tx/compiler_inl.hxx:1325-1334 | A continue arrives at the start of its own loop with the stack height of the loop's entry. |
| `Simulation.SimStmt` | tx-runtime/include/tx/compiler_inl.hxx:1409-1454 | For every statement, running its code realises the outcome that evaluation gives and leaves no value. |
| `Simulation.SimCall` | tx-runtime/include/tx/compiler_inl.hxx:496-513 | A call evaluates callee and arguments in order, then leaves one result in their place; the errors are those of evaluation, in the same order. |
| `Simulation.SimInvoke` | tx-runtime/include/tx/vm_inl.hxx:480-541 | Arity, callability and frame limit are checked with the errors of the evaluator, and the stack below callee and arguments is untouched by the call. |
| `Simulation.SimFunction` | tx-runtime/include/tx/vm_inl.hxx:976-1014 | From entry to return a function body does what evaluating it does: the frame is gone and exactly the result is left where the callee was. |
| `Correctness.ScriptCorrect` | tx-runtime/include/tx/vm_inl.hxx:753-1021 | For every script and amount of fuel there is a number of steps after which the machine has finished with the globals of evaluation, or stopped with its error, or is running as evaluation is. |
| `Correctness.MachineIsEvaluator` | tx-runtime/include/tx/vm_inl.hxx:753-1021 | With slots up to the operand height, a halted machine has after any number of steps exactly the result of evaluation; it is never stuck and never exceeds its slots. |
| `Correctness.LoopFreeReserves` | tx-runtime/include/tx/compiler.hxx:224-236 | For every function whose count never falls behind, the counted slots are enough: a hypothesis of the correctness theorem holds. |
| `Correctness.PendingOperandMisread` | tx-runtime/include/tx/compiler_inl.hxx:552-568 | For all integers a and b, the code of an addition whose right operand declares a local holding b leaves a+a, while evaluation gives a+b: an index in `locals` is not the stack height. |
| `Slots.ReservedExactly` | tx-runtime/include/tx/compiler.hxx:224-236 | For every function, loops and their exits included, the maximum the compiler counts is the peak that one pass over the tree computes; so the slots are enough if and only if that peak reaches the operand height. |
| `Slots.ReservationCovers` | tx-runtime/include/tx/compiler.hxx:224-236 | For every function the reservation misses the operand height by at most the slots that loops, breaks and continues leave uncounted, and exceeds it by at most those they count twice. |
| `Slots.WhileUnderReserves` | tx-runtime/include/tx/compiler_inl.hxx:1264-1281 | A function with an idle while statement followed by an operation needs two slots and is given one. |
| `Shortage.IdleLoopOverflows` | tx-runtime/include/tx/compiler_inl.hxx:1264-1281 | For every such script: evaluation ends well, and the machine fails the capacity assertion of a push after five instructions. |
| `Capacity.RunAlike` | tx-runtime/include/tx/vm.hxx:130-133 | A machine with fewer slots does for any number of instructions what one with more slots does, except that it may fail the capacity assertion of a push. |
| `Pipeline.ScriptSlots` | tx-runtime/include/tx/compiler.hxx:224-236 | The slots counted for any script are the peak computed from its tree, and near its operand height from both sides. |
| `Pipeline.ReservedIff` | tx-runtime/include/tx/compiler.hxx:224-236 | In an accepted program every function has the slots it needs if and only if each count reaches the operand height. |
| `Pipeline.LoopFreeIsReserved` | tx-runtime/include/tx/compiler.hxx:224-236 | Accepted programs whose counts never fall behind, those without loops among them, have enough slots reserved in every function and in the script. |
| `Acceptance.ExprAnswers` | tx-runtime/include/tx/compiler_inl.hxx:441-847 | The code of an expression is refused if a name in it is neither a visible local nor a global, if a scope declares a name twice, if a break, continue or return is out of place, or if a call has over 255 arguments; otherwise it is accepted, if there is room for its jumps and indices; and it is never longer than the tree says. |
| `Acceptance.StmtAnswers` | tx-runtime/include/tx/compiler_inl.hxx:1264-1361 | The same for statements: `break` and `continue` in loops only, a break with a value in `loop` only, `return` in functions only. |
| `Acceptance.ContinueAnswers` | tx-runtime/include/tx/compiler_inl.hxx:1325-1334 | A `continue` is refused if and only if it stands in no loop, whatever locals are to be dropped, as long as the loop's start is within 65535 bytes. |
| `Acceptance.BreakAnswers` | tx-runtime/include/tx/compiler_inl.hxx:1299-1323 | A `break` is refused if it stands in no loop, or has a value in a `while`; otherwise it is accepted if its value is and there is room. |
| `Acceptance.FunctionAccepted` | tx-runtime/include/tx/compiler_inl.hxx:1085-1124 | An accepted function has at most 255 different parameters and a legal body; such a function is accepted if its branches and loops are at most 65535 bytes long and its indices below 2^24. |
| `Acceptance.ScriptAccepted` | tx-runtime/include/tx/compiler_inl.hxx:67-97 | The same for scripts, whose definitions must be of known globals. |
| `Pipeline.AcceptedIff` | tx-runtime/include/tx/compiler_inl.hxx:67-97 | An accepted program is legal, told from its trees; and a legal program of moderate size is accepted. |
| `Pipeline.SupportedByTrees` | tx-runtime/include/tx/compiler_inl.hxx:394-432 | What the theorems assume about locals, exits and closures holds at least for programs whose right operands and arguments contain no blocks and whose functions have at most 256 constants. |
| `Pipeline.CompileFunction` | tx-runtime/include/tx/compiler_inl.hxx:1085-1124 | The parser's methods compile a function to the prototype the correctness theorem is about; accepted functions are legal, and legal ones of moderate size accepted. |
| `Pipeline.CompileScript` | tx-runtime/include/tx/compiler_inl.hxx:67-97 | The parser's methods compile the script to the code and slot reservation the correctness theorem is about; accepted scripts are legal, and legal ones of moderate size accepted. |
| `Pipeline.Compile` | tx-runtime/include/tx/compiler_inl.hxx:67-97 | All functions and the script are compiled to the code, constants and slot counts of their trees; there is an image only for legal programs, and for every legal program of moderate size. |
| `Pipeline.RunMeans` | tx-runtime/include/tx/vm_inl.hxx:753-1021 | After any number of instructions a halted machine has the result of evaluation, or has failed the capacity assertion, and the latter only if some count does not reach the operand height. |
| `Pipeline.CompileAndRun` | tx-runtime/include/tx/vm_inl.hxx:753-1021 | Every legal program of moderate size, and no other than a legal one, is compiled and run: it agrees with evaluating the tree, same globals or same error whenever it halts, never stuck, and out of slots only if some count does not reach the operand height. |
| `Pipeline.RunEnds` | tx-runtime/include/tx/vm_inl.hxx:753-1021 | If evaluation comes to an end, so does the machine. |
| `Operators.IntegerOperators` | tx-runtime/include/tx/vm_inl.hxx:877-924 | On any two integers the opcodes leave their sum, difference and product and the truth of the six comparisons, operands in source order. |
| `Operators.IntegerDivision` | tx-runtime/include/tx/vm_inl.hxx:925-941 | Division of integers leaves the quotient rounded toward zero, with a remainder of the dividend's sign, and fails for a divisor of zero only. |
| `Operators.FloatOperators` | tx-runtime/include/tx/vm_inl.hxx:585-606 | Of mixed operands the integer is converted, and the float operation is that of the opcode, operands in source order. |
| `Operators.WrongOperands` | tx-runtime/include/tx/vm_inl.hxx:585-592 | Arithmetic and ordering on anything else report that operands must be numbers. |
| `Operators.EqualityOperators` | tx-runtime/include/tx/value.hxx:142-156 | Values of different kinds are unequal, floats are compared as floats, everything else by content or identity. |
| `Operators.PrefixOperators` | tx-runtime/include/tx/vm_inl.hxx:570-583 | `!` gives true exactly on nil and false; a sign negates numbers and is an error on anything else. |
| `Operators.ConditionalJump` | tx-runtime/include/tx/vm_inl.hxx:960-967 | The conditional jump is taken exactly on nil and false, and the condition stays. |
| `Operators.FrameLimit` | tx-runtime/include/tx/vm_inl.hxx:480-504 | A call with the right number of arguments fails exactly when 1024 frames are open. |
| `Meaning.ArithmeticMeans` | tx-runtime/include/tx/compiler_inl.hxx:441-477 | Every parsed expression of integers, signs, sums, differences and products evaluates to that integer. |
| `Meaning.LogicMeans` | tx-runtime/include/tx/compiler_inl.hxx:807-831 | Every parsed expression of comparisons joined by `and`, `or` and `!` evaluates to its truth. |
| `Meaning.ShortCircuit` | tx-runtime/include/tx/compiler_inl.hxx:807-831 | `and` and `or` give the operand that decides; the other one is evaluated only if the first does not. |
| `Meaning.Selection` | tx-runtime/include/tx/compiler_inl.hxx:738-772 | A condition that holds selects the first branch, one that does not the second. |
| `Meaning.Repetition` | tx-runtime/include/tx/compiler_inl.hxx:1264-1281 | A while ends where its condition does not hold or at a break, and else starts again after its body or a continue. |
| `Interpreter.VM.constructor` | tx-runtime/include/tx/vm_inl.hxx:398-424 | The machine begins with the script's closure alone on the stack, its slots reserved and no global defined. |
| `Interpreter.VM.Push` | tx-runtime/include/tx/vm.hxx:130-133 | Pushing within the reserved capacity adds one value; beyond it the capacity assertion fails. |
| `Interpreter.VM.NegateOp` | tx-runtime/include/tx/vm_inl.hxx:570-583 | Integers and floats are negated in place, anything else is an error, as in the machine's semantics. |
| `Interpreter.VM.NotOp` | tx-runtime/include/tx/vm_inl.hxx:942-945 | The top becomes true exactly if it is nil or false, else false. |
| `Interpreter.VM.EqualOp` | tx-runtime/include/tx/vm_inl.hxx:877-888 | Two values become whether they are equal, or unequal. |
| `Interpreter.VM.BinaryOperation` | tx-runtime/include/tx/vm_inl.hxx:585-606 | Two integers give an integer, mixed numbers a float, anything else or an integer division by zero an error; operands keep their order. |
| `Interpreter.VM.GetLocal` | tx-runtime/include/tx/vm_inl.hxx:667-671 | The slot of the current frame is read and pushed. |
| `Interpreter.VM.SetLocal` | tx-runtime/include/tx/vm_inl.hxx:673-677 | The slot of the current frame gets the top, which stays. |
| `Interpreter.VM.GetGlobal` | tx-runtime/include/tx/vm_inl.hxx:679-690 | A defined global is pushed, an undefined one is an error. |
| `Interpreter.VM.DefineGlobal` | tx-runtime/include/tx/vm_inl.hxx:692-700 | The global becomes the top, which is dropped. |
| `Interpreter.VM.SetGlobal` | tx-runtime/include/tx/vm_inl.hxx:702-712 | A defined global gets the top, which stays; an undefined one is an error. |
| `Interpreter.VM.Jump` | tx-runtime/include/tx/vm_inl.hxx:952-959 | The instruction pointer moves forward from the end of the instruction. |
| `Interpreter.VM.JumpIfFalse` | tx-runtime/include/tx/vm_inl.hxx:960-967 | It jumps exactly if the top is nil or false, and the top stays. |
| `Interpreter.VM.JumpBack` | tx-runtime/include/tx/vm_inl.hxx:968-975 | The instruction pointer moves back from the end of the instruction. |
| `Interpreter.VM.CallValue` | tx-runtime/include/tx/vm_inl.hxx:480-541 | A closure called with its arity gets a frame based at the callee with its slots reserved; otherwise the error is that of the machine's semantics. |
| `Interpreter.VM.Return` | tx-runtime/include/tx/vm_inl.hxx:1000-1014 | The frame and its slots go, the result stays in the callee's place; the last frame ends the run. |
| `Interpreter.VM.DoClosure` | tx-runtime/include/tx/vm_inl.hxx:726-740 | A new closure of the constant's function is pushed, different from every earlier one. |
| `Interpreter.VM.DoEndScope` | tx-runtime/include/tx/vm_inl.hxx:742-749 | As many slots as given go from under the result, which stays on top. |
| `Interpreter.VM.Execute` | tx-runtime/include/tx/vm_inl.hxx:787-1021 | Each opcode's case does to the machine's state what its instruction means. |
| `Interpreter.VM.Dispatch` | tx-runtime/include/tx/vm_inl.hxx:787-1021 | Fetching, reading operands byte by byte and dispatching is one step of the machine. |
| `Interpreter.VM.Run` | tx-runtime/include/tx/vm_inl.hxx:753-1021 | The loop over the mutable machine is the machine's run for that many instructions, or until it halts. |
| `Cells.StaysSound` | tx-runtime/include/tx/vm_inl.hxx:543-568 | Every legal operation keeps the store sound: one cell per variable, frames nested in order, slots within the reservation. |
| `Cells.KeptAll` | tx-runtime/include/tx/vm_inl.hxx:976-1014 | Over every legal run above a frame, the frames below and their slots keep their cells, and cells that no closure captured keep their values. |
| `Cells.CallReturns` | tx-runtime/include/tx/vm_inl.hxx:976-1014 | From a call to its matching return, callee and arguments are replaced by exactly one result in a fresh cell; the caller's part keeps its length, its variables, and the value of every one that was not captured. |
| `Upvalues.Upvalue.Close` | tx-runtime/include/tx/vm_inl.hxx:561-568 | The upvalue takes over the value of its slot and from then on holds its own. |
| `Upvalues.VM.constructor` | tx-runtime/include/tx/vm_inl.hxx:193-210 | The machine starts with one frame, one closure and no upvalue, refining the store with one cell. |
| `Upvalues.VM.Push` | tx-runtime/include/tx/vm.hxx:130-133 | A push is a new variable with a cell of its own. |
| `Upvalues.VM.Pop` | tx-runtime/include/tx/vm.hxx:135-140 | Dropping an uncaptured slot leaves every other variable and upvalue as it was and returns the value of its cell. |
| `Upvalues.VM.GetLocal` | tx-runtime/include/tx/vm_inl.hxx:667-671 | The read gives the value of the variable's cell, captured or not. |
| `Upvalues.VM.SetLocal` | tx-runtime/include/tx/vm_inl.hxx:673-677 | The write is seen by every closure that captured the variable. |
| `Upvalues.VM.GetUpvalue` | tx-runtime/include/tx/vm_inl.hxx:714-718 | Through the pointer, on the stack or closed, the value of the captured variable's cell is read. |
| `Upvalues.VM.SetUpvalue` | tx-runtime/include/tx/vm_inl.hxx:720-724 | Through the pointer the captured variable's one cell is written, so that the frame and all closures see it. |
| `Upvalues.VM.CloseUpvalues` | tx-runtime/include/tx/vm_inl.hxx:561-568 | Exactly the open upvalues at or above the mark are closed, the others stay in order, and each closed one holds the value its variable had. |
| `Upvalues.VM.EndScope` | tx-runtime/include/tx/vm_inl.hxx:742-749 | The dropped variables' cells live on in the closures that captured them; the result and all other variables keep their values. |
| `Upvalues.VM.Return` | tx-runtime/include/tx/vm_inl.hxx:1000-1014 | The frame goes, its captured variables live on, and the result takes the callee's place. |
| `Upvalues.VM.EnsureStackSpace` | tx-runtime/include/tx/vm_inl.hxx:455-478 | Moving the stack changes no variable: every frame and every open upvalue points to the same index of the new stack. |
| `Upvalues.VM.MoveFrames` | tx-runtime/include/tx/vm_inl.hxx:464-469 | Every frame base keeps its index in the new stack. |
| `Upvalues.VM.MoveUpvalues` | tx-runtime/include/tx/vm_inl.hxx:470-476 | Every open upvalue keeps its index in the new stack, and closed ones are untouched. |
| `Upvalues.VM.Call` | tx-runtime/include/tx/vm_inl.hxx:480-504 | The frame is based at the callee, the function's slots are reserved, and no variable changes even if the stack moves. |
| `Upvalues.VM.CaptureUpvalue` | tx-runtime/include/tx/vm_inl.hxx:543-559 | The upvalue of the slot's variable is returned: the open one if there is one, else a new one linked in its place in the strictly descending list. |
| `Upvalues.VM.DoClosure` | tx-runtime/include/tx/vm_inl.hxx:726-740 | The new closure captures, in order, the cells of the variables its operands name, local or through the enclosing closure. |
| `Upvalues.VM.Execute` | tx-runtime/include/tx/vm_inl.hxx:787-1021 | Each operation on pointers does to the variables what its meaning with shared cells says, and keeps the refinement. |
| `Upvalues.VM.Run` | tx-runtime/include/tx/vm_inl.hxx:787-1021 | Over every legal run of pushes, pops, reads, writes, captures, scope ends, calls, returns and stack growth, the pointer machine agrees with one shared cell per variable. |
| `Upvalues.VM.LiveIsOpen` | tx-runtime/include/tx/vm_inl.hxx:543-568 | An upvalue of a variable still on the stack points to its slot and is in the open list. |
| `Upvalues.VM.CapturedIsOpen` | tx-runtime/include/tx/vm_inl.hxx:543-568 | A slot has an open upvalue if and only if some closure captured its variable. |
| `Upvalues.VM.UpvaluesRead` | tx-runtime/include/tx/vm_inl.hxx:714-718 | What any closure reads through any of its upvalues is the value of the cell it captured. |
| `Cells.CapturedAfter` | tx-runtime/include/tx/vm_inl.hxx:726-740 | After any legal run exactly those variables are captured that were before it or that a closure made in it captures. |
| `Cells.CapturedSince` | tx-runtime/include/tx/compiler_inl.hxx:1283-1297 | A local declared since the start of a loop is captured at `continue` or `break` if and only if a closure made since then captures it. |
| `Cells.PopsLegal` | tx-runtime/include/tx/compiler_inl.hxx:1283-1297 | Dropping the top slots with plain POPs is legal if and only if none of them is captured. |
| `Upvalues.VM.Reuse` | tx-runtime/include/tx/compiler_inl.hxx:1283-1297 | After plain POPs and as many pushes, every closure of a dropped variable reads the value now in its slot, whatever its variable had, and every other closure reads its variable. |
| `Upvalues.VM.ReuseIsSafe` | tx-runtime/include/tx/compiler_inl.hxx:1283-1297 | Then all closures read their variables if and only if every captured one among the dropped is followed by the same value. |
| `Upvalues.VM.PopIsSafe` | tx-runtime/include/tx/compiler_inl.hxx:1283-1297 | Plain POPs are safe for whatever is pushed next if and only if no closure captured any of the dropped variables. |
| `Upvalues.VM.TurnAndReuse` | tx-runtime/include/tx/compiler_inl.hxx:1325-1334 | After any legal turn of a loop that ends with `continue`, or with `break` out of `while`, all closures read right if and only if the locals of that turn that a closure of that turn captured are followed by the same value. |
| `Upvalues.ContinueOverCaptured` | tx-runtime/include/tx/compiler_inl.hxx:1325-1334 | For all values: a function stored in an outer variable captures a local of the loop body, `continue` drops the local, and the function then reads what the next turn pushes, while its variable has its old value. |
| `Resolve.ResolveKeeps` | tx-runtime/include/tx/compiler_inl.hxx:587-602 | Resolving a name only appends captures, at any depth, and every capture names a local or capture that the enclosing function has. |
| `Resolve.CompileKeeps` | tx-runtime/include/tx/compiler_inl.hxx:552-602 | Compiling any code keeps every capture naming something the enclosing function has, and only appends captures. |
| `Resolve.NameReaches` | tx-runtime/include/tx/compiler_inl.hxx:604-658 | The access chosen for a name leads, through the frame's slot or its closure's captured cell, to the variable of the innermost visible declaration, or is a global if there is none. |
| `Closures.CapturesAgree` | tx-runtime/include/tx/vm_inl.hxx:726-740 | What a new closure captures from the machine's stack and current closure is what name resolution says about the frame that makes it. |
| `Closures.UseStep` | tx-runtime/include/tx/vm_inl.hxx:667-718 | A use makes legal operations and reads the value of the variable that the name denotes where it stands in the source, or the global's. |
| `Closures.AssignStep` | tx-runtime/include/tx/vm_inl.hxx:673-724 | An assignment changes that variable alone, for every closure and frame that shares it. |
| `Closures.DefineStep` | tx-runtime/include/tx/compiler_inl.hxx:1127-1150 | A local function is a new variable that its own body can name and capture. |
| `Closures.CutStep` | tx-runtime/include/tx/vm_inl.hxx:742-749 | The end of a block takes its locals off the stack; closures keep them. |
| `Closures.CallStep` | tx-runtime/include/tx/vm_inl.hxx:480-504 | A closure called at any time, any number of times and after its scope has ended runs with the variables that surrounded its literal, and new ones for its parameters. |
| `Closures.UseGoesOn` | tx-runtime/include/tx/vm_inl.hxx:667-690 | A name that is visible, or a defined global, is always read. |
| `Closures.CallGoesOn` | tx-runtime/include/tx/vm_inl.hxx:480-504 | A call with the right number of arguments always enters the body, with the surrounding variables and the arguments in order. |
| `Closures.CompiledReaches` | tx-runtime/include/tx/compiler_inl.hxx:552-658 | Every step of the compiled code, in whatever order functions are called and loops repeat, makes legal operations on variables, reads what lexical scoping reads, and keeps the two in agreement. |
| `Closures.ScriptReaches` | tx-runtime/include/tx/compiler_inl.hxx:67-97 | Over every run of every script: names resolved statically and closures made, called and left at run time agree with lexical scoping in all values read and all globals; the operations are legal throughout. |
| `Closures.RunScript` | tx-runtime/include/tx/vm_inl.hxx:753-1021 | The same on the machine whose upvalues point into its stack: for every script and every run, the values it takes from its stack are those of lexical scoping. |
| `Resolve.CompileDistinct` | tx-runtime/include/tx/compiler_inl.hxx:570-585 | No function ever captures the same variable twice. |
| `Resolve.Compiler.constructor` | tx-runtime/include/tx/compiler_inl.hxx:326-349 | A compiler joins the chain of the functions being compiled, with the callee's slot as its only local. |
| `Resolve.Compiler.ResolveLocal` | tx-runtime/include/tx/compiler_inl.hxx:552-568 | The backward search finds the latest local of that name, or none. |
| `Resolve.Compiler.AddUpvalue` | tx-runtime/include/tx/compiler_inl.hxx:570-585 | An existing equal capture is found, else the new one goes to the end, refused if and only if 2^24 are there already. |
| `Resolve.Compiler.ResolveUpvalue` | tx-runtime/include/tx/compiler_inl.hxx:587-602 | The recursion over enclosing compilers adds to the whole chain exactly the captures that closure conversion is proved for; it is refused if and only if some function on the way would exceed the limit. |
| `Resolve.Compiler.Named` | tx-runtime/include/tx/compiler_inl.hxx:604-658 | A name is resolved as local, captured or global, in this order, with the effect on the chain that closure conversion is proved for, or refused for the limit. |
| `HashMaps.HashMap.constructor` | tx-runtime/include/tx/hash_map.hxx:296-300 | A new table is the empty map and has no buffer. |
| `HashMaps.HashMap.FindInBucket` | tx-runtime/include/tx/hash_map.hxx:296-321 | Probing terminates at a live entry that satisfies the test, or at a free slot when no entry of that bucket does. |
| `HashMaps.HashMap.FindEntry` | tx-runtime/include/tx/hash_map.hxx:288-294 | The slot returned is the key's live entry if the map has the key, and otherwise one where inserting it keeps every key findable. |
| `HashMaps.HashMap.Get` | tx-runtime/include/tx/hash_map.hxx:196-201 | The value of the key in the finite map, or none. |
| `HashMaps.HashMap.LookUp` | tx-runtime/include/tx/hash_map.hxx:241-247 | If the map has a key with that hash that satisfies the test, a key satisfying it is returned, and nothing else ever is. |
| `HashMaps.HashMap.Set` | tx-runtime/include/tx/hash_map.hxx:204-218 | The map is updated at exactly that key, also when the table grows, and the result tells whether the key is new. |
| `HashMaps.HashMap.RehashImpl` | tx-runtime/include/tx/hash_map.hxx:323-347 | The table in a buffer of any power of two that has room for its entries is the same map, without tombstones. |
| `HashMaps.HashMap.Erase` | tx-runtime/include/tx/hash_map.hxx:220-228 | Exactly that key is removed, other keys stay findable because a tombstone is left, and the result tells whether there was one. |
| `HashMaps.HashMap.AddAllFrom` | tx-runtime/include/tx/hash_map.hxx:230-235 | The other map is merged in and wins on common keys; it is itself unchanged. |
| `HashMaps.HashMap.KeysAreLive` | tx-runtime/include/tx/hash_map.hxx:241-247 | Walking over the live slots visits exactly the keys of the map. |
| `Collector.Heap.constructor` | tx-runtime/include/tx/vm_inl.hxx:193-210 | A new heap has no objects, no marks and no roots. |
| `Collector.Heap.MarkObject` | tx-runtime/include/tx/memory_inl.hxx:160-170 | The object, if any, is marked and, if it was white, becomes gray; nothing else is marked. |
| `Collector.Heap.MarkValue` | tx-runtime/include/tx/memory_inl.hxx:172-174 | Exactly the object that the value refers to, if any, is marked. |
| `Collector.Heap.MarkTable` | tx-runtime/include/tx/memory_inl.hxx:176-181 | Exactly the objects among keys and values are marked. |
| `Collector.Heap.MarkCompilerRoots` | tx-runtime/include/tx/memory_inl.hxx:183-193 | Exactly the objects held by the parser's tokens and by the functions being compiled are marked. |
| `Collector.Heap.MarkArray` | tx-runtime/include/tx/memory_inl.hxx:195-197 | Exactly the objects among the values are marked. |
| `Collector.Heap.MarkRoots` | tx-runtime/include/tx/memory_inl.hxx:199-209 | Exactly the roots are marked: stack, frames, open upvalues, globals, parser tokens and functions being compiled. |
| `Collector.Heap.RootsByField` | tx-runtime/include/tx/memory_inl.hxx:199-209 | An object is a root exactly when the stack, a frame, an open upvalue, a global's value, a key or value of the table of global names, a token of the parser or a function being compiled refers to it. |
| `Collector.Heap.BlackenObject` | tx-runtime/include/tx/memory_inl.hxx:211-241 | Exactly the objects that this one refers to, by its kind, are marked. |
| `Collector.Obj.EdgesByField` | tx-runtime/include/tx/memory_inl.hxx:211-241 | What an object keeps alive is told by its kind: a closure its function and upvalues, a function its name and constants, an upvalue its closed value, natives and strings nothing. |
| `Collector.Heap.ClosedIsIntact` | tx-runtime/include/tx/memory_inl.hxx:199-241 | In a sound heap no field of any root or object refers outside the heap. |
| `Collector.Heap.TraceReferences` | tx-runtime/include/tx/memory_inl.hxx:243-249 | When tracing stops an object is marked if and only if it is reachable from the roots, on every heap, cyclic ones included. |
| `Collector.Heap.Sweep` | tx-runtime/include/tx/memory_inl.hxx:251-271 | The object list is the old one restricted to marked objects in the same order, without duplicates and with every mark cleared; freed objects are unlinked. |
| `Collector.Heap.MarkPhase` | tx-runtime/include/tx/memory_inl.hxx:287-288 | Marking from the roots marks exactly the reachable objects and leaves no gray object. |
| `Collector.Heap.SweepPhase` | tx-runtime/include/tx/memory_inl.hxx:251-290 | Exactly the reachable objects remain, in order, unmarked, with their fields, and none refers to a freed one. |
| `Collector.Heap.Allocate` | tx-runtime/include/tx/object_inl.hxx:47-71 | The new object heads the list, unmarked, and the heap stays closed. |
| `Interning.VM.SamePointer` | tx-runtime/include/tx/value.hxx:142-156 | Two strings of the heap are the same object if and only if their contents are equal, and both are in the table. |
| `Interning.VM.TableRemoveWhite` | tx-runtime/include/tx/memory_inl.hxx:273-278 | Erasing while iterating drops exactly the unmarked keys. |
| `Interning.VM.CollectGarbage` | tx-runtime/include/tx/memory_inl.hxx:280-305 | Exactly the reachable objects remain, in the same order; the references in every root field and in every field of a survivor are still to objects of the heap; and the table again holds exactly the heap's strings, except for one that is being added. |
| `Interning.VM.AddString` | tx-runtime/include/tx/object_inl.hxx:106-106 | After adding, the table holds exactly the heap's strings, even if a collection runs inside the table's own rehash. |
| `Interning.VM.MakeRoom` | tx-runtime/include/tx/hash_map.hxx:323-347 | Growing the table, with a collection at its allocation, loses no reachable string and keeps the new one. |
| `Interning.VM.MakeString` | tx-runtime/include/tx/object_inl.hxx:87-109 | The result has the given contents and is the existing string with them if there is one; strings stay canonical and the stack is as before. |
| `Interning.VM.PushString` | tx-runtime/include/tx/object_inl.hxx:87-109 | The string object with these contents, existing or new, is on top of the stack, and strings stay canonical. |
| `Interning.VM.PushObject` | tx-runtime/include/tx/object_inl.hxx:47-71 | A new object without fields is on top of the stack, even if its allocation collects, and the table still holds exactly the heap's strings. |
| `Interning.VM.Store` | tx-runtime/include/tx/object.hxx:149-200 | Exactly one field of one object changes, by its kind; heap and table stay sound without a write barrier. |
| `Interning.VM.StoreHead` | tx-runtime/include/tx/object.hxx:149-200 | A closure's function or a function's name changes, and nothing else. |
| `Interning.VM.AddGlobal` | tx-runtime/include/tx/vm_inl.hxx:692-700 | A new global holds the value; heap and table stay sound. |
| `Interning.VM.SetGlobal` | tx-runtime/include/tx/vm_inl.hxx:702-712 | Exactly that global changes; heap and table stay sound. |
| `Interning.VM.FieldKnown` | tx-runtime/include/tx/memory_inl.hxx:211-241 | No field of a surviving object refers to a freed one. |
| `Mutator.Program.constructor` | tx-runtime/include/tx/vm_inl.hxx:193-210 | A program starts with no objects and an empty stack. |
| `Mutator.Program.PushString` | tx-runtime/include/tx/object_inl.hxx:87-109 | Making a string gives the object first made with these characters, with its own identity even if it was freed in between. |
| `Mutator.Program.PushObject` | tx-runtime/include/tx/object_inl.hxx:47-71 | A new object gets an identity that no object ever had. |
| `Mutator.Program.PushCopy` | tx-runtime/include/tx/vm.hxx:130-133 | Copying a reference copies the identity. |
| `Mutator.Program.Drop` | tx-runtime/include/tx/vm.hxx:135-140 | Dropping a reference changes no object. |
| `Mutator.Program.StoreField` | tx-runtime/include/tx/object.hxx:149-200 | Exactly the addressed object changes for the program, in the field of its kind. |
| `Mutator.Program.LoadField` | tx-runtime/include/tx/object.hxx:149-200 | A load gives the value last stored there: what it refers to was never freed. |
| `Mutator.Program.LinkFields` | tx-runtime/include/tx/object.hxx:149-200 | Setting a closure's function or a function's name changes exactly that field for the program. |
| `Mutator.Program.DefineGlobal` | tx-runtime/include/tx/vm_inl.hxx:692-700 | A new global has the value stored. |
| `Mutator.Program.SetGlobal` | tx-runtime/include/tx/vm_inl.hxx:702-712 | Exactly that global changes for the program. |
| `Mutator.Program.GetGlobal` | tx-runtime/include/tx/vm_inl.hxx:679-690 | A load of a global gives what it holds: it was never freed. |
| `Mutator.LastStored` | tx-runtime/include/tx/vm_inl.hxx:679-712 | After any run that does not store there again, a load of a global gives the value last stored, collections or not. |
| `Mutator.Program.CollectGarbage` | tx-runtime/include/tx/memory_inl.hxx:280-305 | A collection changes nothing that the program sees. |
| `Mutator.Program.Execute` | tx-runtime/include/tx/memory_inl.hxx:280-305 | Every step on the real heap, with its hidden collections, is the step on a heap where nothing is ever freed. |
| `Mutator.Program.Run` | tx-runtime/include/tx/memory_inl.hxx:280-305 | Over every run of allocation, string making, stores, loads, globals and collections, the program sees what it would see if nothing were ever freed; and two strings are one object if and only if their contents are equal. |
| `Mutator.Program.SameIdentity` | tx-runtime/include/tx/value.hxx:142-156 | Comparing references on the stack is comparing identities: no two live objects are confused. |
| `Mutator.CollectionsUnseen` | tx-runtime/include/tx/memory_inl.hxx:280-305 | Runs that differ only in when they collect come to the same. |
| `Types.EqualSelf` | tx-runtime/include/tx/type_inl.hxx:95-102 | Type equality is reflexive on arbitrarily nested types. |
| `Types.EqualAgain` | tx-runtime/include/tx/type_inl.hxx:95-102 | Type equality is transitive. |
| `Types.EqualBack` | tx-runtime/include/tx/type_inl.hxx:95-102 | Type equality is symmetric on types whose unions have no duplicates. |
| `Types.EqualSetsBack` | tx-runtime/include/tx/type_inl.hxx:149-155 | Order-independent equality of unions is symmetric from a union without duplicates. |
| `Types.SymmetricIff` | tx-runtime/include/tx/type_inl.hxx:149-155 | Equality from a union is symmetric, whatever the other side, if and only if the union has no duplicates. |
| `Types.AssignableSelf` | tx-runtime/include/tx/type_inl.hxx:176-203 | Every type is assignable to itself. |
| `Types.AssignableAgain` | tx-runtime/include/tx/type_inl.hxx:157-203 | Assignability is transitive on all nested types, with contravariant parameters, Any on top and Int below Float. |
| `Types.AssignableSetsAgain` | tx-runtime/include/tx/type_inl.hxx:157-174 | Assignability of unions is transitive. |
| `Types.EqualSetsAssign` | tx-runtime/include/tx/type_inl.hxx:149-163 | Equal unions are assignable. |
| `Types.AddedDistinct` | tx-runtime/include/tx/type_inl.hxx:126-130 | Adding a type keeps a union free of duplicates. |
| `Types.Union.Add` | tx-runtime/include/tx/type_inl.hxx:126-130 | The type is appended unless an equal one is there, so that a union without duplicates stays so. |
| `Types.Union.MoveAllFrom` | tx-runtime/include/tx/type_inl.hxx:132-137 | All types of the other union are added in order, and it is emptied. |
| `Types.TypeCheckAssign` | tx-runtime/include/tx/type_inl.hxx:176-203 | The index loop over parameters decides assignability, with the two sides swapped for each parameter. |
| `Types.TypeCheckAssignSets` | tx-runtime/include/tx/type_inl.hxx:157-174 | Every member of the right union must be assignable to some member of the left one. |
| `Types.ArithmeticRow` | tx-runtime/include/tx/type_inl.hxx:268-285 | One left type against all right ones gives the union of results, or none as soon as one is no number. |
| `Types.TypeCheckArithmetic` | tx-runtime/include/tx/type_inl.hxx:254-296 | The result is empty unless both unions hold numbers only; otherwise it has Int if and only if both may be Int, and Float if and only if one may be, each once. |
| `Types.TypeCheckBinary` | tx-runtime/include/tx/type_inl.hxx:205-253 | Equality is accepted on all types, comparisons on numbers only, both giving Bool; arithmetic as above. |
| `Types.TypeCheckCallOne` | tx-runtime/include/tx/type_inl.hxx:321-335 | One callee type accepts the arguments if and only if it is a function of that many parameters to which they are assignable, and gives its return types. |
| `Types.TypeCheckCall` | tx-runtime/include/tx/type_inl.hxx:304-317 | Every member of the callee's union must accept the arguments; the result joins their return types. |
| `Types.CallExact` | tx-runtime/include/tx/type_inl.hxx:304-335 | A call is accepted exactly when every member of the callee's union is a function with as many parameters, which the arguments fit, and some return type; the result has exactly their return types. |
| `Types.CallStable` | tx-runtime/include/tx/type_inl.hxx:304-335 | A call that type-checks still does, with the same result, when any argument type is replaced by one assignable to it. |
| `Types.AssignedCallee` | tx-runtime/include/tx/type_inl.hxx:176-203 | A function type assignable to one that accepts the arguments accepts them as well. |
| `Types.ReturnsIgnored` | tx-runtime/include/tx/type_inl.hxx:176-203 | Function types that differ only in what they return are assignable to each other, although calls of them have different types: return types are not compared. |
| `Types.AssignableValues` | tx-runtime/include/tx/type_inl.hxx:176-203 | A value of an assignable type is a value of the type it is assigned to. |
| `Types.AssignableSetsValues` | tx-runtime/include/tx/type_inl.hxx:157-174 | The same for unions. |
| `Types.AssignableExact` | tx-runtime/include/tx/type_inl.hxx:176-203 | Unless both are function types, and if the right one has values: assignable means exactly that each of its values is one of the left type; an Int is a Float, and only Any takes everything. |
| `Types.UninhabitedAssigned` | tx-runtime/include/tx/type_inl.hxx:176-180 | To types without values only equality, or Any, applies. |
| `Types.AssignableSetsExact` | tx-runtime/include/tx/type_inl.hxx:157-174 | The same for unions whose right members have values and are no functions. |
| `Types.FunctionsAssignableExact` | tx-runtime/include/tx/type_inl.hxx:183-201 | A function type is assignable to another exactly when it has as many parameters and takes every list of arguments that the other one takes. |
| `Types.EqualExact` | tx-runtime/include/tx/type_inl.hxx:95-102 | Types without duplicates are equal exactly when they are the same but for the order of their unions, returns included, at every depth. |
| `Types.EqualSetsExact` | tx-runtime/include/tx/type_inl.hxx:149-155 | The same for unions. |
| `Types.BinarySound` | tx-runtime/include/tx/type_inl.hxx:205-296 | An accepted operator, applied by the machine to any values of the operand types, never reports that operands must be numbers, and its result is a value of the computed type; integer division by zero is the only error left. |
| `Types.NegateSound` | tx-runtime/include/tx/type_inl.hxx:298-302 | An accepted negation never fails, and its result is a value of the operand's type. |
| `Types.CallSound` | tx-runtime/include/tx/type_inl.hxx:304-335 | An accepted call, made by the machine, never reports a wrong callee or argument count; only the frame limit can stop it. |
| `Types.ArithmeticExact` | tx-runtime/include/tx/type_inl.hxx:254-296 | On nonempty unions of inhabited types arithmetic is accepted if and only if no values of these types make the machine report that operands must be numbers. |
| `Types.ComparisonExact` | tx-runtime/include/tx/type_inl.hxx:235-252 | Ordering on inhabited types is accepted if and only if no values make the machine report that operands must be numbers. |
| `Types.NegateExact` | tx-runtime/include/tx/type_inl.hxx:298-302 | A sign is accepted if and only if no value makes the machine report that its operand must be a number. |
| `Precedence.InfixRuleExists` | tx-runtime/include/tx/compiler.hxx:389-456 | Whenever climbing goes on, the rule table has an infix handler: a null handler is never invoked. |
| `Grouping.Levels` | tx-runtime/include/tx/compiler.hxx:389-456 | The operators are or, and, equality, comparison, sums and products, each class above the one before, `as` above them and calls above all; no other token is one. |
| `Grouping.TwoOperators` | tx-runtime/include/tx/compiler_inl.hxx:880-907 | For all operands and all pairs of operators: the second one goes first exactly if it is of a stronger class, or of the same class and that is `and` or `or`. |
| `Grouping.GroupsByClass` | tx-runtime/include/tx/compiler_inl.hxx:880-907 | Any number of operands and operators group at the weakest operator first, the last one of its class, but the first `and` or `or`, and so on within both parts. |
| `Grouping.LeafPrimary` | tx-runtime/include/tx/compiler_inl.hxx:521-550 | Names and literals are operands, with the value of their token. |
| `Grouping.PrimaryOperand` | tx-runtime/include/tx/compiler_inl.hxx:880-907 | What may be called may stand between operators. |
| `Grouping.OperandWhole` | tx-runtime/include/tx/compiler_inl.hxx:1037-1039 | An operand with no operator after it is a whole expression. |
| `Grouping.GroupPrimary` | tx-runtime/include/tx/compiler_inl.hxx:515-519 | A text in parentheses is one operand. |
| `Grouping.PrefixOperand` | tx-runtime/include/tx/compiler_inl.hxx:664-685 | A sign or negation takes the operand after it, calls included, and nothing more; which token means which is written out. |
| `Grouping.CastGroups` | tx-runtime/include/tx/compiler_inl.hxx:833-847 | A cast takes the operand before it, signs included; an `or` after it is taken for the type's, and rejected if no type follows. |
| `Grouping.CastOfRight` | tx-runtime/include/tx/compiler_inl.hxx:833-847 | A cast after an operator is of the right operand only. |
| `Grouping.CallPrimary` | tx-runtime/include/tx/compiler_inl.hxx:496-513 | A call takes the name, call or group just before it, and its arguments in order, up to 255. |
| `Grouping.TooManyArguments` | tx-runtime/include/tx/compiler_inl.hxx:479-494 | More than 255 arguments are rejected. |
| `Grouping.AssignmentTakesAll` | tx-runtime/include/tx/compiler_inl.hxx:604-658 | An assignment takes all that follows, and nests to the right. |
| `Grouping.NoAssignmentToOperand` | tx-runtime/include/tx/compiler_inl.hxx:880-907 | Assigning to an operator's right operand is rejected. |
| `Grouping.TypeByToken` | tx-runtime/include/tx/compiler_inl.hxx:1156-1184 | Each type token is the type of its name, and no other token but that of functions begins a type. |
| `Printing.TypeReadBack` | tx-runtime/include/tx/compiler_inl.hxx:1156-1184 | Every writable type, functions and nested unions included, is parsed back from its text, which is consumed exactly. |
| `Printing.UnionReadBack` | tx-runtime/include/tx/compiler_inl.hxx:1187-1191 | A union is parsed back from its members joined by `or`, and is rejected if and only if another `or` follows that starts no type. |
| `Printing.ReadBack` | tx-runtime/include/tx/compiler_inl.hxx:880-907 | At every level of precedence, parsing the minimally parenthesised text of a tree continues with that tree as left operand, or rejects it exactly when an `or` follows a type. |
| `Printing.RoundTrip` | tx-runtime/include/tx/compiler_inl.hxx:880-907 | Minimal-parenthesis text is parsed back to the same tree, consuming exactly its tokens, if and only if no left operand of `or` ends with a type; otherwise it is rejected. |
| `Printing.GuardedRoundTrip` | tx-runtime/include/tx/compiler_inl.hxx:880-907 | With parentheses around just those operands the round trip holds for every tree. |
| `Printing.CastBeforeOr` | tx-runtime/include/tx/compiler_inl.hxx:833-847 | For all names, `a as Int or b` is rejected: the type parser takes the `or` for the union's. |
| `Printing.Parsed` | tx-runtime/include/tx/compiler_inl.hxx:886-907 | Whatever the parser accepts is a tree of the kind that is printed, with at most 255 arguments per call and unions one can write. |
| `Printing.ParsedTypeSet` | tx-runtime/include/tx/compiler_inl.hxx:1187-1191 | Every union that is parsed has no duplicates. |
| `Printing.WritableSetIsDistinct` | tx-runtime/include/tx/type_inl.hxx:126-130 | Unions one can write are free of duplicates at every depth, so set equality and assignability behave on them. |
| `Printing.CanonicalText` | tx-runtime/include/tx/compiler_inl.hxx:880-907 | Reprinting any accepted text gives text that parses to the same tree. |
| `Printing.LoweredPlaced` | tx-runtime/include/tx/compiler_inl.hxx:552-568 | Trees that the expression parser builds meet the hypotheses of the compiler-correctness theorem. |
| `Climber.Parser.constructor` | tx-runtime/include/tx/compiler_inl.hxx:67-97 | A parser starts before the first token. |
| `Climber.Parser.Advance` | tx-runtime/include/tx/compiler_inl.hxx:179-192 | One token is consumed and handed over. |
| `Climber.Parser.Match` | tx-runtime/include/tx/compiler_inl.hxx:199-209 | The current token is consumed if and only if it is of that kind. |
| `Climber.Parser.ParseTypeName` | tx-runtime/include/tx/compiler_inl.hxx:1156-1184 | The method reads the type that the round trip is proved for and consumes exactly its tokens, or rejects. |
| `Climber.Parser.FunctionTypeName` | tx-runtime/include/tx/compiler_inl.hxx:1166-1180 | A function type with its parameters and return type is read, and its tokens consumed exactly. |
| `Climber.Parser.ParseUnion` | tx-runtime/include/tx/compiler_inl.hxx:1187-1191 | The loop joins types as long as `or` follows, dropping repeated ones. |
| `Climber.Parser.ParseTypeSetList` | tx-runtime/include/tx/compiler_inl.hxx:1194-1206 | The loop reads unions separated by commas up to the closing bracket; a trailing comma is allowed. |
| `Climber.Parser.ParsePrecedence` | tx-runtime/include/tx/compiler_inl.hxx:880-907 | The climbing loop returns the tree and the rest that the round trip is proved for, or rejects exactly when that does. |
| `Climber.Parser.PrefixExpression` | tx-runtime/include/tx/compiler_inl.hxx:886-896 | The prefix handler of the token is applied; a token without one is rejected, and progress is made. |
| `Climber.Parser.InfixExpression` | tx-runtime/include/tx/compiler_inl.hxx:897-902 | The infix handler of the token is applied to the left operand, and progress is made. |
| `Climber.Parser.RightOperand` | tx-runtime/include/tx/compiler_inl.hxx:441-447 | The right operand is parsed one level up for left-associative operators and at the same level for `and` and `or`. |
| `Climber.Parser.ArgumentList` | tx-runtime/include/tx/compiler_inl.hxx:479-494 | The loop reads expressions separated by commas up to the closing parenthesis; more than 255 are rejected. |
| `Climber.Parser.Expression` | tx-runtime/include/tx/compiler_inl.hxx:1037-1039 | An expression is parsed at the level of assignment. |
| `Bits.PowerOf2CeilU32` | tx-runtime/include/tx/utils.hxx:80-88 | Smearing returns the least power of two not below its argument for every value from 1 to 2^31, and wraps to 0 for 0 and above. |
| `Bits.PowerOf2CeilU64` | tx-runtime/include/tx/utils.hxx:90-99 | The same for 64 bits, from 1 to 2^63. |
| `Bits.TestIsExact` | tx-runtime/include/tx/utils.hxx:67-71 | The bit test accepts exactly the powers of two and 0. |
| `Bits.MaskIsMod` | tx-runtime/include/tx/hash_map.hxx:296-321 | Masking with capacity minus one is the remainder modulo capacity, for every power of two. |
| `Bits.GrownIsPower` | tx-runtime/include/tx/memory_inl.hxx:23-26 | A capacity grown any number of times from 0 is a power of two. |
| `Bits.GrowKeepsPower` | tx-runtime/include/tx/memory_inl.hxx:23-26 | Growing keeps a capacity a power of two of at least the minimum. |

## Left out

- The command line, the interactive loop, reading files, formatting, disassembly and debug tracing: input and output only.
- The scanner: the parser starts from tokens.
- Statements and block expressions as tokens: `Climber.Parser` stops with `BlockAhead` at the start of a block, `if`, `loop` or `fn`; the emitting methods are driven by trees instead.
- Error recovery, panic mode and message text: an error means that compilation is refused.
- Native functions, clocks and `sleep`: foreign calls.
- Raw allocation, placement construction and byte accounting: a collection may happen at any allocation.
- The values of hashes (Murmur).
- Float arithmetic and the width of integers: floats have abstract operations, integers are unbounded.
- Closures that capture variables in the compiler-correctness theorem: it covers functions without captures. `Closures.RunScript` covers captures, from names to the machine's upvalues, on the structure of the code; their bytes are in `Bytecode` and `Chunks`.
- Which values a program stores and which closures it calls: the runs of `Closures` leave both open, so they hold for every choice. `break` and `continue` are not among its statements.
- The growth of the table of global names during compilation: the indices of globals are given.
- Type checks inside the emitting methods: they are modelled beside them, and a type error would refuse the code.
- Whole-language type soundness: `as` emits no check, `and`/`or` are typed Bool while leaving an operand, and a missing `else` adds no Nil.
- The check of casts (`type_check_cast`), character values, constness of variables: they would add easy members only.
- The public `rehash`, `clear`, `destroy` and move operations of the table, and the iterator as an object: `HashMaps.HashMap.KeysAreLive` states what iteration visits.
- Roots other than the stack and the globals while a program runs: `Mutator` stores and loads through these two, the collector's own theorems take all roots.
- Pipeline.AcceptedIff: a legal program is shown to be accepted from an upper bound of its size; between the bound and the exact limits of jumps and indices it says nothing.
- Emitter.Parser.PatchJumpsInLoop: requires that closures inside the loop have short constant indices, because the source misreads long ones.
- Emitter.Parser.WalkOver: requires the same of the closure it steps over.
- Emitter.Parser.SkipClosure: requires a short constant index, since from a long one the source steps into the middle of the instruction; `LoopWalk.LongClosureMisread` and `LoopWalk.LongClosureRewritten` say what it does there.
- Emitter.Parser.EndLoop: requires what `Emitter.Parser.PatchJumpsInLoop` does.
- Emitter.Parser.Expression: requires the same of the loops inside the tree.
- Emitter.Parser.LoopExpr: requires the same of its body.
- Emitter.Parser.Statement: requires the same of the loops inside the statement.
- Emitter.Parser.WhileStatement: requires the same of its body.
- Emitter.Parser.FunctionBody: requires the same of the loops inside the function.
- Emitter.Parser.NamedVariable: the third case of the source, a captured variable, is `Resolve.Compiler.Named`; the table of globals is given.
- Emitter.Parser.FnExpr: emits no captures; `Chunks.Chunk.WriteClosure` writes them and `Resolve.Compiler` finds them.
- Emitter.Parser.ScriptBody: the table of globals is given, so a use before the definition and a second definition are not refused.
- Emitter.Parser.TopLevel: the table of globals is given and does not grow.
- LoopWalk.LongClosureMisread: closures without captures; with captures the walk reads them from the wrong place too, and may land anywhere.
- LoopWalk.LongClosureRewritten: closures without captures, and one step of the walk.
- Simulation.SimInvoke: native functions are not modelled.
- Pipeline.CompileFunction: requires that locals stand below pending operands and that closures in loops have short indices, because the source's code is wrong otherwise.
- Pipeline.CompileScript: requires the same.
- Correctness.PendingOperandMisread: `Codegen.Placed` excludes more than such programs, for example a right operand that declares a local and never names it.
- Closures.RunScript: every function reserves the slots its code needs; what the compiler counts instead is the subject of `Slots`, and a script that uses more than 2^24 captures or locals is refused by `Resolve.Compiler`.
- Interpreter.VM.Run: stops after a given number of instructions, since programs may run forever; `Pipeline.RunEnds` says when some number is enough.
- Interpreter.VM.CallValue: native functions are not modelled.
- Interpreter.VM.DoClosure: captures are the subject of `Upvalues.VM.DoClosure`.
- Interpreter.VM.Execute: the opcodes for captured variables halt it; they are the subject of `Upvalues.VM.Execute`.
- Interpreter.VM.Dispatch: the same; a closure's captures are not read.
- Climber.Parser.ParsePrecedence: stops with `BlockAhead` at a block, `if`, `loop` or `fn`.
- Climber.Parser.PrefixExpression: stops there as well.
- HashMaps.HashMap.RehashImpl: requires room for the entries; the source does not check it, and its probing would not end.
- Upvalues.VM.Run: is about legal runs, which drop a slot by plain POP only if no closure captured it.
- Printing.RoundTrip: trees of literals, names, assignments, operators, casts and calls; blocks are not printed.
- Types.AssignableExact: function types are not compared by their values, since closures carry no parameter types; `Types.FunctionsAssignableExact` compares them by the calls they take.
- Operators.IntegerOperators: integers are unbounded, so overflow is not modelled.
- Types.BinarySound: division of integers by zero stays an error, since the type checks do not exclude it.
