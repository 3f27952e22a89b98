# The Rinha interpreter, modelled and proved in Dafny

The interpreter reads a program as a JSON syntax tree, compiles it to bytecode in the same pass in
which it parses it, and runs the bytecode on a stack machine. This project models that whole path and
proves that a program does what its syntax tree means.

- **Reference.** `Syntax` and `Semantics` give the syntax tree and a big-step evaluator with lexical
  scoping and a heap of functions. `fuel` bounds only the depth of calls; running out of it is
  `Timeout`, and divergence is `Timeout` for every fuel. `Values` has the values and the primitive
  operations, with truncating division (section 6.5.5 of ISO/IEC 9899:2011) and 32-bit results; what C
  leaves undefined is the outcome `Undefined`.
- **Compiler.** `Codegen` is a pure recursive compiler on the chain of function contexts, with jump
  targets computed from lengths. `SinglePass` is the compiler as it is: one class that takes tokens from
  the scanner, appends to and patches a code buffer and updates the linked tables of the functions being
  compiled, with the loops over arguments and parameters. Its specification compiles while it parses;
  every method does exactly what that says, down to the error it reports, and on tokens that parse it
  gives what parsing (`Parser`) followed by `Codegen` gives. `Chunks` is its code buffer and `Scopes` its
  tables, one object per function linked to that of the enclosing function; `Functions` has the growing
  arrays of a function. `Scoping` is what compiling does to those tables.
- **Machine.** `Machine` is the pure step function, `Vm` the machine on arrays, proved to take the same
  steps. Where C would access memory outside the running frame, the code, the tables or the heap, the
  state becomes `Wild`, and the proofs are that it never does.
- **Scanner and parser.** `Tokens` says which token stands where, `Scanners` is the scanner that moves
  through the text. `Grammar` says exactly which tokens the parser accepts, `Layouts` which texts, and
  `RoundTrip` prints programs and reads them back.
- **Theorems.** `Simulation`, `Preservation`, `Safety` and `Programs` lead to the theorems of
  `Correctness`: semantic preservation in both directions, with and without size limits, from the text
  on. Both sides record a trace of the values printed and of the values read from variables, so the
  theorems say of every executed load that it gives what lexical scoping gives. `Boundaries`,
  `Dumps` and `Dispatch` are about the shape of the code and where the instruction pointer can be,
  `Brackets` about calls and returns on any code, `StackBound` and `StackDepth` about the size of
  the stack, `Floors` and `Heights` about the operands that every instruction finds, `TailCalls`
  about what tail calls change, `Modes` and `CheckMode` about `check`, `Errors`, `Reserves` and
  `Limits` about which programs are accepted, `Shapes` about which are supported, `Primitives`,
  `Strictness`, `Ordering` and `Encodings` about values. What evaluator and machine share is stated there
  on its own terms: every operator on every pair of values, what counts as false, and 32 bits.

## Supported programs

`Programs.Supported` is the class for which the single pass is correct: closed programs in spine form (a
chain of `let`s and `if`s that ends in expressions without `let`), where the value of a `let` mentions
its own name only if it is a function, where at most one branch of an `if` binds names, none of which
the other branch mentions, and where a branch of an `if` inside an expression is not itself a call. A
call has at most 255 arguments and a function at most 256 functions directly inside it, because those
numbers are one byte. A program is closed here when it has no free variable in the sense of lexical
scoping.

Seven lemmas in `Counterexamples` and `Wraparound` show, for whole families of closed programs that the
compiler accepts, that the code does something else than the program means when one of these conditions
fails: a `let` inside an operand, a value that mentions its own name, two branches that both bind, a
branch that binds a name the other one uses, a call in a branch inside an operand, 256 arguments, and
257 functions directly inside one. All theorems about the shape of the code, the position of the machine,
operands, tail calls, call brackets and stack bounds hold for every compiled program, supported or not.

Three defects of the source are part of the model, each as the error at the point where it happens:

- `chunk_emit_word` (src/chunk.c:42-47) reserves one byte and writes two. The model stops with
  `CodeBufferOverrun` exactly when the second byte falls outside the buffer. That is no rare case:
  1 + (2 + 3) is such a program (`Reserves.ThreeNumbersOverrun`), and the theorems of `Correctness` say
  nothing of it in the compiler as it is. `Codegen.Mode` has a flag to reserve both bytes. Semantic
  preservation and the theorems about code and runs hold for both settings, and
  `Reserves.OverrunExactly` says for which programs the flag matters.
- The table of variables has 255 entries (src/compiler.c:56), and the test of src/compiler.c:141 lets
  entry 255 through. The model stops with `VariableTableOverrun`. It follows that "too many variables"
  and "too many non-locals" are never reported (`Errors.CompileError`). `Limits.RejectedFor` says which
  programs write past the end.
- Keys, kinds and operators are compared by prefix (src/compiler.c:34, 277-349, 542-567), so more is
  accepted than the grammar of docs/rinha-ast.ebnf allows. The model accepts what the code accepts, and
  `Grammar.FileReads` and `Layouts.TextExactly` say what that is.

## Model

| member | source | states |
|---|---|---|
| Correctness.Interpret | src/main.c:74-89 | From text to result: it compiles exactly when the text parses and the compiler accepts it; if the text is a supported program and the machine has stopped, the program in the reference semantics ends with that value and that output, or that error, or a size limit is reported; it never leaves its frames, tables and code |
| Correctness.WrittenProgram | src/compiler.c:235-966 | Any text, in any layout and with names cut short or made longer as the parser allows, that writes a supported program and compiles: the machine ends with a value or an error, after the same trace, if and only if the program does |
| Correctness.CheckText | src/compiler.c:951-966 | On every text, whether it parses or not, `check` accepts what `compile` accepts and otherwise reports the same error, the first in the text, unless `compile` meets a limit on emitted code first |
| CheckMode.TextAgrees | src/compiler.c:951-966 | The same for any mode that emits nothing, with or without tail calls |
| CheckMode.TermAgrees | src/compiler.c:266-355 | On any tokens, and tables that differ only in constants and functions, the passes of `check` and `compile` over a term take the same tokens and reach the same tables, or report the same error, or `compile` meets a limit on emitted code |
| Correctness.SemanticPreservation | src/vm.c:193-653 | The compiled program on the machine ends with a value, an error or undefined arithmetic, after printing and reading the same values in the same order, if and only if the reference evaluator does, for every supported program |
| Correctness.Divergence | src/vm.c:193-653 | The machine runs forever if and only if evaluation never ends |
| Correctness.EveryRunFaithful | src/vm.c:645-653 | In any state of any run, with any stack and callstack sizes: if the machine has stopped, the program ends that way, with the value on top of the stack and the output so far, or the stack or the callstack is full and the error says which |
| Correctness.NeverWild | src/vm.c:240-635 | No instruction of a supported program, in any reachable state, reads, pops or writes outside its frame, its tables, its code or the heap |
| Correctness.LimitedPreservation | src/vm.c:127-147 | Finite stack and callstack change nothing but the end: the machine ends as the program does, or reports a limit after a prefix of its output |
| Programs.LimitedRun | src/vm.c:127-147 | A run with limits is the run without them, or it stops after a prefix of its trace with the error for the stack or the callstack, which is full then |
| Correctness.LimitedDivergence | src/vm.c:645-653 | A machine with limits that never stops runs a program that never ends |
| TailCalls.TailCallsTransparent | src/vm.c:596-620 | Replacing every tail call by a call and a return changes no result, no trace and no divergence of any compiled program, supported or not, when calls may nest without limit |
| TailCalls.TailCallsNeverWorse | src/vm.c:596-620 | With any stack and callstack sizes: if the machine with tail calls reports a limit, so does the one without; if the one without ends otherwise, the machine ends the same way |
| TailCalls.RunAlike | src/vm.c:572-635 | Every run of the machine is matched step by step by a run without tail calls that, apart from frames that wait to return, has the same frames with the same slots |
| Heights.OperandsThere | src/vm.c:193-635 | In every state of every run of every compiled program, supported or not and with any limits, the next instruction finds its operands above slot 0 of the running frame: two, one, or the callee and as many arguments as it says |
| Floors.TermGrounded | src/compiler.c:266-949 | On every path through the code of a term the operands are there, and the term leaves at least one more slot in use than before |
| Modes.ProgramAgrees | src/compiler.c:510-518 | Compiling calls in tail position as ordinary calls is accepted alike and changes only tail-call opcodes |
| Programs.ProgramSimulated | src/vm.c:645-653 | Evaluation with any fuel is matched by a number of machine steps; when fuel runs out the machine is still running after at least that many steps, with the same output |
| Programs.CompileChildren | src/compiler.c:641-655 | Each function directly inside a term becomes exactly one entry of the table of child functions, at every depth |
| Correctness.LoadIsLookup | src/vm.c:279-299 | Closure conversion: in any run of a supported program, with any limits, the nth load of a local or captured variable that is executed pushes the value that lexical scoping gives to the nth variable the program reads, or overflows the stack |
| Correctness.RunningTrace | src/vm.c:279-299 | The values read and printed up to any point of any run, with any limits, are a prefix, in the same order, of those the program reads and prints |
| Correctness.EvaluationTrace | src/vm.c:279-299 | All values the program reads and prints with any fuel are read and printed, in the same order, by some number of machine steps |
| Preservation.CaptureOk | src/vm.c:267-275 | The values captured for a new closure are those of its free variables where it is created |
| Preservation.ClosureStep | src/vm.c:254-277 | A new closure implements the function value; a `let`-bound function that captures itself captures that very closure |
| Preservation.SimulateOperand | src/vm.c:193-635 | An expression pushes exactly one value, the one it means, at any stack base, leaves everything below unchanged and continues behind its code, or fails as it should |
| Preservation.SimulateLet | src/compiler.c:680-714 | A `let` value lands in the slot the compiler gave the name, and the rest runs with it |
| Preservation.SimulateSpine | src/compiler.c:680-776 | A function body returns the value it means to its caller, at any stack base, with every slot below its frame unchanged |
| Preservation.SimulateIf | src/vm.c:520-531 | A conditional in an expression runs the branch that the condition selects and continues behind both |
| Preservation.SimulateSpineIf | src/compiler.c:716-776 | A conditional at the end of a function returns the value of the branch that the condition selects |
| Preservation.SimulateApply | src/vm.c:572-594 | Entering a closure with arguments runs its body in the environment of its definition and returns its value, or fails or keeps running as the application does |
| Preservation.SimulateCall | src/vm.c:572-635 | A call replaces callee and arguments by the one value of the application, with all slots below unchanged and the callstack as before |
| Preservation.SimulateTailCall | src/vm.c:596-620 | A tail call returns the value of the application to the caller of the running function |
| Brackets.CallBracket | src/vm.c:572-635 | On any code: while a called activation runs, however deeply it calls, saved frames and slots below the callee are unchanged; if it returns, callstack, closure and position are those of the call and exactly one value stands for callee and arguments |
| Brackets.StepInside | src/vm.c:596-635 | One instruction keeps the running activation above its base, stops the machine, or returns to the saved frame |
| Boundaries.ProgramTree | src/compiler.c:941-948 | In every compiled program the children of each function are the functions directly inside it, in order; each has its number of parameters as arity; its code is whole instructions with forward jumps to instructions; constant, child and captured-variable operands are in range of its final tables and slot operands at most the number of its parameters and `let`s, as are the slots its children capture; and no name is captured twice |
| Boundaries.TreeOperands | src/compiler.c:130-219 | In such a function every load of a local names a slot from 1 to the number of its parameters and `let`s, other operands are below the sizes of the tables, a jump goes to a later instruction or to the final return, and its children capture only such slots or its captured variables, none of them twice |
| Boundaries.TermCode | src/compiler.c:196-219 | The bytes of a term are whole instructions whose jumps, once patched, land on instructions of the term behind them or on its end |
| Boundaries.ClosedDescriptors | src/compiler.c:156-181 | A function's descriptors name slots or captured variables of the enclosing function, each at most once |
| Scoping.SlotOwner | src/compiler.c:130-154 | Different names in a table stand for different slots or captured variables |
| Scoping.ResolveCaptures | src/compiler.c:156-181 | After resolving, the name is in the table of the using function and every function on the way has captured that name and nothing else |
| Scoping.CompileGrows | src/compiler.c:130-181 | Compiling a term keeps all tables linked and binds only its `let` names; enclosing functions only capture its free variables |
| Dispatch.DispatchOnBoundary | src/vm.c:113-125 | In every run of every compiled program, with any limits, each executed instruction is one that the linear sweep of its function lists, and its constant, child and captured-variable operands exist |
| Dispatch.NextEvent | src/vm.c:511-531 | From any reachable state at most as many instructions run as the function has bytes left before the machine stops, calls or returns |
| Dispatch.StepForward | src/vm.c:511-531 | An instruction that neither calls nor returns stays in its frame and moves the instruction pointer strictly forward |
| Dispatch.StepKeeps | src/vm.c:193-635 | Every step keeps the position of the running function and of every saved frame at the start of an instruction |
| Dumps.DumpFunction | src/dump.c:8-159 | The listings of a function and all nested functions, in printing order, equal the recursive sweep |
| Dumps.DumpCode | src/dump.c:20-156 | The loop lists one line per instruction, with its position, and counts them |
| Dumps.SweepRecovers | src/dump.c:20-155 | The sweep of encoded code gives back exactly the encoded instructions, each at its offset |
| Dumps.ProgramListings | src/dump.c:157-158 | Every compiled program can be disassembled completely |
| Bytecode.DecodeEncoded | src/vm.c:113-125 | An encoded instruction is read back unchanged, 16-bit operands included, wherever it stands |
| Bytecode.DecodeExactly | src/vm.c:113-125 | A byte of the code is read as an instruction if and only if that instruction's encoding stands there |
| Modes.CompileAgrees | src/compiler.c:266-355 | With and without emission a term is accepted with the same variables, slots and captures, or rejected for the same reason, but for limits on emitted code; without tail calls the code differs only in tail-call opcodes |
| Modes.CheckAgrees | src/compiler.c:405-427 | A program that compiles passes the check; otherwise the errors are the same or `compile` hit a limit on constants, integers, jumps or the code buffer |
| Modes.ResolveAgrees | src/compiler.c:156-181 | Name resolution does not depend on emission |
| Errors.CompileError | src/compiler.c:102-181 | A term is rejected only for a size limit or a free variable that is not in scope; "too many variables" and "too many non-locals" are never reported, because the variable table is overrun first |
| Errors.ClosedProgramError | src/compiler.c:951-966 | A closed program is rejected only for a size limit |
| Errors.ResolveError | src/compiler.c:156-181 | An undefined-variable error names a variable that no function of the chain has |
| StackBound.TermFlow | src/compiler.c:266-949 | Before each instruction of a term no more slots are in use than the need computed from the syntax |
| StackBound.ProgramFlow | src/compiler.c:591-656 | In every function of a compiled program no more slots are in use before an instruction than the largest need of the program's functions |
| StackDepth.StackBounded | src/vm.c:127-147 | If no function needs more than max slots, the stack holds at most depth * (max - 1) + max values at any time |
| StackDepth.NoStackOverflow | src/stack.h:12-19 | A stack of callDepth * (max - 1) + max slots never overflows, whatever the program does |
| StackDepth.DefaultSizes | src/stack.h:10 | With 131072 stack slots and 8192 frames, the default sizes, and functions that need at most 16 slots, a stack overflow is never reported |
| StackDepth.TailCallsRunInConstantSpace | src/vm.c:596-620 | A run that makes only tail calls never pushes a frame and never uses more than max slots |
| StackDepth.StepKeeps | src/vm.c:193-635 | Every step keeps the running frame and every saved frame within the bound of its code |
| Counterexamples.LetOperandFails | src/compiler.c:130-136 | A `let` inside an operand: a - (let x = b; x) means a - b and computes b - a, for all a, b and x |
| Counterexamples.LetSelfFails | src/compiler.c:692-698 | let x = a; let x = x; x means a, and its code reads past the top of the stack |
| Counterexamples.LetBranchFails | src/compiler.c:739-760 | Two branches that both bind: the slots of the first stay taken, and the second reads past the top of the stack |
| Counterexamples.TailOperandFails | src/compiler.c:742-759 | A call in a branch of an operand is a tail call and drops the waiting operands: a - (if (true) f() else false) computes f() |
| Wraparound.ManyArgumentsFail | src/compiler.c:482-518 | A call with n arguments: supported exactly for n < 256; from 256 on the program means that a number cannot be called, and its code calls one of the arguments |
| Wraparound.ManyFunctionsFail | src/compiler.c:641-655 | n functions in a branch that is not taken, and a call of one more that gives b, for every n from 1: supported exactly for n < 256; it compiles exactly if the jump over the branch fits in 16 bits and the operand of the second jump in the buffer, and then, from 256 on, calls a function that gives a |
| Wraparound.HidingFails | src/compiler.c:739-760 | let x = a; if (false) (let y = b; y) else x: supported exactly when x and y differ; with one name for both the code reads past the top of the stack |
| Reserves.OverrunExactly | src/chunk.c:42-47 | The compiler accepts a program exactly when a compiler that reserves both bytes of a word accepts it and no 16-bit operand in its code, or in that of a function in it, would take the last place of a full buffer; otherwise it overruns |
| Reserves.CompileMeets | src/chunk.c:42-47 | The same for a term at any position of the code, errors included |
| Reserves.ClearLines | src/chunk.c:42-47 | That condition in terms of the disassembler's lines: no three-byte instruction at p where p + 2 is a capacity |
| Reserves.ThreeNumbersOverrun | src/chunk.c:42-47 | Every a op (b op2 c) of three numbers below 65536 is supported and overruns the code buffer; with two bytes reserved it compiles |
| Reserves.LetsOverrun | src/compiler.c:138-154 | A chain of n `let`s is supported; it compiles exactly up to 255, and the next variable is written past the end of the table |
| Limits.AcceptedExactly | src/compiler.c:941-966 | Which programs are accepted, in every mode, the compiler's own included: exactly those that capture nothing at the top, have at most 255 parameters, `let`s and captured variables and, with emission, at most 256 constants in every function and in the program, no integer above 2147483647, no `if` that ends behind byte 65535 and, with one byte reserved, no word at the last place of a full buffer; the constants and the number of bytes of the program are those counted in its text |
| Limits.RejectedFor | src/compiler.c:102-181 | Each error means that its own limit is exceeded, or that the program is not closed |
| Limits.SpineAccepted | src/compiler.c:156-181 | In spine form a program is accepted if and only if it is closed in the sense of lexical scoping and exceeds no limit |
| Limits.SpineCaptures | src/compiler.c:156-181 | In spine form the names that the single pass captures are exactly the free variables of lexical scoping that are not in the table |
| Limits.TablesExactly | src/compiler.c:138-154 | `check` accepts a program exactly when it captures nothing at the top and all tables have room; a closed program that it rejects writes past the end of a table |
| Limits.TermMeasured | src/compiler.c:266-355 | A term is accepted at a point exactly when the functions in it fit, there is room for its `let`s, captures and constants, and its integers, jumps and words fit; then exactly those names and constants are added, in every table, and its code has the size counted in its text |
| Limits.ResolveRoom | src/compiler.c:156-181 | A name resolves exactly when every function between its use and its definition, each of which has to capture it, has room |
| Limits.IntegerCompiles | src/compiler.c:405-427 | A program that is one integer compiles up to 2147483647 and is an integer overflow above; up to 65535 the integer is in the code, above it is the only constant |
| Shapes.SupportedExactly | src/compiler.c:466-776 | The supported programs, described part by part: closed, each `let`, `if` and end on the trunk as the single pass needs it, at most 256 functions directly inside one |
| Shapes.OperandExactly | src/compiler.c:716-776 | A term can stand anywhere if and only if no part of it is a `let`, a call of 256 arguments or more, an `if` with a call at the end of a branch, or a function whose body is not in spine form |
| SinglePass.CompileSource | src/compiler.c:951-966 | compile: the function of the text or the error it reports are exactly those of the interleaved specification |
| SinglePass.TextFollows | src/compiler.c:951-966 | The interleaved pass on a text that parses gives what compiling the parsed program gives, result or error; on any other text both fail |
| SinglePass.Compiler.CompileFile | src/compiler.c:235-264 | Consumes the tokens of a file and leaves the code of its expression and a return |
| SinglePass.Compiler.CompileTerm | src/compiler.c:266-355 | Succeeds exactly when the interleaved specification does, and then exactly the term's tokens are consumed, its code is appended and the tables are the specified ones; otherwise the error is the first one in the order of the text |
| SinglePass.Compiler.CompileCall | src/compiler.c:466-519 | As CompileTerm for a call: callee, arguments and the call instruction, whose argument count is kept in one byte |
| SinglePass.Compiler.CompileTerms | src/compiler.c:482-501 | The loop over the arguments compiles each in order and counts them modulo 256; on failure the error is that of the first argument or separator that fails |
| SinglePass.Compiler.CompileBinary | src/compiler.c:521-589 | As CompileTerm for a binary operation: left operand, right operand, then the operator's instruction |
| SinglePass.Compiler.CompileFunction | src/compiler.c:591-656 | As CompileTerm for a function, which becomes a child of the enclosing one; the enclosing buffer gets only the closure instruction |
| SinglePass.Compiler.CompileInner | src/compiler.c:603-641 | The function gets a struct linked to the enclosing one and a buffer of its own; afterwards the enclosing buffer is as before and the enclosing tables have changed only by what the body captures |
| SinglePass.Compiler.CompileParameters | src/compiler.c:608-626 | The loop over the parameters gives each the next slot, adds no code and counts them modulo 256 |
| SinglePass.Compiler.CompileLet | src/compiler.c:680-714 | As CompileTerm for a `let`: the name is declared before its value is compiled, and the rest is a tail position |
| SinglePass.Compiler.CompileIf | src/compiler.c:716-776 | As CompileTerm for a conditional: emitting two jumps with operand 0 and patching them gives the code with the targets computed from lengths |
| SinglePass.Compiler.EmitJump | src/compiler.c:196-207 | A jump with operand 0 and the offset of its operand |
| SinglePass.Compiler.PatchJump | src/compiler.c:209-219 | Patching changes the two operand bytes of that jump to the current end of the code and nothing else; it fails exactly beyond 65535 |
| SinglePass.Compiler.CompileUnary | src/compiler.c:778-848 | As CompileTerm for print, first and second: the operand, then the instruction |
| SinglePass.Compiler.CompileTuple | src/compiler.c:887-916 | As CompileTerm for a tuple: first, second, then the instruction |
| SinglePass.Compiler.CompileVar | src/compiler.c:918-949 | As CompileTerm for a variable: the load is of the slot or captured variable that resolution in the linked tables gives |
| SinglePass.Compiler.CompileInt | src/compiler.c:386-428 | As CompileTerm for an integer: inline up to 65535, a constant above, an overflow beyond 2147483647, and none of these when only checking |
| SinglePass.Compiler.CompileStr | src/compiler.c:430-464 | As CompileTerm for a string: a new constant and its load |
| SinglePass.Compiler.CompileBool | src/compiler.c:850-885 | As CompileTerm for a boolean |
| SinglePass.Compiler.CompileParameter | src/compiler.c:658-678 | A parameter's tokens, then a new local |
| SinglePass.Compiler.CompileLocation | src/compiler.c:357-384 | A location is consumed exactly when it parses |
| SinglePass.Compiler.Next | src/compiler.c:16-30 | The next token is requested only before the end of the text |
| SinglePass.Compiler.ConsumeKey | src/compiler.c:32-39 | A key is accepted when it is a prefix of the expected one |
| SinglePass.TermFollows | src/compiler.c:266-355 | Compiling a term while its tokens are read gives what parsing it first and compiling then gives: the same tokens left, code and tables, or the same error; if the tokens do not parse it fails |
| SinglePass.IfFollows | src/compiler.c:716-776 | The same for a conditional, whose jumps are emitted before their targets are known |
| SinglePass.FunctionFollows | src/compiler.c:591-656 | The same for a function, whose parameters and body are compiled in tables and a buffer of its own |
| Scopes.Scope.Resolve | src/compiler.c:156-181 | Resolving in place, through the linked tables of the enclosing functions, leaves all of them as the pure resolution says |
| Scopes.Scope.LookupVariable | src/compiler.c:183-194 | The last entry with the name |
| Scopes.Scope.Capture | src/compiler.c:174-180 | A descriptor and then an entry for the captured variable, or the error of the one that has no room |
| Scopes.Scope.AddConstant | src/compiler.c:102-115 | Appends a constant and returns its index, or adds nothing when there are 256 |
| Scopes.Scope.constructor | src/compiler.c:221-233 | Empty tables, with slot 0 taken, linked to those of the enclosing function, which do not change |
| Scopes.Scope.AddVariable | src/compiler.c:138-154 | Appends an entry, or reports the write past the 255 entries of the table that the test lets through |
| Scopes.Scope.AddLocal | src/compiler.c:130-136 | Appends a local in the next slot, whose number wraps at one byte |
| Functions.Function.AddNonlocal | src/function.c:80-99 | Appends a descriptor and returns its index, or adds nothing when there are 256; growth keeps the others |
| Functions.Function.AddChild | src/function.c:101-109 | Appends a child without any limit; growth keeps the others |
| Functions.Table.Grow | src/function.c:24-34 | One doubling makes room for one element and keeps the elements |
| Chunks.Chunk.EnsureCapacity | src/chunk.c:10-22 | The least doubling that is large enough, and the bytes are kept |
| Chunks.Chunk.EmitByte | src/chunk.c:35-40 | Appends one byte |
| Chunks.Chunk.EmitWord | src/chunk.c:42-47 | Appends two bytes, unless only one is reserved: exactly when the number of bytes is one less than a capacity, the second falls outside the buffer |
| Chunks.Chunk.Patch | src/compiler.c:218 | Changes two bytes and nothing else |
| Chunks.CapacityGap | src/chunk.c:14-16 | No capacity lies strictly between a capacity and its double |
| Vm.VM.VmRun | src/vm.c:645-653 | After any number of instructions the arrays and registers hold exactly the state of the pure machine with the limits given by the array sizes |
| Vm.VM.Step | src/vm.c:113-125 | Reading an opcode and its operands and executing it in place is exactly one step of the pure machine, errors included |
| Vm.VM.DoClosure | src/vm.c:254-277 | The closure is pushed first, then every captured value is read; the heap grows by exactly that closure |
| Vm.VM.DoCall | src/vm.c:572-594 | Checks the callee and the arity, saves the frame and enters the callee at its slot, or reports the error with nothing changed |
| Vm.VM.CopyDown | src/vm.c:616-617 | The ascending copy moves all n slots intact although source and target may overlap |
| Vm.VM.DoTailCall | src/vm.c:596-620 | Callee and arguments replace the running frame; the callstack does not change |
| Vm.VM.DoReturn | src/vm.c:622-635 | Pops the frame and leaves the result in the callee's slot, or halts on an empty callstack |
| Vm.VM.Push | src/vm.c:127-136 | Pushes, or reports an overflow on a full stack and changes nothing |
| Vm.VM.PushFrame | src/vm.c:138-147 | Saves a frame, or reports too many nested calls and changes nothing |
| Vm.VM.DoOperands | src/vm.c:301-561 | Operators replace their operands in place by the result; a conditional jump pops its operand |
| Scanners.Scanner.NextToken | src/scanner.c:127-181 | The next token of the text, or the scanner's error there: an unterminated string exactly at a quote, and an unexpected character everywhere else; at least one character is consumed, line and column are those of the consumed prefix, and the token has those of its first character |
| Scanners.Scanner.MatchInt | src/scanner.c:57-73 | The longest run of digits, refused when a word character follows; nothing changes on refusal |
| Scanners.Scanner.MatchString | src/scanner.c:75-101 | Up to the next quote; an error when a NUL comes first |
| Scanners.Scanner.MatchKeyword | src/scanner.c:103-116 | The keyword, refused when a word character follows |
| Scanners.Scanner.NextChar | src/scanner.c:26-37 | Line and column stay those of the consumed prefix |
| Scanners.Scanner.SkipSpaces | src/scanner.c:20-24 | Moves past spaces, tabs, newlines, vertical tabs, form feeds and carriage returns and stops at the first other character |
| RoundTrip.FileBack | docs/rinha-ast.ebnf:2-122 | Every AST is read back from its printed tokens, and what follows is left over |
| RoundTrip.TermBack | src/compiler.c:266-355 | Every term is read back from its printed tokens |
| RoundTrip.DigitsBack | src/compiler.c:117-128 | The decimal digits of a number are digits and denote that number |
| RoundTrip.DigitsRead | src/compiler.c:117-128 | Digits, with or without zeros in front, are read as the number they denote |
| RoundTrip.KeysByPrefix | src/compiler.c:32-39 | A key is accepted if and only if it is a prefix of the expected one |
| Grammar.FileReads | docs/rinha-ast.ebnf:2-122 | The parser answers with a file exactly when the tokens fit the grammar's slots for that file: keys may be cut short, names of kinds and operators may go on, numbers may have zeros in front, and nothing else; what is left starts with a token that scans |
| Grammar.TermReads | src/compiler.c:266-355 | The same for a term, whatever has to follow it |
| Grammar.KindExactly | src/compiler.c:276-353 | A text is taken for a kind if and only if it starts with the name of that kind |
| Grammar.OperatorExactly | src/compiler.c:542-567 | A text is taken for an operator if and only if it starts with its name, and it is not "Lt" or "Gt" with an e behind it |
| Grammar.OperatorWithMore | src/compiler.c:542-567 | A name of an operator with more behind it is that operator unless it is "Lt" or "Gt" and an e follows |
| Layouts.TextExactly | src/scanner.c:127-181 | A text is read as a file and nothing else if and only if it is a layout of tokens that fit that file's slots, with any of the six white-space characters between them |
| Layouts.TextRoundTrip | src/scanner.c:127-181 | Any AST, printed with any of the six white-space characters between its tokens and strings without quote and NUL, is read back as exactly that AST, with the end of the text as the last token |
| Layouts.Scanned | src/scanner.c:127-181 | Any layout of a token sequence, with white space between adjacent words, scans back to it |
| Layouts.SpacesExactly | src/scanner.c:20-24 | What is skipped before r is exactly a string of the six white-space characters, if none of them starts r |
| Layouts.WordExactly | src/scanner.c:57-116 | An integer or a keyword is scanned as itself if and only if no digit, letter or underscore follows and the integer is decimal digits |
| Layouts.QuotedExactly | src/scanner.c:75-101 | A quoted text is scanned as itself if and only if it holds no quote and no NUL |
| Layouts.WritableExactly | src/scanner.c:75-101 | A file is what some text is read as if and only if no string, name or file name in it holds a quote or a NUL |
| Primitives.DivisionLaw | src/vm.c:373-407 | For integers from -2147483648 to 2147483647, `/` gives q and `%` gives r exactly when they are the quotient and remainder with a == b * q + r where r is smaller in size than b and has the sign of a; undefined exactly for divisor 0 and for -2147483648 by -1 |
| Primitives.ExactOrUndefined | src/vm.c:330-371 | `+`, `-` and `*` give c exactly when c is the exact result and lies from -2147483648 to 2147483647, and are undefined exactly when the exact result does not |
| Primitives.OperandErrors | src/vm.c:301-407 | Arithmetic fails exactly when an operand is no integer, apart from `+` next to a string, and the error names both types in order |
| Primitives.JoinsExactly | src/vm.c:149-191 | `+` with a string on one side joins the two texts in order: a string as itself, a boolean as `true` or `false`, an integer in decimal; it fails exactly for a tuple or a closure, whose type the error names |
| Primitives.TextsJoin | src/str.c:30-51 | For every string s: s + true is s followed by true, false likewise, also with s on the right; s + i is s followed by t exactly when t is i in decimal |
| Primitives.DecimalExactly | src/str.c:35-40 | An integer is written as t if and only if t is its decimal form: denotes it, without a needless zero and with a minus exactly when negative |
| Primitives.StringsAssociate | src/vm.c:149-191 | `+` can be grouped either way when the middle operand is a string or the outer two are, and joins the three texts in order |
| Primitives.GroupingMatters | src/vm.c:149-191 | a + b + s for natural numbers a and b and a string s always depends on the grouping: a sum is never written as one number behind the other |
| Primitives.WrittenBack | src/str.c:35-40 | The written form of an integer denotes that integer |
| Strictness.TruthExactly | src/vm.c:489-509 | `And` and `Or` take `false` for false and every other value, of any type, for true |
| Strictness.IfMeans | src/vm.c:520-531 | A conditional continues with its second branch exactly when its condition gives `false` |
| Strictness.JumpMeans | src/vm.c:520-531 | The conditional jump is taken exactly for `false`; it pops the value and changes nothing else |
| Strictness.FlagDecides | src/value.h:24-60 | In both representations of a value the falsy flag is set exactly when the jump is taken, and the tag is the value's type |
| Strictness.ProjectionMeans | src/vm.c:533-570 | First and second of a tuple are its parts, and of any other value an error that names its type |
| Strictness.BothEvaluated | src/vm.c:489-509 | `a And b` and `a Or b` mean conditionals that evaluate b whatever a is: the same outcome, trace and heap |
| Strictness.ShortCircuitExactly | src/vm.c:489-509 | They mean the same as their short-circuit forms if and only if a fails, or a decides to evaluate b, or b gives a value and prints, reads and creates nothing |
| Primitives.IntegerOrder | src/vm.c:433-445 | `<` is the order of the integers, undefined exactly when the difference does not lie from -2147483648 to 2147483647; of booleans only `false` < `true` holds |
| Primitives.CompareErrors | src/value.c:60-86 | A comparison fails exactly for two tuples, two closures or two types, and the error names the type or the types in order |
| Primitives.StringOrder | src/str.c:60-67 | A string comes before its extensions, and the first difference decides |
| Primitives.StringOrderNul | src/str.c:60-67 | Behind a NUL at the same place in two strings only their lengths count |
| Encodings.RepresentationsAgree | src/value.h:24-76 | The tagged word and the struct give the same type and flag for every value, and the same payload for every boolean and every 32-bit integer; for a pointer if and only if its address needs at most 60 bits |
| Encodings.OnlyFalseIsFalsy | src/value.h:24-28 | In both representations only `false` is falsy |
| Ordering.CompareTransitive | src/str.c:60-67 | String comparison is transitive |
| Ordering.CompareSwapped | src/str.c:60-67 | Swapping the operands changes the sign |
| Ordering.CompareZero | src/str.c:53-67 | str_compare is zero if and only if str_equal holds |
| Ordering.EqualExactly | src/str.c:53-58 | str_equal tells a string from every other one if and only if no NUL in it has a character behind it |
| Ordering.EqualIsEquivalence | src/value.c:34-58 | value_equal is an equivalence on all values |
| Ordering.SameExactly | src/value.c:34-58 | On all five types `==` tells a value from every other, and `!=` likewise, if and only if no NUL in a string of it has a character behind it; in particular on values without NULs |
| Ordering.EqualMeans | src/value.c:34-58 | On all values `==` compares type by type and part by part: strings by their length and up to their first NUL, tuples by both parts, closures by identity |
| Ordering.ComparableExactly | src/value.c:60-86 | A comparison succeeds if and only if both operands are booleans, both strings, or integers whose difference fits in 32 bits |
| Ordering.Trichotomy | src/vm.c:409-487 | On comparable values exactly one of `<`, `==`, `>` holds, and the other comparisons agree with them |
| Ordering.LteTransitive | src/vm.c:461-473 | `<=` is transitive on comparable values |

## Left out

- Supported: a sufficient condition, not the exact one; programs outside it can still run correctly by chance.
- Scopes.Scope.AddConstant: constants, descriptors and children of a function are sequences that the methods reassign; module Functions proves the growing arrays.
- SinglePass.Compiler.CompileIf: the tests of `emit` inside compile_if are one choice between an emitting and a checking method.
- SinglePass.Compiler.EmitWord: when the second byte falls outside the buffer the model reports an error where the code writes out of bounds.
- Chunks.Chunk.EnsureCapacity: allocation always succeeds and an `int` capacity does not overflow.
- Vm.VM.VmRun: takes at most a given number of steps, because a program may run forever; C recursion or a loop has no such bound.
- Vm.VM.DoOperands: the operator instructions are one method that applies the operator's primitive, instead of one method each.
- Dumps.DumpFunction: returns its lines instead of printing them, and stops at a byte that is no opcode.
- Correctness.Interpret: the commands, file reading and exit codes of src/main.c are not part of this model.
- The `name` in a descriptor of a captured variable is in the model only; no instruction reads it.
- The modes without tail calls and with two reserved bytes exist only in the model, to state what tail calls change and what the defect of chunk_emit_word does.
- The trace records values read from variables besides the printed ones; the machine itself keeps only its output.
- The byte order of a 16-bit operand is little-endian in the model; operands are only read back as words, so it cannot be observed.
- Error messages are tags; their text and positions are not modelled, except that the scanner keeps line and column. The parser's errors, an unexpected token and what the scanner reports, are one tag.
- value_print, str_print, tuple_print and the text that dump_function prints: a print appends the value to the output.
- src/memory.c, src/closure.c and src/result.c: allocation failure and the sizes of C objects.
- src/array.c: the array of constants grows as the tables in module Functions do.
- The choice between a table and a switch for dispatch (src/vm.c:10-56): both are the same step.
- docs/rinha.ebnf and the `.rinha` sources: the interpreter has no parser for them.
- Characters are those of ASCII in the C locale; isspace, isdigit and isalnum on other bytes are not modelled.
- Reads through misaligned 16-bit pointers are taken to work.
