# A verified model of the soft PLC

This project models the parts of the soft PLC that carry invariants — the structured text (ST)
compiler, the native CPU, the project front end, the Modbus mapping and the standard function
blocks — and proves what they promise. `dafny verify dfyconfig.toml` checks all of it.

## The parts

| files | what they model |
|---|---|
| `Values`, `DoubleArithmetic`, `ValueLaws` | values and the operations of `value_ops.hpp`; integer arithmetic done in doubles is exact; what each operator, comparison and store gives, in plain arithmetic |
| `Ast`, `Interpreter`, `TreeWalker`, `LoopBound` | the bound tree, its meaning as functions on stores, the interpreter that updates a tag store step by step, and how many passes a loop makes |
| `Codegen`, `Generator`, `TypeLaws`, `TypeSoundness`, `Agreement`, `EmittedCode`, `ArgumentOrder` | the type check and the emitted code with its own meaning; the generator's methods; the check rejects exactly what could stop on a type mismatch; neither interpreted nor emitted code ever stops on a type mismatch; emitted code and interpreter agree, and exactly which call arguments that needs |
| `ScanCost` | one scan of any program executes a bounded number of statements |
| `Names`, `Bound`, `Faithful`, `Expansion`, `Acceptance`, `Binder`, `Footprint`, `Isolation` | what binding establishes, which units it accepts, the binder itself as a class, and what frames may read and write: function block instances are isolated, function calls are stateless |
| `Grammar`, `Statements`, `Declarations`, `Spelling`, `Parser`, `StProgram` | the grammar as functions on token sequences with its inverse, what it accepts beyond the printed form, the recursive-descent parser proved against it, and loading a program |
| `Ladder`, `LadderPower`, `StlTranslator`, `StlText`, `Layout` | the front end: ladder networks and when their calls see the power of their coils, the statement-list translator and the text it prints, data block layouts and symbol addresses |
| `ByteImage`, `Cells`, `ProcessMemory`, `CodeOverMemory` | the big-endian, bit-packed process images, the memory object that refines a map from tags to values, and emitted code running on these bytes |
| `Schedule`, `Runtime` | the STOP/RUN/FAULT machine with its cooperative, re-entrant priority scheduler |
| `Modbus` | validation, grouping, batching and the register codec |
| `StandardFbs`, `LibraryText`, `Instances`, `InstanceCalls` | TON, TOF, CTU and CTD: their text and what it parses to, their bodies under the interpreter, what they compute over whole scan histories, that the frames the binder makes of them are these bodies, and that calls of them anywhere in a program follow these histories |

Each method is proved against a function that says what it computes; the laws are then proved
about these functions. A C++ exception is an `Err`, a `Threw`, a `None` or a `false`. Integer
widths, truncation and the 16- and 32-bit casts of the source are written out.

The environment enters as follows. The clock is any non-decreasing sequence of readings. What a
compiled OB does is any finite sequence of calls of the host API (tag and DB reads and writes,
lookups, faults, checkpoints) ending with any result. The STOP line that is read while an OB
executes may set `cancel` at any of the points where the source looks at it; otherwise commands
and worker passes are atomic, as the runtime's lock makes them. A module handed to LOAD is any
descriptor, or an error.

## What the proofs found

- **Code generation.** Emitted code evaluates all arguments of a call before it writes any, and
  clears temporaries inside the frame; the interpreter clears first and writes argument by
  argument. They agree on every program whose call arguments read neither the callee's own
  temporaries nor an input to which the call has already given another value
  (`Agreement.GeneratedCodeAgrees`). Where arguments are tags or literals and each input is passed
  once, that condition is exact: without it some tags make the two orders differ
  (`ArgumentOrder.OrdersAgreeExactlyWhenIndependent`). Two programs differ already from their
  initial values, one in its second scan (`ArgumentOrder.TemporaryReadDiverges`), one in its first
  (`ArgumentOrder.WrittenInputReadDiverges`).
- **Ladder networks with calls.** The condition is printed twice, so the calls see the contacts
  as the network's own coils have left them (`Ladder.NetworkRuns`). It is the same power whenever
  coils and contacts on one tag go the same way, as in a seal-in rung (`LadderPower.PowerStays`);
  for a network of one branch the exact condition is proved
  (`LadderPower.PowerStaysExactlyWhen`). `LadderPower.CoilEndsTheCalls` is a program whose coil
  has power in the first scan while its call does not happen, and none in the second, in which the
  call happens.
- **Modbus validation.** The overlap check computes the end of a range in 16 bits. What it accepts
  is free of overlaps exactly when no range but the last of a table ends at 65536
  (`Modbus.AcceptedIsDisjointUnlessWrapped`); `Modbus.OverlapAtTheTopIsAccepted` is an accepted
  overlap. There the verdict can even hang on the order `std::sort` leaves points of equal address
  in (`Modbus.OrderCanDecide`); everywhere else it cannot (`Modbus.OrderRarelyMatters`).
- **System.CycleTime.** A module whose tag of this name is not a TIME loads, but every dispatch
  then throws after the OB has been marked active, and it stays marked
  (`Runtime.Runtime.Dispatch`: it returns exactly when the tag, if there is one, is a TIME).
  `Runtime.StrandMainTask` loads such a module and strands OB1 with one STEP.
- **Addresses in POUs.** The parser takes a variable AT an address in any POU, but every instance
  and every call of a FUNCTION declares its variables anew and an address is declared once. So a
  FUNCTION with such a variable can be called in one place only, and a FUNCTION_BLOCK with one
  has a single instance (`Acceptance.AddressedPouExpandsOnce`).
- **Instances of functions.** The binder looks an instance's type up among all POUs, so
  `X : SomeFunction` in a VAR block binds; the model keeps this.

## Model

| member | source | states |
|---|---|---|
| `DoubleArithmetic.DoubleArithmeticIsExact` | `include/softplc/st/value_ops.hpp:91-137` | under any rounding that has relative error at most 2^-53 on the magnitudes these operations reach and fixes integers up to 2^53, + - * / on BYTE, INT and DINT fault exactly when the divisor is 0 or the true (truncated) result is out of range, and otherwise return it |
| `DoubleArithmetic.IntegersInDoubles` | `include/softplc/st/value_ops.hpp:116-136` | the same for two integers and the result type they promote to |
| `DoubleArithmetic.QuotientIsExact` | `include/softplc/st/value_ops.hpp:129-132` | the rounded quotient, range-checked and cast, is the quotient truncated toward zero, although the range test comes before the cast |
| `DoubleArithmetic.ProductIsExact` | `include/softplc/st/value_ops.hpp:126-128` | a product of two integers of the 8-, 16- or 32-bit types, also one beyond 2^53, is rejected or returned exactly as the true product is |
| `DoubleArithmetic.SumIsExact` | `include/softplc/st/value_ops.hpp:120-122` | the same for sums |
| `DoubleArithmetic.DifferenceIsExact` | `include/softplc/st/value_ops.hpp:123-125` | the same for differences |
| `DoubleArithmetic.FromIntegralDouble` | `include/softplc/st/value_ops.hpp:45-68` | a double that is an integer passes the range check and the cast as that integer |
| `ValueLaws.NumbersCompare` | `include/softplc/st/value_ops.hpp:195-214` | on BYTE, INT and DINT in any mix = <> < > <= >= compare the two doubles, which is to compare the two integers |
| `ValueLaws.TimesCompare` | `include/softplc/st/value_ops.hpp:175-194` | two TIMEs compare as their milliseconds |
| `ValueLaws.BoolsCompare` | `include/softplc/st/value_ops.hpp:143-154` | two BOOLs are equal or not and have no order |
| `ValueLaws.LogicMeans` | `include/softplc/st/value_ops.hpp:218-240` | AND, OR, XOR and NOT of BOOLs |
| `ValueLaws.NumbersInDoubles` | `include/softplc/st/value_ops.hpp:116-136` | under any such rounding + - * / give what the source computes in doubles, operand by operand |
| `ValueLaws.NumbersCompute` | `include/softplc/st/value_ops.hpp:116-136` | that is the sum, difference, product or truncated quotient, where the wider of the two types holds it |
| `ValueLaws.QuotientTruncates` | `include/softplc/st/value_ops.hpp:129-132` | the quotient has the magnitude of the quotient of the magnitudes, rounded down, and the sign of the operands |
| `ValueLaws.WiderTypeWins` | `include/softplc/st/value_ops.hpp:70-74` | the result type is one of the operand types and holds whatever either of them holds |
| `ValueLaws.TimesAdd` | `include/softplc/st/value_ops.hpp:95-110` | TIMEs are added and subtracted with a fault exactly where the true result leaves 64 bits; the guards themselves never overflow |
| `ValueLaws.NegationMeans` | `include/softplc/st/value_ops.hpp:236-249` | a number is negated over its double in its own type; only the lowest TIME has no negative |
| `ValueLaws.NumberStored` | `include/softplc/st/value_ops.hpp:81-90` | a number is narrowed over its double to the type of its target, or does not fit it |
| `ValueLaws.OtherStored` | `include/softplc/st/value_ops.hpp:81-90` | any other value is stored as it is, in a tag of its own type only |
| `ValueLaws.OtherOperandsMismatch` | `include/softplc/st/value_ops.hpp:91-234` | every other combination of operands is a type mismatch |
| `TreeWalker.TagStore.Write` | `src/tags/tag_store.cpp:50-56` | writes one tag and no other, or rejects a number no tag has and changes nothing |
| `TreeWalker.TagStore.WriteCoerced` | `src/st/interpreter.cpp:66-67` | every write narrows to the declared type of its target, or faults where the value does not fit it |
| `TreeWalker.TreeWalker.ExecBlock` | `src/st/interpreter.cpp:115-119` | runs its statements in order and stops at the first fault, as the meaning of the block says |
| `TreeWalker.TreeWalker.ExecStmt` | `src/st/interpreter.cpp:59-113` | the statement ends in exactly the store, or with exactly the fault, that its meaning gives |
| `TreeWalker.TreeWalker.ExecIf` | `src/st/interpreter.cpp:70-84` | the first branch whose condition holds, else the ELSE body |
| `TreeWalker.TreeWalker.ExecWhile` | `src/st/interpreter.cpp:85-102` | the loop tests its limit after the body, on completed passes, and always terminates |
| `TreeWalker.TreeWalker.ExecCall` | `src/st/interpreter.cpp:121-149` | clears temporaries, passes inputs one by one, runs the frame, passes outputs |
| `TreeWalker.TreeWalker.ResetTemps` | `src/st/interpreter.cpp:127-132` | each temporary gets its reset value |
| `TreeWalker.TreeWalker.CopyIn` | `src/st/interpreter.cpp:134-139` | inputs are evaluated and written argument by argument |
| `TreeWalker.TreeWalker.CopyOut` | `src/st/interpreter.cpp:143-148` | outputs are copied in order, narrowed to their targets |
| `TreeWalker.TreeWalker.ExecRung` | `src/st/interpreter.cpp:151-171` | direct coils follow the power; SET and RESET coils only act under power |
| `TreeWalker.TreeWalker.Run` | `src/st/interpreter.cpp:173` | one scan computes the meaning of the program on the tags it finds |
| `Generator.Generator.Write` | `apps/plc_codegen/main.cpp:88` | emits one typed write exactly when the tag exists |
| `Generator.Generator.Block` | `apps/plc_codegen/main.cpp:89` | accepts exactly the blocks that type-check and emits their statements in order |
| `Generator.Generator.Statement` | `apps/plc_codegen/main.cpp:90-141` | accepts exactly the statements that type-check and emits exactly their code |
| `Generator.Generator.IfStatement` | `apps/plc_codegen/main.cpp:102-111` | an if/else-if chain with the branches in order |
| `Generator.Generator.Branches` | `apps/plc_codegen/main.cpp:104-108` | each condition is BOOL and each body its own braces |
| `Generator.Generator.CallStatement` | `apps/plc_codegen/main.cpp:118-129` | all arguments are evaluated, then all written, then the frame is called, then outputs are written |
| `Generator.Generator.RungStatement` | `apps/plc_codegen/main.cpp:130-139` | power is computed once; SET and RESET coils are guarded by it |
| `Generator.Generator.FrameFunction` | `apps/plc_codegen/main.cpp:144-149` | a frame checks, clears its temporaries and runs its body; its temporaries are recorded |
| `Generator.Generator.Generate` | `apps/plc_codegen/main.cpp:142-157` | accepts exactly the programs that type-check, with typed initial values, and marks as temporary exactly the reset tags |
| `TypeLaws.BinaryTypeIsExact` | `apps/plc_codegen/main.cpp:50-65` | for all operators and all values: the operand types are rejected exactly when evaluating the operator on these values is a type mismatch, and otherwise the type is the one the result has |
| `TypeLaws.UnaryTypeIsExact` | `apps/plc_codegen/main.cpp:45-49` | the same for negation and NOT |
| `TypeLaws.AssignableIsExact` | `apps/plc_codegen/main.cpp:66-68` | a value of the expression's type is assignable exactly when storing it is no type mismatch |
| `TypeLaws.TypeIsWhatComesOut` | `apps/plc_codegen/main.cpp:41-65` | an expression has a type exactly when values of that type can come out of it |
| `TypeLaws.TypeCheckIsExact` | `apps/plc_codegen/main.cpp:41-65` | it has a type exactly when its tags exist and no operator in it can meet operands on which it mismatches |
| `TypeLaws.BlockAcceptedExactly` | `apps/plc_codegen/main.cpp:89-141` | the generator accepts exactly the statements whose conditions give BOOLs, whose tags exist and in which no evaluation or store can mismatch |
| `TypeLaws.AcceptedExactly` | `apps/plc_codegen/main.cpp:142-157` | and exactly the programs made of them whose initial values have the declared types |
| `LoopBound.WhileInNumbers` | `src/st/interpreter.cpp:85-102` | an interpreted WHILE that wants n passes ends after them for every n up to 1,000,000, and stops with the loop limit if it wants more after that |
| `LoopBound.LoopInNumbers` | `apps/plc_codegen/main.cpp:112-117` | so does the emitted loop, which counts a pass before it runs |
| `TypeSoundness.EvaluateSound` | `apps/plc_codegen/main.cpp:41-65` | an expression the check types yields a value of that type, or an overflow or a division by zero |
| `TypeSoundness.StmtSound` | `apps/plc_codegen/main.cpp:90-141` | an accepted statement keeps every tag at its declared type and faults only on overflow, division by zero or the loop limit |
| `TypeSoundness.BlockSound` | `apps/plc_codegen/main.cpp:89` | the same for statement lists, through calls of any depth |
| `TypeSoundness.LoopSound` | `src/st/interpreter.cpp:85-102` | the same for a loop from any number of passes on |
| `TypeSoundness.AcceptedProgramsAreTypeSafe` | `src/st/interpreter.cpp:173` | any number of interpreted scans of a bound, accepted program from its initial values keeps every tag typed and never stops on a type mismatch or an unresolved tag |
| `EmittedCode.ScanCodeSound` | `apps/plc_codegen/main.cpp:90-157` | one scan of the emitted code of any bound, accepted program, from any typed tags, keeps every tag typed and stops only on overflow, division by zero or the loop limit |
| `EmittedCode.GeneratedProgramsAreTypeSafe` | `apps/plc_codegen/main.cpp:90-157` | the same for any number of scans from the initial values; call arguments need not be independent |
| `EmittedCode.EveryWriteIsTyped` | `apps/plc_codegen/main.cpp:88` | after every single write of a scan of emitted code, also of a scan that ends in a fault, each tag holds a value of its declared type |
| `EmittedCode.BlockLeavesWrites` | `apps/plc_codegen/main.cpp:88` | emitted code that ends normally leaves exactly what its writes leave |
| `Agreement.ExpressionsAgree` | `apps/plc_codegen/main.cpp:71-87` | the emitted expression has the value, or the fault, of the source expression |
| `Agreement.ArgumentOrders` | `src/st/interpreter.cpp:127-139` | for independent arguments, clearing then passing one by one and passing all from the store of the call then clearing succeed together and end in one store |
| `Agreement.CallsAgree` | `apps/plc_codegen/main.cpp:118-129` | an emitted call and an interpreted call end normally together, in one store |
| `Agreement.FramesAgree` | `apps/plc_codegen/main.cpp:144-149` | an emitted frame and the frame the interpreter runs agree |
| `Agreement.LoopsAgree` | `apps/plc_codegen/main.cpp:112-117` | testing the limit before the body and testing it after give the same normal ends |
| `Agreement.RungsAgree` | `apps/plc_codegen/main.cpp:130-139` | an emitted rung and an interpreted rung agree |
| `Agreement.StatementsAgree` | `apps/plc_codegen/main.cpp:90-141` | every emitted statement agrees with its interpretation |
| `Agreement.BlocksAgree` | `apps/plc_codegen/main.cpp:89` | every emitted block agrees with its interpretation |
| `Agreement.GeneratedCodeAgrees` | `apps/plc_codegen/main.cpp:90-157` | for every bound program the type check accepts whose call arguments are independent of the callee, from every typed store, one scan of the emitted code and one of the interpreter end normally in exactly the same cases and then with the same value in every tag |
| `Agreement.EveryScanAgrees` | `apps/plc_codegen/main.cpp:142-157` | the same for any number of scans from the initial values |
| `ArgumentOrder.OrdersAgreeExactlyWhenIndependent` | `apps/plc_codegen/main.cpp:118-129` | on arguments that are tags or literals, each input passed once, clearing then passing one by one and passing all then clearing agree from every typed store exactly when no argument reads a temporary of the callee or an input the call has already changed |
| `ArgumentOrder.InterpreterForgets` | `src/st/interpreter.cpp:127-139` | what an argument passes that reads such a tag no longer depends on what the tag held at the call |
| `ArgumentOrder.GeneratedRemembers` | `apps/plc_codegen/main.cpp:118-129` | in the emitted order it still does |
| `ArgumentOrder.TemporaryReadDiverges` | `apps/plc_codegen/main.cpp:118-129` | a bound, accepted program, reading a temporary of its callee, whose second scan from the initial values differs |
| `ArgumentOrder.WrittenInputReadDiverges` | `apps/plc_codegen/main.cpp:118-129` | a bound, accepted program, reading an input the call has just written, whose first scan differs |
| `ScanCost.BlockWithinCap` | `src/st/interpreter.cpp:115-119` | a block executes no more statements than a bound computed from the program alone |
| `ScanCost.LoopWithinCap` | `src/st/interpreter.cpp:85-102` | a loop costs at most its remaining passes times its body's bound |
| `ScanCost.EveryScanIsBounded` | `src/st/interpreter.cpp:173` | one scan executes at most that many statements, whatever the tags hold and however it ends |
| `Footprint.StmtChangesOnly` | `src/st/interpreter.cpp:59-149` | a statement changes no tag outside the ones it, and all it calls, may write |
| `Footprint.BlockChangesOnly` | `src/st/interpreter.cpp:115-119` | the same for blocks |
| `Footprint.StmtDepends` | `src/st/interpreter.cpp:59-149` | from stores that agree on the tags it is determined by, a statement faults alike or ends in stores that agree on them |
| `Footprint.CallDepends` | `src/st/interpreter.cpp:121-149` | a call sets everything its callee relies on, so what earlier calls left behind is lost |
| `Binder.Binder.Declare` | `src/tags/tag_store.cpp:5-23` | succeeds exactly when no tag has that name or that address; the tag gets the next number with that type, initial value and address, and every frame stays well bound |
| `Binder.Binder.PushFrame` | `src/st/pou_binder.cpp:300` | a well-bound frame of nested or disjoint storage keeps the whole environment well bound |
| `Binder.Binder.DeclareVars` | `src/st/pou_binder.cpp:69-109` | fails exactly where a name or an address is taken, a type is unknown or inside itself, or a nested body is rejected; otherwise each elementary variable is declared under its prefix with its type, initial value (declared, or FALSE, 0 or T#0) and address, instances are expanded, and storage lies above what was there |
| `Binder.Binder.DeclareElementary` | `src/st/pou_binder.cpp:73-80` | one fresh tag under the prefixed name, of the declared type, with the declared initial value or FALSE, 0 or T#0, at the declared address; fails exactly where name or address is taken |
| `Binder.Binder.DeclareNested` | `src/st/pou_binder.cpp:81-102` | the instance becomes callable and its members, exactly these, are visible under dotted names; fails exactly where its type cannot be expanded |
| `Binder.Binder.DeclareInstance` | `src/st/pou_binder.cpp:82-95` | fails exactly where the type is unknown, is being expanded, or its variables or body are rejected |
| `Binder.Binder.Publish` | `src/st/pou_binder.cpp:102` | an instance of the program becomes callable from everywhere below it |
| `Binder.Binder.BindBlock` | `src/st/pou_binder.cpp:275-281` | fails exactly at the first statement that is rejected; otherwise the bound block is the source block with every name resolved, all tags and frames exist, and no call expands a type on the stack |
| `Binder.Binder.BindStmt` | `src/st/pou_binder.cpp:232-273` | the same for one statement |
| `Binder.Binder.BindIf` | `src/st/pou_binder.cpp:242-250` | branches and ELSE body are bound in order, in one scope; fails exactly where one of them does |
| `Binder.Binder.BindAssign` | `src/st/pou_binder.cpp:236-241` | binds exactly when the target and every name of the expression are in scope or declared, and to those tags |
| `Binder.Binder.BindWhile` | `src/st/pou_binder.cpp:251-256` | binds exactly when the names of its condition are declared and its body binds |
| `Binder.Binder.BindBranches` | `src/st/pou_binder.cpp:244-247` | branches are bound in order, each condition before its body |
| `Binder.Binder.BindCoil` | `src/st/pou_binder.cpp:263-268` | binds exactly when the target is a declared BOOL |
| `Binder.Binder.BindRung` | `src/st/pou_binder.cpp:260-270` | binds exactly when the condition resolves and every coil is a declared BOOL |
| `Binder.Binder.ExpandFunction` | `src/st/pou_binder.cpp:149-169` | a FUNCTION that is not being expanded gets a frame of its own for this call site, under a prefix no source text can name and no other call site shares; every call counts, and it fails exactly where the FUNCTION's variables or body are rejected |
| `Binder.Binder.FindCallee` | `src/st/pou_binder.cpp:143-170` | an instance in scope, else an instance of the program, else a fresh call site of the FUNCTION of that name; fails exactly where there is none of these or the FUNCTION cannot be expanded |
| `Binder.Binder.BindCall` | `src/st/pou_binder.cpp:137-230` | the call goes to the instance of that name in scope, failing that to the program's, failing that to a call site of the FUNCTION; its arguments lie inside the callee's storage and a FUNCTION gets all its inputs |
| `Binder.Binder.BindArg` | `src/st/pou_binder.cpp:184-219` | binds exactly when the callee has a parameter of that name and direction and the argument's names are declared |
| `Binder.Binder.BindArgs` | `src/st/pou_binder.cpp:174-229` | binds exactly when every argument does and a FUNCTION gets each of its inputs |
| `Binder.Binder.InputsGiven` | `src/st/pou_binder.cpp:222-229` | true exactly when no VAR_INPUT is missing |
| `Binder.Binder.DeclareDataBlock` | `src/st/pou_binder.cpp:333-343` | each member becomes a global tag under the block's name with its type, initial value and address, and nothing else is declared; fails exactly where a member is not elementary or its name or address is taken |
| `Binder.Binder.DeclareDataBlocks` | `src/st/pou_binder.cpp:333-343` | the same for all data blocks of a unit |
| `Binder.Binder.BindProgram` | `src/st/pou_binder.cpp:308-313` | the program body is bound against all frames built for it; fails exactly where a declaration or a statement is rejected |
| `Binder.Binder.CollectResets` | `src/st/pou_binder.cpp:291-298` | exactly the VAR_TEMPs, and the outputs of a FUNCTION, are reset, to their declared value or FALSE, 0 or T#0 |
| `Binder.Binder.ExpandPou` | `src/st/pou_binder.cpp:283-306` | the frame is a copy of the POU under the prefix, numbered above every frame it calls, its storage disjoint from or around every other; fails exactly where its variables or its body are rejected |
| `Binder.Binder.BindPou` | `src/st/pou_binder.cpp:284-287` | variables are declared, then a clone of the body is bound in their scope |
| `Binder.Binder.BuildFrame` | `src/st/pou_binder.cpp:289-305` | the new frame keeps the environment well bound and its parameters can be passed by calls |
| `Binder.Binder.BindUnit` | `src/st/pou_binder.cpp:317-347` | System.CycleTime, the data blocks and the program, in that order; fails exactly where one of them is rejected |
| `Binder.BuildRegistry` | `src/st/pou_binder.cpp:326-331` | succeeds exactly when no two POUs share a name |
| `Binder.BindExprKnown` | `src/st/pou_binder.cpp:52-65` | a bound expression reads only its own scope and tags with a plain name |
| `Binder.BindExprBinds` | `src/st/pou_binder.cpp:111-131` | a bound expression is its source with each name replaced by the tag it stands for |
| `Binder.BindCompilationUnit` | `src/st/pou_binder.cpp:317-347` | binding terminates on every unit and accepts exactly (`Acceptance.Accepted`) those whose POU names differ, whose tags all get names and addresses of their own, whose instances and FUNCTION calls have known types that are not inside themselves, and in whose bodies every name is declared by then, every coil is a BOOL and every argument fits its callee; what it accepts has only valid tag and frame numbers, calls only lower frames, starts from typed initial values with System.CycleTime at T#0, is a faithful copy of the source — every variable and data block member with its type, initial value and address, every instance with a frame of its type, every body with its names resolved — and expands no type inside itself |
| `Binder.ResolveFinds` | `src/st/pou_binder.cpp:52-65` | a name resolves exactly when it is in scope or declared in full, to a tag of that type |
| `Binder.BindExprFinds` | `src/st/pou_binder.cpp:111-131` | an expression binds exactly when all its names do |
| `Binder.FindParamFinds` | `src/st/pou_binder.cpp:185-192` | the first parameter of a name is the only one, so an argument finds it exactly when it has that direction |
| `Acceptance.CallSitesApart` | `src/st/pou_binder.cpp:163` | whatever FUNCTIONs two calls expand, no variable of the one has the full name of a variable of the other |
| `Acceptance.ElementaryVarsEnter` | `src/st/pou_binder.cpp:69-80` | declarations without instances are accepted exactly when their full names and addresses are free and no two of them share one, and bring exactly their own names into scope |
| `Acceptance.CallFreeBlockPasses` | `src/st/pou_binder.cpp:232-281` | a body without calls is accepted exactly when every name in it is declared and every coil is a BOOL, and declares nothing |
| `Acceptance.AddressedPouExpandsOnce` | `src/st/pou_binder.cpp:69-109` | once a POU with a variable at an address has been expanded, by an instance or a call, every later expansion of it is rejected, whatever has been bound in between |
| `Expansion.NoTypeExpandsItself` | `src/st/pou_binder.cpp:88-95` | along any chain of instances and calls from an accepted type no type comes twice and none is on the stack of types being expanded |
| `Expansion.TypeShadowed` | `src/st/pou_binder.cpp:146-148` | declaring further global instances never makes an accepted type circular |
| `Isolation.InstancesOwnDisjointTags` | `src/st/pou_binder.cpp:69-109` | two frames, neither nested in the other, share no tag |
| `Isolation.InstancesAreIsolated` | `src/st/interpreter.cpp:121-149` | calling an instance that keeps to its own storage leaves every tag of every other instance unchanged, save the targets of the call's outputs |
| `Isolation.StmtKeepsWrites` | `src/st/pou_binder.cpp:137-230` | parameters and temporaries of a callee lie in its own storage, so nothing else is written |
| `Isolation.FunctionCallsAreStateless` | `src/st/pou_binder.cpp:174-229` | two calls of a FUNCTION that reaches only FUNCTIONs, with equal inputs and equal values of the global tags it and they name, fault alike or give equal outputs and leave those tags equal, whatever other tags hold and whatever earlier calls left in its storage |
| `Grammar.ParsingInvertsPrinting` | `src/st/parser.cpp:441-564` | printing an expression with only the parentheses precedence needs and parsing it gives back the same left-associated tree |
| `Grammar.NameParses` | `src/st/parser.cpp:241-248` | a printed dotted name parses back to the name |
| `Statements.StmtParses` | `src/st/parser.cpp:328-439` | printing any unbound statement and parsing it, whatever follows, gives it back |
| `Statements.BlockParses` | `src/st/parser.cpp:308-326` | the same for statement lists up to any of their terminators |
| `Statements.IfParses` | `src/st/parser.cpp:336-361` | the same for IF with ELSIF branches and ELSE |
| `Declarations.SignedLiteralParses` | `src/st/parser.cpp:250-306` | a printed initial value, negative ones included, parses back through the casts of the parser |
| `Declarations.VarsParse` | `src/st/parser.cpp:156-208` | printed variable blocks parse back to the declarations |
| `Declarations.UnitParses` | `src/st/parser.cpp:60-86` | printing any well-formed compilation unit and parsing the tokens gives the unit back |
| `Spelling.Parenthesised` | `src/st/parser.cpp:557-561` | any expression may stand in parentheses, however many |
| `Spelling.StatementThen` | `src/st/parser.cpp:308-326` | any number of stray semicolons may follow a statement |
| `Spelling.IfSpelled` | `src/st/parser.cpp:336-361` | IF with any spelling of its conditions and bodies, any ELSIF branches, and an ELSE that may be missing or empty |
| `Spelling.ElsifSpelled` | `src/st/parser.cpp:346-352` | one more ELSIF branch, however it is spelled |
| `Spelling.WhileSpelled` | `src/st/parser.cpp:363-370` | the same for WHILE |
| `Spelling.BlockOfVars` | `src/st/parser.cpp:156-208` | variables may be grouped into blocks in any way, any number in each |
| `Spelling.PouSpelled` | `src/st/parser.cpp:102-124` | so a POU parses however its variables are grouped and its statements spelled |
| `Spelling.BlocksAllowed` | `src/st/parser.cpp:112-195` | PROGRAM takes VAR, VAR_INPUT and VAR_OUTPUT, a POU also VAR_TEMP, a DATA_BLOCK only VAR; instances stand only in VAR of a PROGRAM or FUNCTION_BLOCK; VAR in a FUNCTION is rejected |
| `Spelling.ExpressionCast` | `src/st/parser.cpp:534-545` | an integer literal in an expression is wrapped to 32 bits |
| `Spelling.IntCast` | `src/st/parser.cpp:253-265` | an initial value of an INT is wrapped to 16 bits |
| `Spelling.LiteralsAccepted` | `src/st/parser.cpp:250-301` | a literal is accepted exactly where it is of the declared type's kind |
| `Spelling.NegationsWrap` | `src/st/parser.cpp:10-23` | negating a literal stays in its type, wrapped to it; a BOOL has no negative |
| `Parser.Parser.Advance` | `src/st/parser.cpp:29-39` | moves past one token but never past the EOF sentinel |
| `Parser.Parser.Match` | `src/st/parser.cpp:43-47` | consumes exactly the token asked for |
| `Parser.Parser.ParseDottedIdentifier` | `src/st/parser.cpp:241-248` | the loop over dots returns what the grammar says |
| `Parser.Parser.ParseBinary` | `src/st/parser.cpp:441-522` | one loop for each precedence level; the tree is the grammar's, left-associated |
| `Parser.Parser.ParseUnaryExpr` | `src/st/parser.cpp:524-532` | prefix operators nest |
| `Parser.Parser.ParsePrimaryExpr` | `src/st/parser.cpp:534-564` | literals, names and parentheses |
| `Parser.Parser.ParseStatementList` | `src/st/parser.cpp:308-326` | terminates, ends at a terminator, and returns the grammar's statements |
| `Parser.Parser.ParseStatement` | `src/st/parser.cpp:328-334` | every statement takes a token and is the grammar's |
| `Parser.Parser.ParseIfStatement` | `src/st/parser.cpp:336-361` | IF with its branches in order |
| `Parser.Parser.ParseWhileStatement` | `src/st/parser.cpp:363-370` | WHILE with its condition and body |
| `Parser.Parser.ParseRungStatement` | `src/st/parser.cpp:372-385` | RUNG with its condition and coils |
| `Parser.Parser.ParseRungOutput` | `src/st/parser.cpp:387-398` | the coil kind and its target |
| `Parser.Parser.ParseAssignOrCallStatement` | `src/st/parser.cpp:400-411` | an assignment, or a call after a parenthesis |
| `Parser.Parser.ParseCallStatementRest` | `src/st/parser.cpp:413-424` | the argument list of a call |
| `Parser.Parser.ParseCallArg` | `src/st/parser.cpp:426-439` | an input or an output argument |
| `Parser.Parser.TryParseElementaryType` | `src/st/parser.cpp:210-239` | consumes an elementary type or nothing |
| `Parser.Parser.ParseLiteralValue` | `src/st/parser.cpp:250-306` | a literal cast to the declared type, negated in that type |
| `Parser.Parser.ParseUnsignedLiteral` | `src/st/parser.cpp:250-306` | the literal after an optional minus |
| `Parser.Parser.ParseInitialValue` | `src/st/parser.cpp:187-189` | an optional initial value |
| `Parser.Parser.ParseVarBlock` | `src/st/parser.cpp:156-208` | the declarations up to END_VAR; no VAR in a FUNCTION |
| `Parser.Parser.ParseVarDecls` | `src/st/parser.cpp:174-207` | the loop over declarations returns what the grammar says |
| `Parser.Parser.ParseVarDecl` | `src/st/parser.cpp:175-205` | one declaration; instances only in VAR of a PROGRAM or FUNCTION_BLOCK |
| `Parser.Parser.ParsePouDef` | `src/st/parser.cpp:102-124` | a POU as the grammar gives it, meeting what the binder relies on |
| `Parser.Parser.ParseDataBlockDef` | `src/st/parser.cpp:126-137` | a data block as the grammar gives it |
| `Parser.Parser.ParseProgram` | `src/st/parser.cpp:139-154` | the program as the grammar gives it |
| `Parser.Parser.ParsePouLibrary` | `src/st/parser.cpp:88-100` | a library of POUs, up to the end of its text and nothing else |
| `Parser.Parser.ParseCompilationUnit` | `src/st/parser.cpp:60-86` | parsing terminates on every token sequence, needs exactly one PROGRAM, returns the grammar's unit, and what it accepts meets every requirement of the binder |
| `LibraryText.LibraryParses` | `include/softplc/st/standard_fbs.hpp:23-133` | the text of the library, token by token, parses to exactly the blocks TON, TOF, CTU and CTD whose laws are proved |
| `StProgram.ParseStandardBlocks` | `src/st/st_program.cpp:19-27` | parsing the library's text at a load gives these four blocks |
| `StProgram.Load` | `src/st/st_program.cpp:12-32` | loading terminates and succeeds exactly when the tokens parse and the unit with the standard blocks added is accepted; such a program is well bound, is a faithful copy of its source — types, initial values, addresses, data blocks, instances and bodies — and expands no type inside itself |
| `Ladder.LadderParses` | `tools/plc_project.py:99-110` | the condition printed for a ladder network parses to the OR over its branches of the AND of their contacts |
| `Ladder.LadderMeansSomeBranchCloses` | `tools/plc_project.py:106-110` | that condition holds exactly when some branch has all its contacts closed |
| `Ladder.NetworkParses` | `tools/plc_project.py:111-120` | the text of a whole network parses to its rung and then its conditional calls |
| `Ladder.NetworkRuns` | `tools/plc_project.py:111-120` | whether it has coils, calls or both: its coils follow the power; its calls happen exactly when there is power once the coils have been driven |
| `LadderPower.CoilsDrive` | `src/st/interpreter.cpp:151-171` | what a list of coils leaves in a tag: under power what the last coil on it says, without power FALSE where some plain coil is on it, and else the old value |
| `LadderPower.PowerStays` | `tools/plc_project.py:116-118` | any number of branches: the calls see the power the coils saw when the last coil on each contact's tag closes that contact and no plain coil is on a normally closed contact |
| `LadderPower.PowerStaysExactlyWhen` | `tools/plc_project.py:116-118` | one branch: that is so in every store of BOOL contacts exactly when the branch can never close, or every contact on a driven tag is closed by the last coil on it and either some plain coil is on a normally open contact or none is on a contact at all |
| `LadderPower.CoilEndsTheCalls` | `tools/plc_project.py:116-118` | a bound and accepted program with one network: in its first scan the coil has power and the call, which would set a tag, does not happen; in its second the coil has none and the call happens |
| `StlTranslator.Frontend.Stl` | `tools/plc_project.py:140-186` | the loop over the lines computes the translation, and fails exactly where a register is used uninitialised |
| `StlTranslator.Frontend.TakeSnapshot` | `tools/plc_project.py:143-147` | a fresh temporary, declared with its type and assigned once |
| `StlTranslator.LineSimulates` | `tools/plc_project.py:150-185` | each line's statement does to the tags what the RLO/ACCU machine does, while every symbolic register keeps denoting its value |
| `StlTranslator.TranslationPreservesMeaning` | `tools/plc_project.py:140-186` | for every accepted list whose operands name no reserved temporary, the emitted statements fault exactly as a direct RLO/ACCU1/ACCU2 machine does or leave every user tag as it does |
| `StlText.PrintedTextIsTheTranslation` | `tools/plc_project.py:140-186` | the text printed for a list is accepted exactly when the list is translated, and parses to the translation's statements with their names still to be bound |
| `StlText.LineInStep` | `tools/plc_project.py:150-185` | each line extends text and translation alike; every register's text parses as the operand it stands for |
| `StlText.InfixIsAtom` | `tools/plc_project.py:162` | a parenthesised combination of two operands parses, whatever follows it, to that combination |
| `Layout.Claim` | `tools/plc_project.py:311-314` | a cell is accepted exactly when it shares no bit with any cell accepted before |
| `Layout.CheckDataBlock` | `tools/plc_project.py:218-232` | a data block is accepted exactly when its fields are in range, named apart and pairwise disjoint, and each field without an offset follows the furthest end so far |
| `Layout.MapSymbols` | `tools/plc_project.py:296-315` | symbols are accepted exactly when bit addresses are BOOL and all addressed cells are pairwise disjoint; they are placed as the allocator says |
| `Layout.AcceptedLayoutIsDisjoint` | `tools/plc_project.py:309-314` | an accepted layout is one on which writing a tag is a map update |
| `Layout.InstanceVariablesApart` | `tools/plc_project.py:303-305` | the allocator never makes two variables of one instance DB collide |
| `ByteImage.DecodeEncode` | `apps/plc_runtime/main.cpp:111` | decoding the big-endian bytes of a number gives it back |
| `ByteImage.GetBitOfSetBit` | `apps/plc_runtime/main.cpp:124` | setting one bit of a byte sets that bit and keeps the others |
| `ByteImage.ValidMeant` | `apps/plc_runtime/main.cpp:41-49` | a value is accepted exactly when its number is in the range of its type, its real is finite, or its text ends within 255 bytes |
| `ByteImage.FirstByteIsHighest` | `apps/plc_runtime/main.cpp:111` | byte k of an encoded number is its digit of base 256 that many places from the top |
| `ByteImage.BitOfNumber` | `apps/plc_runtime/main.cpp:109` | bit k of a byte is its binary digit k |
| `Cells.ReadIntMeant` | `apps/plc_runtime/main.cpp:107-121` | an INT is read from two bytes, the first the higher, in two's complement |
| `Cells.ReadDIntMeant` | `apps/plc_runtime/main.cpp:107-121` | a DINT from four |
| `Cells.ReadBoolMeant` | `apps/plc_runtime/main.cpp:109` | a BOOL is the addressed bit of its byte |
| `Cells.BytesRoundTrip` | `apps/plc_runtime/main.cpp:107-129` | a valid number of any width, negative ones included, survives its bytes |
| `Cells.ReadBack` | `apps/plc_runtime/main.cpp:107-130` | a valid value written to an image reads back; a STRING up to its NUL |
| `Cells.OtherCellKept` | `apps/plc_runtime/main.cpp:122-130` | writing one cell keeps what every disjoint cell reads, also another bit of the same byte |
| `Cells.WriteRefinesUpdate` | `apps/plc_runtime/main.cpp:102-130` | through all images, a write is an update of one cell |
| `ProcessMemory.WriteTagRefinesUpdate` | `apps/plc_runtime/main.cpp:132-135` | on a disjoint layout writing one tag leaves every other tag's value |
| `ProcessMemory.WriteTagKeepsReady` | `apps/plc_runtime/main.cpp:132-135` | the written tag reads as what was stored, and the memory stays well formed |
| `ProcessMemory.RawAccessAgrees` | `apps/plc_runtime/main.cpp:102-130` | raw DB access at the address shown for a tag reads and writes that tag |
| `ProcessMemory.Memory.constructor` | `apps/plc_runtime/main.cpp:83-100` | a new memory holds the initial values |
| `ProcessMemory.Memory.ReadAddress` | `apps/plc_runtime/main.cpp:107-121` | the byte loop and the casts compute the cell's value, or throw out of bounds or out of range |
| `ProcessMemory.Memory.WriteAddress` | `apps/plc_runtime/main.cpp:122-130` | exactly the addressed bytes or bit change, or nothing does |
| `ProcessMemory.Memory.PutNumber` | `apps/plc_runtime/main.cpp:129` | the shift loop stores the big-endian bytes |
| `ProcessMemory.Memory.Read` | `apps/plc_runtime/main.cpp:131` | an existing tag reads its value, local or addressed |
| `ProcessMemory.Memory.Write` | `apps/plc_runtime/main.cpp:132-135` | succeeds exactly for an existing tag, its type and a valid value; on a disjoint layout it is a map update; otherwise nothing changes |
| `ProcessMemory.Memory.Reset` | `apps/plc_runtime/main.cpp:101` | on a disjoint layout every tag holds its initial value |
| `ProcessMemory.Memory.SafeOutputs` | `apps/plc_runtime/main.cpp:136` | every byte of every output image is zero and nothing else changes |
| `ProcessMemory.CreateMemory` | `apps/plc_runtime/main.cpp:83-100` | tags make a memory exactly when each is acceptable, names differ, and the images add up to at most 64 MiB |
| `ProcessMemory.MemoryLimits` | `apps/plc_runtime/main.cpp:83-100` | acceptable means: initial value of its own type, bits 0 to 7 and only of a BOOL, each cell below 1 MiB, names apart, 64 MiB in all |
| `ProcessMemory.ImagesMeant` | `apps/plc_runtime/main.cpp:90-97` | there is an image for exactly the areas and DBs addressed, zero, as long as its furthest cell needs |
| `ProcessMemory.TotalSize` | `apps/plc_runtime/main.cpp:97-98` | the sizes of all images added up |
| `CodeOverMemory.AbiRoundTrip` | `include/softplc/runtime/program_support.hpp:20-46` | a value passed through the host API into the memory and back is the same value |
| `CodeOverMemory.HostWriteIsMemoryWrite` | `apps/plc_runtime/main.cpp:132-135` | the write the emitted code calls succeeds exactly for an existing tag, its type and a valid value, and then changes the bytes as the memory object does |
| `CodeOverMemory.EvalFollows` | `include/softplc/runtime/program_support.hpp:47-51` | an emitted expression that reads every tag through the host API has the value, or the fault, it has on the tags the bytes represent |
| `CodeOverMemory.BlockInStep` | `include/softplc/runtime/program_support.hpp:47-56` | running any emitted block on bytes, reading and writing through the host API, ends with the same locals or the same fault as on the tags, and in the bytes its writes leave one after the other |
| `CodeOverMemory.CodeReadsMemory` | `include/softplc/runtime/program_support.hpp:47-56` | a scan of the emitted code on the bytes of a disjoint layout ends or faults as on the tags, also where calls depend on argument order; after it, and after each single write of it, every tag reads from the bytes as the code has left it |
| `CodeOverMemory.ScanOverMemory` | `apps/plc_runtime/main.cpp:131-135` | one scan of the emitted code on the bytes ends normally exactly when one of the interpreter does, and leaves in them what that leaves in its tags |
| `CodeOverMemory.GeneratedScansOverMemory` | `apps/plc_runtime/main.cpp:101` | from memory at its initial values any number of scans on the bytes end or fault as on the tags, and leave bytes that represent them |
| `CodeOverMemory.EveryScanOverMemory` | `apps/plc_runtime/main.cpp:101` | the same against the interpreter: as many scans end normally, and leave in the bytes what they leave in its tags |
| `Schedule.ReleaseLiesAhead` | `apps/plc_runtime/main.cpp:178` | after a release now < next <= now + period |
| `Schedule.ReleaseCounts` | `apps/plc_runtime/main.cpp:178` | a late release counts one missed release per whole period of lateness, moves to the next one after that, and jitter is the largest lateness |
| `Schedule.EndedCounts` | `apps/plc_runtime/main.cpp:186-187` | a finished OB has one cycle more, its time in microseconds, the largest so far, and an overrun if that exceeds its period |
| `Schedule.TaskLimits` | `apps/plc_runtime/main.cpp:155-162` | periods and watchdogs of 1 ms to 60 s, priorities up to 99, numbers apart, exactly one main OB and that OB1 |
| `Schedule.ReleaseOnSchedule` | `apps/plc_runtime/main.cpp:178` | a release keeps next = first release + (dispatches + newly missed) x period |
| `Schedule.NestingIsStrict` | `apps/plc_runtime/main.cpp:171-184` | the active OBs are exactly the stack, none is on it twice, priorities strictly rise from bottom to top, nothing nests over a startup OB, and STEP never nests |
| `Schedule.BeginKeepsOk` | `apps/plc_runtime/main.cpp:174-182` | starting a dispatch keeps the scheduler's whole invariant |
| `Schedule.EndKeepsOk` | `apps/plc_runtime/main.cpp:184-187` | so does ending one |
| `Schedule.DispatchIsProgress` | `apps/plc_runtime/main.cpp:174-191` | a whole dispatch returns with the stack it was given, leaves every executing OB's state alone, and every OB completes one cycle for each time it was started meanwhile; one that was not started is unchanged |
| `Schedule.DispatchTraced` | `apps/plc_runtime/main.cpp:182-184` | at its own level of nesting a dispatch starts its OB and nothing else |
| `Schedule.RunOk` | `apps/plc_runtime/main.cpp:166` | RUN starts every OB on schedule |
| `Schedule.SortedOrdered` | `apps/plc_runtime/main.cpp:195` | due OBs are ordered by falling priority, equals in their order of definition |
| `Runtime.Runtime.constructor` | `apps/plc_runtime/main.cpp:144-146` | the CPU starts empty and quiet |
| `Runtime.Runtime.Fault` | `apps/plc_runtime/main.cpp:148` | the first message is kept, FAULT is entered cancelled, outputs are zero and no other byte changes |
| `Runtime.Runtime.MemoryCall` | `apps/plc_runtime/main.cpp:217-225` | a tag or DB call does to the memory exactly what it says: a read changes nothing, a write stores its value in that tag or cell and nowhere else or throws, a lookup finds the tag of the scoped name, else of the bare one |
| `Runtime.Runtime.Perform` | `apps/plc_runtime/main.cpp:149` | an API call does that to the memory, and an exception of it becomes a fault; nothing else changes |
| `Runtime.Runtime.Entry` | `apps/plc_runtime/main.cpp:183` | whatever finite sequence of API calls a body makes, the invariant and the stack are kept, and the recursion through checkpoints terminates |
| `Runtime.Runtime.Watchdogs` | `apps/plc_runtime/main.cpp:170` | faults exactly when some OB on the stack has run for a microsecond more than its watchdog |
| `Runtime.Runtime.Checkpoint` | `apps/plc_runtime/main.cpp:168-173` | returns with the same stack and the same System.CycleTime, and 0 or, cancelled, -1; if 0, no watchdog was exceeded, and where the CPU runs and the executing OB is no startup OB, every idle cyclic OB of higher priority that was due has been started and has its release ahead; what it started at its own level are such OBs in order of falling priority |
| `Runtime.Runtime.StampCycleTime` | `apps/plc_runtime/main.cpp:181` | fails exactly when System.CycleTime is not a TIME; otherwise leaves the elapsed milliseconds in that tag, keeps every other, and returns what it held |
| `Runtime.Runtime.RestoreCycleTime` | `apps/plc_runtime/main.cpp:185` | a preempted OB gets its System.CycleTime back |
| `Runtime.Runtime.Enter` | `apps/plc_runtime/main.cpp:175-182` | the release is accounted for, System.CycleTime holds the milliseconds since the last start (at first, the period), and the OB goes onto the stack, unless stamping throws |
| `Runtime.Runtime.Leave` | `apps/plc_runtime/main.cpp:184-188` | the OB leaves the stack and its cycle is counted |
| `Runtime.Runtime.Judge` | `apps/plc_runtime/main.cpp:188-190` | an overrun watchdog or a failing entry faults, and nothing else does; a cancelled CPU holds its outputs at zero, and no other byte changes |
| `Runtime.Runtime.Dispatch` | `apps/plc_runtime/main.cpp:174-191` | returns exactly when System.CycleTime is a TIME; then the OB has completed one cycle, its next release lies ahead, and the preempted OB sees the CycleTime it left; its start and no other is recorded at this level; otherwise the OB stays marked active |
| `Runtime.Runtime.CollectDue` | `apps/plc_runtime/main.cpp:193-194` | exactly the idle, eligible OBs whose release had come are collected, in order of definition |
| `Runtime.Runtime.Turn` | `apps/plc_runtime/main.cpp:196` | a due OB is started unless cancelled or no longer due, and nothing else is at this level |
| `Runtime.Runtime.ServiceDue` | `apps/plc_runtime/main.cpp:192-197` | the OBs it starts itself are eligible and in order of falling priority; uncancelled, every eligible OB that was due when it began has been started, by it or over it, and has its release ahead |
| `Runtime.Runtime.ServeAll` | `apps/plc_runtime/main.cpp:196` | the loop over the due OBs starts them in their order |
| `Runtime.Runtime.RunTick` | `apps/plc_runtime/main.cpp:198-202` | startup OBs once, in order of definition, then what is due by falling priority |
| `Runtime.Runtime.RunStartups` | `apps/plc_runtime/main.cpp:200` | every startup OB completes one cycle, in order of definition, unless cancelled |
| `Runtime.Runtime.Tick` | `apps/plc_runtime/main.cpp:198-202` | a worker pass keeps the CPU quiet between dispatches; exceptions become faults; uncancelled, pending startup OBs have run first and in order, then the due OBs by falling priority, and every main and cyclic OB has its release ahead |
| `Runtime.Runtime.Start` | `apps/plc_runtime/main.cpp:166` | succeeds exactly in STOP; a cyclic OB is then due one period later, every other at once, and from the armed releases and counters the schedule is accounted |
| `Runtime.Runtime.Stop` | `apps/plc_runtime/main.cpp:167` | outputs go to zero and no other byte changes; EMPTY and FAULT stay |
| `Runtime.Runtime.StepOnce` | `apps/plc_runtime/main.cpp:203` | succeeds exactly in STOP with a TIME System.CycleTime; the main OB completes one cycle, no other changes, outputs end at zero |
| `Runtime.Runtime.Reset` | `apps/plc_runtime/main.cpp:204` | succeeds exactly outside RUN with a program; every OB starts afresh and every tag outside the output images holds its initial value again |
| `Runtime.Runtime.Load` | `apps/plc_runtime/main.cpp:152-165` | succeeds exactly when the CPU is not running and module, tags and OBs are all acceptable; then STOP, every OB afresh and System.CycleTime found by its name; otherwise nothing changes |
| `Runtime.Runtime.Requested` | `apps/plc_runtime/main.cpp:244-255` | a SET line may write exactly where the tag exists, is no system tag, is no output unless the CPU runs, and its number reads |
| `Runtime.Runtime.SetTag` | `apps/plc_runtime/main.cpp:244-256` | succeeds exactly for the settable requests and changes nothing but that tag |
| `Runtime.Runtime.Handle` | `apps/plc_runtime/main.cpp:234-260` | every command line keeps the CPU quiet, and each is accepted exactly where it may be and has its own effect: RUN arms every OB, STOP and QUIT stop, RESET and LOAD start afresh, STEP runs the main OB once, SET writes one tag, STATUS and anything else change nothing; FAULT is left only by RESET or a successful LOAD and keeps its first message; only RUN starts the CPU |
| `Runtime.Runtime.Take` | `apps/plc_runtime/main.cpp:227-263` | a worker pass, during which a STOP line may arrive, or a command line: from quiet to quiet, with exactly the effect such an event has |
| `Runtime.StrandingProgramIsLoadable` | `apps/plc_runtime/main.cpp:152-165` | a module whose System.CycleTime is a BOOL is loadable |
| `Runtime.StrandMainTask` | `apps/plc_runtime/main.cpp:174-182` | after one STEP of that module OB1 is marked active and on no stack |
| `Runtime.LoadLimits` | `apps/plc_runtime/main.cpp:63-66` | a module has at most 10,000 tags and 1 to 128 OBs |
| `Runtime.CheckTasks` | `apps/plc_runtime/main.cpp:155-162` | accepts exactly the OB lists with distinct numbers, limits in range and one main OB1 |
| `Runtime.Session` | `apps/plc_runtime/main.cpp:227-263` | over any history of worker passes and command lines up to QUIT: before and after every single event the state is consistent, no OB executes and, unless it is RUN, every output byte is zero; between two of them every command has its effect where it is accepted and none where it is not, a worker pass in which no OB starts leaves the CPU as it was, FAULT is left only by a RESET or LOAD line and keeps its message, and only a RUN line starts the CPU |
| `Modbus.GroupSorts` | `src/io/modbus_mapping.cpp:20-32` | each group holds exactly the points of its table, by ascending address |
| `Modbus.ValidatePoints` | `src/io/modbus_mapping.cpp:58-102` | for any order in which sorting leaves points of equal address: accepts exactly the points whose types, directions and ranges are right and whose neighbours pass the 16-bit overlap check |
| `Modbus.RulesMeant` | `src/io/modbus_mapping.cpp:58-102` | those rules written out: BOOL exactly in bit tables, no output from a read-only table, addresses up to 65536, and each point no lower than the 16-bit end of the one before |
| `Modbus.OrderCanDecide` | `src/io/modbus_mapping.cpp:91-101` | two points of one address that are accepted in one order and rejected in the other |
| `Modbus.OrderRarelyMatters` | `src/io/modbus_mapping.cpp:26-30` | a table that passes and has no range ending at 65536 is left in one order only, so the verdict does not depend on it |
| `Modbus.CheckNeighbours` | `src/io/modbus_mapping.cpp:92-100` | the neighbour loop decides exactly that check |
| `Modbus.AcceptedIsDisjointUnlessWrapped` | `src/io/modbus_mapping.cpp:91-101` | accepted points of a table are pairwise disjoint exactly when only the last of them may end at 65536 |
| `Modbus.OverlapAtTheTopIsAccepted` | `src/io/modbus_mapping.cpp:95-99` | two overlapping points that validation accepts |
| `Modbus.JoinsIsExact` | `src/io/modbus_mapping.cpp:145-148` | in spite of its 16-bit arithmetic a point joins a batch exactly when it follows without a gap and fits under the cap |
| `Modbus.GreedyPartitions` | `src/io/modbus_mapping.cpp:129-162` | the greedy runs partition the sorted points into gap-free runs under the cap |
| `Modbus.GreedyIsOptimal` | `src/io/modbus_mapping.cpp:129-162` | no split into gap-free runs under the cap has fewer runs |
| `Modbus.CoalesceIsGreedy` | `src/io/modbus_mapping.cpp:137-158` | the loop from any point on builds the greedy runs |
| `Modbus.BuildGroup` | `src/io/modbus_mapping.cpp:135-158` | the batches of one table are the greedy runs |
| `Modbus.BuildBatches` | `src/io/modbus_mapping.cpp:129-162` | the batches of all tables, in their order; those of each table carry its points in order without gaps, ask for exactly the summed counts, at most 2000 bits or 125 registers each, and no split of its points into such requests has fewer |
| `Modbus.BatchesAreCorrectAndOptimal` | `src/io/modbus_mapping.cpp:129-162` | batches carry all points of a table in order, are gap-free, start at their first point, request exactly the summed counts, stay within 2000 bits or 125 registers (sections 6.1 and 6.3 of the MODBUS Application Protocol V1.1b3), and are as few as possible |
| `Modbus.WordsRoundTrip` | `src/io/modbus_mapping.cpp:173-189` | decoding a point's own words, in either word order, gives its value back |
| `Modbus.WordsMeant` | `src/io/modbus_mapping.cpp:195-226` | BYTE and INT take one register, DINT and REAL two, the high word first or last as the point says, numbers in two's complement |
| `Modbus.ReadingMeant` | `src/io/modbus_mapping.cpp:164-193` | and are read back from them so |
| `Modbus.Encode` | `src/io/modbus_mapping.cpp:195-226` | exactly the point's registers change, to its words; where the register array ends too early, the words before the end have been written |
| `Modbus.EncodePoint` | `src/io/modbus_mapping.cpp:195-226` | encoding one point of a batch keeps what all others decode to |
| `Modbus.EncodeBatch` | `src/io/modbus_mapping.cpp:164-226` | after encoding every point of a batch in any order and with any mix of word orders, each point decodes to its own value |
| `StandardFbs.TonRuns` | `include/softplc/st/standard_fbs.hpp:33-46` | one scan of the TON body writes ET and Q as its step says and nothing else, or stops on a TIME overflow |
| `StandardFbs.TofRuns` | `include/softplc/st/standard_fbs.hpp:58-71` | one scan of the TOF body writes ET and Q as its step says, or stops on a TIME overflow |
| `StandardFbs.CtuRuns` | `include/softplc/st/standard_fbs.hpp:87-100` | one scan of the CTU body writes CV, M and Q as its step says, or stops on a DINT overflow |
| `StandardFbs.CtdRuns` | `include/softplc/st/standard_fbs.hpp:116-131` | one scan of the CTD body writes CV, M and Q as its step says and never faults |
| `StandardFbs.TonLaw` | `include/softplc/st/standard_fbs.hpp:24-47` | over any history with PT >= 0: ET is the time since IN rose, capped at PT, and Q holds exactly when IN is on and that time has reached PT |
| `StandardFbs.TofLaw` | `include/softplc/st/standard_fbs.hpp:49-72` | over any history with PT >= 0: once IN was on, Q holds exactly while IN is on or the time since it fell is below PT |
| `StandardFbs.CtuLaw` | `include/softplc/st/standard_fbs.hpp:74-101` | CV is the number of counted edges since R, and Q compares it with PV |
| `StandardFbs.CtdLaw` | `include/softplc/st/standard_fbs.hpp:103-132` | after a load with PV >= 0, CV is PV less the edges counted since but not below 0, and Q tells when it is used up |
| `StandardFbs.TonScansFollow` | `include/softplc/st/standard_fbs.hpp:24-47` | interpreting the body scan after scan on an instance's tags follows the history the law is about |
| `StandardFbs.TofScansFollow` | `include/softplc/st/standard_fbs.hpp:49-72` | the same for TOF |
| `StandardFbs.CtuScansFollow` | `include/softplc/st/standard_fbs.hpp:74-101` | the same for CTU, which stops only on overflow |
| `StandardFbs.CtdScansFollow` | `include/softplc/st/standard_fbs.hpp:103-132` | the same for CTD, which never stops |
| `StandardFbs.LibraryIsParsed` | `include/softplc/st/standard_fbs.hpp:23-133` | the library meets every requirement of the binder |
| `Instances.TonInstance` | `include/softplc/st/standard_fbs.hpp:24-47` | every frame the binder makes of TON has the TON body over tags of its own, starting false and 0, so whatever PT it is given its scans follow the TON history |
| `Instances.TofInstance` | `include/softplc/st/standard_fbs.hpp:49-72` | the same for TOF |
| `Instances.CtuInstance` | `include/softplc/st/standard_fbs.hpp:74-101` | the same for CTU |
| `Instances.CtdInstance` | `include/softplc/st/standard_fbs.hpp:103-132` | the same for CTD |
| `InstanceCalls.TonCall` | `include/softplc/st/standard_fbs.hpp:24-47` | a bound call of a TON instance, from the program or from any frame, passes its inputs, takes one TON step over the current System.CycleTime, or stops on its overflow, and passes its outputs |
| `InstanceCalls.TofCall` | `include/softplc/st/standard_fbs.hpp:49-72` | the same for TOF |
| `InstanceCalls.CtuCall` | `include/softplc/st/standard_fbs.hpp:74-101` | the same for CTU, without the CycleTime |
| `InstanceCalls.CtdCall` | `include/softplc/st/standard_fbs.hpp:103-132` | the same for CTD, which never overflows |
| `InstanceCalls.TonCallsFollow` | `include/softplc/st/standard_fbs.hpp:24-47` | calls of one TON instance from any places, with one PT and anything in between that does not write its Q and ET, follow the TON history |
| `InstanceCalls.TofCallsFollow` | `include/softplc/st/standard_fbs.hpp:49-72` | the same for TOF |
| `InstanceCalls.CtuCallsFollow` | `include/softplc/st/standard_fbs.hpp:74-101` | the same for CTU, with any R and PV at each call |
| `InstanceCalls.CtdCallsFollow` | `include/softplc/st/standard_fbs.hpp:103-132` | the same for CTD |
| `Instances.BlockBindsOnce` | `src/st/pou_binder.cpp:275-281` | where tag names differ, a body without calls is bound in one way only |

## Left out

- Agreement.GeneratedCodeAgrees: after a fault the two are not compared, because the two loops stop at different passes and argument writes may differ; `EmittedCode.EveryWriteIsTyped` says what the tags then hold.
- ArgumentOrder.OrdersAgreeExactlyWhenIndependent: an input passed twice, or an argument such as `x + 0`, may read a changed tag without effect; for these the condition is only sufficient.
- Isolation.InstancesAreIsolated: the body must keep to its own storage; a body that names, calls or binds outputs to outside tags may change them.
- CodeOverMemory.EveryScanOverMemory: checkpoints are idle and one OB runs alone, as `Agreement` has it; the CycleTime stamp and OBs that preempt at a checkpoint write their own tags in between.
- InstanceCalls.TonCallsFollow: PT is the same at every call, as in `StandardFbs.TonLaw`; what a single call does with any PT is `InstanceCalls.TonCall`.
- LadderPower.PowerStaysExactlyWhen: the exact condition is for one branch; for several branches the condition of `LadderPower.PowerStays` is sufficient.
- Agreement.ExpressionsAgree: operands are evaluated from left to right; C++ leaves the order of the two operands of an emitted call open, so where both fault the exception may be the other one.
- Modbus.Encode: a value of another type than its point's, on which the source throws, is outside the precondition.
- Runtime.Runtime.Checkpoint: that CycleTime is kept is stated for a tag outside the output images, since a fault clears those.
- Runtime.Runtime.Entry: a compiled body is any finite sequence of API calls; that a particular body is finite is `ScanCost`'s subject.
- StandardFbs.TonLaw: nothing is said of a history in which ET + System.CycleTime leaves the range of TIME, where the scan faults.
- Parser.Parser.ParsePrimaryExpr: REAL, LREAL and STRING literal tokens are not part of this model.
- Parser.Parser.TryParseElementaryType: nor are the REAL, LREAL and STRING type keywords.
- Parser.Parser.ParseLiteralValue: nor initial values of these types.
- Parser.Parser.ParseUnsignedLiteral: nor literals of these types.
- StlText.PrintedTextIsTheTranslation: operands are printed expressions of the modelled types, so reading them from a line is left out.
- REAL, LREAL and STRING values of the language: Dafny has no matching floats. In process images and registers REAL and LREAL are bit patterns, and STRING is modelled in images.
- REAL instructions of statement lists, and the text patterns by which a line is split into operator and operand; a CALL is any statement that reads and writes only user tags.
- The front end's other checks on a project (names, OB lists, initial value texts, address patterns) and its JSON handling.
- The `__plc_network_` and `__plc_native_` markers, and the trace counts the CPU keeps for them; a network call of the host API is its checkpoint.
- `networkCount` and the ABI version of a module, opening and closing modules, and the text of error messages beyond what a property needs.
- The snapshot a command answers with, and reading the number of a SET line: a request carries the number or says that it is none.
- Wrap-around of the 64-bit cycle and missed counters, and of release times hundreds of years ahead: these are unbounded here.
- The characters of the lexer: the parser starts from tokens; an identifier is a non-empty word without dots or dollar signs.
- Bit tables in the register codec: one point is one bit.
- Two RTU devices with one unit id, the Modbus pollers, sockets and serial ports.
- `ScanEngine`, locks and operating system scheduling: the runtime's lock makes worker passes and commands atomic.
