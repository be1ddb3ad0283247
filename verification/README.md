# tinylang: a verified model of code generation, record extension and parsing

tinylang compiles a Modula-2 dialect with Oberon-2 records to LLVM IR. Its code
generator builds SSA form while it walks the statements of a procedure, without
a clean-up pass afterwards. This project models that code generator, the
object model it relies on (record extension, method tables, type descriptors),
the checks Sema makes on declarations, and the front end (lexer and parser), and
proves what they are for.

## The code generator

* `Source` is the reference semantics: every variable is in the store, operands
  are evaluated left to right, a callee changes what lies outside the caller's
  frame and what it is passed by reference, and nothing else. Aggregates are
  values: what their components hold.
* `Skeleton` is what the emitter builds seen before SSA: a control-flow graph
  whose code reads variables by name. It is a function of the statements.
* `SsaState`, `SsaSteps`, `SsaCode` and `SsaReads` describe what the emitter
  knows at any moment (definitions, phis and their operands so far, sealed and
  unsealed blocks) as a value, with the invariant every step keeps.
* `CGProcedure` (module `CodeGen`) is the emitter: a class that reads, fills,
  simplifies and seals in place, loops where the compiler loops, and carries a
  ghost copy of the state above.
* `Expressions` and `Statements` follow a run of the reference semantics through
  the graph; `SsaRun` follows the graph through the SSA code, phis of a block
  being evaluated in parallel.
* `Prescan` is the search for scalars that need a stack slot, `Correctness` the
  result for a whole procedure, `Definite` the same with no mention of slots,
  `Loops`, `Sources` and `Unwritten` what becomes of variables nobody assigns.

The central statement is `Correctness.EmitProcedure`: for every procedure in
`Accepted`, every world it runs in and every memory, the emitted function ends
with an outcome exactly when the reference semantics does. `Accepted` asks for
well-typed bodies, which Sema checks in part, and for two things nothing in the
compiler checks: RETURN last in its list and not last in a WHILE body, and no
constant that passes a scalar by reference which the body itself does not pass.

Five places where the code does not do what one would expect, each with a
concrete input and with the exact condition:

* Expressions of constants are not searched for calls. A constant whose
  expression passes a scalar local by reference reaches a fatal error. The search
  is complete exactly when such constants pass nothing the body does not pass
  itself (`Prescan.PrescanComplete`, `Prescan.PrescanMissesConstants`).
* A join behind two returning arms has no predecessor, and reading a variable
  through it yields an undefined value. So a parameter nobody assigns can keep a
  phi. All its uses see the parameter's value exactly when the graph has no walk
  to a use, from a block without incoming edges, on which the parameter gets no
  value; a phi of it is kept where control can reach and the parameter is still
  used exactly when a dead block leads to such a place, too
  (`Unwritten.UnsetHasOneValueIff`, `Unwritten.UnsetKeepsPhiIff`,
  `Unwritten.DeadJoinKeepsPhi`).
* A method declared for a base record after an extension declared one of the same
  name is not compared with it. Accepting it keeps overriding methods in
  agreement exactly when it conflicts with none of those, and along a whole module
  methods agree in the end exactly when no such method was declared
  (`Semantics.ApplyAgrees`, `Semantics.RunsAgree`, `Semantics.LateBaseBreaksAgreement`).
* A record that needs a type tag, inside a variable, starts with a null tag if it
  stands in a record that needs none or in an array of anything but such records:
  getZeroValue fills those with zeros. With A = RECORD END, B = RECORD (A) END and
  C = RECORD f: A END, a method call on the component f of a variable of type C
  looks its method up through a null pointer. A variable starts with all its tags
  exactly when its type is covered, a condition on the type alone
  (`ZeroValues.TagsSetIff`, `Dispatch.LocalsTaggedIff`,
  `Dispatch.HolderStartsUntagged`).
* A comment that is closed at the very end of the text is reported as
  unterminated. The report comes exactly for comments that are not closed or have
  nothing behind them (`Lexing.CommentReportedIff`, `Lexing.LexRoundTrip`).

## Records, methods and the front end

* `Types`, `Methods`: alias chains, sameness and extension of types, field
  indices, lowered component lists, flattened method tables, dispatch.
* `Registration`, `Agreement`, `Sema` (module `Semantics`): what each declaration
  does to records and method tables, what every sequence of declarations keeps,
  and what holds of a module that ends without an error. The class `Sema` is
  proved to make exactly these changes. `Outcomes` is when a declaration is
  accepted, and what names stand for afterwards; `Clashes` is what no accepted
  declaration removes. `Zero` (module `ZeroValues`) is what variables hold at first, and
  `Dispatch` puts tables, descriptors, tags and calls together.
* `Arrays`, `Elements`: row-major layout of nested arrays, and the address of an
  element from the type, the selectors and their indices.
* `Names`: symbol names that can be decoded.
* `Syntax`, `RoundTrip`, `Reading`, `Parser`: the parser's decisions as functions; a
  printer that puts parentheses around what binds too loosely, and wherever else
  they are written; why the parser gets printed trees back, and accepts nothing
  else; and the class that parses.
* `Tokens`, `Characters`, `Lexing`, `Scanning`, `Lexer`: the same for characters and
  tokens. `Tokens` says, character by character, what a token is and where it
  ends; the lexer takes a token from a text exactly where one stands.

## Model

| member | source | states |
|---|---|---|
| Correctness.EmitProcedure | lib/CodeGen/CGProcedure.cpp:778-843 | scanning and emitting a procedure yields finished SSA form (every block sealed once and terminated, no phi half filled or trivial) with the same outcomes as the reference semantics, in every world and memory |
| Correctness.EmissionPreservesMeaning | lib/CodeGen/CGProcedure.cpp:778-843 | an outcome (value returned and memory, or stuck) is reached by the emitted function if and only if the reference semantics reaches it |
| Correctness.GraphPreservesMeaning | lib/CodeGen/CGProcedure.cpp:620-776 | the control-flow graph over variables already has exactly the outcomes of the statements |
| Correctness.DeclsSim | lib/CodeGen/CGProcedure.cpp:792-836 | what parameters and locals contribute to the entry block sets up the split between values and stack slots, aggregate parameters copied and aggregate locals zeroed in theirs |
| Definite.EmissionMeansStatements | lib/CodeGen/CGProcedure.cpp:778-843 | where every local is assigned before it is looked at, the emitted function has the outcomes of the statements with no scalar set apart |
| Definite.MeaningNeedsNoSplit | lib/CodeGen/CGProcedure.cpp:809-835 | of such a procedure the reference outcomes do not depend on which scalars have a slot and so start as zero |
| Statements.StmtsSim | lib/CodeGen/CGProcedure.cpp:759-776 | following the graph from any point of emission does what the statements do: same memory and values where they go on, same result where they return, no end where they have none |
| Statements.IfElseSim | lib/CodeGen/CGProcedure.cpp:675-712 | an IF with ELSE takes the arm its condition says and meets behind it |
| Statements.IfSim | lib/CodeGen/CGProcedure.cpp:675-712 | an IF without ELSE runs its arm or goes on |
| Statements.LoopSim | lib/CodeGen/CGProcedure.cpp:714-743 | from its condition block a WHILE runs body and condition again until the condition fails |
| Statements.ReturnSim | lib/CodeGen/CGProcedure.cpp:745-757 | RETURN ends the run with the value of its expression |
| Expressions.ExprSim | lib/CodeGen/CGProcedure.cpp:418-495 | emitted code computes the value the reference semantics gives an expression and leaves memory as it does |
| Expressions.AddrSim | lib/CodeGen/CGProcedure.cpp:497-551 | emitted code computes the address of a designator, which starts at a variable or at the result of a call, and never the slot of a scalar kept as a value |
| Expressions.AssignSim | lib/CodeGen/CGProcedure.cpp:620-646 | an assignment changes the variable, kept as a value or in memory, and nothing else |
| Expressions.CopySim | lib/CodeGen/CGProcedure.cpp:613-640 | assigning an aggregate copies what the source holds into the target and changes nothing else |
| Expressions.WholeSim | lib/CodeGen/CGProcedure.cpp:454-459 | an aggregate that is passed or returned is what the address emitted for it holds |
| Expressions.ResultSim | lib/CodeGen/CGProcedure.cpp:462-474 | an aggregate a call returns is put where no program can see it, and selectors and copies find it there |
| Ir.StoreThenLoad | lib/CodeGen/CGProcedure.cpp:613-618 | what is stored as a whole is loaded as a whole, and nothing outside changes |
| Expressions.CallSim | lib/CodeGen/CGProcedure.cpp:443-474 | a call does the same to split state and store, and leaves scalars kept as values alone |
| Expressions.MethodSim | lib/CodeGen/CGProcedure.cpp:553-601 | a method call calls what the descriptor in the receiver holds at the slot, with the receiver's address first |
| Expressions.TypeTestSim | lib/CodeGen/CGProcedure.cpp:603-611 | IS compares the receiver's descriptor for equality |
| CodeGen.CGProcedure.ReadLocal | lib/CodeGen/CGProcedure.cpp:34-43 | a read ends, returns the value recorded for the variable at the end of the block, adds phis only where it may, and changes no value recorded before |
| CodeGen.CGProcedure.ReadLocalRecursive | lib/CodeGen/CGProcedure.cpp:45-65 | the same where nothing is recorded: an empty phi in an unsealed block, the value of the only predecessor, or a phi recorded before its operands are read |
| CodeGen.CGProcedure.AddEmptyPhi | lib/CodeGen/CGProcedure.cpp:67-82 | a new phi without operands is recorded for the variable, and an unsealed block remembers it |
| CodeGen.CGProcedure.AddPhiOperands | lib/CodeGen/CGProcedure.cpp:84-94 | the phi gets an operand per predecessor and is then simplified; phis older than the read, and the one being filled, are not touched before that |
| CodeGen.CGProcedure.OptimizePhi | lib/CodeGen/CGProcedure.cpp:96-119 | afterwards no phi but the exempt is trivial, the value returned is what uses of the phi see now, older phis keep their operands, and the cascade ends |
| CodeGen.CGProcedure.ReplaceAllUses | lib/CodeGen/CGProcedure.cpp:115-116 | every operand, definition and handle that named the phi names its replacement, and the invariant holds again |
| CodeGen.UniqueOperand | lib/CodeGen/CGProcedure.cpp:96-106 | finds the one operand besides the phi itself, or says that there are several |
| CodeGen.CGProcedure.SealBlock | lib/CodeGen/CGProcedure.cpp:121-128 | all phis that waited are filled, the block is sealed, and nothing else changes in the graph |
| CodeGen.CGProcedure.EmitExpr | lib/CodeGen/CGProcedure.cpp:418-495 | appends the SSA form of the expression's code and returns the SSA form of its value |
| CodeGen.CGProcedure.EmitAddr | lib/CodeGen/CGProcedure.cpp:497-551 | appends the SSA form of the address computation |
| CodeGen.CGProcedure.EmitResult | lib/CodeGen/CGProcedure.cpp:462-474 | stores an aggregate a call returns into a slot and returns its address |
| CodeGen.CGProcedure.EmitCopy | lib/CodeGen/CGProcedure.cpp:613-640 | the target's address, the source's, and the copy |
| CodeGen.CGProcedure.Declare | lib/CodeGen/CGProcedure.cpp:792-836 | a parameter or local becomes a value, an address, or a slot with its initial contents |
| CodeGen.CGProcedure.EmitMethodCall | lib/CodeGen/CGProcedure.cpp:553-601 | loads the descriptor and the slot from the receiver and calls with its address |
| CodeGen.CGProcedure.EmitAssign | lib/CodeGen/CGProcedure.cpp:620-646 | records the new value of a scalar, or stores it |
| CodeGen.CGProcedure.EmitStmts | lib/CodeGen/CGProcedure.cpp:759-776 | emits the statements; no older block changes, every block left behind is sealed and terminated |
| CodeGen.CGProcedure.EmitIfElse | lib/CodeGen/CGProcedure.cpp:675-712 | emits both arms; the block behind them gets its edges before it is entered and stays unsealed |
| CodeGen.CGProcedure.EmitIf | lib/CodeGen/CGProcedure.cpp:675-712 | the same without ELSE |
| CodeGen.CGProcedure.EmitWhile | lib/CodeGen/CGProcedure.cpp:714-743 | the condition block is sealed only when the edge from the body exists |
| CodeGen.CGProcedure.RunBody | lib/CodeGen/CGProcedure.cpp:778-843 | the finished function is the SSA form of the procedure's graph, all blocks sealed and terminated |
| SsaState.RemoveKeepsInv | lib/CodeGen/CGProcedure.cpp:96-119 | replacing a trivial phi by its operand keeps every relation between definitions, operands and edges |
| SsaState.TrivialIsBelow | lib/CodeGen/CGProcedure.cpp:96-119 | the operand of a trivial phi is computed before the phi's block is entered |
| SsaReads.RemoveMinimal | lib/CodeGen/CGProcedure.cpp:107-119 | only phis that used the removed one can have become trivial |
| SsaReads.RemoveSimplifies | lib/CodeGen/CGProcedure.cpp:96-119 | removing a phi outside a protected set leaves the phis of that set and those still filling as they are |
| SsaReads.FilledIsRead | lib/CodeGen/CGProcedure.cpp:45-65 | filling a phi nobody else had seen looks like any read from outside |
| SsaSteps.SetTermKeepsInv | lib/CodeGen/CGProcedure.cpp:691-693 | an edge may be added to a block that is not sealed |
| SsaSteps.CloseKeepsInv | lib/CodeGen/CGProcedure.cpp:121-128 | sealing needs no further edge |
| SsaRun.SsaRefinesGraph | lib/CodeGen/CGProcedure.cpp:34-128 | the finished SSA code, phis in parallel, and the graph over variables have the same outcome after any number of steps |
| SsaRun.RecordedValueIsLastWrite | lib/CodeGen/CGProcedure.cpp:24-65 | along every path from the entry the value recorded for a variable evaluates to its last write on that path |
| SsaRun.RemovalKeepsRuns | lib/CodeGen/CGProcedure.cpp:96-119 | removing a trivial phi from finished code leaves finished code with the same runs |
| SsaRun.EdgeSim | lib/CodeGen/CGProcedure.cpp:84-94 | taking an edge, the phis turn the values at its source into the values on entry |
| Prescan.PrescanComplete | lib/CodeGen/CGProcedure.cpp:184-260 | no address of a scalar without a slot is ever asked for, if and only if constants pass no scalar the body does not pass itself |
| Prescan.PrescanMissesConstants | lib/CodeGen/CGProcedure.cpp:206-231 | an assignment of a constant whose expression passes a scalar by reference escapes the scan |
| Prescan.StmtsExact | lib/CodeGen/CGProcedure.cpp:497-530 | for any set of scalars with slots, emission stays clear of the fatal errors exactly when the set has all scalars passed by reference |
| Prescan.ScanExact | lib/CodeGen/CGProcedure.cpp:184-260 | a set of slots has all the scan finds if and only if the body, its constants taken out, is emitted with these slots |
| Prescan.NotedIsNeeded | lib/CodeGen/CGProcedure.cpp:189-203 | without a slot for a scalar the scan finds, the body is not emitted: the scan finds none too many |
| Prescan.ScanIsLeast | lib/CodeGen/CGProcedure.cpp:184-260 | where no constant has a call, the scan finds exactly the least set of slots the body is emitted with |
| Prescan.Scanner.CollectStmts | lib/CodeGen/CGProcedure.cpp:257-260 | the walk adds exactly the scalars passed at VAR positions |
| Prescan.Scanner.NoteVarArguments | lib/CodeGen/CGProcedure.cpp:184-204 | the scalars among the arguments at VAR positions are added |
| Loops.ProcReducible | lib/CodeGen/CGProcedure.cpp:675-743 | the blocks of a procedure have an order in which loops are entered at their first block only and every block has an edge from an earlier one or none at all |
| Loops.StmtsLaid | lib/CodeGen/CGProcedure.cpp:675-743 | the same for the blocks of any statement list |
| Unwritten.UnsetNeedsNoPhi | lib/CodeGen/CGProcedure.cpp:45-128 | a variable the body never sets keeps no phi, and every read of it is the value the entry block leaves, if every join can be reached |
| Unwritten.UnsetHasOneValueIff | lib/CodeGen/CGProcedure.cpp:45-128 | with unreachable joins: every use of the variable in the SSA code is its start value exactly if the graph has no unbound walk to a use |
| Unwritten.UnsetKeepsPhiIff | lib/CodeGen/CGProcedure.cpp:84-128 | a phi of it is left where control can reach and it is still used exactly if a dead block leads to such a block; all its phis have a dead block before them |
| Sources.SomeTrivial | lib/CodeGen/CGProcedure.cpp:96-119 | a phi of a variable set at the entry only makes some phi of it trivial |
| Unwritten.DeadJoinKeepsPhi | lib/CodeGen/CGProcedure.cpp:675-743 | a parameter that is only read keeps a phi behind a loop body that always returns, and the loop's condition tests the phi |
| Unwritten.DeadJoinIsLegal | lib/CodeGen/CGProcedure.cpp:675-757 | that procedure meets every assumption of the main result |
| Types.GetUnderlyingType | include/tinylang/AST/AST.h:149-153 | follows aliases to the first type that is none |
| Types.SameTypeSym | lib/Sema/Sema.cpp:72-85 | sameness of types is symmetric |
| Types.SameTypeTrans | lib/Sema/Sema.cpp:72-85 | sameness of types is transitive |
| Types.SameTypeIff | lib/Sema/Sema.cpp:72-85 | types are the same if and only if, aliases followed and arrays spelled out, they are equal: a record or scalar only to itself, arrays if bounds and elements are |
| Types.SameTypeConverts | lib/CodeGen/CGModule.cpp:28-52 | same types are lowered to the same LLVM type |
| Types.ScalarsLowered | lib/CodeGen/CGModule.cpp:45-50 | under whatever alias, a type is lowered to a 64-bit integer, a float or one bit exactly if it is INTEGER, REAL or BOOLEAN |
| Types.IsExtensionOf | include/tinylang/AST/AST.h:365-378 | decides whether one type is on the base chain of the other |
| Types.ExtendsIff | include/tinylang/AST/AST.h:365-378 | a record extends another if and only if some number of steps from base to base leads there |
| Types.ExtendsTrans | include/tinylang/AST/AST.h:365-378 | extension is transitive |
| Types.ExtendsAntisym | include/tinylang/AST/AST.h:365-378 | extension is antisymmetric |
| Types.GetFieldIndex | include/tinylang/AST/AST.h:340-349 | the position of a field behind the tag |
| Types.InheritedFieldIndex | include/tinylang/AST/AST.h:328-349 | an inherited field has the same index in base and extension |
| Types.FieldIndexOnto | include/tinylang/AST/AST.h:340-349 | every index behind the tag belongs to a field |
| Types.FieldIndexInjective | include/tinylang/AST/AST.h:340-349 | different fields have different indices |
| Types.FieldPart | lib/CodeGen/CGProcedure.cpp:543-551 | the component at a field's index is the lowered type of the field |
| Types.ExtensionKeepsParts | lib/CodeGen/CGModule.cpp:34-43 | the lowered components of a base are a prefix of those of its extensions |
| Types.IsCompatibleWithFormal | lib/Sema/Sema.cpp:87-104 | an actual fits a formal if their types are the same or, for VAR, the actual's record extends the formal's |
| Types.CompatibleIff | lib/Sema/Sema.cpp:87-104 | an actual is accepted if and only if its type is spelled out like the formal's or, for VAR, its record reaches the formal's along its bases |
| Types.CompatibleParts | lib/Sema/Sema.cpp:87-104 | what fits a VAR formal has at least the formal's components |
| Methods.CollectMethodSlots | include/tinylang/AST/AST.h:382-405 | the flattened table: inherited methods first, overriding methods in their slots |
| Methods.SlotsDistinct | include/tinylang/AST/AST.h:382-405 | slot names are distinct |
| Methods.ExtensionKeepsSlots | include/tinylang/AST/AST.h:382-405 | slot names of a base are a prefix of those of its extensions |
| Methods.TableFindsMostDerived | include/tinylang/AST/AST.h:382-414 | the slot of a name holds the nearest method of that name on the base chain, or there is neither |
| Methods.LookupMethod | include/tinylang/AST/AST.h:407-414 | finds the nearest method of that name |
| Methods.GetMethodSlot | include/tinylang/AST/AST.h:416-425 | the slot number of a name |
| Methods.DispatchIsLookup | lib/CodeGen/CGProcedure.cpp:553-570 | calling through the dynamic type's descriptor at the static type's slot calls the method the dynamic type gives the name |
| Dispatch.CallsMostDerived | lib/CodeGen/CGProcedure.cpp:553-601 | a method call on a receiver tagged with the descriptor of an extension calls what the extension gives the name |
| ZeroValues.TagsSetIff | lib/CodeGen/CGModule.cpp:109-138 | the constant getZeroValue makes for a type gives every record in it that needs a tag the descriptor of its type, if and only if none of those stands in an untagged record or in an array of anything but such records |
| ZeroValues.ZeroValueFits | lib/CodeGen/CGModule.cpp:109-138 | the constant has the lowered type of the variable, a tag where the type has one, and zero, 0.0 or FALSE in every scalar |
| Dispatch.LocalsTaggedIff | lib/CodeGen/CGProcedure.cpp:809-835 | the same of an aggregate local when the body starts: its tags are in memory exactly if its type is so |
| Dispatch.FreshLocalCalls | lib/CodeGen/CGProcedure.cpp:553-601 | a method call on a fresh local of a record type calls the method of that type, with nothing assumed of the receiver |
| Dispatch.HolderStartsUntagged | lib/CodeGen/CGModule.cpp:109-113 | in any module, three more declarations are accepted whose third, an untagged record around a tagged one, starts with a null tag inside |
| Dispatch.Descriptors.GetTypeDescriptor | lib/CodeGen/CGModule.cpp:86-107 | a type gets its descriptor on first use, with the implementations of its slots in order, and no other changes |
| Dispatch.AcceptedCall | lib/Sema/Sema.cpp:177-193 | in an accepted module without late base methods, what is called has a body, a fitting receiver, and, type by type, the signature the call was checked against |
| Registration.HasSameSignature | lib/Sema/Sema.cpp:106-120 | same number and types of parameters and same result |
| Registration.SameSigIff | lib/Sema/Sema.cpp:106-120 | two signatures are the same if and only if they are equal with every parameter type and the result spelled out |
| Registration.HeadingOk | lib/Sema/Sema.cpp:433-478 | registering a procedure with a receiver keeps method names unique, prototypes waiting, and tags on both ends of every extension |
| Registration.PrototypeOk | lib/Sema/Sema.cpp:281-307 | so does a prototype in a record body |
| Registration.NewRecordOk | lib/Sema/Sema.cpp:251-280 | so does a record declaration |
| Registration.ImplementOk | include/tinylang/AST/AST.h:222-227 | so does putting an implementation in the place of its prototype |
| Outcomes.AcceptedIff | lib/Sema/Sema.cpp:210-478 | a declaration of any kind is accepted in any state if and only if it is what Sema asks for: constant ordered bounds, a record as base, fields no base has, methods with names of their own that fit what they override, a procedure that fits its prototype or what it overrides |
| Outcomes.HeadingReported | lib/Sema/Sema.cpp:445-478 | a procedure reports exactly a taken name or a signature that is not that of its prototype or, without one, of the inherited method; a prototype of its name is defined by it |
| Outcomes.HeadingRebinds | lib/Sema/Sema.cpp:445-478 | its name then stands for it in its record if the name had a prototype, or nothing and nothing inherited it does not fit; every other name in every record stands for what it did |
| Outcomes.PrototypeReported | lib/Sema/Sema.cpp:281-307 | a prototype reports exactly a taken name or a signature that differs from the inherited, and waits for its definition otherwise |
| Outcomes.PrototypeRebinds | lib/Sema/Sema.cpp:281-307 | its name then stands for it, and no other changes |
| Outcomes.RecordAcceptedIff | lib/Sema/Sema.cpp:251-311 | of an accepted record each method stands for its prototype, in order, no other name stands for anything, and other records are as they were |
| Outcomes.PrototypeThenProcedure | lib/Sema/Sema.cpp:281-307 | in any state a record with a prototype and then a procedure of its signature are accepted, and the prototype has that definition |
| Outcomes.MissingIff | lib/Sema/Sema.cpp:188-192 | the end of a module reports a name if and only if a prototype of that name has no definition, and nothing else |
| Agreement.OverridesAgree | lib/Sema/Sema.cpp:433-478 | where methods agree with those they override directly, the method found for a dynamic type has the parameter types and result of the one found for the static type, spelled out and lowered |
| Agreement.HeadingAgrees | lib/Sema/Sema.cpp:445-478 | an accepted procedure keeps agreement exactly if it implements a prototype or conflicts with no method declared before it |
| Agreement.PrototypeAgrees | lib/Sema/Sema.cpp:288-307 | a prototype always keeps agreement |
| Agreement.ImplementAgrees | lib/Sema/Sema.cpp:450-467 | replacing a prototype by an implementation of its signature keeps agreement |
| Semantics.AcceptedModule | lib/Sema/Sema.cpp:177-193 | of every module that ends without an error: distinct field names along base chains, no slot with a prototype, a tag wherever there are slots, and agreement of overriding methods exactly if none of a base came late |
| Semantics.ApplyAgrees | lib/Sema/Sema.cpp:230-478 | an accepted declaration keeps agreement exactly if it is not a late method of a base |
| Semantics.LateBaseBreaksAgreement | lib/Sema/Sema.cpp:469-477 | in any module a method of an extension followed by one of its base with another signature is accepted and does not agree |
| Semantics.EverySlotImplemented | lib/Sema/Sema.cpp:188-192 | no slot of a finished module holds a prototype, and each method's receiver is the record or one it extends |
| Semantics.FieldNamesAre | include/tinylang/AST/AST.h:328-338 | the names of a record and its bases, of which the next row speaks, are those of getAllFields in order |
| Semantics.RunsFields | lib/Sema/Sema.cpp:277-280 | along any error-free sequence of declarations field names stay distinct in every record and its bases |
| Semantics.RunsAgree | lib/Sema/Sema.cpp:433-478 | after any error-free sequence overriding methods agree exactly if no method of a base came late |
| Semantics.ApplyKeepsClash | lib/Sema/Sema.cpp:230-478 | two methods of one name on a base chain whose signatures differ stay so under every accepted declaration |
| Clashes.AgreedIff | lib/Sema/Sema.cpp:433-478 | agreement with the method overridden directly is agreement of all methods of a name along the chain |
| Semantics.Sema.ActOnTypeDeclaration | lib/Sema/Sema.cpp:210-228 | declares an alias under a name its scope does not have yet; a name it has and a missing type are reported and declare nothing |
| Semantics.Sema.ActOnArrayType | lib/Sema/Sema.cpp:230-249 | declares an array with ordered bounds and reports bounds that are not constant or not ordered |
| Semantics.Sema.ActOnFieldDeclaration | lib/Sema/Sema.cpp:350-375 | adds a field for each name that is new, in order, and reports each other one |
| Semantics.Sema.ActOnRecordType | lib/Sema/Sema.cpp:251-311 | declares a record, tags it and its base, reports fields the base has, and registers the prototypes in its body |
| Semantics.Sema.ActOnMethodInRecord | lib/Sema/Sema.cpp:281-307 | registers a prototype unless its name is taken or its signature differs from the inherited |
| Semantics.Sema.ActOnMethod | lib/Sema/Sema.cpp:413-431 | takes a receiver whose type is a record, tags it, and registers the procedure |
| Semantics.Sema.ActOnProcedureHeading | lib/Sema/Sema.cpp:433-478 | puts the procedure in the place of its prototype or in a new one, reporting duplicates and signatures that differ |
| Semantics.Sema.ReplaceMethod | include/tinylang/AST/AST.h:222-227 | every entry that is the prototype becomes the implementation |
| Semantics.Sema.ActOnModuleEnd | lib/Sema/Sema.cpp:188-192 | reports each prototype without a definition |
| Arrays.BuildArrayType | lib/Parser/Parser.cpp:228-236 | builds the nested array type of several dimensions, the first outermost |
| Arrays.OffsetInRange | lib/CodeGen/CGProcedure.cpp:532-541 | indices in range have an offset below the number of elements, from which they can be recovered |
| Arrays.IndicesInRange | lib/CodeGen/CGProcedure.cpp:532-541 | every number below the number of elements is the offset of indices in range |
| Arrays.RowMajor | lib/CodeGen/CGProcedure.cpp:532-541 | offsets are ordered as the indices are, compared from the left |
| Arrays.NormalizedIndex | lib/CodeGen/CGProcedure.cpp:537-538 | subtracting the lower bound from an index in range does not wrap in 64 bits |
| Elements.NestedConverts | lib/CodeGen/CGModule.cpp:28-33 | an array of several dimensions is lowered to nested LLVM arrays of the extents of its dimensions |
| Elements.SelectedAddress | lib/CodeGen/CGProcedure.cpp:532-541 | a chain of index selectors evaluates its indices from the left, once each, and appends exactly the indices less their lower bounds to the address of the array |
| Elements.ElementPlace | lib/CodeGen/CGProcedure.cpp:532-541 | the element selected by indices in range stands where the row-major offset of the indices says, counted in elements |
| Elements.ElementsApart | lib/CodeGen/CGProcedure.cpp:532-541 | elements selected by different indices do not overlap and lie in the array |
| Names.MangleName | lib/CodeGen/CGModule.cpp:54-72 | builds the symbol of a declaration from the names that lead to it |
| Names.MangledDecodes | lib/CodeGen/CGModule.cpp:54-72 | a declaration can be read off its symbol |
| Names.MangledInjective | lib/CodeGen/CGModule.cpp:54-72 | symbols are equal exactly if the declarations are |
| Names.MethodNamesDistinct | lib/CodeGen/CGModule.cpp:54-83 | type-bound procedures share a symbol exactly if scope, receiver type and name are the same, whenever they were asked for, and never with anything else |
| Names.TypeIds.MangleMethod | lib/CodeGen/CGModule.cpp:54-62 | the symbol of a type-bound procedure, its receiver type numbered if it was not |
| Names.TypeIds.GetTypeId | lib/CodeGen/CGModule.cpp:76-83 | a type keeps the number it was given first, and no two types share one |
| RoundTrip.ExpressionRoundTrip | lib/Parser/Parser.cpp:599-884 | a written expression, with any parentheses in addition to those it needs, is parsed to its tree without them and exactly what follows is left |
| RoundTrip.StatementsRoundTrip | lib/Parser/Parser.cpp:446-579 | written statements are parsed back, with or without a semicolon behind the last; empty ones, and designators that are no call, leave no trace |
| Reading.ExpressionRead | lib/Parser/Parser.cpp:599-884 | whatever is accepted as an expression is a written expression and what is left behind it, and the tree is the expression's without additional parentheses |
| Reading.StatementsRead | lib/Parser/Parser.cpp:446-579 | the same for statements: nothing else is accepted |
| RoundTrip.TreeParses | lib/Parser/Parser.cpp:656-732 | at every level of the grammar the parser's loop goes on with the printed tree as its operand |
| RoundTrip.PostfixParses | lib/Parser/Parser.cpp:843-884 | behind a printed designator the parser goes on with further selectors |
| Parsing.Parser.ParseExpression | lib/Parser/Parser.cpp:599-624 | the method parses what the function says: a simple expression, at most one relation or type test |
| Parsing.Parser.ParseSimpleExpression | lib/Parser/Parser.cpp:656-689 | a sign belongs to the first term; sums associate to the left |
| Parsing.Parser.ParseTerm | lib/Parser/Parser.cpp:712-732 | products associate to the left |
| Parsing.Parser.ParseFactor | lib/Parser/Parser.cpp:761-817 | literals, designators, calls, parentheses and NOT |
| Parsing.Parser.ParseDesignator | lib/Parser/Parser.cpp:843-884 | selectors are applied from the left |
| Parsing.Parser.ParseExpList | lib/Parser/Parser.cpp:581-597 | arguments separated by commas |
| Parsing.Parser.ParseStatement | lib/Parser/Parser.cpp:458-511 | adds the statement that starts here, or none before a separator or an end |
| Parsing.Parser.ParseIfStatement | lib/Parser/Parser.cpp:513-539 | IF with an optional ELSE |
| Parsing.Parser.ParseWhileStatement | lib/Parser/Parser.cpp:541-562 | WHILE to its END |
| Parsing.Parser.ParseStatementSequence | lib/Parser/Parser.cpp:446-456 | statements separated by semicolons |
| Parsing.ReadBack | lib/Parser/Parser.cpp:599-884 | the parser run on the tokens of a written expression returns its tree and stops behind it |
| Parsing.ReadStatementsBack | lib/Parser/Parser.cpp:446-579 | the same for statements |
| Lexing.LexRoundTrip | lib/Lexer/Lexer.cpp:55-243 | tokens that stand in a text one before the other, with or without blanks and nested comments between them, are read back with their reports; the only further one is for a comment at the very end |
| Lexing.TokenReads | lib/Lexer/Lexer.cpp:128-211 | a token of any kind, malformed ones included, is read with its reports wherever it stands |
| Scanning.TokenIff | lib/Lexer/Lexer.cpp:55-211 | the front of a text is read as a token with reports if and only if that token stands there and these are what is wrong with it |
| Scanning.NextStands | lib/Lexer/Lexer.cpp:55-126 | the next token stands behind nothing but blanks and closed comments |
| Scanning.TextRead | lib/Lexer/Lexer.cpp:55-243 | every text is the tokens found, as they stand in it, and a rest in which there is none |
| Lexing.PartsSkipped | lib/Lexer/Lexer.cpp:213-234 | any text without a delimiter, and comments, inside a comment leave its nesting depth as it was |
| Lexing.SplitComment | lib/Lexer/Lexer.cpp:213-234 | any text behind an opening delimiter is either such an inside, closed, with a rest, or belongs to the comment to its end |
| Lexing.CommentReportedIff | lib/Lexer/Lexer.cpp:229-232 | a comment is reported as unterminated exactly if it is not closed or the text ends with it; otherwise the token behind it is next |
| Lexing.ClosedCommentReported | lib/Lexer/Lexer.cpp:229-232 | a text that is one closed comment is reported |
| Lexing.SelectorSplits | lib/Lexer/Lexer.cpp:128-136 | p.x is a name, a dot and a name |
| Lexing.RangeSplits | lib/Lexer/Lexer.cpp:152-159 | 1..2 is an integer, two dots and an integer |
| Lexers.Lexer.NextToken | lib/Lexer/Lexer.cpp:55-126 | moves to behind the next token and returns it, reporting what the scan reports |
| Lexers.Lexer.SkipComment | lib/Lexer/Lexer.cpp:213-234 | moves to behind a comment and the comments in it |
| Lexers.Number | lib/Lexer/Lexer.cpp:138-182 | the kind and length of the number at the front |
| Lexers.ScaleFactor | lib/Lexer/Lexer.cpp:184-198 | the end of a scale factor, and its errors |
| Lexers.ReadBack | lib/Lexer/Lexer.cpp:55-243 | the lexer run on tokens as they stand in a text returns them and then the end, with the same reports |

## Left out

- Operators: INTEGER operators are arbitrary total functions of a world, the same
  on both sides; 64-bit wrap-around, NSW poison and truncating division are theirs.
  `Arrays.NormalizedIndex` treats the one wrap-around the model relies on.
- REAL arithmetic, nested procedures, IMPORT and module bodies.
- Array elements of record type used as expressions: the code loads them
  (lib/CodeGen/CGProcedure.cpp:483-486). Designators of aggregates are fields,
  nested arrays and variables.
- The zero value of a local comes with its declaration; that it is the constant of
  getZeroValue is assumed where `Dispatch` speaks of tags. The tag of a record
  stands at the record's own address, where the code has it as the first
  component. The slot for the result of a call is one per place in the text, where
  the code allocates one each time; places are taken to be different.
- Tags after the first assignment: copies of whole records carry the tag along,
  and receivers that are parameters have the tag their caller's record has.
- Undefined values: LLVM's undef is one value that behaves the same in both
  semantics, and branching on it is stuck. Scalar locals with a stack slot start as
  zero and other scalar locals undefined, as the code has it.
- The order in which an assignment's address and value are emitted
  (lib/CodeGen/CGProcedure.cpp:620-646) is unspecified in C++; left to right is
  taken, value first for scalars and target first for copies.
- The value optimizePhi returns is looked up after the cascade, and a phi the
  cascade has erased is skipped when it comes up again; the C++ pointers are not
  modelled. Predecessors are visited in the order their edges were added, and
  incomplete phis and users of a phi in any order.
- RETURN is assumed to be last in its statement list and not last in a WHILE body:
  lib/CodeGen/CGProcedure.cpp:738 branches without looking.
- Descriptors: `World.vtable` says which method a descriptor in memory has at a
  slot; `Dispatch.TableDescribes` ties it to the table of `Dispatch.Descriptors`.
  Calling conventions beyond the types
  hasSameSignature compares (VAR or not) are not modelled, nor is slicing by
  whole-record copies.
- Semantics.Sema.ActOnTypeDeclaration: is given the names of its scope and returns
  them; the scopes themselves, and the name an anonymous record takes over for
  diagnostics, are not modelled.
- Bytes: `Elements` counts them with array elements one after the other and any
  size for anything else; padding inside records is LLVM's.
- Sema's checks of expressions and statements, scopes, constants and boolean
  folding: code generation is proved for well-typed bodies (`Prescan.TypedStmts`).
- Parser error recovery: the model of the parser stops at the first error, except
  that a missing statement before a semicolon, ELSE or END is no error. Qualified
  names through modules, declarations and types are not parsed.
- Lexers.Number: the methods for one token are given the text from the current
  position on instead of two pointers into the buffer.
- Texts contain no NUL, and the keyword table is any set of words. A string the
  text ends in is taken to end there, where the code counts the NUL as well
  (lib/Lexer/Lexer.cpp:210).
- Names.MangledInjective: descriptor symbols are not covered, they are found by
  pointer; procedures nested in type-bound procedures do not exist.
- LLVM itself: data layout, alignment, attributes, hash tables and their iteration
  order, freed pointers.
