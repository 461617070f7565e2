# Cythonpp, verified

Cythonpp compiles a typed subset of Python to C++. Its contract is that a
compiled program prints what CPython prints and exits as CPython exits, or is
refused (README.md, lines 17-21). This project models the parts of the
compiler and of its runtime that the contract rests on, and proves them.

The model follows the program's own structure.

* **Runtime** (`IntRuntime`, `FloatRuntime`, `CompareRuntime`, `StrRuntime`,
  `FloatText`): trapping 64-bit ints, the tagged numeric tower, exact mixed
  comparison, UTF-8 strings and the layout of printed floats. `Values` relates
  what a C++ variable holds to the Python object it stands for.
* **Emitter** (`Syntax`, `PythonMachine`, `CppMachine`, `Lowering`,
  `DefiniteAssignment`, `ReturnPaths`, `ScopeVariables`, `Simulation`,
  `GlobalReads`, `ExactInts`, `HiddenPrint`, `Compiler`): Python trees and C++
  trees, each with a fuel-indexed evaluator, the lowering from one to the
  other, the two walks the emitter and the checker make over a body, and a
  simulation that ends in `Compiler.CompiledModuleBehavesLikePython`.
  `CodeEmitter` is the emitter itself, a class whose methods append to its
  output and save and restore its fields; it is proved to write exactly the text
  of the lowering (`CppText`, `EmissionText`), which reads back as the tree it
  came from (`ReadBack`) and, for a whole file, as the program
  (`ModuleReadBack`).
  Two ways in which the contract fails are followed up. `EarlyCall` is a module
  that fails as the emitter documents. `OwnBuiltins` is about modules with a
  function named `print` or `len`: the type checker types a call of it by its
  own signature (expression_typer_calls.cpp:190), as Python runs it, but the
  emitter looks at the name alone and calls the runtime's function
  (emitter_expressions.cpp:733). It says which modules that can concern, and
  exactly when it does harm; `OwnLen` is one such module.
* **Front end** (`Lexing`, `ScanContexts`, `WordTables`, `TokenEnds`,
  `LexicalLayout`, `IndentationPass`, `LayoutRoundTrip`, `LaidOutStreams`,
  `TokenStreams`, `Grammar`, `ExpressionParsing`, `ExpressionRoundTrip`,
  `BlockStructure`, `StatementGrammar`, `StatementParsing`,
  `StatementRoundTrip`): the scanner, the indentation pass and the two parsers,
  as classes over a mutable cursor. `TokenEnds` says where each token ends,
  `LexicalLayout` in what order tokens can come, and `Grammar` and
  `StatementGrammar` which tree a sequence of tokens has; the two round trips
  read printed trees back.
* **Class table and literals** (`ClassChains`, `ClassTables`, `ClassQueries`,
  `Literals`): the walk over base chains on any class map, and the digit
  scanners that must agree with each other and with the value.

`Options`, `Characters`, `Sequences`, `Numbers` and `Tokens` hold what the others
share.

A method of a class is tied by its `ensures` to a function of the old state;
what the source promises is then proved about that function.

## Assumptions

* C++ evaluates function arguments from left to right. The language leaves the
  order open.
* The type checker has done its work: `Compiler.Checked` states what the
  emitter relies on, with a small scalar typing relation in `Lowering` in place
  of the checker's rules. A name is read at its slot's type, functions are
  unconditional, no variable of the module has a function's name
  (type_checker.cpp:858 and 1289), a definition's locals have the types recorded
  for them, and a function that is not to give None returns on every path, by
  the checker's own test (`ReturnPaths.AlwaysReturns`).
* `break` and `continue` stand in loops and `return` in functions. Python's
  compiler demands it; the front end does not check it (type_checker.h:1466-1481).
* No name outside ASCII is assigned or annotated. The emitter refuses to read or
  write such a name but would let a bare annotation of one pass; the model leaves
  that module out too.
* Double addition, subtraction, multiplication, division and modulo and the
  reading of float literals are the platform's, shared with CPython, and
  otherwise unconstrained (`ops` in `FloatRuntime`); conversion from int is
  monotone, and exact up to 2^53 (`FloatOps.Faithful`). Real-float `//` and
  `**`, and true division of ints beyond 2^53, are not CPython's algorithms: a
  run that needs one ends as `Outside`, about which nothing is claimed.
* CPython's recursion limit is not modelled, nor the depth of the C++ stack:
  the only bound on a run is its fuel, the same on both sides.
* An assignment without an annotation is typed by its value, as
  emitter_statements.cpp:179-190 does: the type of the target that it asks for
  first is never recorded for a name (emitter.h:149-150).
* Int literals are below 2^63. Str literals arrive decoded, as sequences of
  Unicode scalar values. Lengths of strings fit 64 bits.
* `std::to_chars` supplies the scientific text of a float, well formed and with
  an exponent of two or three digits.

## Model

| member | source | states |
|---|---|---|
| Compiler.CompiledModuleBehavesLikePython | README.md:17-21 | for every accepted module and every fuel, the emitted program prints what Python prints and ends as Python ends, unless a function reaches a global or a function before the module binds it, the run reaches a call that the emitter takes for a builtin's, or it needs a result that the runtime does not compute as CPython does; falling off a function's end and a stray break or continue are shown not to happen |
| Compiler.WithoutATrapItIsCPython | README.md:17-21 | when the executable does not trap, the same holds, with the same exclusions, against Python with unbounded ints |
| Compiler.ExecutableDoesWhatIsEmitted | src/domain/codegen/emitter_expressions.cpp:733-817 | the executable prints and ends as Python does when every call of print is the builtin's, unless a function reaches a global or a function before the module binds it, the module has its own len and calls it, or a result is outside the runtime's contract |
| HiddenPrint.ModuleParts | src/domain/codegen/emitter_expressions.cpp:733-817 | that run is Python's own run, unless Python's reaches a call of the module's own print; from there on it has printed a line more |
| OwnBuiltins.OnlyItsOwnNames | src/domain/codegen/emitter_expressions.cpp:733-817 | a run can only reach such a call in a module that both defines print or len and calls the name it defines |
| OwnBuiltins.NothingElseParts | README.md:17-21 | with an opening as in PrologueCoversEveryCall and no own print or len that the module calls, only a result outside the runtime's contract can part the executable from Python |
| OwnBuiltins.OwnPrintDecides | src/domain/codegen/emitter_expressions.cpp:733-817 | when the executable makes a run that the runtime follows and does not trap, it prints and ends as CPython does if and only if CPython's run reaches no call of the module's own print, at any depth; otherwise it has printed more lines |
| OwnBuiltins.BlockIsSilent | src/domain/codegen/emitter_expressions.cpp:733-817 | once its own print is bound, a module prints nothing under CPython |
| OwnBuiltins.OwnLenAgrees | src/domain/codegen/emitter_expressions.cpp:733-817 | a call of an own len that is bound gives what the emitted call gives if and only if the function's run gives the number of code points and prints nothing |
| OwnBuiltins.EarlyLenAgrees | src/domain/codegen/emitter_expressions.cpp:733-817 | until the own len is bound, the two agree |
| OwnLen.OwnLenIsIgnored | src/domain/codegen/emitter_expressions.cpp:733-817 | an accepted module, for any text: Python prints 5, the executable the length of the text, the same if and only if that is 5 |
| Compiler.PrologueCoversEveryCall | src/domain/codegen/emitter.h:366-372 | when the definitions, and statements of any kind that bind all that the module binds, come before the first call of one of the module's functions, none of them meets an unbound global or function: the only exclusions left are a result outside the runtime's contract and a call that the emitter takes for a builtin's |
| Compiler.MissingNamesAreKnown | src/domain/codegen/emitter.h:366-372 | the only globals a function can find unbound are names the module does assign somewhere |
| EarlyCall.AnEarlyCallReadsTheDefault | src/domain/codegen/emitter.h:366-372 | the documented gap is real: an accepted module on which Python stops with a NameError and the executable prints 0 |
| Compiler.FunctionsAvoidUnbound | src/domain/codegen/emitter_statements.cpp:911-972 | every accepted function passes the second walk, over the globals not bound by the end of the module |
| Compiler.ModuleIsLinked | src/domain/codegen/emitter_module.cpp:64-173 | each emitted function has the parameters, locals, result and lowered body of its definition, and the module walk succeeded |
| Simulation.StmtSimulates | src/domain/codegen/emitter_statements.cpp:657-762 | one statement, in any loop context: same outcome, same bindings, same output, and the flag of the enclosing loop is raised exactly by a break out of it |
| Simulation.BlockSimulates | src/domain/codegen/emitter_statements.cpp:462-468 | a suite: the same, for every nest of if, while, else, break, continue and return |
| Simulation.WhileSimulates | src/domain/codegen/emitter_statements.cpp:683-725 | Python's while/else equals the block-scoped flag, the plain while and the guarded else, a flag of equal depth shadowed by a later loop included |
| Simulation.ElseSimulates | src/domain/codegen/emitter_statements.cpp:683-725 | the else suite runs exactly when the loop ended without a break, and a break inside it belongs to the outer loop |
| Simulation.BreakSimulates | src/domain/codegen/emitter_statements.cpp:731-738 | break raises the flag of the enclosing loop when that loop has an else, and no other flag |
| Simulation.ExprSimulates | src/domain/codegen/emitter_expressions.cpp:329-713 | a well-typed accepted expression: the runtime calls return a tagged value that represents Python's object, or trap exactly where Python fails or an int leaves 64 bits |
| Simulation.LinksSimulate | src/domain/codegen/emitter_expressions.cpp:494-570 | a comparison chain evaluates each operand at most once, left to right, and stops at the first false link |
| Simulation.LogicSimulates | runtime/cythonpp/logic.h:16-29 | and/or return one of their operands and evaluate the right one only when Python does |
| Simulation.BoolSimulates | src/domain/codegen/emitter_expressions.cpp:577-601 | an and/or of two operands keeps that meaning; any other count is refused |
| Simulation.AssignSimulates | src/domain/codegen/emitter_statements.cpp:558-621 | an assignment widens to the slot's declared class and leaves the slot holding Python's object |
| Simulation.ReturnSimulates | src/domain/codegen/emitter_statements.cpp:745-762 | return widens to the declared result and ends the call with Python's value |
| Simulation.UserCallSimulates | src/domain/codegen/emitter_expressions.cpp:715-817 | a call of a module function under any name but print and len, which the emitter does not compile as such: arguments widened to the parameters, body run in a scope of default-constructed locals, result as in Python |
| Simulation.BodySimulates | src/domain/codegen/emitter_statements.cpp:833-1007 | the emitted body, its hoisted declarations and its trailing return behave as the Python body |
| Simulation.PrintSimulates | runtime/cythonpp/print.h:23-48 | print shows each argument by the rank it holds |
| DefiniteAssignment.BlockRunsSoundly | src/domain/codegen/emitter_statements.cpp:360-448 | where the walk refuses nothing, no run reads an unassigned watched name, a suite that leaves never falls through, and every name left in bound is assigned where it does |
| DefiniteAssignment.StmtRunsSoundly | src/domain/codegen/emitter_statements.cpp:360-448 | the same for one statement |
| DefiniteAssignment.ExprReadsSoundly | src/domain/codegen/emitter_statements.cpp:343-358 | an expression whose reads are all bound never meets an unbound local |
| ReturnPaths.NeverFallsOff | src/domain/semantic/type_checker.cpp:4450-4533 | no run of a body in which the check finds that every path returns falls off its end |
| ReturnPaths.NeverEnds | src/domain/semantic/type_checker.cpp:4534-4680 | no run of a suite that the check finds to leave always falls through, at the truth that an enclosing loop's condition gives a name |
| ReturnPaths.NeverBreaks | src/domain/semantic/type_checker.cpp:4248-4403 | no run of a loop's body in which the check finds no reachable break breaks out of it |
| ReturnPaths.LoopNeverBreaks | src/domain/semantic/type_checker.cpp:4203-4246 | the same over all turns of the loop, with the bool variable that its condition narrows and its body never rebinds |
| ReturnPaths.VerdictIsTheTruth | src/domain/semantic/type_checker.cpp:4132-4201 | a guard decided by a literal or by the narrowed name has that truth value in every run |
| ReturnPaths.WellPlacedRuns | src/domain/semantic/type_checker.h:1466-1481 | a break or continue never leaves a suite outside a loop, nor a return a module |
| GlobalReads.BlockFindsGlobals | src/domain/codegen/emitter_statements.cpp:911-972 | a function body that passes the walk over maybe-unbound globals reads none of them |
| ExactInts.BlockIsExact | README.md:17-21 | a run with 64-bit ints that never overflows is the run with unbounded ints |
| ScopeVariables.CollectDeclaresEveryName | src/domain/codegen/emitter_statements.cpp:222-341 | a successful collection lists each assigned name once, in first-assignment order, with the first assignment's type; in a function, an unannotated first assignment in a dead arm gives way exactly once to the first live one; it fails exactly when an occurrence that decides, or that came first in a dead arm before it gave way, has no type |
| ScopeVariables.CollectedNames | src/domain/codegen/emitter_statements.cpp:222-341 | the declared names are exactly the names Python makes local, parameters apart |
| ScopeVariables.OwnDeclaration | src/domain/codegen/emitter_statements.cpp:222-341 | how one more assignment changes the declaration of its own name |
| CodeEmitter.Emitter.EmitModule | src/domain/codegen/emitter_module.cpp:64-173 | the text of the whole program, or nothing exactly when the module is refused; the emitter is ready for another module |
| CodeEmitter.Emitter.EmitPrelude | src/domain/codegen/emitter_module.cpp:36-56 | the file-scope declarations, and the set of globals not bound by the end of the module |
| CodeEmitter.Emitter.EmitFunctionDef | src/domain/codegen/emitter_statements.cpp:833-1007 | the text of one definition, or a refusal exactly when it has no lowering; every saved field is restored |
| CodeEmitter.Emitter.WriteSignature | src/domain/codegen/emitter_statements.cpp:774-831 | the signature text, or a refusal exactly for an unsupported parameter or result |
| CodeEmitter.Emitter.EmitStmt | src/domain/codegen/emitter_statements.cpp:529-762 | the text of the statement's lowering, with loop depth and else flag back as they were |
| CodeEmitter.Emitter.EmitWhile | src/domain/codegen/emitter_statements.cpp:683-725 | the text of the loop with its flag, declaration, body at the next depth and guarded else |
| CodeEmitter.Emitter.EmitIf | src/domain/codegen/emitter_statements.cpp:657-678 | the text of both arms, the conditional-block mark restored |
| CodeEmitter.Emitter.EmitReturn | src/domain/codegen/emitter_statements.cpp:745-762 | the text of the return, widened to the declared result |
| CodeEmitter.Emitter.EmitValueWidened | src/domain/codegen/emitter_statements.cpp:480-527 | the text of the value inside the conversion its slot needs, or a refusal when there is none |
| CodeEmitter.Emitter.EmitExpr | src/domain/codegen/emitter_expressions.cpp:329-713 | the text of the expression's lowering, or a refusal exactly when it has none |
| CodeEmitter.Emitter.EmitCompare | src/domain/codegen/emitter_expressions.cpp:494-570 | the text of a comparison: one call, or the lambda for a chain |
| CodeEmitter.Emitter.EmitUnary | src/domain/codegen/emitter_expressions.cpp:427-484 | the text of a sign or a negation, refused on ~ |
| CodeEmitter.Emitter.EmitBinary | src/domain/codegen/emitter_expressions.cpp:603-643 | the text of a binary operation with its bool operands widened |
| CodeEmitter.Emitter.EmitPower | src/domain/codegen/emitter_expressions.cpp:680-713 | the text of a power, refused unless the exponent is a plain non-negative literal |
| CodeEmitter.Emitter.EmitCall | src/domain/codegen/emitter_expressions.cpp:715-817 | the text of a call, refused for the builtins the runtime lacks |
| CodeEmitter.Emitter.CheckReads | src/domain/codegen/emitter_statements.cpp:343-358 | refuses exactly when a watched name is read before it is bound |
| CodeEmitter.Emitter.CheckDefiniteAssignment | src/domain/codegen/emitter_statements.cpp:360-448 | the in-place walk computes the verdict that DefiniteAssignment proves sound |
| CodeEmitter.Emitter.CollectScopeVariables | src/domain/codegen/emitter_statements.cpp:222-341 | the in-place collection computes the table that ScopeVariables characterises |
| ReadBack.TextDeterminesTheTree | src/domain/codegen/emitter_statements.cpp:450-468 | the emitted text of a statement list determines the list: no two C++ trees are written alike |
| ReadBack.ExprReads | src/domain/codegen/emitter_expressions.cpp:295-297 | the text of an expression reads back as the expression, and the reader stops right after it |
| ReadBack.BlockReads | src/domain/codegen/emitter_statements.cpp:450-468 | the text of a block reads back as the block |
| ModuleReadBack.ModuleReadsBack | src/domain/codegen/emitter_module.cpp:64-173 | the text of a whole file, its declarations, prototypes, definitions and main, reads back as the program that the module was lowered to |
| ModuleReadBack.TextDeterminesTheProgram | src/domain/codegen/emitter_module.cpp:64-173 | two accepted modules with the same emitted text are the same program |
| CppText.AsOctalEscapes | src/domain/codegen/emitter_expressions.cpp:182-192 | three octal digits a byte, read back by C++ as the same bytes whatever follows |
| Literals.TranslatableIsPythonDecimal | src/domain/codegen/emitter_expressions.cpp:32-111 | the emitter's three tests accept exactly Python's decimal integers |
| Literals.EmittedDigitsKeepTheValue | src/domain/codegen/emitter_expressions.cpp:329-392 | the C++ reading of the emitted digits is Python's value: no octal reading |
| Literals.AreUnderscoresInterior | src/domain/codegen/emitter_expressions.cpp:80-98 | an underscore is accepted exactly between two digits |
| Literals.DecimalIntGuardVerdict | src/domain/semantic/literal_guard.cpp:39-97 | one pass over the characters: unknown off Python's grammar, otherwise the truth of the value |
| PythonMachine.GuardIsTheTruth | src/domain/semantic/literal_guard.cpp:225-295 | a decided guard, through any nesting of not, has the condition's truth value in every run |
| Literals.IntegerLiteralFits64Bits | src/domain/semantic/literal_type.cpp:36-101 | on a well-formed lexeme in any base, true exactly when the value is within the limit, without wrapping in 64 bits |
| Literals.LiteralIntegerIndex | src/domain/semantic/expression_typer.cpp:115-233 | the exact signed value through any chain of signs, nothing exactly when it leaves int64 or cannot be read |
| IntRuntime.Pow | runtime/cythonpp/int_.h:156-173 | exactly base^exponent, and a trap exactly when that leaves int64: no square or product traps on the way |
| IntRuntime.FloorDivideIsPythons | runtime/cythonpp/int_.h:117-130 | Python's floor division, trapping exactly on zero and on the one quotient outside int64 |
| IntRuntime.ModuloIsPythons | runtime/cythonpp/int_.h:134-148 | Python's modulo, trapping exactly on zero |
| Numbers.FloorDivIsUnique | runtime/cythonpp/int_.h:117-148 | quotient and remainder are the only pair with the remainder on the divisor's side |
| Values.BinaryAgrees | runtime/cythonpp/float_.h:259-447 | every admitted binary operation over the tower returns Python's object whatever ranks the slots hold, and traps exactly on a zero divisor or an int result outside int64 |
| Values.UnaryAgrees | runtime/cythonpp/float_.h:316-334 | -True and +True are ints, and minus traps exactly on -2^63 |
| Values.CompareAgrees | runtime/cythonpp/compare.h:31-166 | every admitted comparison compiles and answers as Python does |
| Values.ConversionKeepsTheObject | runtime/cythonpp/float_.h:112-116 | widening into a float slot keeps the object and its rank |
| Values.PrintingAgrees | runtime/cythonpp/print.h:23-33 | what is printed depends on the object held, not on the slot |
| CompareRuntime.CompareInt64AndDoubleIsExact | runtime/cythonpp/compare.h:62-82 | taking the floor first gives the mathematical order of an int and a double, infinities and NaN in their places |
| CompareRuntime.CompareFloatAndFloatIsExact | runtime/cythonpp/compare.h:128-153 | over all four rank combinations, the order of the exact values |
| CompareRuntime.ComparisonIsAnOrder | runtime/cythonpp/compare.h:128-153 | antisymmetric, unordered exactly on NaN, transitive otherwise |
| CompareRuntime.OperatorsAgree | runtime/cythonpp/compare.h:96-166 | the six operators in both operand orders, mirrored ones included, answer from that order |
| StrRuntime.ByteOrderIsCodePointOrder | runtime/cythonpp/compare.h:31-42 | for all sequences of Unicode scalar values, UTF-8 byte order is code-point order, and encodings are distinct |
| StrRuntime.Len | runtime/cythonpp/str.h:34-42 | the loop counts exactly the code points |
| StrRuntime.Mul | runtime/cythonpp/str.h:46-52 | the loop's bytes encode the repeated text, empty for a count below one |
| StrRuntime.EncodeAdds | runtime/cythonpp/str.h:44-44 | joined bytes encode the joined text |
| FloatText.LayoutKeepsTheNumber | runtime/cythonpp/float_.h:184-243 | the text built denotes the same decimal number, sign of zero included |
| FloatText.LayoutChoosesByThePoint | runtime/cythonpp/float_.h:184-243 | scientific exactly when the point is at or below -4 or above 16, otherwise digits on both sides of a point; never the text of an int |
| FloatText.NoPaddingAfterThePoint | runtime/cythonpp/float_.h:224-242 | no trailing zero is invented but the one that marks a float |
| FloatText.SplitScientific | runtime/cythonpp/float_.h:186-216 | the scan recovers sign, digits and exponent |
| FloatText.Relayout | runtime/cythonpp/float_.h:184-243 | the string built piece by piece is the layout the lemmas speak of |
| FloatText.PrintingShowsTheRank | runtime/cythonpp/float_.h:157-244 | an int in a float slot prints exactly and without a point, a finite float never does |
| ExpressionRoundTrip.ExpressionReads | src/domain/parser/expression_parser.cpp:84-548 | for every printable tree, parsing its minimally parenthesised form returns the tree and stops right after it; dict displays and comprehensions of any nesting included |
| ExpressionRoundTrip.EntriesRead | src/domain/parser/expression_parser.cpp:644-716 | a printed dict display reads back entry by entry |
| ExpressionRoundTrip.ClausesRead | src/domain/parser/expression_parser.cpp:606-642 | printed comprehension clauses, each with its conditions, read back in order up to the bracket |
| ExpressionRoundTrip.Reads | src/domain/parser/expression_parser.cpp:175-331 | the same at every precedence level, with the asymmetric ** and unary minus |
| ExpressionRoundTrip.BinaryReads | src/domain/parser/precedence_table.cpp:21-52 | left associativity and precedence of the binary levels |
| ExpressionRoundTrip.PowerReads | src/domain/parser/expression_parser.cpp:301-331 | ** binds tighter than a unary sign on its left and looser on its right, and associates to the right |
| ExpressionRoundTrip.CompareMoreReads | src/domain/parser/expression_parser.cpp:232-274 | a chain of comparisons, not in and is not included, flattens to one node |
| ExpressionRoundTrip.TrailersRead | src/domain/parser/expression_parser.cpp:333-435 | attributes, subscripts and calls chain from the left |
| ExpressionParsing.ExpressionParser.ParseExpression | src/domain/parser/expression_parser.cpp:84-112 | the cursor rule returns the tree that the grammar assigns to the tokens ahead and stops where it ends, or reports exactly one error and stays on the line |
| ExpressionParsing.ExpressionParser.ParseExpressionList | src/domain/parser/expression_parser.cpp:114-139 | as ParseExpression, for its own grammar rule |
| ExpressionParsing.ExpressionParser.ParseOrTest | src/domain/parser/expression_parser.cpp:175-194 | as ParseExpression, for its own grammar rule |
| ExpressionParsing.ExpressionParser.ParseNotTest | src/domain/parser/expression_parser.cpp:217-230 | as ParseExpression, for its own grammar rule |
| ExpressionParsing.ExpressionParser.ParseComparison | src/domain/parser/expression_parser.cpp:232-274 | the loop collects one chain |
| ExpressionParsing.ExpressionParser.ParseBinary | src/domain/parser/expression_parser.cpp:276-299 | the climbing loop builds the grammar's left-leaning tree |
| ExpressionParsing.ExpressionParser.ParseUnary | src/domain/parser/expression_parser.cpp:301-314 | signs nest to the right and apply to a whole power |
| ExpressionParsing.ExpressionParser.ParsePower | src/domain/parser/expression_parser.cpp:316-331 | a power's right operand is a unary expression |
| ExpressionParsing.ExpressionParser.ParsePostfix | src/domain/parser/expression_parser.cpp:333-352 | as ParseExpression, for its own grammar rule |
| ExpressionParsing.ExpressionParser.ParseSubscript | src/domain/parser/expression_parser.cpp:364-392 | as ParseExpression, for its own grammar rule |
| ExpressionParsing.ExpressionParser.ParseCall | src/domain/parser/expression_parser.cpp:394-435 | arguments up to the closing parenthesis, a trailing comma allowed |
| ExpressionParsing.ExpressionParser.ParseAtom | src/domain/parser/expression_parser.cpp:437-494 | as ParseExpression, for its own grammar rule |
| ExpressionParsing.ExpressionParser.ParseParenAtom | src/domain/parser/expression_parser.cpp:496-548 | as ParseExpression, for its own grammar rule |
| ExpressionParsing.ExpressionParser.ParseBracketAtom | src/domain/parser/expression_parser.cpp:550-604 | as ParseExpression, for its own grammar rule |
| ExpressionParsing.ExpressionParser.ParseListComp | src/domain/parser/expression_parser.cpp:606-642 | for clauses and their conditions, in order |
| ExpressionParsing.ExpressionParser.ParseClause | src/domain/parser/expression_parser.cpp:609-636 | a target, what it ranges over and its conditions |
| ExpressionParsing.ExpressionParser.ParseBraceAtom | src/domain/parser/expression_parser.cpp:644-716 | a dict display, entry by entry |
| ExpressionParsing.ExpressionParser.ParseTarget | src/domain/parser/expression_parser.cpp:141-173 | a tuple of targets without parentheses, or the one target |
| TokenStreams.TokenStream.SkipTrivia | src/domain/lexer/token_stream.cpp:20-28 | the first index that is no comment, nothing else skipped |
| TokenStreams.TokenStream.Peek | src/domain/lexer/token_stream.cpp:30-42 | looks past comments, clamped to the last token |
| TokenStreams.TokenStream.Advance | src/domain/lexer/token_stream.cpp:56-62 | moves past the current token and the comments after it, and not past the end |
| StatementParsing.StatementParser.ParseModule | src/domain/parser/statement_parser.cpp:77-112 | on every laid-out stream, errors anywhere, ends at the end of the file having consumed a balanced stream; nothing is reported exactly when the grammar reads the tokens without a fault, and then the tree and what is left are the grammar's |
| StatementParsing.StatementParser.ParseStatementList | src/domain/parser/statement_parser.cpp:114-209 | consumes a balanced segment, ends at a DEDENT or the end, and reports when it gives nothing for a line; the grammar's result exactly when nothing is reported |
| StatementParsing.StatementParser.ParseOneOf | src/domain/parser/statement_parser.cpp:116-209 | each turn of the loop moves forward over a balanced segment; the grammar's result exactly when nothing is reported |
| StatementParsing.StatementParser.RecoverFromCompound | src/domain/parser/statement_parser.cpp:116-209 | after a failed compound statement: balanced, past the orphaned block and its clauses |
| StatementParsing.StatementParser.ParseBlock | src/domain/parser/statement_parser.cpp:477-512 | from an INDENT through its own DEDENT; the grammar's result exactly when nothing is reported |
| StatementParsing.StatementParser.ParseSuite | src/domain/parser/statement_parser.cpp:477-512 | a balanced segment whether the suite is on the line, a block, or missing; the grammar's result exactly when nothing is reported |
| StatementParsing.StatementParser.SkipUnexpectedBlock | src/domain/parser/statement_parser.cpp:422-439 | a whole block, nested ones included, through its own DEDENT |
| StatementParsing.StatementParser.Synchronize | src/domain/parser/statement_parser.cpp:441-452 | through the line's NEWLINE or up to what else ends it, no block token crossed |
| StatementParsing.StatementParser.ParseSimpleStatementLine | src/domain/parser/statement_parser.cpp:224-249 | either the whole line is consumed, or one error is reported and the cursor is still on the line; the grammar's result exactly when nothing is reported |
| StatementParsing.StatementParser.ParseIf | src/domain/parser/statement_parser.cpp:514-549 | if, elif and else consume a balanced segment; nothing is given only after a report; the grammar's result exactly when nothing is reported |
| StatementParsing.StatementParser.ParseWhile | src/domain/parser/statement_parser.cpp:566-588 | the same for while |
| StatementParsing.StatementParser.ParseFor | src/domain/parser/statement_parser.cpp:590-624 | the same for for |
| StatementParsing.StatementParser.ParseFunctionDef | src/domain/parser/statement_parser.cpp:626-659 | the same for def |
| StatementParsing.StatementParser.ParseClassDef | src/domain/parser/statement_parser.cpp:661-719 | the same for class |
| StatementRoundTrip.ProgramReads | src/domain/parser/statement_parser.cpp:77-790 | for every printable program, simple and compound statements of any nesting, and every choice of suites on their header's line, statements joined by semicolons, trailing semicolons and elif against a nested if, parsing the printed form gives the program back without a fault |
| StatementRoundTrip.StyleIsFree | src/domain/parser/statement_parser.cpp:77-790 | whatever the choices, one program is read as one program, and two programs never share a text |
| StatementRoundTrip.OneReads | src/domain/parser/statement_parser.cpp:114-209 | the first line, or the compound statement that begins there, gives exactly the statements printed on it, whatever follows that cannot be its own clause |
| StatementRoundTrip.LineReads | src/domain/parser/statement_parser.cpp:224-249 | a line gives the statements joined on it, and reading stops where the next line begins |
| StatementRoundTrip.SuiteReads | src/domain/parser/statement_parser.cpp:477-512 | a printed suite is read to the end of its header's line, or through its own DEDENT, and no further |
| BlockStructure.StaysOnLine | src/domain/parser/statement_parser.cpp:224-249 | an expression rule can read no NEWLINE, INDENT or DEDENT |
| BlockStructure.TakesOneLine | src/domain/parser/statement_parser.cpp:441-452 | taking a line reads nothing of a block |
| BlockStructure.NoStrayDedent | src/domain/parser/statement_parser.cpp:77-112 | outside every block no DEDENT is ever current: the module loop cannot stop early |
| IndentationPass.PassIsBalanced | src/domain/lexer/indentation_pass.cpp:49-178 | for every stream free of layout tokens: DEDENTs never exceed INDENTs and match at the end, the other tokens survive in order, and the level stack is back to its untouched sentinel |
| IndentationPass.FeedKeeps | src/domain/lexer/indentation_pass.cpp:49-156 | every token keeps the level stack strictly increasing above the (0, 0) sentinel |
| IndentationPass.OnlyTabsAreAmbiguous | src/domain/lexer/indentation_pass.cpp:158-162 | a stream without tabs is never reported for them |
| IndentationPass.Builder.Run | src/domain/lexer/indentation_pass.cpp:49-103 | the in-place pass computes that stream |
| IndentationPass.Builder.Close | src/domain/lexer/indentation_pass.cpp:105-156 | one line's close: same level, deeper, or unwound, with its diagnostics |
| IndentationPass.Builder.FlushTo | src/domain/lexer/indentation_pass.cpp:172-178 | the end of the file closes every open level |
| LayoutRoundTrip.LayoutRoundTrips | src/domain/lexer/indentation_pass.cpp:49-178 | printing any block tree with strictly deeper spaces and running the pass reads back as the same tree, with no diagnostic |
| LayoutRoundTrip.PrintedTreeIsStructured | src/domain/lexer/indentation_pass.cpp:49-178 | the pass turns a printed tree into its own INDENT/DEDENT structure |
| LaidOutStreams.PassLaysOut | src/domain/lexer/indentation_pass.cpp:49-178 | the pass gives every terminated stream the shape the statement parser relies on |
| LaidOutStreams.LexedStreamsAreLaidOut | src/domain/lexer/lexer.cpp:115-142 | whatever the lexer gives, the pass lays out |
| Lexing.Lexer.Tokenize | src/domain/lexer/lexer.cpp:115-142 | total on every byte string; the tokens are ordered disjoint slices, the gaps hold only blanks, line breaks and continuations, every line and column is that of the consumed prefix, the last token is the only end of file, and the whole source is covered; f-strings nest and are all closed, literal text stands only inside them, and every line with content is closed by a NEWLINE |
| LexicalLayout.WovenIsSource | src/domain/lexer/lexer.cpp:101-142 | gaps and lexemes together are the source |
| LexicalLayout.PlaceCounts | src/domain/lexer/lexer.cpp:85-99 | the recorded line and column count line breaks and characters of the consumed prefix |
| Lexing.Lexer.Advance | src/domain/lexer/lexer.cpp:85-99 | one byte, with the place kept; a UTF-8 continuation byte moves no column |
| Lexing.Lexer.ScanLineStart | src/domain/lexer/lexer.cpp:165-191 | keeps every lexer invariant: one SPACE or TAB token for each byte of a line's indentation, none for a blank or comment-only line; stops after all its whitespace |
| Lexing.Lexer.ScanEndOfLine | src/domain/lexer/lexer.cpp:193-214 | keeps every lexer invariant: a NEWLINE token exactly for a line with content outside brackets |
| Lexing.Lexer.ScanLineContinuation | src/domain/lexer/lexer.cpp:216-223 | keeps every lexer invariant: a backslash and its line break, two or three bytes, become a gap |
| Lexing.Lexer.ScanComment | src/domain/lexer/lexer.cpp:225-233 | keeps every lexer invariant: one token for everything up to the line break |
| Lexing.Lexer.ScanWord | src/domain/lexer/lexer.cpp:235-256 | keeps every lexer invariant: one token for the longest word, classified by the tables, unless the word is a string prefix right before a quote; then the string or f-string it begins |
| Lexing.Lexer.ScanNumber | src/domain/lexer/lexer.cpp:258-306 | keeps every lexer invariant: one token for the longest number, base, point, exponent and suffix included, its kind as its spelling says |
| Lexing.Lexer.ScanString | src/domain/lexer/lexer.cpp:308-354 | keeps every lexer invariant: one token up to the first terminator that no backslash hides, or to the end of the line or file that leaves it open, its kind as its prefix says |
| Lexing.Lexer.ScanFString | src/domain/lexer/lexer.cpp:356-423 | keeps every lexer invariant: terminates through its fields; opens with FSTRING_START, closes with FSTRING_END, and every f-string inside is closed too |
| Lexing.Lexer.ScanReplacementField | src/domain/lexer/lexer.cpp:425-480 | keeps every lexer invariant: opens with a brace and ends with one, unless the f-string or the file ends first |
| Lexing.Lexer.ScanFormatSpec | src/domain/lexer/lexer.cpp:482-516 | keeps every lexer invariant: stops at the field's brace or at the f-string's end, and nowhere else |
| Lexing.Lexer.ScanOperator | src/domain/lexer/lexer.cpp:518-541 | keeps every lexer invariant: one token for the longest operator there, or one error token of one byte exactly when no operator begins there |
| LexicalLayout.NewlineClosesALine | src/domain/lexer/lexer.cpp:193-214 | in the stream every NEWLINE has a token before it on its own line that is neither whitespace nor comment |
| LexicalLayout.NothingClosesUnopened | src/domain/lexer/lexer.cpp:356-423 | in the stream no FSTRING_END comes without its FSTRING_START |
| TokenEnds.NumberIsSpelled | src/domain/lexer/lexer.cpp:258-306 | a number's kind agrees with its text: complex exactly with a final j, float only with a point or an exponent, int never with a point |
| TokenEnds.DecimalIsOneToken | src/domain/lexer/lexer.cpp:258-306 | a run of digits and underscores is one int token when nothing after it goes on with a number |
| TokenEnds.QuotedTextIsOneString | src/domain/lexer/lexer.cpp:308-354 | any text at all, with quotes, backslashes and line breaks escaped, is one string that ends at its own quote |
| WordTables.LongestOperatorAt | src/domain/lexer/operator_table.cpp:118-139 | maximal munch: no longer prefix is an operator |
| ScanContexts.BracketsRestore | src/domain/lexer/scan_context.cpp:41-127 | a nested stretch between matching brackets gives back the bracket stack and the annotation state |
| ScanContexts.ScanContext.Observe | src/domain/lexer/scan_context.cpp:41-84 | the in-place state follows the transition that BracketsRestore is about |
| ClassChains.WalkIsFirstBaseWins | src/domain/semantic/class_table.h:519-550 | on every class map, cyclic ones included, the walk with its shared visited list finds what the plain own-entry-then-each-base walk finds |
| ClassChains.SharingKeepsTheAnswer | src/domain/semantic/class_table.h:519-550 | the same at every step of a walk |
| ClassChains.WalkVisitsTheReachable | src/domain/semantic/class_table.h:519-550 | the names visited are exactly the reachable ones |
| ClassChains.EachNameOnce | src/domain/semantic/class_table.h:519-550 | each of them once |
| ClassChains.AnsweredExactlyWhenReachable | src/domain/semantic/class_table.h:519-550 | the walk answers exactly when a reachable entry does |
| ClassTables.ClassTable.WalkResolved | src/domain/semantic/class_table.h:519-550 | terminates on every map and returns the first answer in left-to-right depth-first preorder of the names not yet visited, leaving exactly those visited |
| ClassTables.ClassTable.QueryChain | src/domain/semantic/class_table.h:595-606 | the walk, and on a miss the class that a scoped alias hides |
| ClassQueries.QueryAnswersExactlyWhenReachable | src/domain/semantic/class_table.h:595-606 | a query answers exactly when a class answers that the name reaches, as it stands or behind its scoped alias |
| ClassQueries.TypeAndLineInLockstep | src/domain/semantic/class_table.cpp:343-357 | member_type and member_declared_line hit together, on the same member |
| ClassQueries.AliasIsItsTarget | src/domain/semantic/class_table.cpp:88-112 | an undeclared alias spelling answers every query as its target |
| ClassQueries.InheritedLooksPastTheClass | src/domain/semantic/class_table.cpp:293-341 | the inherited member is never the class's own, under either spelling and on any cycle, and is what the bases give in order |
| ClassTables.ClassTable.InheritedMemberType | src/domain/semantic/class_table.cpp:293-341 | the loop over bases and hidden names computes that member |
| ClassQueries.CheckAndTypeMeetAtTheSameInit | src/domain/semantic/class_table.cpp:371-585 | constructor_check stops at a declared __init__ exactly when constructor_type reads that same entry |
| ClassQueries.CheckedMeansTheSignatureThatSettledIt | src/domain/semantic/class_table.cpp:371-585 | a Checked constructor is checked against what settled the check if and only if the walk did not stop at BaseException with an __init__ declared on another reachable class |
| ClassQueries.CheckedAgainstAnotherSignature | src/domain/semantic/class_table.cpp:371-585 | a class on which the two disagree |
| ClassQueries.UndeclaredConstructorTakesTheBand | src/domain/semantic/class_table.cpp:371-440 | with no declared __init__, the signature takes exactly the builtin's range of argument counts, or none |
| ClassTables.ClassTable.ConstructorCheckOf | src/domain/semantic/class_table.cpp:442-585 | the order of the four questions decides the verdict |
| ClassTables.ClassTable.ConstructorTypeOf | src/domain/semantic/class_table.cpp:371-440 | self and the return dropped, defaults capped, the queried class returned |
| ClassTables.ClassTable.DeclareScopedAlias | src/domain/semantic/class_table.cpp:114-125 | handing the result back on the way out restores the table exactly |
| ClassTables.ClassTable.Declare | src/domain/semantic/class_table.cpp:163-227 | a class statement over a builtin's name leaves nothing of the builtin |
| ClassTables.ClassTable.DeclareMember | src/domain/semantic/class_table.cpp:229-239 | an undeclared class is not made up |
| ClassTables.SeedingSkipsAliases | src/domain/semantic/class_table.cpp:14-79 | exactly the builtin rows that are no alias get an entry, each marked as seeded |
| ClassChains.SeededBasesKeepTheirNames | src/domain/semantic/class_table.cpp:81-86 | a seeded base is looked up under the name it was seeded with |

## Left out

- Pipeline, command line, file access, diagnostics' wording and the source spans on tree nodes: plumbing, or no property of their own.
- The type checker, its operator rules, subtyping, narrowing and scope stack: replaced by the typing relation described above.
- Real-float `//` and `**`, true division of ints beyond 2^53: see the assumptions.
- A literal of exactly 2^63 under a unary minus: it has no type here, so no lowering.
- Decoding of string literals: the two known differences from Python (`\0` before an octal digit, short unterminated triple quotes) make equality false, and the rest is a table.
- Layout of the emitted text: it is modelled as C++ tokens, so indentation and line breaks between them are not.
- Compiler.CompiledModuleBehavesLikePython: excludes runs in which a function reaches a global or a function before the module binds it, runs that call the module's own print or, in a module with its own len, any len, and results outside the runtime's contract. EarlyCall and OwnBuiltins.OwnPrintDecides show that the contract does fail in the first two; OwnBuiltins.NothingElseParts gives a condition on the source text under which neither can happen.
- Compiler.WithoutATrapItIsCPython: excludes the same runs, and those in which the executable traps.
- Compiler.PrologueCoversEveryCall: leaves the calls of an own print or len excluded, which OwnBuiltins.NothingElseParts removes.
- OwnBuiltins.OwnPrintDecides: asks that the run which the executable makes be one the runtime follows to its end, since what an uncovered run prints after that is not modelled.
- OwnBuiltins.OwnLenAgrees: is about one call; what a wrong length does to the rest of a run is not followed, as it may do nothing.
- ExpressionRoundTrip.ExpressionReads: has one printed form for each tree, with the fewest parentheses and no trailing commas; lambda and conditional expressions, which the parser refuses, are no trees here.
- Lexing.Lexer.ScanReplacementField: which tokens stand inside a field is not stated beyond their invariants, as the brackets that close in it may be ones that opened before it.
- StatementGrammar.SimpleStmt: the thirteen augmented assignment operators are one token kind, since a statement with any of them is refused alike.
- StatementRoundTrip.ProgramReads: tuples in statements keep their parentheses, and blank lines, which the indentation pass drops, are not printed.
- WordTables.LongestOperatorAt: the keyword and operator tables are transcribed; that they match the language is not stated.
- Name mangling is the prefix that the emitter adds, on names it can mangle.
- Nested and conditional definitions are refused by the emitter's statement rule instead of by the definition's own.
- The generated tables of builtin classes: parameters of the class table's constructor.
- own_member_type, is_class, bases_of and the object members: single lookups.
