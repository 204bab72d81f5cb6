# EL interpreter execution engine, in Dafny

A model of the execution engine of the Extendable Language (EL) interpreter: the
class `ELInterpreter` of `interpreter.py`. It covers:

- the program loader and the label table;
- the main `run` loop and the single-statement executor (`local`, `global`, `set`,
  bare extension calls, `jump`, `.include`);
- the bracket-balance block scanner;
- the multi-line `if [...] then [` / `or [...] then [` / `else [` statement,
  including nested statements;
- the expression and condition evaluators;
- the scope store.

The model has two layers:

- **Specification functions.** A big-step semantics over plain values. Modules:
  - `Text`: Python's `strip`, `split`, string order and the regex character classes.
  - `Values`: EL values, literals, coercion and comparison.
  - `Evaluator`: `_evaluate_expression` and `_evaluate_condition`.
  - `Loader`: `load_program` and `_map_labels`.
  - `Semantics`: statements, the block scanner, the if-statement and `run`.

  The lemmas about these functions are in `StatementFacts` and `ControlFacts`, and
  beside the functions themselves.
- **The interpreter object.** Module `Interpreter`, class `ELInterpreter`. Its fields
  are the source's fields and its methods update them in place, with the source's
  loops. Each method's `ensures` says the object ends in the state the specification
  function prescribes. So every lemma about a function also holds of the object.

Statements and conditions reach the control flow through a `Machine`: a pair of
functions, one running a statement and one testing a condition.

- The control-flow lemmas hold for any machine.
- `Semantics.MachineOf` plugs in the interpreter's own statements and conditions.
- `ControlFacts.InterpreterMachine` proves that this machine has the properties the
  lemmas ask for.

The source can run forever, for example through a backward `jump`, or through an
`if ` line that is not a valid header (`ControlFacts.UnparsableIfLoopsForever`).
The if-statement and the main loop therefore take a step budget (`fuel`). Running
out of it is reported as `OutOfFuel`; the source has no such outcome.

Where the code behaves in a way its own comments or a reader would not expect, the
model follows the code as written:

- A nested `if` inside a taken branch first sets the cursor to its own line
  (interpreter.py:299). The jump check at interpreter.py:311 therefore always fires
  after it, and the enclosing statement hands back the cursor the nested call left,
  never the index the nested call returned. When the nested call leaves the cursor
  on the nested `if` line (its branch neither jumped nor ran a deeper nested `if`),
  that is the nested line itself, so the main loop runs the nested statement again.
  `ControlFacts.NestedIfReturnsOwnIndex` states this case and
  `ControlFacts.RunBodyAtIf` the general one.
- Every line that starts with `]` is ignored silently (interpreter.py:228), not only
  a lone `]`.
- An unresolved token is a plain string value (interpreter.py:438), not a separate
  kind of value. So a bare word and the quoted word compare equal.
- A `TypeError` from ordering values of unrelated kinds is not a reported error. It
  escapes `run` and ends the program (interpreter.py:497-504, 532-533), and is
  modelled as the halt `Raised`.
- An `or [ELSE] then [` header carries the condition text `ELSE`. That is the
  sentinel the code uses for `else` (interpreter.py:254, 286), so the branch is
  always taken.

## Model

| member | source | states |
|---|---|---|
| Text.StripShape | interpreter.py:44 | what `strip()` drops is whitespace on both sides, and neither end of what it keeps is whitespace |
| Text.StripSlice | interpreter.py:44 | `strip()` keeps one contiguous piece of the line, starting after the leading whitespace |
| Text.StripIdempotent | interpreter.py:78 | stripping an already stripped program line again changes nothing |
| Text.SplitJoin | interpreter.py:41 | splitting on one separator and joining again gives back the text |
| Text.SplitPiecesLackSeparator | interpreter.py:41 | no piece of a split contains the separator |
| Text.IdentRunExact | interpreter.py:383 | the `[a-zA-Z0-9_]*` run is exactly a stretch of identifier characters followed by a non-identifier character |
| Text.LexLessTrichotomy | interpreter.py:497-504 | for Python's string `<`, exactly one of `a < b`, `a == b`, `b < a` holds |
| Text.LexLessTransitive | interpreter.py:497-504 | Python's string `<` is transitive; with the trichotomy it is a strict total order |
| Text.LastIndexShape | interpreter.py:383 | the `)` the greedy `(.*)\)` stops at has no later `)`, and when none is found there is no `)` at all |
| Text.LastIndexIs | interpreter.py:383 | a `)` with no later `)` is the one the greedy match stops at |
| Text.FindFirst | interpreter.py:247-249 | the lazy `(.+?)\] then \[` ends at the first occurrence of `] then [`, with none before it |
| Values.DecimalTextRoundTrip | interpreter.py:372 | reading back the decimal text of a natural number gives the number |
| Values.IntLiteralRoundTrip | interpreter.py:372 | every integer written in decimal is an `int()` literal whose value is that integer |
| Values.WithoutFirstDot | interpreter.py:483 | `replace('.', '', 1)` removes exactly one character when there is a dot, and none otherwise |
| Values.WithoutFirstDotRemovesFirstDot | interpreter.py:483 | at the index of the first dot, the result is the text before that index followed by the text after it: exactly the first dot is removed |
| Values.NumericValue | interpreter.py:485 | a numeric string becomes a float exactly when it contains a dot, otherwise a non-negative int |
| Values.Coerce | interpreter.py:480-488 | a numeric string facing a number (int or float) is converted, `float` when it has a dot and `int` otherwise; nothing else is converted, and only that side changes |
| Values.Compare | interpreter.py:505-507 | an operator outside `= != > < >= <=` makes the comparison false |
| Values.CompareInts | interpreter.py:493-504 | on two ints the six operators are integer comparison |
| Values.CompareStrings | interpreter.py:497-504 | on two strings ordering always has an answer, and `>` is the negation of `<=` |
| Values.CoercedDigitsCompareAsInts | interpreter.py:483-488 | a number against a digit string compares as two ints after coercion; without it `=` is false and ordering raises |
| Values.OrderingMixedKindsRaises | interpreter.py:497-504 | ordering against `None`, or an int against a string, raises `TypeError` |
| Evaluator.MatchCallSound | interpreter.py:383 | what the call pattern matches is two identifiers and an argument text written as `LIB:FUNC(ARGS)`, with no `)` after the closing one |
| Evaluator.MatchCallComplete | interpreter.py:383 | every text `LIB:FUNC(ARGS)` followed by a tail without `)` matches with exactly those pieces |
| Evaluator.StripAll | interpreter.py:397 | each argument piece is stripped, and none is dropped |
| Evaluator.EvalArgs | interpreter.py:394-400 | one value per argument piece, each the value of that piece evaluated without a scope hint |
| Evaluator.EvalArgsCons | interpreter.py:398-400 | the arguments are evaluated left to right: the first argument's invocations come before those of the rest |
| Evaluator.EvalArgsSingle | interpreter.py:398-400 | one argument contributes its own value and its own invocations |
| Evaluator.WordIsNoLiteral | interpreter.py:371-380 | a token starting with a letter or `_` is no int, float or quoted literal |
| Evaluator.QuotedStringIsLiteral | interpreter.py:378-380 | a quoted token evaluates to the text between the quotes, calls nothing and ignores the namespaces |
| Evaluator.UnresolvedCallIsAbsent | interpreter.py:389-415 | a call to an unknown library or function yields `None` and evaluates no argument |
| Evaluator.ResolvedCallInvokes | interpreter.py:389-409 | a resolved call returns the function's result (`None` if it raised), and its invocation is the last in the trace |
| Evaluator.ScopeHintOnlyBiasesGlobals | interpreter.py:418-425 | the `local` hint changes nothing; the `global` hint matters only for a name bound in both namespaces |
| Evaluator.UnresolvedWordPassesThrough | interpreter.py:417-438 | a word that is no literal, call or variable, and that the fallback cannot evaluate, comes back as its own text |
| Evaluator.MalformedConditionIsFalse | interpreter.py:511-513 | a condition of neither one nor three tokens is false and calls nothing |
| Evaluator.UnsupportedOperatorIsFalse | interpreter.py:505-507 | a three-token condition with an unsupported operator is false |
| Evaluator.NumericStringOperandCoerced | interpreter.py:458-465 | a variable bound to an int, compared with an operand evaluating to a digit string, compares as two ints |
| Evaluator.UnresolvedLeftOperandIsFalse | interpreter.py:466-472 | a left operand that is no variable and evaluates to its own text makes the condition false |
| Loader.ProgramLinesAreKeptLinesInOrder | interpreter.py:41-48 | program line `j` is the stripped raw line at the `j`-th kept position; positions increase; a raw line is among them exactly when its stripped text is a label or non-empty and not a comment |
| Loader.ProgramLinesAreKept | interpreter.py:43-47 | every program line is a label, or a non-empty line that is not a comment |
| Loader.ProgramLinesHaveNoNewline | interpreter.py:41-47 | no program line contains a newline |
| Loader.LabelTableIsLastDeclaration | interpreter.py:66-69 | every `@name` line is in the table at an index at or after its own; a declared name maps to a line declaring it; undeclared names keep their earlier entry |
| Loader.LabelTableLastWins | interpreter.py:66-69 | every declaration is in the table, pointing at it or at a later declaration of the same name |
| Loader.LabelTableSound | interpreter.py:66-69 | a declared name maps to a line declaring it |
| Loader.LabelTableKeepsBase | interpreter.py:28 | the table is never cleared: earlier entries keep a place |
| Semantics.AssignVar | interpreter.py:515-525 | rebinds the local name if there is one, else the global; an undeclared name changes nothing and is an error; no name is ever added; all other bindings are unchanged |
| Semantics.LastAssign | interpreter.py:119 | `KW(.+) = (.+)` splits at the last `" = "` that leaves both sides non-empty |
| Semantics.LastCallAssign | interpreter.py:136 | the greedy target group of `set (.+) = LIB:FUNC(ARGS)` ends at the last `" = "` followed by a call |
| Semantics.ScanClose | interpreter.py:344-352 | a scan that finds the closing line ends strictly after its start and within the program |
| Semantics.BlockEnd | interpreter.py:334-355 | a found block end lies after the block's first line and within the program |
| Semantics.ParseFromLayout | interpreter.py:240-278 | the branches are consecutive: the first starts after the `if` header, each next header sits at the previous block's end, and only the last branch may be `else` |
| Semantics.ParseFromHeaders | interpreter.py:245-262 | each branch starts after a header carrying its condition (`if` first, then `or` or `else`), and its block ends where the bracket balance first returns to zero |
| Semantics.ParseFromStops | interpreter.py:255-257 | parsing stops only after an `else`, at the end of the program, or at a line that is no header |
| Semantics.ParseFromNoHeader | interpreter.py:255-257 | proof step (one case of `ParseFrom`, used by the parse loop): a line that is no header ends the parse at that line |
| Semantics.ParseFromUnclosed | interpreter.py:262-265 | proof step: a header whose block is unclosed fails the whole parse |
| Semantics.ParseFromElse | interpreter.py:273-275 | proof step: an `else` branch with a closed block is the last branch |
| Semantics.ParseFromBranch | interpreter.py:259-271 | proof step: any other header with a closed block is followed by the parse that starts at its block's end |
| StatementFacts.DeclareLocalShape | interpreter.py:118-125 | a `local` line may add a local name and changes neither the globals, the extensions nor the cursor |
| StatementFacts.DeclareGlobalShape | interpreter.py:126-133 | a `global` line may add a global name and changes neither the locals, the extensions nor the cursor |
| StatementFacts.LocalDeclarationBindsLocal | interpreter.py:118-125 | a well-formed `local` line binds exactly the stripped name to the value evaluated with the local hint; a malformed one is a syntax error that changes nothing |
| StatementFacts.GlobalDeclarationBindsGlobal | interpreter.py:126-133 | the same for `global`, with the global hint and the locals untouched |
| StatementFacts.SetFromCallShape | interpreter.py:137-166 | `set NAME = LIB:FUNC(ARGS)` binds no new name, loads nothing and leaves the cursor |
| StatementFacts.SetVarShape | interpreter.py:134-174 | `set`, in either form, binds no new name, loads nothing and leaves the cursor |
| StatementFacts.SetNeverDeclares | interpreter.py:134-174 | a `set` line run as a statement keeps the bound names, the extensions and the cursor, whether or not it succeeds |
| StatementFacts.SetFromCallFailures | interpreter.py:149-166 | an unknown library or function is reported and nothing is evaluated or changed |
| StatementFacts.SetFromFailedCall | interpreter.py:158-162 | a call that raised assigns nothing and is logged as the last invocation |
| StatementFacts.CallStmtShape | interpreter.py:177-178 | a bare extension call only adds to the trace |
| StatementFacts.StatementScopes | interpreter.py:107-228 | no statement unbinds a name, unloads an extension or forgets a call; only `local`, `global`, `.include` and `jump` change the local names, global names, extensions and cursor respectively |
| StatementFacts.OnlyJumpMovesCursor | interpreter.py:181-194 | only a `jump` line moves the cursor |
| StatementFacts.StatementForms | interpreter.py:117-181 | the first keyword a line starts with decides its statement form, before the call pattern is tried |
| StatementFacts.JumpIsNoCall | interpreter.py:177-181 | a `jump` line never matches the extension-call pattern |
| StatementFacts.JumpSemantics | interpreter.py:181-194 | a jump to a known label moves the cursor to its line; an unknown one moves it past the last line and reports; nothing else changes |
| StatementFacts.JumpReachesDeclaredLabel | interpreter.py:186-189 | with the loader's label table, a jump to a declared label lands on a line declaring it |
| StatementFacts.ScanCloseFirstZero | interpreter.py:344-355 | the scan stops at the first line boundary where the bracket balance is zero, or finds none |
| StatementFacts.BlockEndIsFirstZero | interpreter.py:334-355 | `_find_block_end(s)` succeeds with `e` exactly when the balance, starting at 1, first returns to zero after line `e-1`; it fails exactly when the balance never does |
| ControlFacts.Select | interpreter.py:285-286 | the branch picked is an `else`, or has a true condition, and every branch before it was rejected; a raising or float comparison aborts |
| ControlFacts.ChooseRunsFirstMatch | interpreter.py:285-328 | at most one branch body runs: the first `else` or true branch; a comparison that raises stops everything |
| ControlFacts.SelectTraceBlind | interpreter.py:286 | which branch is picked does not depend on the invocations logged so far |
| ControlFacts.RunBodyExit | interpreter.py:292-325 | a block either runs to its end with the cursor unchanged and hands back the statement's end, or stops at the first statement that moved the cursor and hands back that cursor |
| ControlFacts.ChooseExit | interpreter.py:285-332 | the same for the branches tried in turn |
| ControlFacts.HandleIfExit | interpreter.py:230-332 | `_handle_if_statement` hands back the line after its last block with the cursor unchanged, or the new cursor when a statement moved it |
| ControlFacts.UnclosedBlockHalts | interpreter.py:262-265 | proof step (one case of `HandleIf`): an unclosed block stops the statement before any condition is evaluated, changing nothing |
| ControlFacts.NoHeaderReturnsOwnLine | interpreter.py:240-257 | proof step (one case of `HandleIf`): a first line that is no `if [...] then [` header hands back its own index and changes nothing |
| ControlFacts.NestedIfReturnsOwnIndex | interpreter.py:297-314 | when the nested call leaves the cursor on the nested `if` line (no jump and no deeper nested `if` in its branch), the enclosing block hands back that line's own index, while the nested call returned the line after the nested statement |
| ControlFacts.RunBodyAtIf | interpreter.py:297-314 | proof step (one case of `RunBody`, used by the block loop): in a block, a nested `if` is handled with the cursor on it; the block stops on a halt or a moved cursor, and otherwise goes on where the nested call says |
| ControlFacts.RunBodyAtStatement | interpreter.py:315-325 | proof step (one case of `RunBody`): in a block, a statement that moved the cursor ends the block at that cursor; otherwise the next line runs |
| ControlFacts.RunAtIf | interpreter.py:89-96 | proof step (one case of `RunFrom`, used by the main loop): at an `if ` line the loop halts when the statement fails, and otherwise goes on at the line it hands back |
| ControlFacts.RunAtStatement | interpreter.py:98-105 | proof step (one case of `RunFrom`): at any other line the loop goes on at the next line, or at the line the statement moved the cursor to |
| ControlFacts.LabelLineSkipped | interpreter.py:81-83 | proof step (one case of `RunFrom`): a label line advances the cursor by exactly one |
| ControlFacts.StatementAdvances | interpreter.py:98-105 | a statement that is not `jump` advances the cursor by exactly one |
| ControlFacts.FinishedMeansPastEnd | interpreter.py:77 | the loop finishes only once the cursor is at or past the last line |
| ControlFacts.UnparsableIfLoopsForever | interpreter.py:89-96 | an `if ` line that is no valid header is handed back unchanged, so the loop repeats it until the step budget runs out |
| ControlFacts.InterpreterMachine | interpreter.py:107-228 | the interpreter's conditions ignore the trace and only its `jump` statements move the cursor |
| Interpreter.ELInterpreter.constructor | interpreter.py:18-32 | empty namespaces, label table, extensions and program, cursor at 0 |
| Interpreter.ELInterpreter.LoadProgram | interpreter.py:34-49 | the program lines are the kept, stripped raw lines, and the label table is built over them |
| Interpreter.ELInterpreter.MapLabels | interpreter.py:60-69 | the label table becomes `Loader.MapLabels` of the old table and the program lines |
| Interpreter.ELInterpreter.FindBlockEnd | interpreter.py:334-355 | returns `(e, True)` with `e` the first boundary where the balance is zero, or `(-1, False)` when there is none |
| Interpreter.ELInterpreter.AssignVariable | interpreter.py:515-525 | the new state and report are those of `AssignVar` |
| Interpreter.ELInterpreter.ExecuteSingleStatement | interpreter.py:107-228 | the new state and report are those of the interpreter's statement function |
| Interpreter.ELInterpreter.DefineLocal | interpreter.py:118-125 | the new state and report are those of `DeclareLocal` |
| Interpreter.ELInterpreter.DefineGlobal | interpreter.py:126-133 | the new state and report are those of `DeclareGlobal` |
| Interpreter.ELInterpreter.SetVariable | interpreter.py:134-174 | the new state and report are those of `SetVar` |
| Interpreter.ELInterpreter.AssignEvaluated | interpreter.py:167-172 | the expression's invocations are logged, then its value is assigned as by `AssignVar` |
| Interpreter.ELInterpreter.CallForAssignment | interpreter.py:137-166 | the new state and report are those of `SetFromCall` |
| Interpreter.ELInterpreter.EvaluateCondition | interpreter.py:440-513 | a condition of neither one nor three words is false and calls nothing; an unsupported operator, or a left word that is no variable and evaluates to itself, makes it false; a left local variable is compared with the right side's value after numeric-string coercion; a single word is tested for truth |
| Interpreter.ELInterpreter.HandleIfStatement | interpreter.py:230-332 | the new state and the returned signal are those of `HandleIf` |
| Interpreter.ELInterpreter.ParseBranches | interpreter.py:236-278 | the loop's branches and end are `ParseFrom` of the program from the header |
| Interpreter.ELInterpreter.RunFirstMatch | interpreter.py:280-332 | the new state and signal are those of `Choose` over the parsed branches |
| Interpreter.ELInterpreter.ExecuteBlock | interpreter.py:291-326 | the new state and signal are those of `RunBody` over the taken block |
| Interpreter.ELInterpreter.BlockStep | interpreter.py:293-325 | one pass of the block loop ends the block as `RunBody` does, or leaves the rest of the block equal to the remaining `RunBody` |
| Interpreter.ELInterpreter.BlockIf | interpreter.py:296-314 | the pass at a nested `if` line follows `RunBody` and consumes budget |
| Interpreter.ELInterpreter.BlockStatement | interpreter.py:315-325 | the pass at a statement line follows `RunBody` |
| Interpreter.ELInterpreter.Run | interpreter.py:71-105 | the final state and status are those of `Semantics.Run` from cursor 0 |
| Interpreter.ELInterpreter.RunStep | interpreter.py:77-105 | one pass of the main loop halts as `RunFrom` does, or leaves the rest of the run equal to `RunFrom` with one step less |
| Interpreter.ELInterpreter.StepIf | interpreter.py:89-96 | the pass at an `if ` line follows `RunFrom` |
| Interpreter.ELInterpreter.StepStatement | interpreter.py:98-105 | the pass at a statement line follows `RunFrom` |

## Left out

- Floating point: a float is a value of kind `Float` with no payload. Any comparison or truth test whose answer depends on a float's value halts the model with `FloatComparison`; the source goes on with a computed answer.
- Literals: `int()` and `float()` are modelled for ASCII text only, with optional sign and surrounding whitespace. Underscores, non-ASCII digits, exponents, `inf` and `nan` are not modelled; such tokens fall through to the call pattern and the lookup. CPython's limit of 4300 digits on `int()` of a string is not modelled either: longer literals are read as integers.
- Values.IsNumericText: the numeric-string test before a comparison (interpreter.py:483-488) uses `str.isdigit()`, which also accepts non-ASCII decimal digits such as `"٣"`. The model accepts ASCII digits only, so a comparison of a number with such a string is not coerced: `=` is false and ordering raises, where the source compares numbers.
- The `eval` fallback (interpreter.py:427-438) is Python's own expression evaluator. It is a host function from the token and the combined namespace to a value, or to nothing for a caught `NameError`, `SyntaxError` or `TypeError`. Other exceptions it could raise are not modelled.
- Extension functions (interpreter.py:149-166, 389-415) are foreign code. They are functions from argument values to a returned value or a raised exception. What they do to the outside world is recorded as a trace of invocations, a field the source does not have.
- Extension functions are stateless: an extension whose answer depends on earlier calls (a counter, an input reader) cannot be expressed. `ControlFacts.SelectTraceBlind`, the trace-blindness in `ControlFacts.InterpreterMachine`, and with them the single-state branch choice behind `ControlFacts.ChooseRunsFirstMatch`, rely on this.
- `.include` (interpreter.py:197-226) reads a file and executes it. It is a host function from the directive's argument text to the extensions the file defines. The `~` expansion, quote removal, the suffix check and the error messages belong to that function.
- Diagnostics printed by statements are returned as a `Report` value and are not printed. The diagnostics of the expression evaluator (interpreter.py:408, 411, 414) and of the condition evaluator (interpreter.py:471, 506, 512) are dropped: those evaluators report nothing. So a bare extension call whose library or function is missing (interpreter.py:177-178) reports `Done`, while the source prints an error. Debug output (`self.debug`) and the `debug` constructor argument are left out.
- The command line, file reading and the top-level `try` (interpreter.py:6-11, 527-533), and the unused `tkinter` import, are left out. A `TypeError` reaching that `try` is the halt `Raised`.
- Non-termination: the if-statement and the main loop take a step budget, and running out of it is the halt `OutOfFuel`. Python's recursion limit for deeply nested if-statements is not modelled.
- Interpreter.ELInterpreter.RunStep, StepIf, StepStatement, BlockStep, BlockIf, BlockStatement, ParseBranches, RunFirstMatch, AssignEvaluated and CallForAssignment are the bodies of the source's loops and branches, split into methods of their own. They are not separate operations of the source.
- Interpreter.ELInterpreter.CallForAssignment: takes an extra parameter, a bound on the argument text's length (the length of the `set` line), which only serves the termination of argument evaluation.
- Evaluator.Eval: `_evaluate_expression` is a function over a read-only view of the object, not a method of the class, because it changes no field; its extension invocations are returned as a trace that the calling methods append.
