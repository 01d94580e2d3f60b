# desmoslang compiler core in Dafny

This project models the core of desmoslang, a small language for the Desmos
graphing calculator.

The main part is the type-checking compiler `desmos_lang/src/compiler/compiler.rs`:
- It takes positioned expressions and statements.
- It resolves function and variable names.
- It infers one of two types, Number or List.
- It checks arity and argument types, with the relaxed typing of the `map` macro.
- It scopes function parameters.
- It builds an untyped output tree.

The output tree and its renderer to LaTeX text live in
`desmos_lang/src/core/latex.rs`. The older prototype compiler
`src/compiler.rs` writes text directly from its expression type; the model keeps the four
variants of that type that its tests use.

Modules:

- `Runtime`, `Wrappers`: the two value types (`ValType`), the argument count, `Option` and a map lookup `Get`.
- `CoreAst`: the positioned input tree. A span is an opaque `int`.
- `Errors`: the eight error kinds and the result type `Outcome`. `Outcome` is `Ok`, `Err` or `Fault`; `Fault` stands for the `unimplemented!()` arms.
- `CoreLatex`: the output tree, its renderer and the rendering lemmas.
- `Compiler`: the compiler, written in two layers.
  - The operations are first written as pure functions over a context value `ContextState`: resolution, the call outcome, the type check, expression compilation and the `map` macro outcome. `StmtOutcome` compiles a statement and also returns the context the statement leaves behind.
  - The imperative operations are methods of the class `Context`, each proved equal to one of those functions.
    - `HandleMapMacro`, `HandleMacro` and `CompileStmt` update the context in place.
    - `CompileCall` is the imperative form of the positional argument loop. It only reads the context and leaves it unchanged.
- `CompilerProperties`: the rules of each expression form, scoping, the `map` relaxation and the tests' examples.
- `Prototype`: the prototype string compiler, and its agreement with the renderer.

Behaviour of the code that the model keeps as written:

- **Operand type errors use the enclosing span.** An operand of a binary expression or a factorial that is not a Number is reported at the span of the whole binary or factorial expression, not at the operand's own span (compiler.rs:266-267, 289). See `CompilerProperties.BinaryCompiles` and `CompilerProperties.UnaryCompiles`.
- **Parameters are merged into the locals.** A definition inserts its parameters into the existing locals instead of replacing them (compiler.rs:362-366). Globals still take priority over parameters. See `CompilerProperties.ParamsVisibleInBody`.
- **Locals stay modified after a failed definition.** The locals are restored only after the body and the annotation check succeed (compiler.rs:369-375). A failed definition therefore leaves its parameters in the context. See `CompilerProperties.FuncDefFailureKeepsParams`.
- **`%` emits `mod` without a table lookup.** The builtin call `mod` is built directly, without consulting the builtin table (compiler.rs:269-274). See `CompilerProperties.BinaryCompiles`.
- **`\le` and `\ge` are swapped.** The renderer writes `\le` for greater-or-equal and `\ge` for less-or-equal (latex.rs:103-104). See `CoreLatex.CompareOpToStrInjective`.

## Model

| member | source | states |
|---|---|---|
| CoreLatex.FormatLatexIdentifier | desmos_lang/src/core/latex.rs:63-78 | The empty name stays empty and a one-character name keeps its length. A longer name grows by three characters: the first character is kept, followed by `_{`, and the text ends with `}`. |
| CoreLatex.FormatLatexIdentifierRoundTrip | desmos_lang/src/core/latex.rs:63-78 | Every formatted identifier reads back to the original name, so formatting loses nothing. |
| CoreLatex.FormatLatexIdentifierInjective | desmos_lang/src/core/latex.rs:63-78 | Distinct names never render to the same text. |
| CoreLatex.MultiLatexToStr | desmos_lang/src/core/latex.rs:80-82 | Each item renders separately, keeping count and order. |
| CoreLatex.CompareOpToStrInjective | desmos_lang/src/core/latex.rs:98-106 | The five comparators have five distinct spellings; `>=` is written `\le` and `<=` is written `\ge`. |
| CoreLatex.BinaryOperatorToStr | desmos_lang/src/core/latex.rs:84-96 | Renders the four binary operators; its rules are stated by `CoreLatex.MultiplyRendering` (`\cdot ` only between two literals) and `CoreLatex.ScalarRendering` (`+`, `-`, `\frac`, no parentheses). |
| CoreLatex.CompareOpToStr | desmos_lang/src/core/latex.rs:98-106 | Spells the five comparators; `CoreLatex.CompareOpToStrInjective` states that the spellings are distinct and that `>=` and `<=` are swapped. |
| CoreLatex.CondToStr | desmos_lang/src/core/latex.rs:108-116 | Renders one clause as left operand, comparator, right operand, `:` and result; used through `CoreLatex.PiecewiseRendering` and the two piecewise examples. |
| CoreLatex.CondsWithCommas | desmos_lang/src/core/latex.rs:161-163 | Renders the remaining clauses; `CoreLatex.CondsWithCommasTerminated` states that each clause text is followed by one comma, in order. |
| CoreLatex.LatexToStr | desmos_lang/src/core/latex.rs:118-167 | The renderer. Its rules per node form are stated by `CoreLatex.ScalarRendering`, `CoreLatex.MultiplyRendering`, `CoreLatex.CallRendering`, `CoreLatex.ListAndFuncDefRendering` and `CoreLatex.PiecewiseRendering`. |
| CoreLatex.CondsWithCommasTerminated | desmos_lang/src/core/latex.rs:161-163 | The trailing clauses render as their texts, each followed by a comma. |
| CoreLatex.TerminatedAsJoin | desmos_lang/src/core/latex.rs:159-163 | A first clause, a comma and comma-terminated clauses equal the comma-join of all clauses followed by one comma. |
| CoreLatex.ClausesAsJoin | desmos_lang/src/core/latex.rs:159-163 | The first clause, a comma and the comma-terminated remaining clauses are the comma-join of all clause texts in order, followed by one comma. |
| CoreLatex.PiecewiseRendering | desmos_lang/src/core/latex.rs:154-165 | A piecewise node renders inside `\left\{`…`\right\}` as the comma-separated clauses in order, then a comma, then the default. |
| CoreLatex.CallRendering | desmos_lang/src/core/latex.rs:122-131 | A builtin call differs from a user call only by a leading backslash; arguments render in order, comma-joined, inside `\left(`…`\right)`. |
| CoreLatex.MultiplyRendering | desmos_lang/src/core/latex.rs:90-93 | Multiplication writes `\cdot ` only between two literals and otherwise juxtaposes the operands. |
| CoreLatex.ScalarRendering | desmos_lang/src/core/latex.rs:84-144 | Literals render verbatim and variables by the identifier rule. `+`, `-`, `\frac`, postfix `!` and assignment have fixed spellings and add no parentheses. |
| CoreLatex.ListAndFuncDefRendering | desmos_lang/src/core/latex.rs:141-153 | Lists render as comma-joined items without brackets. A definition keeps its own name raw and formats its parameter names. |
| CoreLatex.PiecewiseSingleExample | desmos_lang/src/core/latex.rs:177-193 | The one-clause test renders as `\left\{1=2:3,4\right\}`. |
| CoreLatex.PiecewiseMultiExample | desmos_lang/src/core/latex.rs:194-214 | The two-clause test renders as `\left\{1=2:3,4<5:6,7\right\}`. |
| Errors.Outcome.PropagateFailure | desmos_lang/src/compiler/compiler.rs:157-158 | Propagating a failure with `?` keeps the same error, or the same fault. |
| Compiler.ResolveFunction | desmos_lang/src/compiler/compiler.rs:49-66 | Resolution is a lookup in the builtin table overridden by the user definitions. The flag is true exactly when the builtin table supplied the signature. |
| Compiler.ResolveVariable | desmos_lang/src/compiler/compiler.rs:68-73 | Resolution is a lookup in the locals overridden by the globals, so globals shadow parameters. |
| Compiler.CheckArgs | desmos_lang/src/compiler/compiler.rs:100-121 | The positional type check never faults and succeeds exactly when every argument's type is accepted. On success it yields the argument nodes in order. On failure it reports `TypeMismatch(got, expected)` at the span of the first rejected argument. |
| Compiler.FirstRejectedUnique | desmos_lang/src/compiler/compiler.rs:100-121 | At most one argument is the first rejected one. |
| Compiler.CallOutcome | desmos_lang/src/compiler/compiler.rs:75-134 | An unknown name fails `UnknownFunction` at the call span. An arity mismatch fails `WrongArgCount(got, expected)` at the call span. Success happens exactly when the arity matches and every argument is accepted, with List for Number accepted only in map mode. The result is the call node with the builtin flag and the arguments in order, typed with the signature's return type. With the right arity, a failure is the first rejected argument's `TypeMismatch` at that argument's span. |
| Compiler.CheckType | desmos_lang/src/compiler/compiler.rs:136-148 | Succeeds exactly when the types are equal; otherwise `TypeMismatch(got, expected)` at the given span. |
| Compiler.CompileExpect | desmos_lang/src/compiler/compiler.rs:150-160 | Compilation failures propagate unchanged. A type other than the expected one fails at the span passed in, not the expression's own. On success the result is the compiled node. |
| Compiler.BranchToCond | desmos_lang/src/compiler/compiler.rs:233-241 | A clause succeeds exactly when its left operand compiles to a Number (checked at the left operand's span) and its right operand and result compile. The comparator passes through unchanged. |
| Compiler.BinopToLatex | desmos_lang/src/compiler/compiler.rs:217-225 | Maps the four arithmetic operators to output operators; `CompilerProperties.BinopToLatexInjective` states that the map is one-to-one. |
| Compiler.UnopToLatex | desmos_lang/src/compiler/compiler.rs:227-231 | Maps the factorial to the output factorial; `CompilerProperties.UnaryCompiles` states its use. |
| Compiler.CompileArgs | desmos_lang/src/compiler/compiler.rs:299-306 | A successful argument compilation yields one compiled argument per argument. Order, spans and the first failure are stated by `CompilerProperties.CompileArgsInOrder`. |
| Compiler.CompileListItems | desmos_lang/src/compiler/compiler.rs:311-325 | A successful list compilation yields one node per element. Order and the `NoNestedList` error are stated by `CompilerProperties.ListItemsInOrder`. |
| Compiler.BranchesToConds | desmos_lang/src/compiler/compiler.rs:339-342 | A successful clause compilation yields one condition per clause. Order and the first failure are stated by `CompilerProperties.BranchesKeepOrder`. |
| Compiler.CompileExpr | desmos_lang/src/compiler/compiler.rs:245-350 | For every form other than a variable or a call, a successful result is typed List exactly when the expression is a list. The rules per form are stated by `CompilerProperties.NumCompiles`, `VariableCompiles`, `BinaryCompiles`, `UnaryCompiles`, `CallCompiles`, `ListCompiles`, `PiecewiseCompiles` and `MapExpressionFaults`. |
| Compiler.StmtOutcome | desmos_lang/src/compiler/compiler.rs:352-393 | A statement never changes the globals or the map-mode flag. A failure registers nothing. A successful definition restores the locals and adds exactly its own name to the defined functions. An expression statement leaves the context unchanged. The detailed rules are stated by the statement lemmas of `CompilerProperties`. |
| Compiler.MapMacroOutcome | desmos_lang/src/compiler/compiler.rs:162-200 | Fewer than two arguments fail `BadMapMacro` at the macro span. A first argument that is not a bare name fails `ExpectedFunction` at its own span. Failures of the other arguments propagate. Otherwise the outcome is the call outcome in map mode, with that name as the callee. |
| Compiler.InsertParamsKeys | desmos_lang/src/compiler/compiler.rs:364-366 | After inserting the parameters, the locals hold exactly the old names and the parameter names. |
| Compiler.InsertParamsLastWins | desmos_lang/src/compiler/compiler.rs:364-366 | A parameter is bound to the type of its last declaration. |
| Compiler.InsertParamsKeepsOthers | desmos_lang/src/compiler/compiler.rs:364-366 | An outer local that is not a parameter keeps its type. |
| Compiler.Context.constructor | desmos_lang/src/compiler/compiler.rs:31-40 | A new context has no variables, locals or definitions, and is not in map mode. |
| Compiler.Context.CompileCall | desmos_lang/src/compiler/compiler.rs:75-134 | The loop over the parameters and arguments side by side computes exactly `CallOutcome` for the current context. |
| Compiler.Context.HandleMapMacro | desmos_lang/src/compiler/compiler.rs:162-200 | Computes `MapMacroOutcome` of the state on entry. It leaves the whole context as it found it, including the restored map-mode flag. |
| Compiler.Context.HandleMacro | desmos_lang/src/compiler/compiler.rs:202-215 | `map` goes to the map macro. Any other name fails `UndefinedMacro(name)` at the macro span. The context is left unchanged either way. |
| Compiler.Context.CompileStmt | desmos_lang/src/compiler/compiler.rs:352-393 | The parameter-insertion loop, the body compilation, the annotation check, the restore and the registration produce exactly `StmtOutcome`'s result and its new context. |
| CompilerProperties.BinopToLatexInjective | desmos_lang/src/compiler/compiler.rs:217-225 | The four arithmetic operators map to four distinct output operators. |
| CompilerProperties.CompileArgsInOrder | desmos_lang/src/compiler/compiler.rs:299-306 | Call arguments compile left to right. Compilation succeeds exactly when each argument does. Each result keeps its argument's span, node and type, in order. A failure is the first failing argument's failure. |
| CompilerProperties.ListItemsInOrder | desmos_lang/src/compiler/compiler.rs:311-327 | List elements compile in order, with the same length and order. The first element that fails or is typed List decides the error. A List-typed element fails `NoNestedList` at that element's span. |
| CompilerProperties.BranchesSucceedInOrder | desmos_lang/src/compiler/compiler.rs:339-342 | The remaining clauses succeed exactly when each clause does, and then yield each clause's condition in order with its comparator. |
| CompilerProperties.BranchesFailAtFirst | desmos_lang/src/compiler/compiler.rs:339-342 | A failure of the remaining clauses is the failure of the first failing clause. |
| CompilerProperties.BranchesKeepOrder | desmos_lang/src/compiler/compiler.rs:339-342 | The remaining clauses compile in order, each keeping its comparator. The first failing clause decides the error. |
| CompilerProperties.NumCompiles | desmos_lang/src/compiler/compiler.rs:252 | A literal compiles to the same text, typed Number. |
| CompilerProperties.VariableCompiles | desmos_lang/src/compiler/compiler.rs:253-259 | A global gives its type, otherwise a local gives its type. Any other name fails `UndefinedVariable(name)` at the variable's span. |
| CompilerProperties.BinaryCompiles | desmos_lang/src/compiler/compiler.rs:260-283 | Succeeds exactly when both operands compile to Numbers. A List operand fails at the enclosing expression's span. `%` becomes the builtin call `mod(l, r)`; the other operators become the matching output operator. The result is typed Number. |
| CompilerProperties.UnaryCompiles | desmos_lang/src/compiler/compiler.rs:284-293 | Succeeds exactly when the operand is a Number. A List operand fails at the factorial's span, not the operand's. The result is a factorial node typed Number. |
| CompilerProperties.CallCompiles | desmos_lang/src/compiler/compiler.rs:294-310 | A normal call compiles all arguments first; their failure propagates, otherwise the call outcome is the result. The `map` call form is a fault. |
| CompilerProperties.ListCompiles | desmos_lang/src/compiler/compiler.rs:311-327 | A list succeeds exactly when every element is a Number. It is typed List and keeps its elements' order and count. |
| CompilerProperties.PiecewiseCompiles | desmos_lang/src/compiler/compiler.rs:329-347 | Succeeds exactly when every clause compiles and the default is a Number. The result is typed Number and keeps every clause's comparator, in order. |
| CompilerProperties.MapExpressionFaults | desmos_lang/src/compiler/compiler.rs:348 | The reserved map expression is a fault, never a user error. |
| CompilerProperties.BranchChecksOnlyLeft | desmos_lang/src/compiler/compiler.rs:233-241 | A clause's right operand and result may have any type; only the left operand must be a Number. |
| CompilerProperties.ListNodeOnlyFromList | desmos_lang/src/compiler/compiler.rs:245-350 | Only a list expression compiles to a list node, and that node is typed List. |
| CompilerProperties.CompiledListsAreFlat | desmos_lang/src/compiler/compiler.rs:311-327 | A compiled list node is typed List and none of its elements is a list node. |
| CompilerProperties.SingleArgCompiles | desmos_lang/src/compiler/compiler.rs:300-306 | One argument that compiles yields one compiled argument with its own span and type. |
| CompilerProperties.MapAcceptsListForNumber | desmos_lang/src/compiler/compiler.rs:107-110 | In `map(f, list)` a List argument is accepted for a Number parameter. The call keeps the callee's builtin flag and return type. |
| CompilerProperties.DirectCallRejectsListForNumber | desmos_lang/src/compiler/compiler.rs:107-117 | Outside `map` the same call fails `TypeMismatch(List, Number)` at the argument's span. |
| CompilerProperties.SinOfNumber | desmos_lang/src/compiler/compiler.rs:535-547 | `sin(1)` compiles to a builtin call typed Number. |
| CompilerProperties.SinWrongArity | desmos_lang/src/compiler/compiler.rs:561-588 | `sin()` fails `WrongArgCount(0, 1)` and `sin(1, 2)` fails `WrongArgCount(2, 1)`, both at the call's span. |
| CompilerProperties.SinOfList | desmos_lang/src/compiler/compiler.rs:591-605 | `sin([1])` fails `TypeMismatch(List, Number)` at the argument's span. |
| CompilerProperties.UnknownFunctionExample | desmos_lang/src/compiler/compiler.rs:548-557 | `abc()` fails `UnknownFunction("abc")` at the call's span. |
| CompilerProperties.ModExample | desmos_lang/src/compiler/compiler.rs:505-519 | `1 % 2` compiles to the builtin call `mod(1, 2)`. |
| CompilerProperties.ExpressionStatementCompiles | desmos_lang/src/compiler/compiler.rs:359 | An expression statement yields the expression's node, drops its type and leaves the context unchanged. |
| CompilerProperties.FuncDefSucceeds | desmos_lang/src/compiler/compiler.rs:360-391 | A successful definition restores the locals and leaves globals and the flag alone. It registers the parameter types and the body's inferred type under its name, and yields the definition node. A present annotation equals the inferred type. |
| CompilerProperties.FuncDefFailureKeepsParams | desmos_lang/src/compiler/compiler.rs:362-375 | A failed definition leaves its parameters in the locals and registers nothing. |
| CompilerProperties.AnnotationMismatchFails | desmos_lang/src/compiler/compiler.rs:367-373 | An annotation that differs from the body's type fails `TypeMismatch(inferred, annotated)` at the body's span. |
| CompilerProperties.ParamsVisibleInBody | desmos_lang/src/compiler/compiler.rs:362-369 | In the body, a parameter has the type of its last declaration, unless a global of the same name shadows it. |
| CompilerProperties.ParamsDoNotLeak | desmos_lang/src/compiler/compiler.rs:374-375 | After a successful definition, a name that is neither a global nor an outer local is undefined in the next statement. |
| CompilerProperties.DefinitionVisibleLater | desmos_lang/src/compiler/compiler.rs:377-384 | After a successful definition, later statements resolve its name to the registered user signature. |
| CompilerProperties.NoSelfRecursion | desmos_lang/src/compiler/compiler.rs:360-384 | For a name that is neither already defined nor a builtin, the body is compiled in a context where the name does not resolve, so a self-call anywhere in the body cannot compile. A body that is itself such a call fails `UnknownFunction` at the body's span once its arguments compile. |
| CompilerProperties.FuncDefExamples | desmos_lang/src/compiler/compiler.rs:772-820 | `f(a: Number) = a` compiles and registers `[Number] -> Number`. A later `a` is undefined, and a later `f(1)` is a user call. |
| Prototype.CompileIdentifier | src/compiler.rs:7-22 | The prototype's identifier rule; `Prototype.IdentifierFormattersAgree` states that it equals the renderer's rule and reads back. |
| Prototype.CompileExpr | src/compiler.rs:24-39 | The prototype compiler; `Prototype.CompileExprIsConcatenation` and `Prototype.PrototypeMatchesRenderer` state what it writes. |
| Prototype.IdentifierFormattersAgree | src/compiler.rs:7-22 | The prototype's identifier rule equals the renderer's on every name, so its names also read back. |
| Prototype.ConcatAppend | src/compiler.rs:24-39 | Concatenation distributes over appending parts. |
| Prototype.CompileExprIsConcatenation | src/compiler.rs:24-39 | The output is the concatenation of the leaves and operators in reading order: operators are infix or postfix and nothing else is written. |
| Prototype.PrototypeMatchesRenderer | src/compiler.rs:24-39 | On `+`, `-` and `!`, the prototype writes exactly what the renderer writes for the corresponding output tree. |
| Prototype.NumExamples | src/compiler.rs:49-53 | `5` and `2.3` compile verbatim. |
| Prototype.VariableExamples | src/compiler.rs:55-60 | `""`, `a` and `abc` compile to `""`, `a` and `a_{bc}`. |
| Prototype.OperatorExamples | src/compiler.rs:62-83 | `1 + 2` compiles to `1+2` and `2!` to `2!`. |

## Left out

- **Builtin table.** The builtin signature table is not part of this model. Every operation takes it as a parameter. The examples assume only the `sin: [Number] -> Number` entry that the tests rely on.
- **Spans.** Spans are opaque integers; source text, line and column are not modelled.
- **Error display.** The display of errors and its rendering through the parser library are left out; only the error kinds and spans are modelled.
- **Unimplemented arms.** The `unimplemented!()` arms for the `map` call modifier and the map expression are the `Fault` outcome. The `unreachable!()` arm of `binop_to_latex` is excluded by its precondition `op != Mod`, which its only caller guarantees.
- **Macro dispatch from expressions.** Macros are reachable only through `HandleMacro`, as in the code, where no expression form dispatches to them. `CompileExpr` is therefore a function of a context value and never changes the context.
- **Ownership and sharing.** Reference counting, lifetimes and `&str`/`String` ownership are not modelled. Strings are `seq<char>`, and identifiers are treated as ASCII, as the code assumes.
- **Prototype:**
  - The prototype's `Context` is an empty struct that is never read, so it is left out.
  - Its `_ => unimplemented!()` arm covers variants of the prototype's expression type, which is defined elsewhere. Only the four variants its tests use are modelled.
- **Outside the core.** The parser, the grammar, the runtime, the command-line tool and `src/parser/ast.rs` (a datatype with no logic) are not part of this model.
