/** What the compiler promises, stated over the functions of `Compiler`. */
module CompilerProperties {
  import opened Runtime
  import opened Wrappers
  import opened Errors
  import opened Compiler
  import A = CoreAst
  import L = CoreLatex

  // ----- Sequences of sub-expressions -----

  /** Call arguments are compiled in order; the first failure is the result. */
  lemma {:induction false} CompileArgsInOrder(st: ContextState, builtins: BuiltinTable, args: seq<A.Located>)
    ensures var r := CompileArgs(st, builtins, args);
      && (r.Ok? <==> forall i :: 0 <= i < |args| ==> CompileExpr(st, builtins, args[i]).Ok?)
      && (r.Ok? ==> |r.value| == |args| && forall i :: 0 <= i < |args| ==>
            r.value[i] == CompiledArg(args[i].span, CompileExpr(st, builtins, args[i]).value.0,
                                      CompileExpr(st, builtins, args[i]).value.1))
      && (!r.Ok? ==> exists i :: (0 <= i < |args|
            && (forall j :: 0 <= j < i ==> CompileExpr(st, builtins, args[j]).Ok?)
            && SameFailure(CompileExpr(st, builtins, args[i]), r)))
  {
    if args != [] {
      CompileArgsInOrder(st, builtins, args[1..]);
      var r := CompileArgs(st, builtins, args);
      var c := CompileExpr(st, builtins, args[0]);
      if c.Ok? {
        var rest := CompileArgs(st, builtins, args[1..]);
        assert forall i :: 1 <= i < |args| ==> args[1..][i - 1] == args[i];
        if !rest.Ok? {
          var k :| 0 <= k < |args[1..]|
            && (forall j :: 0 <= j < k ==> CompileExpr(st, builtins, args[1..][j]).Ok?)
            && SameFailure(CompileExpr(st, builtins, args[1..][k]), rest);
          assert SameFailure(CompileExpr(st, builtins, args[k + 1]), r);
        }
      } else {
        assert SameFailure(CompileExpr(st, builtins, args[0]), r);
      }
    }
  }

  /** A list element is accepted when it compiles to a Number. */
  predicate CompilesToNumber(st: ContextState, builtins: BuiltinTable, v: A.Located) {
    CompileExpr(st, builtins, v).Ok? && CompileExpr(st, builtins, v).value.1 == Number
  }

  /** List elements are compiled in order; the output keeps length and order;
      the first element that fails, or that has type List, decides the error. */
  lemma {:induction false} ListItemsInOrder(st: ContextState, builtins: BuiltinTable, values: seq<A.Located>)
    ensures var r := CompileListItems(st, builtins, values);
      && (r.Ok? <==> forall i :: 0 <= i < |values| ==> CompilesToNumber(st, builtins, values[i]))
      && (r.Ok? ==> |r.value| == |values| && forall i :: 0 <= i < |values| ==>
            r.value[i] == CompileExpr(st, builtins, values[i]).value.0)
      && (!r.Ok? ==> exists i :: (0 <= i < |values|
            && (forall j :: 0 <= j < i ==> CompilesToNumber(st, builtins, values[j]))
            && !CompilesToNumber(st, builtins, values[i])
            && (CompileExpr(st, builtins, values[i]).Ok? ==> r == Err(CompileError(NoNestedList, values[i].span)))
            && (!CompileExpr(st, builtins, values[i]).Ok? ==> SameFailure(CompileExpr(st, builtins, values[i]), r))))
  {
    if values != [] {
      ListItemsInOrder(st, builtins, values[1..]);
      var r := CompileListItems(st, builtins, values);
      if CompilesToNumber(st, builtins, values[0]) {
        var rest := CompileListItems(st, builtins, values[1..]);
        assert forall i :: 1 <= i < |values| ==> values[1..][i - 1] == values[i];
        if !rest.Ok? {
          var k :| 0 <= k < |values[1..]|
            && (forall j :: 0 <= j < k ==> CompilesToNumber(st, builtins, values[1..][j]))
            && !CompilesToNumber(st, builtins, values[1..][k])
            && (CompileExpr(st, builtins, values[1..][k]).Ok? ==> rest == Err(CompileError(NoNestedList, values[1..][k].span)))
            && (!CompileExpr(st, builtins, values[1..][k]).Ok? ==> SameFailure(CompileExpr(st, builtins, values[1..][k]), rest));
          assert values[1..][k] == values[k + 1];
        }
      }
    }
  }

  /** The remaining piecewise clauses succeed exactly when each clause does,
      and then give the clauses' conditions in order. */
  lemma {:induction false} BranchesSucceedInOrder(st: ContextState, builtins: BuiltinTable, branches: seq<A.Branch>)
    ensures var r := BranchesToConds(st, builtins, branches);
      && (r.Ok? <==> forall i :: 0 <= i < |branches| ==> BranchToCond(st, builtins, branches[i]).Ok?)
      && (r.Ok? ==> forall i :: 0 <= i < |branches| ==>
            r.value[i] == BranchToCond(st, builtins, branches[i]).value && r.value[i].op == branches[i].cond)
  {
    if branches != [] {
      BranchesSucceedInOrder(st, builtins, branches[1..]);
      var r := BranchesToConds(st, builtins, branches);
      var first := BranchToCond(st, builtins, branches[0]);
      var rest := BranchesToConds(st, builtins, branches[1..]);
      assert forall i :: 1 <= i < |branches| ==> branches[1..][i - 1] == branches[i];
      if first.Ok? && rest.Ok? {
        assert r.value == [first.value] + rest.value;
      }
    }
  }

  /** A failing clause list fails with the failure of its first failing clause. */
  lemma {:induction false} BranchesFailAtFirst(st: ContextState, builtins: BuiltinTable, branches: seq<A.Branch>)
    ensures var r := BranchesToConds(st, builtins, branches);
      !r.Ok? ==> exists i :: (0 <= i < |branches|
        && (forall j :: 0 <= j < i ==> BranchToCond(st, builtins, branches[j]).Ok?)
        && SameFailure(BranchToCond(st, builtins, branches[i]), r))
  {
    if branches != [] {
      BranchesFailAtFirst(st, builtins, branches[1..]);
      var r := BranchesToConds(st, builtins, branches);
      var first := BranchToCond(st, builtins, branches[0]);
      var rest := BranchesToConds(st, builtins, branches[1..]);
      if !first.Ok? {
        assert SameFailure(BranchToCond(st, builtins, branches[0]), r);
      } else if !rest.Ok? {
        var k :| 0 <= k < |branches[1..]|
          && (forall j :: 0 <= j < k ==> BranchToCond(st, builtins, branches[1..][j]).Ok?)
          && SameFailure(BranchToCond(st, builtins, branches[1..][k]), rest);
        assert forall j :: 1 <= j < k + 1 ==> branches[1..][j - 1] == branches[j];
        assert branches[1..][k] == branches[k + 1];
        assert SameFailure(BranchToCond(st, builtins, branches[k + 1]), r);
      }
    }
  }

  /** The remaining piecewise clauses are compiled in order, each keeping its comparator. */
  lemma {:induction false} BranchesKeepOrder(st: ContextState, builtins: BuiltinTable, branches: seq<A.Branch>)
    ensures var r := BranchesToConds(st, builtins, branches);
      && (r.Ok? <==> forall i :: 0 <= i < |branches| ==> BranchToCond(st, builtins, branches[i]).Ok?)
      && (r.Ok? ==> |r.value| == |branches| && forall i :: 0 <= i < |branches| ==>
            r.value[i] == BranchToCond(st, builtins, branches[i]).value && r.value[i].op == branches[i].cond)
      && (!r.Ok? ==> exists i :: (0 <= i < |branches|
            && (forall j :: 0 <= j < i ==> BranchToCond(st, builtins, branches[j]).Ok?)
            && SameFailure(BranchToCond(st, builtins, branches[i]), r)))
  {
    BranchesSucceedInOrder(st, builtins, branches);
    BranchesFailAtFirst(st, builtins, branches);
  }

  // ----- Expression forms -----

  /** The four arithmetic operators map to four distinct output operators. */
  lemma BinopToLatexInjective(a: A.BinaryOperator, b: A.BinaryOperator)
    requires a != A.Mod && b != A.Mod
    ensures BinopToLatex(a) == BinopToLatex(b) <==> a == b
  {
  }

  /** A numeric literal compiles to the same text, typed Number. */
  lemma NumCompiles(st: ContextState, builtins: BuiltinTable, span: A.Span, text: string)
    ensures CompileExpr(st, builtins, A.Located(span, A.Num(text))) == Ok((L.Num(text), Number))
  {
  }

  /** A variable takes the type it resolves to (globals before locals); an
      unresolved name fails `UndefinedVariable` at the variable's span. */
  lemma VariableCompiles(st: ContextState, builtins: BuiltinTable, span: A.Span, name: string)
    ensures var r := CompileExpr(st, builtins, A.Located(span, A.Variable(name)));
      && (name in st.variables ==> r == Ok((L.Variable(name), st.variables[name])))
      && (name !in st.variables && name in st.locals ==> r == Ok((L.Variable(name), st.locals[name])))
      && (name !in st.variables && name !in st.locals ==> r == Err(CompileError(UndefinedVariable(name), span)))
  {
  }

  /** A binary expression needs two Number operands and is a Number. An
      operand of the wrong type fails at the span of the whole expression.
      `%` becomes a call to the builtin `mod`, whatever the builtin table says. */
  lemma BinaryCompiles(st: ContextState, builtins: BuiltinTable, span: A.Span, left: A.Located, op: A.BinaryOperator, right: A.Located)
    ensures var r := CompileExpr(st, builtins, A.Located(span, A.BinaryExpr(left, op, right)));
      var cl := CompileExpr(st, builtins, left);
      var cr := CompileExpr(st, builtins, right);
      && (r.Ok? <==> CompilesToNumber(st, builtins, left) && CompilesToNumber(st, builtins, right))
      && (r.Ok? && op == A.Mod ==> r.value == (L.Call("mod", true, [cl.value.0, cr.value.0]), Number))
      && (r.Ok? && op != A.Mod ==> r.value == (L.BinaryExpression(cl.value.0, BinopToLatex(op), cr.value.0), Number))
      && (cl.Ok? && cl.value.1 == List ==> r == Err(CompileError(TypeMismatch(List, Number), span)))
      && (CompilesToNumber(st, builtins, left) && cr.Ok? && cr.value.1 == List ==>
            r == Err(CompileError(TypeMismatch(List, Number), span)))
  {
  }

  /** A factorial needs a Number operand, reports a wrong one at the
      factorial's span, and is a Number. */
  lemma UnaryCompiles(st: ContextState, builtins: BuiltinTable, span: A.Span, operand: A.Located, op: A.UnaryOperator)
    ensures var r := CompileExpr(st, builtins, A.Located(span, A.UnaryExpr(operand, op)));
      var c := CompileExpr(st, builtins, operand);
      && (r.Ok? <==> CompilesToNumber(st, builtins, operand))
      && (r.Ok? ==> r.value == (L.UnaryExpression(c.value.0, L.Factorial), Number))
      && (c.Ok? && c.value.1 == List ==> r == Err(CompileError(TypeMismatch(List, Number), span)))
  {
  }

  /** A normal call compiles every argument first, then resolves and checks
      the call at the call's span; the reserved `map` call form is a fault. */
  lemma CallCompiles(st: ContextState, builtins: BuiltinTable, span: A.Span, modifier: A.CallModifier, func: string, args: seq<A.Located>)
    ensures var r := CompileExpr(st, builtins, A.Located(span, A.Call(modifier, func, args)));
      var ca := CompileArgs(st, builtins, args);
      && (modifier == A.MapCall ==> r == Fault)
      && (modifier == A.NormalCall && !ca.Ok? ==> SameFailure(ca, r))
      && (modifier == A.NormalCall && ca.Ok? ==> r == CallOutcome(st, builtins, span, func, ca.value))
  {
  }

  /** A list is typed List and keeps the length and order of its elements. */
  lemma ListCompiles(st: ContextState, builtins: BuiltinTable, span: A.Span, values: seq<A.Located>)
    ensures var r := CompileExpr(st, builtins, A.Located(span, A.List(values)));
      && (r.Ok? <==> forall i :: 0 <= i < |values| ==> CompilesToNumber(st, builtins, values[i]))
      && (r.Ok? ==> (&& r.value.1 == List && r.value.0.List? && |r.value.0.items| == |values|
                     && forall i :: 0 <= i < |values| ==> r.value.0.items[i] == CompileExpr(st, builtins, values[i]).value.0))
  {
    ListItemsInOrder(st, builtins, values);
  }

  /** A piecewise expression is typed Number, keeps the order and the
      comparators of its clauses, and checks only the default and the left
      operands against Number. */
  lemma PiecewiseCompiles(st: ContextState, builtins: BuiltinTable, span: A.Span, first: A.Branch, rest: seq<A.Branch>, default: A.Located)
    ensures var r := CompileExpr(st, builtins, A.Located(span, A.Piecewise(first, rest, default)));
      && (r.Ok? <==> && BranchToCond(st, builtins, first).Ok?
                     && (forall i :: 0 <= i < |rest| ==> BranchToCond(st, builtins, rest[i]).Ok?)
                     && CompilesToNumber(st, builtins, default))
      && (r.Ok? ==> && r.value.1 == Number
                    && r.value.0.Piecewise?
                    && r.value.0.first.op == first.cond
                    && |r.value.0.rest| == |rest|
                    && (forall i :: 0 <= i < |rest| ==> r.value.0.rest[i].op == rest[i].cond)
                    && r.value.0.default == CompileExpr(st, builtins, default).value.0)
  {
    BranchesKeepOrder(st, builtins, rest);
  }

  /** The reserved `map` expression form is a fault. */
  lemma MapExpressionFaults(st: ContextState, builtins: BuiltinTable, span: A.Span, inner: A.Located)
    ensures CompileExpr(st, builtins, A.Located(span, A.MapExpression(inner))) == Fault
  {
  }

  /** A clause's right operand and result may have any type; only its left operand must be a Number. */
  lemma BranchChecksOnlyLeft(st: ContextState, builtins: BuiltinTable, b: A.Branch)
    requires CompilesToNumber(st, builtins, b.condLeft)
    requires CompileExpr(st, builtins, b.condRight).Ok? && CompileExpr(st, builtins, b.val).Ok?
    ensures BranchToCond(st, builtins, b).Ok?
    ensures BranchToCond(st, builtins, b).value.op == b.cond
  {
  }

  /** Only a list expression compiles to a list node, and it is typed List. */
  lemma ListNodeOnlyFromList(st: ContextState, builtins: BuiltinTable, e: A.Located)
    requires CompileExpr(st, builtins, e).Ok?
    ensures CompileExpr(st, builtins, e).value.0.List? <==> e.expr.List?
    ensures e.expr.List? ==> CompileExpr(st, builtins, e).value.1 == List
  {
    match e.expr {
      case Call(modifier, func, args) =>
        var ca := CompileArgs(st, builtins, args);
        assert modifier == A.NormalCall && ca.Ok?;
        assert CompileExpr(st, builtins, e) == CallOutcome(st, builtins, e.span, func, ca.value);
      case _ =>
    }
  }

  /** Lists are flat: a compiled list node is typed List and none of its
      elements is itself a list node. */
  lemma CompiledListsAreFlat(st: ContextState, builtins: BuiltinTable, e: A.Located)
    requires CompileExpr(st, builtins, e).Ok? && CompileExpr(st, builtins, e).value.0.List?
    ensures CompileExpr(st, builtins, e).value.1 == List
    ensures forall i :: 0 <= i < |CompileExpr(st, builtins, e).value.0.items| ==>
              !CompileExpr(st, builtins, e).value.0.items[i].List?
  {
    var r := CompileExpr(st, builtins, e);
    ListNodeOnlyFromList(st, builtins, e);
    var values := e.expr.values;
    ListItemsInOrder(st, builtins, values);
    forall i | 0 <= i < |r.value.0.items| ensures !r.value.0.items[i].List? {
      ListNodeOnlyFromList(st, builtins, values[i]);
    }
  }

  // ----- Calls and the map macro -----

  /** A single argument that compiles becomes a single compiled argument. */
  lemma SingleArgCompiles(st: ContextState, builtins: BuiltinTable, arg: A.Located)
    requires CompileExpr(st, builtins, arg).Ok?
    ensures CompileArgs(st, builtins, [arg])
         == Ok([CompiledArg(arg.span, CompileExpr(st, builtins, arg).value.0, CompileExpr(st, builtins, arg).value.1)])
  {
    CompileArgsInOrder(st, builtins, [arg]);
    var r := CompileArgs(st, builtins, [arg]);
    assert r.value == [r.value[0]];
  }

  /** Inside `map` a List argument is accepted where a Number is declared, and
      the call keeps the callee's return type. */
  lemma MapAcceptsListForNumber(
    st: ContextState, builtins: BuiltinTable, span: A.Span, fspan: A.Span,
    f: string, ret: ValType, isBuiltin: bool, arg: A.Located)
    requires ResolveFunction(st, builtins, f) == Some((FunctionSignature([Number], ret), isBuiltin))
    requires CompileExpr(st, builtins, arg).Ok? && CompileExpr(st, builtins, arg).value.1 == List
    ensures MapMacroOutcome(st, builtins, span, [A.Located(fspan, A.Variable(f)), arg])
         == Ok((L.Call(f, isBuiltin, [CompileExpr(st, builtins, arg).value.0]), ret))
  {
    var c := CompileExpr(st, builtins, arg);
    SingleArgCompiles(st, builtins, arg);
    var args := [A.Located(fspan, A.Variable(f)), arg];
    assert args[1..] == [arg];
    var compiled := [CompiledArg(arg.span, c.value.0, List)];
    assert ArgNodes(compiled) == [c.value.0];
    var mapped := st.(insideMapMacro := true);
    assert ResolveFunction(mapped, builtins, f) == ResolveFunction(st, builtins, f);
    var out := CallOutcome(mapped, builtins, span, f, compiled);
    assert ArgTypeAccepted(true, List, Number);
    assert out.Ok?;
  }

  /** Outside `map` the same call fails `TypeMismatch` at the argument's span. */
  lemma DirectCallRejectsListForNumber(
    st: ContextState, builtins: BuiltinTable, span: A.Span,
    f: string, ret: ValType, isBuiltin: bool, arg: A.Located)
    requires ResolveFunction(st, builtins, f) == Some((FunctionSignature([Number], ret), isBuiltin))
    requires !st.insideMapMacro
    requires CompileExpr(st, builtins, arg).Ok? && CompileExpr(st, builtins, arg).value.1 == List
    ensures CompileExpr(st, builtins, A.Located(span, A.Call(A.NormalCall, f, [arg])))
         == Err(CompileError(TypeMismatch(List, Number), arg.span))
  {
    var c := CompileExpr(st, builtins, arg);
    SingleArgCompiles(st, builtins, arg);
    var compiled := [CompiledArg(arg.span, c.value.0, List)];
    var out := CallOutcome(st, builtins, span, f, compiled);
    assert FirstRejected(false, [Number], compiled, 0);
    assert !out.Ok?;
  }

  /** The builtin `sin: [Number] -> Number` of the tests, not shadowed by a user definition. */
  predicate SinIsBuiltin(st: ContextState, builtins: BuiltinTable) {
    && "sin" !in st.definedFunctions
    && "sin" in builtins
    && builtins["sin"] == FunctionSignature([Number], Number)
  }

  /** `sin(1)` is a builtin call typed Number. */
  lemma SinOfNumber(st: ContextState, builtins: BuiltinTable, span: A.Span, s1: A.Span)
    requires SinIsBuiltin(st, builtins)
    ensures CompileExpr(st, builtins, A.Located(span, A.Call(A.NormalCall, "sin", [A.Located(s1, A.Num("1"))])))
         == Ok((L.Call("sin", true, [L.Num("1")]), Number))
  {
    var one := A.Located(s1, A.Num("1"));
    SingleArgCompiles(st, builtins, one);
    var compiled := [CompiledArg(s1, L.Num("1"), Number)];
    assert ArgNodes(compiled) == [L.Num("1")];
  }

  /** `sin()` and `sin(1, 2)` fail the arity check at the call's span. */
  lemma SinWrongArity(st: ContextState, builtins: BuiltinTable, span: A.Span, s1: A.Span, s2: A.Span)
    requires SinIsBuiltin(st, builtins)
    ensures CompileExpr(st, builtins, A.Located(span, A.Call(A.NormalCall, "sin", [])))
         == Err(CompileError(WrongArgCount(0, 1), span))
    ensures CompileExpr(st, builtins, A.Located(span, A.Call(A.NormalCall, "sin", [A.Located(s1, A.Num("1")), A.Located(s2, A.Num("2"))])))
         == Err(CompileError(WrongArgCount(2, 1), span))
  {
    assert CompileArgs(st, builtins, []) == Ok([]);
    CompileArgsInOrder(st, builtins, [A.Located(s1, A.Num("1")), A.Located(s2, A.Num("2"))]);
  }

  /** `sin([1])` outside `map` fails `TypeMismatch(List, Number)` at the argument. */
  lemma SinOfList(st: ContextState, builtins: BuiltinTable, span: A.Span, s1: A.Span, s2: A.Span)
    requires SinIsBuiltin(st, builtins) && !st.insideMapMacro
    ensures CompileExpr(st, builtins, A.Located(span, A.Call(A.NormalCall, "sin", [A.Located(s1, A.List([A.Located(s2, A.Num("1"))]))])))
         == Err(CompileError(TypeMismatch(List, Number), s1))
  {
    var items := [A.Located(s2, A.Num("1"))];
    ListItemsInOrder(st, builtins, items);
    DirectCallRejectsListForNumber(st, builtins, span, "sin", Number, true, A.Located(s1, A.List(items)));
  }

  /** A call of a name that neither table holds fails `UnknownFunction` at the call's span. */
  lemma UnknownFunctionExample(st: ContextState, builtins: BuiltinTable, span: A.Span)
    requires "abc" !in st.definedFunctions && "abc" !in builtins
    ensures CompileExpr(st, builtins, A.Located(span, A.Call(A.NormalCall, "abc", [])))
         == Err(CompileError(UnknownFunction("abc"), span))
  {
    assert CompileArgs(st, builtins, []) == Ok([]);
  }

  /** `1 % 2` becomes the builtin call `mod(1, 2)`. */
  lemma ModExample(st: ContextState, builtins: BuiltinTable, span: A.Span, s1: A.Span, s2: A.Span)
    ensures CompileExpr(st, builtins, A.Located(span, A.BinaryExpr(A.Located(s1, A.Num("1")), A.Mod, A.Located(s2, A.Num("2")))))
         == Ok((L.Call("mod", true, [L.Num("1"), L.Num("2")]), Number))
  {
  }

  // ----- Statements -----

  /** The state in which a definition's body is compiled. */
  function BodyState(st: ContextState, def: A.FunctionDefinition): (inner: ContextState) {
    st.(locals := InsertParams(st.locals, def.args))
  }

  /** A bare expression statement yields its node, drops its type and leaves the context alone. */
  lemma ExpressionStatementCompiles(st: ContextState, builtins: BuiltinTable, span: A.Span, e: A.Expression)
    ensures var (r, st') := StmtOutcome(st, builtins, A.LocatedStatement(span, A.ExpressionStatement(e)));
      var c := CompileExpr(st, builtins, A.Located(span, e));
      && st' == st
      && (c.Ok? ==> r == Ok(c.value.0))
      && (!c.Ok? ==> SameFailure(c, r))
  {
  }

  /** A definition that compiles restores the locals, leaves globals and the
      macro flag alone, and registers the parameter types with the body's
      inferred type under the function's name. */
  lemma FuncDefSucceeds(st: ContextState, builtins: BuiltinTable, span: A.Span, def: A.FunctionDefinition, body: A.Located)
    requires StmtOutcome(st, builtins, A.LocatedStatement(span, A.FuncDef(def, body))).0.Ok?
    ensures var (r, st') := StmtOutcome(st, builtins, A.LocatedStatement(span, A.FuncDef(def, body)));
      var c := CompileExpr(BodyState(st, def), builtins, body);
      && c.Ok?
      && (def.retAnnotation.Some? ==> def.retAnnotation.value == c.value.1)
      && st'.locals == st.locals
      && st'.variables == st.variables
      && st'.insideMapMacro == st.insideMapMacro
      && st'.definedFunctions == st.definedFunctions[def.name := FunctionSignature(ParamTypes(def.args), c.value.1)]
      && r.value == L.FuncDef(def.name, ParamNames(def.args), c.value.0)
  {
  }

  /** A definition that fails leaves its parameters in the locals and registers nothing. */
  lemma FuncDefFailureKeepsParams(st: ContextState, builtins: BuiltinTable, span: A.Span, def: A.FunctionDefinition, body: A.Located)
    requires !StmtOutcome(st, builtins, A.LocatedStatement(span, A.FuncDef(def, body))).0.Ok?
    ensures var st' := StmtOutcome(st, builtins, A.LocatedStatement(span, A.FuncDef(def, body))).1;
      && st'.locals == InsertParams(st.locals, def.args)
      && st'.definedFunctions == st.definedFunctions
      && st'.variables == st.variables
  {
  }

  /** A return annotation that differs from the body's type fails at the body's span. */
  lemma AnnotationMismatchFails(st: ContextState, builtins: BuiltinTable, span: A.Span, def: A.FunctionDefinition, body: A.Located)
    requires CompileExpr(BodyState(st, def), builtins, body).Ok?
    requires def.retAnnotation.Some?
    requires def.retAnnotation.value != CompileExpr(BodyState(st, def), builtins, body).value.1
    ensures StmtOutcome(st, builtins, A.LocatedStatement(span, A.FuncDef(def, body))).0
         == Err(CompileError(TypeMismatch(CompileExpr(BodyState(st, def), builtins, body).value.1, def.retAnnotation.value), body.span))
  {
  }

  /** In the body a parameter has the type of its last declaration, unless a
      global of the same name shadows it; a global always wins. */
  lemma ParamsVisibleInBody(st: ContextState, def: A.FunctionDefinition, i: int)
    requires 0 <= i < |def.args| && LastBinding(def.args, i)
    ensures def.args[i].0 !in st.variables ==> ResolveVariable(BodyState(st, def), def.args[i].0) == Some(def.args[i].1)
    ensures def.args[i].0 in st.variables ==>
      ResolveVariable(BodyState(st, def), def.args[i].0) == Some(st.variables[def.args[i].0])
  {
    InsertParamsLastWins(st.locals, def.args, i);
  }

  /** After a definition compiles, a name that is neither a global nor an
      outer local is undefined in the next statement, even if it was a parameter. */
  lemma ParamsDoNotLeak(st: ContextState, builtins: BuiltinTable, span: A.Span, def: A.FunctionDefinition, body: A.Located,
                        useSpan: A.Span, name: string)
    requires StmtOutcome(st, builtins, A.LocatedStatement(span, A.FuncDef(def, body))).0.Ok?
    requires name !in st.variables && name !in st.locals
    ensures var st' := StmtOutcome(st, builtins, A.LocatedStatement(span, A.FuncDef(def, body))).1;
      StmtOutcome(st', builtins, A.LocatedStatement(useSpan, A.ExpressionStatement(A.Variable(name)))).0
        == Err(CompileError(UndefinedVariable(name), useSpan))
  {
    FuncDefSucceeds(st, builtins, span, def, body);
  }

  /** A later statement resolves the defined name to the registered user signature. */
  lemma DefinitionVisibleLater(st: ContextState, builtins: BuiltinTable, span: A.Span, def: A.FunctionDefinition, body: A.Located)
    requires StmtOutcome(st, builtins, A.LocatedStatement(span, A.FuncDef(def, body))).0.Ok?
    ensures var st' := StmtOutcome(st, builtins, A.LocatedStatement(span, A.FuncDef(def, body))).1;
      ResolveFunction(st', builtins, def.name)
        == Some((FunctionSignature(ParamTypes(def.args), CompileExpr(BodyState(st, def), builtins, body).value.1), false))
  {
    FuncDefSucceeds(st, builtins, span, def, body);
  }

  /** A function that is neither defined already nor a builtin cannot see
      itself while its body compiles, wherever in the body the call stands.
      A body that is such a call fails, with `UnknownFunction` at the body's
      span once the arguments compile. */
  lemma NoSelfRecursion(st: ContextState, builtins: BuiltinTable, span: A.Span, def: A.FunctionDefinition,
                        bodySpan: A.Span, args: seq<A.Located>)
    requires def.name !in st.definedFunctions && def.name !in builtins
    ensures ResolveFunction(BodyState(st, def), builtins, def.name) == ResolveFunction(st, builtins, def.name) == None
    ensures var r := StmtOutcome(st, builtins, A.LocatedStatement(span, A.FuncDef(def, A.Located(bodySpan, A.Call(A.NormalCall, def.name, args))))).0;
      && !r.Ok?
      && (CompileArgs(BodyState(st, def), builtins, args).Ok? ==> r == Err(CompileError(UnknownFunction(def.name), bodySpan)))
  {
  }

  /** The definition `f(a: Number) = a` registers `f` with signature
      (Number) -> Number; afterwards the parameter `a` is undefined and the
      call `f(1)` compiles to a user call of `f`. */
  lemma FuncDefExamples(builtins: BuiltinTable, span: A.Span, s1: A.Span, s2: A.Span)
    requires "f" !in builtins
    ensures var empty := ContextState(map[], map[], map[], false);
      var def := A.FunctionDefinition("f", [("a", Number)], None);
      var (r, st') := StmtOutcome(empty, builtins, A.LocatedStatement(span, A.FuncDef(def, A.Located(s1, A.Variable("a")))));
      && r == Ok(L.FuncDef("f", ["a"], L.Variable("a")))
      && st'.definedFunctions == map["f" := FunctionSignature([Number], Number)]
      && StmtOutcome(st', builtins, A.LocatedStatement(s2, A.ExpressionStatement(A.Variable("a")))).0
           == Err(CompileError(UndefinedVariable("a"), s2))
      && StmtOutcome(st', builtins, A.LocatedStatement(s2, A.ExpressionStatement(
           A.Call(A.NormalCall, "f", [A.Located(s1, A.Num("1"))])))).0
           == Ok(L.Call("f", false, [L.Num("1")]))
  {
    var empty := ContextState(map[], map[], map[], false);
    var def := A.FunctionDefinition("f", [("a", Number)], None);
    var body := A.Located(s1, A.Variable("a"));
    assert InsertParams(map[], def.args) == map["a" := Number];
    assert ParamNames(def.args) == ["a"];
    assert ParamTypes(def.args) == [Number];
    ParamsDoNotLeak(empty, builtins, span, def, body, s2, "a");
    var st' := StmtOutcome(empty, builtins, A.LocatedStatement(span, A.FuncDef(def, body))).1;
    var one := A.Located(s1, A.Num("1"));
    SingleArgCompiles(st', builtins, one);
    assert ArgNodes([CompiledArg(s1, L.Num("1"), Number)]) == [L.Num("1")];
  }
}
