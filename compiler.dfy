/** The type-checking compiler from the positioned input tree to the output tree.

    The operations that only read the context are functions over its value,
    `ContextState`; the operations that update the context in place are methods
    of the class `Context`, proved against those functions. */
module Compiler {
  import opened Runtime
  import opened Wrappers
  import opened Errors
  import A = CoreAst
  import L = CoreLatex

  /** Ordered parameter types and the return type of a function. */
  datatype FunctionSignature = FunctionSignature(args: seq<ValType>, ret: ValType)

  /** The static table of builtin function signatures (it is not part of this model). */
  type BuiltinTable = map<string, FunctionSignature>

  /** A compiled call argument: its span, its output node and its type. */
  datatype CompiledArg = CompiledArg(span: A.Span, latex: L.Latex, ty: ValType)

  /** The value of a `Context` at one moment. */
  datatype ContextState = ContextState(
    variables: map<string, ValType>,
    locals: map<string, ValType>,
    definedFunctions: map<string, FunctionSignature>,
    insideMapMacro: bool)

  /** Every entry of `m`, tagged with `builtin`. */
  function Tagged(m: map<string, FunctionSignature>, builtin: bool): (r: map<string, (FunctionSignature, bool)>)
  {
    map k | k in m :: (m[k], builtin)
  }

  /** Looks a function up among the user definitions first, then among the
      builtins; the flag says whether the builtin table supplied it. */
  function ResolveFunction(st: ContextState, builtins: BuiltinTable, name: string): (r: Option<(FunctionSignature, bool)>)
    // the user definitions override the builtins in one layered table
    ensures r == Get(Tagged(builtins, true) + Tagged(st.definedFunctions, false), name)
  {
    match Get(st.definedFunctions, name)
    case None =>
      (match Get(builtins, name)
       case None => None
       case Some(f) => Some((FunctionSignature(f.args, f.ret), true)))
    case Some(f) => Some((f, false))
  }

  /** Looks a variable up among the globals first, then among the locals. */
  function ResolveVariable(st: ContextState, name: string): (r: Option<ValType>)
    // the globals override the locals in one layered table
    ensures r == Get(st.locals + st.variables, name)
  {
    match Get(st.variables, name)
    case Some(t) => Some(t)
    case None => Get(st.locals, name)
  }

  /** Whether an argument of type `got` may be passed where `expected` is
      declared: only equal types, except a List for a Number inside `map`. */
  predicate ArgTypeAccepted(insideMapMacro: bool, got: ValType, expected: ValType) {
    var typeErrorsOk := insideMapMacro && got == List && expected == Number;
    typeErrorsOk || got == expected
  }

  /** Argument `i` is the first one whose type is not accepted. */
  predicate FirstRejected(insideMapMacro: bool, params: seq<ValType>, args: seq<CompiledArg>, i: int)
    requires |params| == |args|
  {
    && 0 <= i < |args|
    && !ArgTypeAccepted(insideMapMacro, args[i].ty, params[i])
    && forall j :: 0 <= j < i ==> ArgTypeAccepted(insideMapMacro, args[j].ty, params[j])
  }

  /** The output nodes of `args`, in order. */
  function ArgNodes(args: seq<CompiledArg>): (r: seq<L.Latex>)
  {
    seq(|args|, i requires 0 <= i < |args| => args[i].latex)
  }

  /** Checks each argument against the parameter in the same position. */
  function CheckArgs(insideMapMacro: bool, params: seq<ValType>, args: seq<CompiledArg>): (r: Outcome<seq<L.Latex>>)
    requires |params| == |args|
    ensures !r.Fault?
    ensures r.Ok? <==> forall i :: 0 <= i < |args| ==> ArgTypeAccepted(insideMapMacro, args[i].ty, params[i])
    ensures r.Ok? ==> r.value == ArgNodes(args)
    ensures r.Err? ==> exists i :: FirstRejected(insideMapMacro, params, args, i)
                               && r.error == CompileError(TypeMismatch(args[i].ty, params[i]), args[i].span)
  {
    if args == [] then Ok([])
    else if !ArgTypeAccepted(insideMapMacro, args[0].ty, params[0]) then
      assert FirstRejected(insideMapMacro, params, args, 0);
      Err(CompileError(TypeMismatch(args[0].ty, params[0]), args[0].span))
    else
      var rest :- CheckArgs(insideMapMacro, params[1..], args[1..]);
      assert forall i :: 1 <= i < |args| ==> args[i] == args[1..][i - 1] && params[i] == params[1..][i - 1];
      Ok([args[0].latex] + rest)
  }

  /** The first rejected argument is unique. */
  lemma FirstRejectedUnique(insideMapMacro: bool, params: seq<ValType>, args: seq<CompiledArg>, i: int, j: int)
    requires |params| == |args|
    requires FirstRejected(insideMapMacro, params, args, i)
    requires FirstRejected(insideMapMacro, params, args, j)
    ensures i == j
  {
  }

  /** The outcome of `compile_call`: resolve, check the arity, then the
      argument types; the result type is the signature's return type. */
  function CallOutcome(st: ContextState, builtins: BuiltinTable, span: A.Span, fname: string, args: seq<CompiledArg>)
    : (r: Outcome<(L.Latex, ValType)>)
    ensures !r.Fault?
    ensures ResolveFunction(st, builtins, fname).None? ==> r == Err(CompileError(UnknownFunction(fname), span))
    ensures ResolveFunction(st, builtins, fname).Some? ==>
      var (sig, isBuiltin) := ResolveFunction(st, builtins, fname).value;
      && (|args| != |sig.args| ==> r == Err(CompileError(WrongArgCount(|args|, |sig.args|), span)))
      && (r.Ok? <==> |args| == |sig.args| && forall i :: 0 <= i < |args| ==> ArgTypeAccepted(st.insideMapMacro, args[i].ty, sig.args[i]))
      && (r.Ok? ==> r.value == (L.Call(fname, isBuiltin, ArgNodes(args)), sig.ret))
      && (|args| == |sig.args| && r.Err? ==>
            exists i :: (FirstRejected(st.insideMapMacro, sig.args, args, i)
                         && r.error == CompileError(TypeMismatch(args[i].ty, sig.args[i]), args[i].span)))
  {
    match ResolveFunction(st, builtins, fname)
    case None => Err(CompileError(UnknownFunction(fname), span))
    case Some((sig, isBuiltin)) =>
      if |args| != |sig.args| then
        Err(CompileError(WrongArgCount(|args|, |sig.args|), span))
      else
        var argsLatex :- CheckArgs(st.insideMapMacro, sig.args, args);
        Ok((L.Call(fname, isBuiltin, argsLatex), sig.ret))
  }

  function CheckType(span: A.Span, got: ValType, expected: ValType): (r: Outcome<()>)
    ensures r.Ok? <==> got == expected
    ensures !r.Ok? ==> r == Err(CompileError(TypeMismatch(got, expected), span))
  {
    if got != expected then Err(CompileError(TypeMismatch(got, expected), span)) else Ok(())
  }

  /** `compile_expr` followed by `check_type`; a type error points at `span`,
      not necessarily at the expression's own span. */
  function CompileExpect(st: ContextState, builtins: BuiltinTable, span: A.Span, e: A.Located, expected: ValType)
    : (r: Outcome<L.Latex>)
    ensures var c := CompileExpr(st, builtins, e);
      && (!c.Ok? ==> SameFailure(c, r))
      && (c.Ok? && c.value.1 != expected ==> r == Err(CompileError(TypeMismatch(c.value.1, expected), span)))
      && (c.Ok? && c.value.1 == expected ==> r == Ok(c.value.0))
    decreases e, 2
  {
    var (s, t) :- CompileExpr(st, builtins, e);
    var _ :- CheckType(span, t, expected);
    Ok(s)
  }

  function BinopToLatex(op: A.BinaryOperator): (r: L.BinaryOperator)
    requires op != A.Mod
  {
    match op
    case Add => L.Add
    case Subtract => L.Subtract
    case Multiply => L.Multiply
    case Divide => L.Divide
  }

  function UnopToLatex(op: A.UnaryOperator): (r: L.UnaryOperator)
  {
    match op
    case Factorial => L.Factorial
  }

  /** Compiles one piecewise clause: only the left operand must be a Number. */
  function BranchToCond(st: ContextState, builtins: BuiltinTable, branch: A.Branch): (r: Outcome<L.Cond>)
    ensures r.Ok? <==>
      && CompileExpect(st, builtins, branch.condLeft.span, branch.condLeft, Number).Ok?
      && CompileExpr(st, builtins, branch.condRight).Ok?
      && CompileExpr(st, builtins, branch.val).Ok?
    ensures r.Ok? ==> r.value == L.Cond(
      CompileExpect(st, builtins, branch.condLeft.span, branch.condLeft, Number).value,
      branch.cond,
      CompileExpr(st, builtins, branch.condRight).value.0,
      CompileExpr(st, builtins, branch.val).value.0)
    decreases branch, 0
  {
    var leftCondSpan := branch.condLeft.span;
    var left :- CompileExpect(st, builtins, leftCondSpan, branch.condLeft, Number);
    var right :- CompileExpr(st, builtins, branch.condRight);
    var result :- CompileExpr(st, builtins, branch.val);
    Ok(L.Cond(left, branch.cond, right.0, result.0))
  }

  /** Compiles call arguments left to right, stopping at the first failure. */
  function CompileArgs(st: ContextState, builtins: BuiltinTable, args: seq<A.Located>): (r: Outcome<seq<CompiledArg>>)
    ensures r.Ok? ==> |r.value| == |args|
    decreases args, 0
  {
    if args == [] then Ok([])
    else
      var (latex, t) :- CompileExpr(st, builtins, args[0]);
      var rest :- CompileArgs(st, builtins, args[1..]);
      Ok([CompiledArg(args[0].span, latex, t)] + rest)
  }

  /** Compiles list elements left to right; an element of type List fails at its own span. */
  function CompileListItems(st: ContextState, builtins: BuiltinTable, values: seq<A.Located>): (r: Outcome<seq<L.Latex>>)
    ensures r.Ok? ==> |r.value| == |values|
    decreases values, 0
  {
    if values == [] then Ok([])
    else
      var (latex, vtype) :- CompileExpr(st, builtins, values[0]);
      if vtype != Number then Err(CompileError(NoNestedList, values[0].span))
      else
        var rest :- CompileListItems(st, builtins, values[1..]);
        Ok([latex] + rest)
  }

  /** Compiles the remaining piecewise clauses in order. */
  function BranchesToConds(st: ContextState, builtins: BuiltinTable, branches: seq<A.Branch>): (r: Outcome<seq<L.Cond>>)
    ensures r.Ok? ==> |r.value| == |branches|
    decreases branches, 0
  {
    if branches == [] then Ok([])
    else
      var c :- BranchToCond(st, builtins, branches[0]);
      var rest :- BranchesToConds(st, builtins, branches[1..]);
      Ok([c] + rest)
  }

  /** Compiles an expression to its output node and inferred type. It never
      changes the context: the only operation that would, the `map` macro, is
      not reachable from here (the `map` forms are unimplemented faults). */
  function CompileExpr(st: ContextState, builtins: BuiltinTable, e: A.Located): (r: Outcome<(L.Latex, ValType)>)
    ensures r.Ok? && !e.expr.Variable? && !e.expr.Call? ==> (r.value.1 == List <==> e.expr.List?)
    decreases e, 1
  {
    var span := e.span;
    match e.expr
    case Num(val) => Ok((L.Num(val), Number))
    case Variable(val) =>
      (match ResolveVariable(st, val)
       case Some(varType) => Ok((L.Variable(val), varType))
       case None => Err(CompileError(UndefinedVariable(val), span)))
    case BinaryExpr(left, operator, right) =>
      var lv :- CompileExpect(st, builtins, span, left, Number);
      var rv :- CompileExpect(st, builtins, span, right, Number);
      Ok((if operator == A.Mod then L.Call("mod", true, [lv, rv])
          else L.BinaryExpression(lv, BinopToLatex(operator), rv),
          Number))
    case UnaryExpr(v, op) =>
      var operand :- CompileExpect(st, builtins, span, v, Number);
      Ok((L.UnaryExpression(operand, UnopToLatex(op)), Number))
    case Call(modifier, func, args) =>
      (match modifier
       case NormalCall =>
         var compiledArgs :- CompileArgs(st, builtins, args);
         CallOutcome(st, builtins, span, func, compiledArgs)
       case MapCall => Fault)
    case List(values) =>
      var items :- CompileListItems(st, builtins, values);
      Ok((L.List(items), List))
    case Piecewise(first, rest, default) =>
      var dspan := default.span;
      var f :- BranchToCond(st, builtins, first);
      var rs :- BranchesToConds(st, builtins, rest);
      var d :- CompileExpect(st, builtins, dspan, default, Number);
      Ok((L.Piecewise(f, rs, d), Number))
    case MapExpression(_) => Fault
  }

  /** The outcome of `handle_map_macro` on a context in state `st`: the
      callee is the first argument's bare name, the other arguments are
      compiled normally, and the call is checked with the relaxed typing. */
  function MapMacroOutcome(st: ContextState, builtins: BuiltinTable, span: A.Span, args: seq<A.Located>)
    : (r: Outcome<(L.Latex, ValType)>)
    ensures |args| < 2 ==> r == Err(CompileError(BadMapMacro, span))
    ensures |args| >= 2 && !args[0].expr.Variable? ==> r == Err(CompileError(ExpectedFunction, args[0].span))
    ensures |args| >= 2 && args[0].expr.Variable? && !CompileArgs(st, builtins, args[1..]).Ok? ==>
      SameFailure(CompileArgs(st, builtins, args[1..]), r)
    ensures |args| >= 2 && args[0].expr.Variable? && CompileArgs(st, builtins, args[1..]).Ok? ==>
      r == CallOutcome(st.(insideMapMacro := true), builtins, span, args[0].expr.name, CompileArgs(st, builtins, args[1..]).value)
  {
    if |args| < 2 then Err(CompileError(BadMapMacro, span))
    else
      match args[0].expr
      case Variable(fname) =>
        var callArgs :- CompileArgs(st, builtins, args[1..]);
        CallOutcome(st.(insideMapMacro := true), builtins, span, fname, callArgs)
      case _ => Err(CompileError(ExpectedFunction, args[0].span))
  }

  /** The parameter names of a definition, in order. */
  function ParamNames(params: seq<(string, ValType)>): (r: seq<string>)
  {
    seq(|params|, i requires 0 <= i < |params| => params[i].0)
  }

  /** The parameter types of a definition, in order. */
  function ParamTypes(params: seq<(string, ValType)>): (r: seq<ValType>)
  {
    seq(|params|, i requires 0 <= i < |params| => params[i].1)
  }

  /** No parameter after position `i` has the same name as parameter `i`. */
  predicate LastBinding(params: seq<(string, ValType)>, i: int)
    requires 0 <= i < |params|
  {
    forall j :: i < j < |params| ==> params[j].0 != params[i].0
  }

  /** `locals` after inserting every parameter in order. */
  function InsertParams(locals: map<string, ValType>, params: seq<(string, ValType)>): (r: map<string, ValType>)
    decreases |params|
  {
    if params == [] then locals
    else
      var n := |params| - 1;
      InsertParams(locals, params[..n])[params[n].0 := params[n].1]
  }

  /** After the insertions the locals hold exactly the old names and the parameter names. */
  lemma {:induction false} InsertParamsKeys(locals: map<string, ValType>, params: seq<(string, ValType)>)
    ensures forall k :: k in InsertParams(locals, params) <==> k in locals || k in ParamNames(params)
    decreases |params|
  {
    if params != [] {
      var n := |params| - 1;
      InsertParamsKeys(locals, params[..n]);
      assert ParamNames(params) == ParamNames(params[..n]) + [params[n].0];
    }
  }

  /** Each parameter name is bound to the type of its last occurrence. */
  lemma {:induction false} InsertParamsLastWins(locals: map<string, ValType>, params: seq<(string, ValType)>, i: int)
    requires 0 <= i < |params| && LastBinding(params, i)
    ensures params[i].0 in InsertParams(locals, params)
    ensures InsertParams(locals, params)[params[i].0] == params[i].1
    decreases |params|
  {
    var n := |params| - 1;
    if i < n {
      var prefix := params[..n];
      assert prefix[i] == params[i];
      assert LastBinding(prefix, i) by {
        forall j | i < j < n ensures prefix[j].0 != prefix[i].0 {
          assert prefix[j] == params[j];
        }
      }
      InsertParamsLastWins(locals, prefix, i);
    }
  }

  /** An old entry whose name is not a parameter keeps its type. */
  lemma {:induction false} InsertParamsKeepsOthers(locals: map<string, ValType>, params: seq<(string, ValType)>, k: string)
    requires k in locals && k !in ParamNames(params)
    ensures k in InsertParams(locals, params) && InsertParams(locals, params)[k] == locals[k]
    decreases |params|
  {
    if params != [] {
      var n := |params| - 1;
      assert ParamNames(params) == ParamNames(params[..n]) + [params[n].0];
      InsertParamsKeepsOthers(locals, params[..n], k);
    }
  }

  /** The outcome of `compile_stmt` and the context state it leaves behind. */
  function StmtOutcome(st: ContextState, builtins: BuiltinTable, s: A.LocatedStatement): (res: (Outcome<L.Latex>, ContextState))
    ensures res.1.variables == st.variables && res.1.insideMapMacro == st.insideMapMacro
    ensures !res.0.Ok? ==> res.1.definedFunctions == st.definedFunctions
    ensures res.0.Ok? && s.stmt.FuncDef? ==>
      res.1.locals == st.locals && res.1.definedFunctions.Keys == st.definedFunctions.Keys + {s.stmt.def.name}
    ensures s.stmt.ExpressionStatement? ==> res.1 == st
  {
    match s.stmt
    case ExpressionStatement(e) =>
      var c := CompileExpr(st, builtins, A.Located(s.span, e));
      (if c.Ok? then Ok(c.value.0) else c.PropagateFailure(), st)
    case FuncDef(def, body) =>
      var inner := st.(locals := InsertParams(st.locals, def.args));
      var c := CompileExpr(inner, builtins, body);
      if !c.Ok? then (c.PropagateFailure(), inner)
      else
        var (bodyLatex, ret) := c.value;
        var check := if def.retAnnotation.Some? then CheckType(body.span, ret, def.retAnnotation.value) else Ok(());
        if !check.Ok? then (check.PropagateFailure(), inner)
        else
          (Ok(L.FuncDef(def.name, ParamNames(def.args), bodyLatex)),
           st.(definedFunctions := st.definedFunctions[def.name := FunctionSignature(ParamTypes(def.args), ret)]))
  }

  /** The compile-time state, updated in place as statements are compiled. */
  class Context {
    var variables: map<string, ValType>
    var locals: map<string, ValType>
    var definedFunctions: map<string, FunctionSignature>
    var insideMapMacro: bool

    function State(): (st: ContextState)
      reads this
    {
      ContextState(variables, locals, definedFunctions, insideMapMacro)
    }

    /** An empty context. */
    constructor ()
      ensures State() == ContextState(map[], map[], map[], false)
    {
      variables, locals, definedFunctions, insideMapMacro := map[], map[], map[], false;
    }

    /** `compile_call`: walks the declared parameter types and the arguments
        side by side, failing at the first argument whose type is refused. */
    method CompileCall(builtins: BuiltinTable, span: A.Span, fname: string, args: seq<CompiledArg>)
      returns (r: Outcome<(L.Latex, ValType)>)
      ensures r == CallOutcome(State(), builtins, span, fname, args)
    {
      var resolved := ResolveFunction(State(), builtins, fname);
      if resolved.None? {
        return Err(CompileError(UnknownFunction(fname), span));
      }
      var (func, isBuiltin) := resolved.value;
      var got := |args|;
      var expected := |func.args|;
      if got != expected {
        return Err(CompileError(WrongArgCount(got, expected), span));
      }
      var argsLatex: seq<L.Latex> := [];
      var i := 0;
      while i < |func.args|
        invariant 0 <= i <= |func.args|
        invariant argsLatex == ArgNodes(args[..i])
        invariant forall j :: 0 <= j < i ==> ArgTypeAccepted(insideMapMacro, args[j].ty, func.args[j])
      {
        var expectType := func.args[i];
        var CompiledArg(aspan, argLatex, gotType) := args[i];
        var typeErrorsOk := insideMapMacro && gotType == List && expectType == Number;
        if !typeErrorsOk && gotType != expectType {
          assert FirstRejected(insideMapMacro, func.args, args, i);
          ghost var c := CheckArgs(insideMapMacro, func.args, args);
          ghost var k :| FirstRejected(insideMapMacro, func.args, args, k)
                      && c.error == CompileError(TypeMismatch(args[k].ty, func.args[k]), args[k].span);
          FirstRejectedUnique(insideMapMacro, func.args, args, i, k);
          return Err(CompileError(TypeMismatch(gotType, expectType), aspan));
        }
        assert args[..i + 1] == args[..i] + [args[i]];
        argsLatex := argsLatex + [argLatex];
        i := i + 1;
      }
      assert args[..i] == args;
      r := Ok((L.Call(fname, isBuiltin, argsLatex), func.ret));
    }

    /** `handle_map_macro`: sets the macro flag around the call and restores
        its previous value afterwards, whatever the call's outcome. */
    method HandleMapMacro(builtins: BuiltinTable, span: A.Span, args: seq<A.Located>)
      returns (r: Outcome<(L.Latex, ValType)>)
      modifies this
      ensures State() == old(State())
      ensures r == MapMacroOutcome(old(State()), builtins, span, args)
    {
      if |args| < 2 {
        return Err(CompileError(BadMapMacro, span));
      }
      var fspan := args[0].span;
      match args[0].expr {
        case Variable(fname) =>
          var callArgs := CompileArgs(State(), builtins, args[1..]);
          if !callArgs.Ok? {
            return callArgs.PropagateFailure();
          }
          var wasInsideMapMacro := insideMapMacro;
          insideMapMacro := true;
          r := CompileCall(builtins, span, fname, callArgs.value);
          insideMapMacro := wasInsideMapMacro;
        case _ =>
          r := Err(CompileError(ExpectedFunction, fspan));
      }
    }

    /** `handle_macro`: only `map` is a macro. */
    method HandleMacro(builtins: BuiltinTable, span: A.Span, name: string, args: seq<A.Located>)
      returns (r: Outcome<(L.Latex, ValType)>)
      modifies this
      ensures State() == old(State())
      ensures name == "map" ==> r == MapMacroOutcome(old(State()), builtins, span, args)
      ensures name != "map" ==> r == Err(CompileError(UndefinedMacro(name), span))
    {
      if name == "map" {
        r := HandleMapMacro(builtins, span, args);
      } else {
        r := Err(CompileError(UndefinedMacro(name), span));
      }
    }

    /** `compile_stmt`: a function definition extends the locals with its
        parameters, compiles the body, checks the return annotation, restores
        the locals and registers the signature. */
    method CompileStmt(builtins: BuiltinTable, s: A.LocatedStatement) returns (r: Outcome<L.Latex>)
      modifies this
      ensures (r, State()) == StmtOutcome(old(State()), builtins, s)
    {
      match s.stmt {
        case ExpressionStatement(e) =>
          var c := CompileExpr(State(), builtins, A.Located(s.span, e));
          if !c.Ok? {
            return c.PropagateFailure();
          }
          r := Ok(c.value.0);
        case FuncDef(fdef, e) =>
          var oldLocals := locals;
          var i := 0;
          while i < |fdef.args|
            invariant 0 <= i <= |fdef.args|
            invariant locals == InsertParams(oldLocals, fdef.args[..i])
            invariant variables == old(variables) && definedFunctions == old(definedFunctions)
            invariant insideMapMacro == old(insideMapMacro)
          {
            var (aname, atype) := fdef.args[i];
            assert fdef.args[..i + 1][..i] == fdef.args[..i];
            locals := locals[aname := atype];
            i := i + 1;
          }
          assert fdef.args[..i] == fdef.args;
          var span := e.span;
          var c := CompileExpr(State(), builtins, e);
          if !c.Ok? {
            return c.PropagateFailure();
          }
          var (body, ret) := c.value;
          if fdef.retAnnotation.Some? {
            var check := CheckType(span, ret, fdef.retAnnotation.value);
            if !check.Ok? {
              return check.PropagateFailure();
            }
          }
          locals := oldLocals;
          definedFunctions := definedFunctions[fdef.name := FunctionSignature(ParamTypes(fdef.args), ret)];
          r := Ok(L.FuncDef(fdef.name, ParamNames(fdef.args), body));
      }
    }
  }
}
