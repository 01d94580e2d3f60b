/** The older prototype compiler: expressions straight to LaTeX text. */
module Prototype {
  import opened Wrappers
  import L = CoreLatex

  /** The prototype's expressions; numbers and names are kept as text and
      operators are arbitrary strings. */
  datatype Expression =
    | Num(val: string)
    | Variable(val: string)
    | BinaryExpr(left: Expression, operator: string, right: Expression)
    | UnaryExpr(operand: Expression, operator: string)

  /** A one-character name stays as it is; a longer one subscripts the rest. */
  function CompileIdentifier(v: string): (r: string)
  {
    if |v| == 0 then ""
    else
      var c := v[0];
      var rest := v[1..];
      if |rest| == 0 then [c] else [c] + "_{" + rest + "}"
  }

  /** The two identifier formatters of the repository agree, so the
      prototype's names also read back with `ParseLatexIdentifier`. */
  lemma IdentifierFormattersAgree(v: string)
    ensures CompileIdentifier(v) == L.FormatLatexIdentifier(v)
    ensures L.ParseLatexIdentifier(CompileIdentifier(v)) == v
  {
    L.FormatLatexIdentifierRoundTrip(v);
  }

  function CompileExpr(e: Expression): (r: string)
  {
    match e
    case Num(v) => v
    case Variable(v) => CompileIdentifier(v)
    case BinaryExpr(l, op, r) => CompileExpr(l) + op + CompileExpr(r)
    case UnaryExpr(v, op) => CompileExpr(v) + op
  }

  // ----- Reference: the in-order token sequence -----

  /** The leaves' texts and the operators, in reading order: operators are
      infix or postfix and nothing else is written. */
  function Tokens(e: Expression): (ts: seq<string>)
  {
    match e
    case Num(v) => [v]
    case Variable(v) => [CompileIdentifier(v)]
    case BinaryExpr(l, op, r) => Tokens(l) + [op] + Tokens(r)
    case UnaryExpr(v, op) => Tokens(v) + [op]
  }

  function Concat(parts: seq<string>): (r: string)
  {
    if parts == [] then "" else parts[0] + Concat(parts[1..])
  }

  lemma {:induction false} ConcatAppend(a: seq<string>, b: seq<string>)
    ensures Concat(a + b) == Concat(a) + Concat(b)
    decreases |a|
  {
    if a != [] {
      assert (a + b)[1..] == a[1..] + b;
      ConcatAppend(a[1..], b);
    } else {
      assert a + b == b;
    }
  }

  /** The output is the concatenation of the tokens: no brackets, spaces or
      separators are added anywhere. */
  lemma {:induction false} CompileExprIsConcatenation(e: Expression)
    ensures CompileExpr(e) == Concat(Tokens(e))
  {
    match e
    case Num(_) =>
    case Variable(_) =>
    case BinaryExpr(l, op, r) =>
      CompileExprIsConcatenation(l);
      CompileExprIsConcatenation(r);
      ConcatAppend(Tokens(l) + [op], Tokens(r));
      ConcatAppend(Tokens(l), [op]);
    case UnaryExpr(v, op) =>
      CompileExprIsConcatenation(v);
      ConcatAppend(Tokens(v), [op]);
  }

  // ----- Agreement with the output tree's renderer -----

  /** The output tree for an expression whose operators the renderer knows
      (`+`, `-` and the postfix `!`). */
  function ToLatex(e: Expression): (r: Option<L.Latex>)
  {
    match e
    case Num(v) => Some(L.Num(v))
    case Variable(v) => Some(L.Variable(v))
    case BinaryExpr(l, op, r) =>
      if op != "+" && op != "-" then None
      else
        (match (ToLatex(l), ToLatex(r))
         case (Some(lt), Some(rt)) => Some(L.BinaryExpression(lt, if op == "+" then L.Add else L.Subtract, rt))
         case _ => None)
    case UnaryExpr(v, op) =>
      if op != "!" then None
      else
        (match ToLatex(v)
         case Some(vt) => Some(L.UnaryExpression(vt, L.Factorial))
         case None => None)
  }

  /** On those operators the prototype writes exactly what the later
      compiler's renderer writes for the same tree. */
  lemma {:induction false} PrototypeMatchesRenderer(e: Expression)
    requires ToLatex(e).Some?
    ensures CompileExpr(e) == L.LatexToStr(ToLatex(e).value)
  {
    match e
    case Num(_) =>
    case Variable(v) =>
      IdentifierFormattersAgree(v);
    case BinaryExpr(l, op, r) =>
      PrototypeMatchesRenderer(l);
      PrototypeMatchesRenderer(r);
    case UnaryExpr(v, op) =>
      PrototypeMatchesRenderer(v);
  }

  // ----- The prototype's tests -----

  lemma NumExamples()
    ensures CompileExpr(Num("5")) == "5"
    ensures CompileExpr(Num("2.3")) == "2.3"
  {
  }

  lemma VariableExamples()
    ensures CompileExpr(Variable("")) == ""
    ensures CompileExpr(Variable("a")) == "a"
    ensures CompileExpr(Variable("abc")) == "a_{bc}"
  {
    assert "abc"[1..] == "bc";
  }

  lemma OperatorExamples()
    ensures CompileExpr(BinaryExpr(Num("1"), "+", Num("2"))) == "1+2"
    ensures CompileExpr(UnaryExpr(Num("2"), "!")) == "2!"
  {
  }
}
