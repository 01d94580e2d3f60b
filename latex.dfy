/** The untyped output tree and its renderer to LaTeX text. */
module CoreLatex {

  datatype BinaryOperator = Add | Subtract | Multiply | Divide

  datatype UnaryOperator = Factorial

  datatype CompareOperator = Equal | GreaterThan | LessThan | GreaterThanEqual | LessThanEqual

  /** One clause `left op right : result` of a piecewise node. */
  datatype Cond = Cond(left: Latex, op: CompareOperator, right: Latex, result: Latex)

  datatype Latex =
    | Variable(name: string)
    | Num(text: string)
    | Call(func: string, isBuiltin: bool, args: seq<Latex>)
    | BinaryExpression(left: Latex, binop: BinaryOperator, right: Latex)
    | UnaryExpression(left: Latex, unop: UnaryOperator)
    | List(items: seq<Latex>)
    | Assignment(lhs: Latex, rhs: Latex)
    | FuncDef(name: string, params: seq<string>, body: Latex)
    | Piecewise(first: Cond, rest: seq<Cond>, default: Latex)

  /** Subscripts everything after the first character: `abc` becomes `a_{bc}`. */
  function FormatLatexIdentifier(v: string): (r: string)
    ensures |r| == if |v| <= 1 then |v| else |v| + 3
    ensures v != [] ==> r[0] == v[0]
    ensures |v| >= 2 ==> r[1..3] == "_{" && r[|r| - 1] == '}'
  {
    if v == [] then ""
    else
      var rest := v[1..];
      if rest == [] then [v[0]] else [v[0]] + "_{" + rest + "}"
  }

  /** Reads an identifier back from its rendered form. */
  function ParseLatexIdentifier(s: string): (v: string)
  {
    if |s| < 5 then s else [s[0]] + s[3..|s| - 1]
  }

  /** Rendering an identifier loses nothing: it can be read back. */
  lemma FormatLatexIdentifierRoundTrip(v: string)
    ensures ParseLatexIdentifier(FormatLatexIdentifier(v)) == v
  {
    if |v| >= 2 {
      var r := FormatLatexIdentifier(v);
      assert r == [v[0]] + "_{" + v[1..] + "}";
      assert r[3..|r| - 1] == v[1..];
    }
  }

  /** Distinct identifiers render to distinct text. */
  lemma FormatLatexIdentifierInjective(a: string, b: string)
    requires FormatLatexIdentifier(a) == FormatLatexIdentifier(b)
    ensures a == b
  {
    FormatLatexIdentifierRoundTrip(a);
    FormatLatexIdentifierRoundTrip(b);
  }

  /** `parts` separated by `sep`, as Rust's `join` does. */
  function Join(parts: seq<string>, sep: string): (r: string)
  {
    if |parts| == 0 then ""
    else if |parts| == 1 then parts[0]
    else parts[0] + sep + Join(parts[1..], sep)
  }

  /** Joining a non-empty head and a non-empty tail puts one separator between them. */
  lemma {:induction false} JoinCons(head: string, tail: seq<string>, sep: string)
    requires tail != []
    ensures Join([head] + tail, sep) == head + sep + Join(tail, sep)
  {
    assert ([head] + tail)[1..] == tail;
  }

  function MultiLatexToStr(items: seq<Latex>): (r: seq<string>)
    ensures |r| == |items|
    ensures forall i :: 0 <= i < |items| ==> r[i] == LatexToStr(items[i])
    decreases items, 0
  {
    if items == [] then [] else [LatexToStr(items[0])] + MultiLatexToStr(items[1..])
  }

  function BinaryOperatorToStr(left: Latex, operator: BinaryOperator, right: Latex): (r: string)
    decreases BinaryExpression(left, operator, right), 0
  {
    var ls := LatexToStr(left);
    var rs := LatexToStr(right);
    match operator
    case Add => ls + "+" + rs
    case Subtract => ls + "-" + rs
    case Multiply =>
      if left.Num? && right.Num? then ls + "\\cdot " + rs else ls + rs
    case Divide => "\\frac{" + ls + "}{" + rs + "}"
  }

  function CompareOpToStr(op: CompareOperator): (r: string)
  {
    match op
    case Equal => "="
    case GreaterThan => ">"
    case LessThan => "<"
    case GreaterThanEqual => "\\le"
    case LessThanEqual => "\\ge"
  }

  /** The five comparators are spelled differently (and `>=` is spelled `\le`). */
  lemma CompareOpToStrInjective(a: CompareOperator, b: CompareOperator)
    ensures CompareOpToStr(a) == CompareOpToStr(b) <==> a == b
    ensures CompareOpToStr(GreaterThanEqual) == "\\le" && CompareOpToStr(LessThanEqual) == "\\ge"
  {
  }

  function CondToStr(cond: Cond): (r: string)
    decreases cond, 0
  {
    LatexToStr(cond.left) + CompareOpToStr(cond.op) + LatexToStr(cond.right) + ":" + LatexToStr(cond.result)
  }

  /** Each clause of `conds` followed by a comma. */
  function CondsWithCommas(conds: seq<Cond>): (r: string)
    decreases conds, 0
  {
    if conds == [] then "" else CondToStr(conds[0]) + "," + CondsWithCommas(conds[1..])
  }

  function FormatIdentifiers(names: seq<string>): (r: seq<string>)
  {
    seq(|names|, i requires 0 <= i < |names| => FormatLatexIdentifier(names[i]))
  }

  function LatexToStr(l: Latex): (r: string)
    decreases l, 1
  {
    match l
    case Variable(s) => FormatLatexIdentifier(s)
    case Num(s) => s
    case Call(func, isBuiltin, args) =>
      (if isBuiltin then "\\" else "") + func + "\\left(" + Join(MultiLatexToStr(args), ",") + "\\right)"
    case BinaryExpression(left, operator, right) => BinaryOperatorToStr(left, operator, right)
    case UnaryExpression(left, operator) =>
      (match operator
       case Factorial => LatexToStr(left) + "!")
    case List(items) => Join(MultiLatexToStr(items), ",")
    case Assignment(left, right) => LatexToStr(left) + "=" + LatexToStr(right)
    case FuncDef(name, params, body) =>
      name + "\\left(" + Join(FormatIdentifiers(params), ",") + "\\right)=" + LatexToStr(body)
    case Piecewise(first, rest, default) =>
      "\\left\\{" + CondToStr(first) + "," + CondsWithCommas(rest) + LatexToStr(default) + "\\right\\}"
  }

  /** The clause texts of `conds`, in order. */
  function CondStrings(conds: seq<Cond>): (r: seq<string>)
  {
    seq(|conds|, i requires 0 <= i < |conds| => CondToStr(conds[i]))
  }

  /** Each of `parts` followed by a comma. */
  function Terminated(parts: seq<string>): (r: string)
  {
    if parts == [] then "" else parts[0] + "," + Terminated(parts[1..])
  }

  /** The comma-terminated clauses are the clause texts, each followed by a comma. */
  lemma {:induction false} CondsWithCommasTerminated(conds: seq<Cond>)
    ensures CondsWithCommas(conds) == Terminated(CondStrings(conds))
  {
    if conds != [] {
      CondsWithCommasTerminated(conds[1..]);
      assert CondStrings(conds)[1..] == CondStrings(conds[1..]);
    }
  }

  /** A head followed by a comma and comma-terminated parts is the joined list plus one comma. */
  lemma {:induction false} TerminatedAsJoin(head: string, parts: seq<string>)
    ensures head + "," + Terminated(parts) == Join([head] + parts, ",") + ","
    decreases parts
  {
    if parts == [] {
      assert [head] + parts == [head];
    } else {
      TerminatedAsJoin(parts[0], parts[1..]);
      assert [parts[0]] + parts[1..] == parts;
      JoinCons(head, parts, ",");
      var t := Terminated(parts[1..]);
      var j := Join(parts, ",");
      assert parts[0] + "," + t == j + ",";
      assert Terminated(parts) == parts[0] + "," + t;
      assert head + "," + (parts[0] + "," + t) == (head + "," + j) + ",";
    }
  }

  /** The clause part of a piecewise rendering: the first clause, a comma and
      the comma-terminated rest are the comma-join of all clauses plus one comma. */
  lemma ClausesAsJoin(first: Cond, rest: seq<Cond>)
    ensures CondToStr(first) + "," + CondsWithCommas(rest) == Join(CondStrings([first] + rest), ",") + ","
  {
    CondsWithCommasTerminated(rest);
    TerminatedAsJoin(CondToStr(first), CondStrings(rest));
    assert CondStrings([first] + rest) == [CondToStr(first)] + CondStrings(rest);
  }

  /** Replacing the clause part of a piecewise text by an equal one. */
  lemma RegroupClauses(open: string, c1: string, cw: string, joined: string, d: string, close: string)
    requires c1 + "," + cw == joined + ","
    ensures open + c1 + "," + cw + d + close == open + joined + "," + d + close
  {
    calc {
      open + c1 + "," + cw + d + close;
      open + (c1 + "," + cw) + d + close;
      open + (joined + ",") + d + close;
      open + joined + "," + d + close;
    }
  }

  /** A piecewise node renders as a brace-delimited, comma-separated list of
      its clauses in order, then its default. */
  lemma PiecewiseRendering(first: Cond, rest: seq<Cond>, default: Latex)
    ensures LatexToStr(Piecewise(first, rest, default))
         == "\\left\\{" + Join(CondStrings([first] + rest), ",") + "," + LatexToStr(default) + "\\right\\}"
  {
    ClausesAsJoin(first, rest);
    RegroupClauses("\\left\\{", CondToStr(first), CondsWithCommas(rest), Join(CondStrings([first] + rest), ","),
                   LatexToStr(default), "\\right\\}");
  }

  /** A builtin call differs from a user call only by the leading backslash;
      arguments are rendered in order and joined by commas. */
  lemma CallRendering(func: string, args: seq<Latex>)
    ensures LatexToStr(Call(func, true, args)) == "\\" + LatexToStr(Call(func, false, args))
    ensures LatexToStr(Call(func, false, args)) == func + "\\left(" + Join(MultiLatexToStr(args), ",") + "\\right)"
  {
  }

  /** Multiplication is marked only between two literals; otherwise the
      operands are juxtaposed. No parentheses are ever added. */
  lemma MultiplyRendering(left: Latex, right: Latex)
    ensures left.Num? && right.Num? ==>
      LatexToStr(BinaryExpression(left, Multiply, right)) == left.text + "\\cdot " + right.text
    ensures !(left.Num? && right.Num?) ==>
      LatexToStr(BinaryExpression(left, Multiply, right)) == LatexToStr(left) + LatexToStr(right)
  {
    var r := LatexToStr(BinaryExpression(left, Multiply, right));
    assert r == BinaryOperatorToStr(left, Multiply, right);
    if left.Num? && right.Num? {
      assert LatexToStr(left) == left.text && LatexToStr(right) == right.text;
    }
  }

  /** Literals pass through verbatim; variables follow the identifier rule;
      addition, subtraction, division and factorial use fixed spellings. */
  lemma ScalarRendering(s: string, left: Latex, right: Latex)
    ensures LatexToStr(Num(s)) == s
    ensures LatexToStr(Variable(s)) == FormatLatexIdentifier(s)
    ensures LatexToStr(BinaryExpression(left, Add, right)) == LatexToStr(left) + "+" + LatexToStr(right)
    ensures LatexToStr(BinaryExpression(left, Subtract, right)) == LatexToStr(left) + "-" + LatexToStr(right)
    ensures LatexToStr(BinaryExpression(left, Divide, right)) == "\\frac{" + LatexToStr(left) + "}{" + LatexToStr(right) + "}"
    ensures LatexToStr(UnaryExpression(left, Factorial)) == LatexToStr(left) + "!"
    ensures LatexToStr(Assignment(left, right)) == LatexToStr(left) + "=" + LatexToStr(right)
  {
  }

  /** Lists render without brackets; function definitions format their
      parameter names as identifiers but keep their own name raw. */
  lemma ListAndFuncDefRendering(items: seq<Latex>, name: string, params: seq<string>, body: Latex)
    ensures LatexToStr(List(items)) == Join(MultiLatexToStr(items), ",")
    ensures LatexToStr(FuncDef(name, params, body))
         == name + "\\left(" + Join(FormatIdentifiers(params), ",") + "\\right)=" + LatexToStr(body)
  {
  }

  /** The rendering example for a piecewise node with one clause. */
  lemma PiecewiseSingleExample()
    ensures LatexToStr(Piecewise(Cond(Num("1"), Equal, Num("2"), Num("3")), [], Num("4")))
         == "\\left\\{1=2:3,4\\right\\}"
  {
    assert CondToStr(Cond(Num("1"), Equal, Num("2"), Num("3"))) == "1=2:3";
  }

  /** The rendering example for a piecewise node with two clauses. */
  lemma PiecewiseMultiExample()
    ensures LatexToStr(Piecewise(Cond(Num("1"), Equal, Num("2"), Num("3")),
                                 [Cond(Num("4"), LessThan, Num("5"), Num("6"))], Num("7")))
         == "\\left\\{1=2:3,4<5:6,7\\right\\}"
  {
    var c2 := Cond(Num("4"), LessThan, Num("5"), Num("6"));
    assert CondToStr(Cond(Num("1"), Equal, Num("2"), Num("3"))) == "1=2:3";
    assert CondToStr(c2) == "4<5:6";
    assert CondsWithCommas([c2]) == "4<5:6,";
  }
}
