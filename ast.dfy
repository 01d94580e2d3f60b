/** The positioned input tree the parser hands to the compiler. */
module CoreAst {
  import opened Wrappers
  import Runtime
  import CoreLatex

  /** A source location; it is used only to say where an error points. */
  type Span = int

  datatype BinaryOperator = Add | Subtract | Multiply | Divide | Mod

  datatype UnaryOperator = Factorial

  /** `MapCall` is reserved syntax that the compiler does not implement. */
  datatype CallModifier = MapCall | NormalCall

  /** An expression tagged with its span. */
  datatype Located = Located(span: Span, expr: Expression)

  /** One `left cmp right : val` clause of a piecewise expression. */
  datatype Branch = Branch(condLeft: Located, cond: CoreLatex.CompareOperator, condRight: Located, val: Located)

  datatype Expression =
    | Num(text: string)
    | Variable(name: string)
    | BinaryExpr(left: Located, binop: BinaryOperator, right: Located)
    | UnaryExpr(operand: Located, unop: UnaryOperator)
    | Call(modifier: CallModifier, func: string, args: seq<Located>)
    | List(values: seq<Located>)
    | Piecewise(first: Branch, rest: seq<Branch>, default: Located)
    | MapExpression(inner: Located)

  /** The head of `name(p1: T1, ...): R = body`. */
  datatype FunctionDefinition = FunctionDefinition(
    name: string,
    args: seq<(string, Runtime.ValType)>,
    retAnnotation: Option<Runtime.ValType>)

  datatype Statement =
    | FuncDef(def: FunctionDefinition, body: Located)
    | ExpressionStatement(expr: Expression)

  datatype LocatedStatement = LocatedStatement(span: Span, stmt: Statement)
}
