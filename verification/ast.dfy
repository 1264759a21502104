/**
 * The parts of the DSL's abstract syntax tree that the checker visits:
 * stanzas, statements, expressions, scan expressions and variables. Captures
 * carry the annotations the checker fills in (the capture's index in the
 * stanza query and in the file query, and its quantifier).
 */
module Ast {
  import opened Quantifiers
  import opened Results
  import opened Names

  /** A source position; the checker only carries it into its errors. */
  datatype Location = Location(row: nat, column: nat)

  /**
   * A compiled query: capture name to capture index, and per pattern (one per
   * stanza in the file query) the quantifier of each capture index.
   */
  datatype Query = Query(captureIndices: map<Name, nat>, captureQuantifiers: seq<seq<Quantifier>>)

  /** A syntax capture `@name` with the checker's annotations. */
  datatype Capture = Capture(
    name: Name,
    location: Location,
    stanzaCaptureIndex: nat,
    fileCaptureIndex: nat,
    quantifier: Quantifier)

  datatype Expression =
    | FalseLiteral
    | NullLiteral
    | TrueLiteral
    | IntegerConstant(integer: nat)
    | StringConstant(text: string)
    | ListComprehension(elements: seq<Expression>)
    | SetComprehension(elements: seq<Expression>)
    | CaptureExpression(capture: Capture)
    | VariableExpression(variable: Variable)
    | Call(functionName: Name, parameters: seq<Expression>)
    | RegexCapture(matchIndex: nat)

  /** The restricted expression grammar of a `scan` statement's value. */
  datatype ScanExpression =
    | ScanStringConstant(text: string)
    | ScanCapture(capture: Capture)
    | ScanVariable(variable: Variable)
    | ScanRegexCapture(matchIndex: nat)

  datatype UnscopedVariable = UnscopedVariable(name: Name, location: Location)

  /** `scope.name`: an attribute path off the value of `scope`. */
  datatype ScopedVariable = ScopedVariable(scope: Expression, name: Name, location: Location)

  datatype Variable = Unscoped(unscoped: UnscopedVariable) | Scoped(scoped: ScopedVariable)

  datatype Attribute = Attribute(name: Name, value: Expression)

  /** `some @c, …` / `none @c, …` guards of an `if` arm. */
  datatype Condition = SomeCondition(captures: seq<Capture>) | NoneCondition(captures: seq<Capture>)

  datatype Statement =
    | DeclareImmutable(variable: Variable, value: Expression)
    | DeclareMutable(variable: Variable, value: Expression)
    | Assign(variable: Variable, value: Expression)
    | CreateGraphNode(nodeVariable: Variable)
    | AddGraphNodeAttribute(node: Expression, attributes: seq<Attribute>)
    | CreateEdge(source: Expression, sink: Expression)
    | AddEdgeAttribute(source: Expression, sink: Expression, attributes: seq<Attribute>)
    | Scan(scanned: ScanExpression, scanArms: seq<ScanArm>)
    | Print(values: seq<Expression>)
    | If(ifArms: seq<IfArm>)
    | ForIn(loopVariable: UnscopedVariable, capture: Capture, body: seq<Statement>, location: Location)

  datatype ScanArm = ScanArm(regex: string, statements: seq<Statement>)

  datatype IfArm = IfArm(conditions: seq<Condition>, statements: seq<Statement>)

  /** A stanza: its own query, its position in the file query, and its body. */
  datatype Stanza = Stanza(query: Query, statements: seq<Statement>, fullMatchFileCaptureIndex: nat)

  /** A file: its stanzas and the file query combining all their patterns. */
  datatype File = File(stanzas: seq<Stanza>, query: Option<Query>)

  //---------------------------------------------------------------------------
  // Erasure: the tree with every capture annotation reset.

  function EraseCapture(c: Capture): Capture {
    c.(stanzaCaptureIndex := 0, fileCaptureIndex := 0, quantifier := One)
  }

  function EraseCaptures(cs: seq<Capture>): seq<Capture>
    decreases cs
  {
    if cs == [] then [] else [EraseCapture(cs[0])] + EraseCaptures(cs[1..])
  }

  function EraseExpression(e: Expression): Expression
    decreases e
  {
    match e
    case ListComprehension(elements) => ListComprehension(EraseExpressions(elements))
    case SetComprehension(elements) => SetComprehension(EraseExpressions(elements))
    case CaptureExpression(c) => CaptureExpression(EraseCapture(c))
    case VariableExpression(v) => VariableExpression(EraseVariable(v))
    case Call(f, parameters) => Call(f, EraseExpressions(parameters))
    case _ => e
  }

  function EraseExpressions(es: seq<Expression>): seq<Expression>
    decreases es
  {
    if es == [] then [] else [EraseExpression(es[0])] + EraseExpressions(es[1..])
  }

  function EraseVariable(v: Variable): Variable
    decreases v
  {
    match v
    case Unscoped(_) => v
    case Scoped(ScopedVariable(scope, name, location)) => Scoped(ScopedVariable(EraseExpression(scope), name, location))
  }

  function EraseScanExpression(e: ScanExpression): ScanExpression {
    match e
    case ScanCapture(c) => ScanCapture(EraseCapture(c))
    case ScanVariable(v) => ScanVariable(EraseVariable(v))
    case _ => e
  }

  function EraseAttributes(attributes: seq<Attribute>): seq<Attribute>
    decreases attributes
  {
    if attributes == [] then []
    else [attributes[0].(value := EraseExpression(attributes[0].value))] + EraseAttributes(attributes[1..])
  }

  function EraseConditions(conditions: seq<Condition>): seq<Condition>
    decreases conditions
  {
    if conditions == [] then []
    else
      var c := match conditions[0]
        case SomeCondition(cs) => SomeCondition(EraseCaptures(cs))
        case NoneCondition(cs) => NoneCondition(EraseCaptures(cs));
      [c] + EraseConditions(conditions[1..])
  }

  function EraseStatement(s: Statement): Statement
    decreases s
  {
    match s
    case DeclareImmutable(v, value) => DeclareImmutable(EraseVariable(v), EraseExpression(value))
    case DeclareMutable(v, value) => DeclareMutable(EraseVariable(v), EraseExpression(value))
    case Assign(v, value) => Assign(EraseVariable(v), EraseExpression(value))
    case CreateGraphNode(node) => CreateGraphNode(EraseVariable(node))
    case AddGraphNodeAttribute(node, attributes) => AddGraphNodeAttribute(EraseExpression(node), EraseAttributes(attributes))
    case CreateEdge(source, sink) => CreateEdge(EraseExpression(source), EraseExpression(sink))
    case AddEdgeAttribute(source, sink, attributes) =>
      AddEdgeAttribute(EraseExpression(source), EraseExpression(sink), EraseAttributes(attributes))
    case Scan(scanned, arms) => Scan(EraseScanExpression(scanned), EraseScanArms(arms))
    case Print(values) => Print(EraseExpressions(values))
    case If(arms) => If(EraseIfArms(arms))
    case ForIn(v, source, body, location) => ForIn(v, EraseCapture(source), EraseStatements(body), location)
  }

  function EraseStatements(ss: seq<Statement>): seq<Statement>
    decreases ss
  {
    if ss == [] then [] else [EraseStatement(ss[0])] + EraseStatements(ss[1..])
  }

  function EraseScanArms(arms: seq<ScanArm>): seq<ScanArm>
    decreases arms
  {
    if arms == [] then []
    else [arms[0].(statements := EraseStatements(arms[0].statements))] + EraseScanArms(arms[1..])
  }

  function EraseIfArms(arms: seq<IfArm>): seq<IfArm>
    decreases arms
  {
    if arms == [] then []
    else
      [IfArm(EraseConditions(arms[0].conditions), EraseStatements(arms[0].statements))]
      + EraseIfArms(arms[1..])
  }

  //---------------------------------------------------------------------------
  // Captures in checking order.

  function ExpressionCaptures(e: Expression): seq<Capture>
    decreases e
  {
    match e
    case ListComprehension(elements) => ExpressionsCaptures(elements)
    case SetComprehension(elements) => ExpressionsCaptures(elements)
    case CaptureExpression(c) => [c]
    case VariableExpression(v) => VariableCaptures(v)
    case Call(_, parameters) => ExpressionsCaptures(parameters)
    case _ => []
  }

  function ExpressionsCaptures(es: seq<Expression>): seq<Capture>
    decreases es
  {
    if es == [] then [] else ExpressionCaptures(es[0]) + ExpressionsCaptures(es[1..])
  }

  function VariableCaptures(v: Variable): seq<Capture>
    decreases v
  {
    match v
    case Unscoped(_) => []
    case Scoped(ScopedVariable(scope, _, _)) => ExpressionCaptures(scope)
  }

  function ScanExpressionCaptures(e: ScanExpression): seq<Capture> {
    match e
    case ScanCapture(c) => [c]
    case ScanVariable(v) => VariableCaptures(v)
    case _ => []
  }

  function AttributesCaptures(attributes: seq<Attribute>): seq<Capture>
    decreases attributes
  {
    if attributes == [] then []
    else ExpressionCaptures(attributes[0].value) + AttributesCaptures(attributes[1..])
  }

  function ConditionsCaptures(conditions: seq<Condition>): seq<Capture>
    decreases conditions
  {
    if conditions == [] then []
    else conditions[0].captures + ConditionsCaptures(conditions[1..])
  }

  function StatementCaptures(s: Statement): seq<Capture>
    decreases s
  {
    match s
    case DeclareImmutable(v, value) => ExpressionCaptures(value) + VariableCaptures(v)
    case DeclareMutable(v, value) => ExpressionCaptures(value) + VariableCaptures(v)
    case Assign(v, value) => ExpressionCaptures(value) + VariableCaptures(v)
    case CreateGraphNode(node) => VariableCaptures(node)
    case AddGraphNodeAttribute(node, attributes) => ExpressionCaptures(node) + AttributesCaptures(attributes)
    case CreateEdge(source, sink) => ExpressionCaptures(source) + ExpressionCaptures(sink)
    case AddEdgeAttribute(source, sink, attributes) =>
      ExpressionCaptures(source) + ExpressionCaptures(sink) + AttributesCaptures(attributes)
    case Scan(scanned, arms) => ScanExpressionCaptures(scanned) + ScanArmsCaptures(arms)
    case Print(values) => ExpressionsCaptures(values)
    case If(arms) => IfArmsCaptures(arms)
    case ForIn(_, capture, body, _) => [capture] + StatementsCaptures(body)
  }

  function StatementsCaptures(ss: seq<Statement>): seq<Capture>
    decreases ss
  {
    if ss == [] then [] else StatementCaptures(ss[0]) + StatementsCaptures(ss[1..])
  }

  function ScanArmsCaptures(arms: seq<ScanArm>): seq<Capture>
    decreases arms
  {
    if arms == [] then [] else StatementsCaptures(arms[0].statements) + ScanArmsCaptures(arms[1..])
  }

  function IfArmsCaptures(arms: seq<IfArm>): seq<Capture>
    decreases arms
  {
    if arms == [] then []
    else ConditionsCaptures(arms[0].conditions) + StatementsCaptures(arms[0].statements) + IfArmsCaptures(arms[1..])
  }

  //---------------------------------------------------------------------------
  // Names a statement binds: declared in the current scope, or reassigned
  // wherever they are found along the scope chain.

  /** The name a declaration or node creation adds to the current scope. */
  function DeclaredNames(s: Statement): set<Name> {
    match s
    case DeclareImmutable(Unscoped(u), _) => {u.name}
    case DeclareMutable(Unscoped(u), _) => {u.name}
    case CreateGraphNode(Unscoped(u)) => {u.name}
    case _ => {}
  }

  function StatementsDeclaredNames(ss: seq<Statement>): set<Name>
    decreases ss
  {
    if ss == [] then {} else DeclaredNames(ss[0]) + StatementsDeclaredNames(ss[1..])
  }

  /** Every unscoped name `set` is applied to, in `s` or any block nested in it. */
  function WrittenNames(s: Statement): set<Name>
    decreases s
  {
    match s
    case Assign(Unscoped(u), _) => {u.name}
    case Scan(_, arms) => ScanArmsWrittenNames(arms)
    case If(arms) => IfArmsWrittenNames(arms)
    case ForIn(_, _, body, _) => StatementsWrittenNames(body)
    case _ => {}
  }

  function StatementsWrittenNames(ss: seq<Statement>): set<Name>
    decreases ss
  {
    if ss == [] then {} else WrittenNames(ss[0]) + StatementsWrittenNames(ss[1..])
  }

  function ScanArmsWrittenNames(arms: seq<ScanArm>): set<Name>
    decreases arms
  {
    if arms == [] then {} else StatementsWrittenNames(arms[0].statements) + ScanArmsWrittenNames(arms[1..])
  }

  function IfArmsWrittenNames(arms: seq<IfArm>): set<Name>
    decreases arms
  {
    if arms == [] then {} else StatementsWrittenNames(arms[0].statements) + IfArmsWrittenNames(arms[1..])
  }
}
