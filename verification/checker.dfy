/**
 * The static checking pass over a file of stanzas (src/checker.rs). Every
 * check returns either the first error met or the node with its captures
 * annotated; statement checks also return the environment as it stands
 * afterwards, and compound statements check their bodies in child scopes.
 * What each check establishes is proved in module Soundness.
 */
module Checker {
  import opened Quantifiers
  import opened Results
  import opened Names
  import opened Ast
  import opened Variables

  /** The name the file query reserves for a stanza's whole match (defined in src/parser.rs). */
  const FullMatch: Name := "__tsg__full_match"

  datatype CheckError =
    | ExpectedListValue(location: Location)
    | ExpectedOptionalValue(location: Location)
    | UndefinedSyntaxCapture(name: Name, location: Location)
    | VariableFailure(error: VariableError, name: Name)

  /** What stays fixed while one stanza is checked. */
  datatype CheckContext = CheckContext(fileQuery: Query, stanzaIndex: nat, stanzaQuery: Query)

  /**
   * The stanza query may be resolved against the file query: every capture it
   * defines is also in the file query, with an index inside this stanza's
   * quantifier table.
   */
  predicate Compatible(fileQuery: Query, stanzaIndex: nat, stanzaQuery: Query) {
    && stanzaIndex < |fileQuery.captureQuantifiers|
    && forall n :: n in stanzaQuery.captureIndices ==>
         && n in fileQuery.captureIndices
         && fileQuery.captureIndices[n] < |fileQuery.captureQuantifiers[stanzaIndex]|
  }

  predicate Valid(ctx: CheckContext) {
    Compatible(ctx.fileQuery, ctx.stanzaIndex, ctx.stanzaQuery)
  }

  /** The capture's name is bound by the stanza's own query. */
  predicate Defined(ctx: CheckContext, c: Capture) {
    c.name in ctx.stanzaQuery.captureIndices
  }

  /** The capture carries the annotations resolution against both queries gives it. */
  ghost predicate Resolved(ctx: CheckContext, c: Capture)
    requires Valid(ctx)
  {
    && Defined(ctx, c)
    && c.stanzaCaptureIndex == ctx.stanzaQuery.captureIndices[c.name]
    && c.fileCaptureIndex == ctx.fileQuery.captureIndices[c.name]
    && c.quantifier == ctx.fileQuery.captureQuantifiers[ctx.stanzaIndex][c.fileCaptureIndex]
  }

  ghost predicate AllResolved(ctx: CheckContext, cs: seq<Capture>)
    requires Valid(ctx)
  {
    forall c :: c in cs ==> Resolved(ctx, c)
  }

  /** The first capture, in checking order, that the stanza query does not define. */
  function FirstUndefined(ctx: CheckContext, cs: seq<Capture>): (r: Option<Capture>)
    ensures r.None? <==> forall i :: 0 <= i < |cs| ==> Defined(ctx, cs[i])
    ensures r.Some? ==> r.value in cs && !Defined(ctx, r.value)
    ensures r.Some? ==> exists i :: 0 <= i < |cs| && cs[i] == r.value && forall j :: 0 <= j < i ==> Defined(ctx, cs[j])
    decreases cs
  {
    if cs == [] then None
    else if !Defined(ctx, cs[0]) then Some(cs[0])
    else FirstUndefined(ctx, cs[1..])
  }

  /** The quantifier the file query's table gives a defined capture in this stanza. */
  function QuantifierOf(ctx: CheckContext, c: Capture): Quantifier
    requires Valid(ctx) && Defined(ctx, c)
  {
    ctx.fileQuery.captureQuantifiers[ctx.stanzaIndex][ctx.fileQuery.captureIndices[c.name]]
  }

  /** The error reported for a capture the stanza query does not define. */
  function UndefinedError(c: Capture): CheckError {
    UndefinedSyntaxCapture(c.name, c.location)
  }

  lemma {:induction false} FirstUndefinedAppend(ctx: CheckContext, a: seq<Capture>, b: seq<Capture>)
    ensures FirstUndefined(ctx, a + b) == if FirstUndefined(ctx, a).Some? then FirstUndefined(ctx, a) else FirstUndefined(ctx, b)
    decreases a
  {
    if a != [] {
      assert (a + b)[0] == a[0];
      assert (a + b)[1..] == a[1..] + b;
      FirstUndefinedAppend(ctx, a[1..], b);
    } else {
      assert a + b == b;
    }
  }

  //---------------------------------------------------------------------------
  // Captures

  /**
   * Resolve a capture against the stanza query (failing when it is not
   * defined there) and against the file query, and read its quantifier from
   * this stanza's row of the file query's quantifier table.
   */
  function CheckCapture(ctx: CheckContext, c: Capture): (r: Result<(Capture, Quantifier), CheckError>)
    requires Valid(ctx)
    ensures r.Err? <==> c.name !in ctx.stanzaQuery.captureIndices
    ensures r.Err? ==> r.error == UndefinedSyntaxCapture(c.name, c.location)
    ensures r.Ok? ==> Resolved(ctx, r.value.0) && EraseCapture(r.value.0) == EraseCapture(c)
    ensures r.Ok? ==> r.value.1 == r.value.0.quantifier
  {
    if c.name !in ctx.stanzaQuery.captureIndices then
      Err(UndefinedSyntaxCapture(c.name, c.location))
    else
      var fileIndex := ctx.fileQuery.captureIndices[c.name];
      var quantifier := ctx.fileQuery.captureQuantifiers[ctx.stanzaIndex][fileIndex];
      var annotated := c.(stanzaCaptureIndex := ctx.stanzaQuery.captureIndices[c.name],
                          fileCaptureIndex := fileIndex,
                          quantifier := quantifier);
      Ok((annotated, quantifier))
  }

  //---------------------------------------------------------------------------
  // Expressions

  /**
   * Check an expression, returning it with its captures annotated and the
   * cardinality of its value. What the check establishes is stated by
   * Soundness.ExpressionSound.
   */
  function CheckExpression(ctx: CheckContext, env: Env, e: Expression): Result<(Expression, Quantifier), CheckError>
    requires Valid(ctx)
    decreases e, 1
  {
    match e
    case FalseLiteral => Ok((e, One))
    case NullLiteral => Ok((e, One))
    case TrueLiteral => Ok((e, One))
    case IntegerConstant(_) => Ok((e, One))
    case StringConstant(_) => Ok((e, One))
    case ListComprehension(_) => CheckListComprehension(ctx, env, e)
    case SetComprehension(_) => CheckSetComprehension(ctx, env, e)
    case CaptureExpression(c) => CheckCaptureExpression(ctx, e)
    case VariableExpression(v) => CheckVariableExpression(ctx, env, e)
    case Call(_, _) => CheckCall(ctx, env, e)
    case RegexCapture(_) => Ok((e, One))
  }

  function CheckListComprehension(ctx: CheckContext, env: Env, e: Expression): Result<(Expression, Quantifier), CheckError>
    requires Valid(ctx) && e.ListComprehension?
    decreases e, 0
  {
    var elements' :- CheckExpressions(ctx, env, e.elements);
    Ok((ListComprehension(elements'), ZeroOrMore))
  }

  function CheckSetComprehension(ctx: CheckContext, env: Env, e: Expression): Result<(Expression, Quantifier), CheckError>
    requires Valid(ctx) && e.SetComprehension?
    decreases e, 0
  {
    var elements' :- CheckExpressions(ctx, env, e.elements);
    Ok((SetComprehension(elements'), ZeroOrMore))
  }

  function CheckCaptureExpression(ctx: CheckContext, e: Expression): Result<(Expression, Quantifier), CheckError>
    requires Valid(ctx) && e.CaptureExpression?
  {
    var checked :- CheckCapture(ctx, e.capture);
    Ok((CaptureExpression(checked.0), checked.1))
  }

  function CheckVariableExpression(ctx: CheckContext, env: Env, e: Expression): Result<(Expression, Quantifier), CheckError>
    requires Valid(ctx) && e.VariableExpression?
    decreases e, 0
  {
    var checked :- CheckVariableGet(ctx, env, e.variable);
    Ok((VariableExpression(checked.0), checked.1))
  }

  function CheckCall(ctx: CheckContext, env: Env, e: Expression): Result<(Expression, Quantifier), CheckError>
    requires Valid(ctx) && e.Call?
    decreases e, 0
  {
    var parameters' :- CheckExpressions(ctx, env, e.parameters);
    // the cardinality of a call's result is not known; the checker assumes One
    Ok((Call(e.functionName, parameters'), One))
  }

  function CheckExpressions(ctx: CheckContext, env: Env, es: seq<Expression>): Result<seq<Expression>, CheckError>
    requires Valid(ctx)
    decreases es
  {
    if es == [] then Ok([])
    else
      var first :- CheckExpression(ctx, env, es[0]);
      var rest :- CheckExpressions(ctx, env, es[1..]);
      Ok([first.0] + rest)
  }

  function CheckScanExpression(ctx: CheckContext, env: Env, e: ScanExpression): Result<(ScanExpression, Quantifier), CheckError>
    requires Valid(ctx)
  {
    match e
    case ScanStringConstant(_) => Ok((e, One))
    case ScanCapture(c) =>
      var checked :- CheckCapture(ctx, c);
      Ok((ScanCapture(checked.0), checked.1))
    case ScanVariable(v) =>
      var checked :- CheckVariableGet(ctx, env, v);
      Ok((ScanVariable(checked.0), checked.1))
    case ScanRegexCapture(_) => Ok((e, One))
  }

  //---------------------------------------------------------------------------
  // Variables

  /**
   * Read a variable. An unscoped name not bound in any scope is taken to be
   * a global and read as One; a scoped variable only has its scope checked
   * and is read as One as well.
   */
  function CheckVariableGet(ctx: CheckContext, env: Env, v: Variable): Result<(Variable, Quantifier), CheckError>
    requires Valid(ctx)
    decreases v
  {
    match v
    case Unscoped(u) =>
      (match Lookup(env, u.name)
       case Some(binding) => Ok((v, binding.quantifier))
       case None => Ok((v, One)))
    case Scoped(ScopedVariable(scope, name, location)) =>
      var checked :- CheckExpression(ctx, env, scope);
      Ok((Scoped(ScopedVariable(checked.0, name, location)), One))
  }

  /** Declare a variable with the given cardinality; a scoped variable only has its scope checked. */
  function CheckVariableAdd(ctx: CheckContext, env: Env, v: Variable, quantifier: Quantifier, mutable: bool)
    : (r: Result<(Variable, Env), CheckError>)
    requires Valid(ctx) && |env| > 0
    ensures r.Ok? ==> |r.value.1| == |env|
  {
    match v
    case Unscoped(u) =>
      (match Add(env, u.name, quantifier, mutable)
       case Err(error) => Err(VariableFailure(error, u.name))
       case Ok(env') => Ok((v, env')))
    case Scoped(ScopedVariable(scope, name, location)) =>
      var checked :- CheckExpression(ctx, env, scope);
      Ok((Scoped(ScopedVariable(checked.0, name, location)), env))
  }

  /** Reassign a variable; a scoped variable only has its scope checked. */
  function CheckVariableSet(ctx: CheckContext, env: Env, v: Variable, quantifier: Quantifier)
    : (r: Result<(Variable, Env), CheckError>)
    requires Valid(ctx)
    ensures r.Ok? ==> |r.value.1| == |env|
  {
    match v
    case Unscoped(u) =>
      (match Set(env, u.name, quantifier)
       case Err(error) => Err(VariableFailure(error, u.name))
       case Ok(env') => Ok((v, env')))
    case Scoped(ScopedVariable(scope, name, location)) =>
      var checked :- CheckExpression(ctx, env, scope);
      Ok((Scoped(ScopedVariable(checked.0, name, location)), env))
  }

  //---------------------------------------------------------------------------
  // Attributes and conditions

  /** Attributes only have their value expressions checked. */
  function CheckAttributes(ctx: CheckContext, env: Env, attributes: seq<Attribute>): Result<seq<Attribute>, CheckError>
    requires Valid(ctx)
    decreases attributes
  {
    if attributes == [] then Ok([])
    else
      var value :- CheckExpression(ctx, env, attributes[0].value);
      var rest :- CheckAttributes(ctx, env, attributes[1..]);
      Ok([attributes[0].(value := value.0)] + rest)
  }

  /** The captures of a `some`/`none` condition must each be optional values. */
  function CheckOptionalCaptures(ctx: CheckContext, cs: seq<Capture>): Result<seq<Capture>, CheckError>
    requires Valid(ctx)
    decreases cs
  {
    if cs == [] then Ok([])
    else
      var checked :- CheckCapture(ctx, cs[0]);
      if checked.1 != ZeroOrOne then Err(ExpectedOptionalValue(cs[0].location))
      else
        var rest :- CheckOptionalCaptures(ctx, cs[1..]);
        Ok([checked.0] + rest)
  }

  function CheckConditions(ctx: CheckContext, conditions: seq<Condition>): Result<seq<Condition>, CheckError>
    requires Valid(ctx)
    decreases conditions
  {
    if conditions == [] then Ok([])
    else
      var captures :- CheckOptionalCaptures(ctx, conditions[0].captures);
      var condition := match conditions[0]
        case SomeCondition(_) => SomeCondition(captures)
        case NoneCondition(_) => NoneCondition(captures);
      var rest :- CheckConditions(ctx, conditions[1..]);
      Ok([condition] + rest)
  }

  //---------------------------------------------------------------------------
  // Statements
  //
  // Every statement check returns the environment at the depth it was
  // given: the child scopes compound statements open are dropped again.
  // Everything else the checks establish is stated in module Soundness.

  function CheckStatement(ctx: CheckContext, env: Env, s: Statement): (r: Result<(Statement, Env), CheckError>)
    requires Valid(ctx) && |env| > 0
    ensures r.Ok? ==> |r.value.1| == |env|
    decreases s, 1
  {
    match s
    case DeclareImmutable(_, _) => CheckDeclaration(ctx, env, s)
    case DeclareMutable(_, _) => CheckDeclaration(ctx, env, s)
    case Assign(_, _) => CheckAssign(ctx, env, s)
    case CreateGraphNode(_) => CheckCreateGraphNode(ctx, env, s)
    case AddGraphNodeAttribute(_, _) => CheckAddGraphNodeAttribute(ctx, env, s)
    case CreateEdge(_, _) => CheckCreateEdge(ctx, env, s)
    case AddEdgeAttribute(_, _, _) => CheckAddEdgeAttribute(ctx, env, s)
    case Scan(_, _) => CheckScan(ctx, env, s)
    case Print(_) => CheckPrint(ctx, env, s)
    case If(_) => CheckIf(ctx, env, s)
    case ForIn(_, _, _, _) => CheckForIn(ctx, env, s)
  }

  /** Blocks are checked statement by statement, stopping at the first error. */
  function CheckStatements(ctx: CheckContext, env: Env, ss: seq<Statement>): (r: Result<(seq<Statement>, Env), CheckError>)
    requires Valid(ctx) && |env| > 0
    ensures r.Ok? ==> |r.value.1| == |env|
    decreases ss, 0
  {
    if ss == [] then Ok(([], env))
    else
      var first :- CheckStatement(ctx, env, ss[0]);
      var rest :- CheckStatements(ctx, first.1, ss[1..]);
      Ok(([first.0] + rest.0, rest.1))
  }

  /** `let` and `var`: check the value, then declare the variable with its cardinality. */
  function CheckDeclaration(ctx: CheckContext, env: Env, s: Statement): (r: Result<(Statement, Env), CheckError>)
    requires Valid(ctx) && |env| > 0 && (s.DeclareImmutable? || s.DeclareMutable?)
    ensures r.Ok? ==> |r.value.1| == |env|
    decreases s, 0
  {
    var value :- CheckExpression(ctx, env, s.value);
    var declared :- CheckVariableAdd(ctx, env, s.variable, value.1, s.DeclareMutable?);
    var s' := if s.DeclareMutable? then DeclareMutable(declared.0, value.0) else DeclareImmutable(declared.0, value.0);
    Ok((s', declared.1))
  }

  /** `set`: check the value, then reassign the variable. */
  function CheckAssign(ctx: CheckContext, env: Env, s: Statement): (r: Result<(Statement, Env), CheckError>)
    requires Valid(ctx) && |env| > 0 && s.Assign?
    ensures r.Ok? ==> |r.value.1| == |env|
    decreases s, 0
  {
    var value :- CheckExpression(ctx, env, s.value);
    var updated :- CheckVariableSet(ctx, env, s.variable, value.1);
    Ok((Assign(updated.0, value.0), updated.1))
  }

  /** `node n`: a new node is a single value, bound immutably. */
  function CheckCreateGraphNode(ctx: CheckContext, env: Env, s: Statement): (r: Result<(Statement, Env), CheckError>)
    requires Valid(ctx) && |env| > 0 && s.CreateGraphNode?
    ensures r.Ok? ==> |r.value.1| == |env|
    decreases s, 0
  {
    var declared :- CheckVariableAdd(ctx, env, s.nodeVariable, One, false);
    Ok((CreateGraphNode(declared.0), declared.1))
  }

  function CheckAddGraphNodeAttribute(ctx: CheckContext, env: Env, s: Statement): (r: Result<(Statement, Env), CheckError>)
    requires Valid(ctx) && |env| > 0 && s.AddGraphNodeAttribute?
    ensures r.Ok? ==> r.value.1 == env
    decreases s, 0
  {
    var node :- CheckExpression(ctx, env, s.node);
    var attributes :- CheckAttributes(ctx, env, s.attributes);
    Ok((AddGraphNodeAttribute(node.0, attributes), env))
  }

  function CheckCreateEdge(ctx: CheckContext, env: Env, s: Statement): (r: Result<(Statement, Env), CheckError>)
    requires Valid(ctx) && |env| > 0 && s.CreateEdge?
    ensures r.Ok? ==> r.value.1 == env
    decreases s, 0
  {
    var source :- CheckExpression(ctx, env, s.source);
    var sink :- CheckExpression(ctx, env, s.sink);
    Ok((CreateEdge(source.0, sink.0), env))
  }

  function CheckAddEdgeAttribute(ctx: CheckContext, env: Env, s: Statement): (r: Result<(Statement, Env), CheckError>)
    requires Valid(ctx) && |env| > 0 && s.AddEdgeAttribute?
    ensures r.Ok? ==> r.value.1 == env
    decreases s, 0
  {
    var source :- CheckExpression(ctx, env, s.source);
    var sink :- CheckExpression(ctx, env, s.sink);
    var attributes :- CheckAttributes(ctx, env, s.attributes);
    Ok((AddEdgeAttribute(source.0, sink.0, attributes), env))
  }

  function CheckPrint(ctx: CheckContext, env: Env, s: Statement): (r: Result<(Statement, Env), CheckError>)
    requires Valid(ctx) && |env| > 0 && s.Print?
    ensures r.Ok? ==> r.value.1 == env
    decreases s, 0
  {
    var values :- CheckExpressions(ctx, env, s.values);
    Ok((Print(values), env))
  }

  /** `scan`: check the scanned value, then each arm's body in its own child scope. */
  function CheckScan(ctx: CheckContext, env: Env, s: Statement): (r: Result<(Statement, Env), CheckError>)
    requires Valid(ctx) && |env| > 0 && s.Scan?
    ensures r.Ok? ==> |r.value.1| == |env|
    decreases s, 0
  {
    var scanned :- CheckScanExpression(ctx, env, s.scanned);
    var arms :- CheckScanArms(ctx, env, s.scanArms);
    Ok((Scan(scanned.0, arms.0), arms.1))
  }

  function CheckScanArms(ctx: CheckContext, env: Env, arms: seq<ScanArm>): (r: Result<(seq<ScanArm>, Env), CheckError>)
    requires Valid(ctx) && |env| > 0
    ensures r.Ok? ==> |r.value.1| == |env|
    decreases arms
  {
    if arms == [] then Ok(([], env))
    else
      var body :- CheckStatements(ctx, Child(env), arms[0].statements);
      var rest :- CheckScanArms(ctx, body.1[1..], arms[1..]);
      Ok(([arms[0].(statements := body.0)] + rest.0, rest.1))
  }

  function CheckIf(ctx: CheckContext, env: Env, s: Statement): (r: Result<(Statement, Env), CheckError>)
    requires Valid(ctx) && |env| > 0 && s.If?
    ensures r.Ok? ==> |r.value.1| == |env|
    decreases s, 0
  {
    var arms :- CheckIfArms(ctx, env, s.ifArms);
    Ok((If(arms.0), arms.1))
  }

  /**
   * One arm: its conditions are checked in the enclosing scope, then its
   * body in a fresh child scope of the enclosing one, which is dropped.
   */
  function CheckIfArm(ctx: CheckContext, env: Env, arm: IfArm): (r: Result<(IfArm, Env), CheckError>)
    requires Valid(ctx) && |env| > 0
    ensures r.Ok? ==> |r.value.1| == |env|
    decreases arm, 1
  {
    var conditions :- CheckConditions(ctx, arm.conditions);
    var body :- CheckStatements(ctx, Child(env), arm.statements);
    Ok((IfArm(conditions, body.0), body.1[1..]))
  }

  function CheckIfArms(ctx: CheckContext, env: Env, arms: seq<IfArm>): (r: Result<(seq<IfArm>, Env), CheckError>)
    requires Valid(ctx) && |env| > 0
    ensures r.Ok? ==> |r.value.1| == |env|
    decreases arms
  {
    if arms == [] then Ok(([], env))
    else
      var first :- CheckIfArm(ctx, env, arms[0]);
      var rest :- CheckIfArms(ctx, first.1, arms[1..]);
      Ok(([first.0] + rest.0, rest.1))
  }

  /**
   * `for v in @c`: the capture must be a list value; the loop variable is
   * bound immutably, with the capture's own quantifier, in a fresh child
   * scope in which the body is checked.
   */
  function CheckForIn(ctx: CheckContext, env: Env, s: Statement): (r: Result<(Statement, Env), CheckError>)
    requires Valid(ctx) && |env| > 0 && s.ForIn?
    ensures r.Ok? ==> |r.value.1| == |env|
    decreases s, 0
  {
    var captured :- CheckCapture(ctx, s.capture);
    if !IsList(captured.1) then Err(ExpectedListValue(s.location))
    else
      var body :- CheckLoopBody(ctx, env, s.loopVariable.name, captured.1, s.body);
      Ok((ForIn(s.loopVariable, captured.0, body.0, s.location), body.1))
  }

  /**
   * A loop body: checked in a fresh child scope that holds only the loop
   * variable, bound immutably with `quantifier`; the child is dropped.
   */
  function CheckLoopBody(ctx: CheckContext, env: Env, name: Name, quantifier: Quantifier, body: seq<Statement>)
    : (r: Result<(seq<Statement>, Env), CheckError>)
    requires Valid(ctx) && |env| > 0
    ensures r.Ok? ==> |r.value.1| == |env|
    decreases body, 1
  {
    match Add(Child(env), name, quantifier, false)
    case Err(error) => Err(VariableFailure(error, name))
    case Ok(loopEnv) =>
      var checked :- CheckStatements(ctx, loopEnv, body);
      Ok((checked.0, checked.1[1..]))
  }

  //---------------------------------------------------------------------------
  // Stanzas and files

  /**
   * The file query exists, defines the full-match capture, and every
   * stanza's query can be resolved against it at the stanza's position.
   */
  predicate WellFormed(file: File) {
    && file.query.Some?
    && FullMatch in file.query.value.captureIndices
    && forall i :: 0 <= i < |file.stanzas| ==> Compatible(file.query.value, i, file.stanzas[i].query)
  }

  /**
   * A stanza is checked from a brand-new root environment: nothing bound in
   * another stanza is visible. Its full-match index is read from the file query.
   */
  function CheckStanza(fileQuery: Query, index: nat, stanza: Stanza): (r: Result<Stanza, CheckError>)
    requires FullMatch in fileQuery.captureIndices
    requires Compatible(fileQuery, index, stanza.query)
    ensures r.Ok? ==> r.value.query == stanza.query
    ensures r.Ok? ==> r.value.fullMatchFileCaptureIndex == fileQuery.captureIndices[FullMatch]
  {
    var ctx := CheckContext(fileQuery, index, stanza.query);
    var fullMatch := fileQuery.captureIndices[FullMatch];
    var body :- CheckStatements(ctx, Root(), stanza.statements);
    Ok(Stanza(stanza.query, body.0, fullMatch))
  }

  /**
   * Stanzas are checked in order; the first failing stanza's error is the
   * file's error, and success means every stanza was checked successfully.
   */
  method CheckFile(file: File) returns (r: Result<File, CheckError>)
    requires WellFormed(file)
    ensures r.Ok? <==> forall i :: 0 <= i < |file.stanzas| ==> CheckStanza(file.query.value, i, file.stanzas[i]).Ok?
    ensures r.Ok? ==> r.value.query == file.query && |r.value.stanzas| == |file.stanzas|
    ensures r.Ok? ==> forall i :: 0 <= i < |file.stanzas| ==> CheckStanza(file.query.value, i, file.stanzas[i]) == Ok(r.value.stanzas[i])
    ensures r.Err? ==> exists i :: && 0 <= i < |file.stanzas|
                                   && (forall j :: 0 <= j < i ==> CheckStanza(file.query.value, j, file.stanzas[j]).Ok?)
                                   && CheckStanza(file.query.value, i, file.stanzas[i]) == Err(r.error)
  {
    var fileQuery := file.query.value;
    var checked: seq<Stanza> := [];
    var i := 0;
    while i < |file.stanzas|
      invariant 0 <= i <= |file.stanzas|
      invariant |checked| == i
      invariant forall j :: 0 <= j < i ==> CheckStanza(fileQuery, j, file.stanzas[j]) == Ok(checked[j])
    {
      assert Compatible(fileQuery, i, file.stanzas[i].query);
      var stanza := CheckStanza(fileQuery, i, file.stanzas[i]);
      if stanza.Err? {
        assert forall j :: 0 <= j < i ==> CheckStanza(fileQuery, j, file.stanzas[j]).Ok?;
        return Err(stanza.error);
      }
      checked := checked + [stanza.value];
      assert checked[i] == stanza.value;
      i := i + 1;
    }
    return Ok(File(checked, file.query));
  }
}
