/**
 * What the checks of module Checker establish. Each check is matched by a
 * lemma, proved by induction along the same recursion: on success every
 * capture was defined and the result carries the annotations resolution
 * gives (CapturesChecked), the result differs from the input only in those
 * annotations (the Erase functions), and the environment evolves as Frames
 * allows; a failure about a capture names the first undefined one.
 */
module Soundness {
  import opened Quantifiers
  import opened Results
  import opened Names
  import opened Ast
  import opened Variables
  import opened Checker

  /**
   * What checking a tree whose captures (in checking order) are `before` may
   * return, given the failure it reported, if any: without a failure every
   * capture was defined and every capture of the result `after` is
   * resolved; a failure that is about a capture names the first undefined one.
   */
  ghost predicate CapturesChecked(ctx: CheckContext, before: seq<Capture>, failure: Option<CheckError>, after: seq<Capture>)
    requires Valid(ctx)
  {
    && (failure.None? ==> FirstUndefined(ctx, before).None? && AllResolved(ctx, after))
    && (failure.Some? && failure.value.UndefinedSyntaxCapture? ==>
          FirstUndefined(ctx, before).Some? && failure.value == UndefinedError(FirstUndefined(ctx, before).value))
  }

  /** The error a check reported, if it failed. */
  function FailureOf<T>(r: Result<T, CheckError>): (f: Option<CheckError>)
    ensures f.None? <==> r.Ok?
    ensures r.Err? ==> f == Some(r.error)
  {
    if r.Err? then Some(r.error) else None
  }

  //---------------------------------------------------------------------------
  // Expressions

  /** The contract every expression check meets; its only failures are undefined captures. */
  ghost predicate ExpressionChecked(ctx: CheckContext, e: Expression, r: Result<(Expression, Quantifier), CheckError>)
    requires Valid(ctx)
  {
    && CapturesChecked(ctx, ExpressionCaptures(e), FailureOf(r), if r.Ok? then ExpressionCaptures(r.value.0) else [])
    && (r.Ok? ==> EraseExpression(r.value.0) == EraseExpression(e))
    && (r.Err? ==> r.error.UndefinedSyntaxCapture?)
  }

  lemma {:induction false} ExpressionSound(ctx: CheckContext, env: Env, e: Expression)
    requires Valid(ctx)
    ensures ExpressionChecked(ctx, e, CheckExpression(ctx, env, e))
    decreases e, 1
  {
    match e
    case ListComprehension(_) => ListComprehensionSound(ctx, env, e);
    case SetComprehension(_) => SetComprehensionSound(ctx, env, e);
    case VariableExpression(_) => VariableExpressionSound(ctx, env, e);
    case Call(_, _) => CallSound(ctx, env, e);
    case CaptureExpression(c) =>
      assert CheckExpression(ctx, env, e) == CheckCaptureExpression(ctx, e);
    case _ =>
  }

  lemma {:induction false} ListComprehensionSound(ctx: CheckContext, env: Env, e: Expression)
    requires Valid(ctx) && e.ListComprehension?
    ensures ExpressionChecked(ctx, e, CheckListComprehension(ctx, env, e))
    decreases e, 0
  {
    ExpressionsSound(ctx, env, e.elements);
  }

  lemma {:induction false} SetComprehensionSound(ctx: CheckContext, env: Env, e: Expression)
    requires Valid(ctx) && e.SetComprehension?
    ensures ExpressionChecked(ctx, e, CheckSetComprehension(ctx, env, e))
    decreases e, 0
  {
    ExpressionsSound(ctx, env, e.elements);
  }

  lemma {:induction false} VariableExpressionSound(ctx: CheckContext, env: Env, e: Expression)
    requires Valid(ctx) && e.VariableExpression?
    ensures ExpressionChecked(ctx, e, CheckVariableExpression(ctx, env, e))
    decreases e, 0
  {
    VariableGetSound(ctx, env, e.variable);
  }

  lemma {:induction false} CallSound(ctx: CheckContext, env: Env, e: Expression)
    requires Valid(ctx) && e.Call?
    ensures ExpressionChecked(ctx, e, CheckCall(ctx, env, e))
    decreases e, 0
  {
    ExpressionsSound(ctx, env, e.parameters);
  }

  lemma {:induction false} ExpressionsSound(ctx: CheckContext, env: Env, es: seq<Expression>)
    requires Valid(ctx)
    ensures var r := CheckExpressions(ctx, env, es);
            && CapturesChecked(ctx, ExpressionsCaptures(es), FailureOf(r), if r.Ok? then ExpressionsCaptures(r.value) else [])
            && (r.Ok? ==> EraseExpressions(r.value) == EraseExpressions(es))
            && (r.Err? ==> r.error.UndefinedSyntaxCapture?)
    decreases es
  {
    if es != [] {
      FirstUndefinedAppend(ctx, ExpressionCaptures(es[0]), ExpressionsCaptures(es[1..]));
      ExpressionSound(ctx, env, es[0]);
      ExpressionsSound(ctx, env, es[1..]);
      var first := CheckExpression(ctx, env, es[0]);
      var rest := CheckExpressions(ctx, env, es[1..]);
      if first.Ok? && rest.Ok? {
        var es' := [first.value.0] + rest.value;
        assert es'[0] == first.value.0 && es'[1..] == rest.value;
      }
    }
  }

  lemma ScanExpressionSound(ctx: CheckContext, env: Env, e: ScanExpression)
    requires Valid(ctx)
    ensures var r := CheckScanExpression(ctx, env, e);
            && CapturesChecked(ctx, ScanExpressionCaptures(e), FailureOf(r), if r.Ok? then ScanExpressionCaptures(r.value.0) else [])
            && (r.Ok? ==> EraseScanExpression(r.value.0) == EraseScanExpression(e))
            && (r.Err? ==> r.error.UndefinedSyntaxCapture?)
  {
    if e.ScanVariable? {
      VariableGetSound(ctx, env, e.variable);
    }
  }

  //---------------------------------------------------------------------------
  // Variables

  lemma {:induction false} VariableGetSound(ctx: CheckContext, env: Env, v: Variable)
    requires Valid(ctx)
    ensures var r := CheckVariableGet(ctx, env, v);
            && CapturesChecked(ctx, VariableCaptures(v), FailureOf(r), if r.Ok? then VariableCaptures(r.value.0) else [])
            && (r.Ok? ==> EraseVariable(r.value.0) == EraseVariable(v))
            && (r.Err? ==> r.error.UndefinedSyntaxCapture?)
    decreases v
  {
    if v.Scoped? {
      ExpressionSound(ctx, env, v.scoped.scope);
    }
  }

  /**
   * Declaring an unscoped name fails exactly when the innermost scope
   * already declares it; otherwise the name reads back with the given
   * binding and the innermost scope gains exactly that name. A scoped
   * target only has its scope expression checked.
   */
  lemma VariableAddSound(ctx: CheckContext, env: Env, v: Variable, quantifier: Quantifier, mutable: bool)
    requires Valid(ctx) && |env| > 0
    ensures var r := CheckVariableAdd(ctx, env, v, quantifier, mutable);
            && CapturesChecked(ctx, VariableCaptures(v), FailureOf(r), if r.Ok? then VariableCaptures(r.value.0) else [])
            && (r.Ok? ==> EraseVariable(r.value.0) == EraseVariable(v))
            && (v.Unscoped? ==> (r.Err? <==> v.unscoped.name in env[0]))
            && (v.Unscoped? && r.Err? ==> r.error == VariableFailure(AlreadyDefined, v.unscoped.name))
            && (v.Unscoped? && r.Ok? ==> Lookup(r.value.1, v.unscoped.name) == Some(Binding(quantifier, mutable)))
            && (r.Ok? ==> Frames(env, r.value.1, {}, if v.Unscoped? then {v.unscoped.name} else {}))
            && (v.Scoped? ==> (r.Ok? <==> CheckExpression(ctx, env, v.scoped.scope).Ok?))
            && (v.Scoped? && r.Err? ==> r.error.UndefinedSyntaxCapture?)
  {
    if v.Scoped? {
      ExpressionSound(ctx, env, v.scoped.scope);
      FramesRefl(env);
    }
  }

  /**
   * Reassigning an unscoped name needs a visible mutable binding; it then
   * reads back with the new cardinality, and only that binding changes. A
   * scoped target only has its scope expression checked.
   */
  lemma VariableSetSound(ctx: CheckContext, env: Env, v: Variable, quantifier: Quantifier)
    requires Valid(ctx)
    ensures var r := CheckVariableSet(ctx, env, v, quantifier);
            && CapturesChecked(ctx, VariableCaptures(v), FailureOf(r), if r.Ok? then VariableCaptures(r.value.0) else [])
            && (r.Ok? ==> EraseVariable(r.value.0) == EraseVariable(v))
            && (v.Unscoped? && Lookup(env, v.unscoped.name).None? ==>
                  r == Err(VariableFailure(UndefinedVariable, v.unscoped.name)))
            && (v.Unscoped? && Lookup(env, v.unscoped.name).Some? && !Lookup(env, v.unscoped.name).value.mutable ==>
                  r == Err(VariableFailure(CannotAssignImmutableVariable, v.unscoped.name)))
            && (v.Unscoped? && r.Ok? ==> Lookup(r.value.1, v.unscoped.name) == Some(Binding(quantifier, true)))
            && (r.Ok? ==> Frames(env, r.value.1, if v.Unscoped? then {v.unscoped.name} else {}, {}))
            && (v.Scoped? ==> (r.Ok? <==> CheckExpression(ctx, env, v.scoped.scope).Ok?))
            && (v.Scoped? && r.Err? ==> r.error.UndefinedSyntaxCapture?)
  {
    if v.Scoped? {
      ExpressionSound(ctx, env, v.scoped.scope);
      FramesRefl(env);
    } else if Set(env, v.unscoped.name, quantifier).Ok? {
      SetEffect(env, v.unscoped.name, quantifier, Set(env, v.unscoped.name, quantifier).value);
    }
  }

  //---------------------------------------------------------------------------
  // Attributes and conditions

  lemma {:induction false} AttributesSound(ctx: CheckContext, env: Env, attributes: seq<Attribute>)
    requires Valid(ctx)
    ensures var r := CheckAttributes(ctx, env, attributes);
            && CapturesChecked(ctx, AttributesCaptures(attributes), FailureOf(r), if r.Ok? then AttributesCaptures(r.value) else [])
            && (r.Ok? ==> EraseAttributes(r.value) == EraseAttributes(attributes))
            && (r.Err? ==> r.error.UndefinedSyntaxCapture?)
    decreases attributes
  {
    if attributes != [] {
      FirstUndefinedAppend(ctx, ExpressionCaptures(attributes[0].value), AttributesCaptures(attributes[1..]));
      ExpressionSound(ctx, env, attributes[0].value);
      AttributesSound(ctx, env, attributes[1..]);
      var value := CheckExpression(ctx, env, attributes[0].value);
      var rest := CheckAttributes(ctx, env, attributes[1..]);
      if value.Ok? && rest.Ok? {
        var attributes' := [attributes[0].(value := value.value.0)] + rest.value;
        assert attributes'[0] == attributes[0].(value := value.value.0) && attributes'[1..] == rest.value;
      }
    }
  }

  /** On success every capture of a `some`/`none` condition is annotated as ZeroOrOne. */
  lemma {:induction false} OptionalCapturesSound(ctx: CheckContext, cs: seq<Capture>)
    requires Valid(ctx)
    ensures var r := CheckOptionalCaptures(ctx, cs);
            && CapturesChecked(ctx, cs, FailureOf(r), if r.Ok? then r.value else [])
            && (r.Ok? ==> EraseCaptures(r.value) == EraseCaptures(cs))
            && (r.Ok? ==> forall i :: 0 <= i < |r.value| ==> r.value[i].quantifier == ZeroOrOne)
            && (r.Err? ==> r.error.UndefinedSyntaxCapture? || r.error.ExpectedOptionalValue?)
    decreases cs
  {
    if cs != [] {
      FirstUndefinedAppend(ctx, [cs[0]], cs[1..]);
      assert [cs[0]] + cs[1..] == cs;
      OptionalCapturesSound(ctx, cs[1..]);
      var checked := CheckCapture(ctx, cs[0]);
      var rest := CheckOptionalCaptures(ctx, cs[1..]);
      if checked.Ok? && checked.value.1 == ZeroOrOne && rest.Ok? {
        var cs' := [checked.value.0] + rest.value;
        assert cs'[0] == checked.value.0 && cs'[1..] == rest.value;
      }
    }
  }

  lemma {:induction false} ConditionsSound(ctx: CheckContext, conditions: seq<Condition>)
    requires Valid(ctx)
    ensures var r := CheckConditions(ctx, conditions);
            && CapturesChecked(ctx, ConditionsCaptures(conditions), FailureOf(r), if r.Ok? then ConditionsCaptures(r.value) else [])
            && (r.Ok? ==> EraseConditions(r.value) == EraseConditions(conditions))
            && (r.Err? ==> r.error.UndefinedSyntaxCapture? || r.error.ExpectedOptionalValue?)
    decreases conditions
  {
    if conditions != [] {
      FirstUndefinedAppend(ctx, conditions[0].captures, ConditionsCaptures(conditions[1..]));
      OptionalCapturesSound(ctx, conditions[0].captures);
      ConditionsSound(ctx, conditions[1..]);
      var captures := CheckOptionalCaptures(ctx, conditions[0].captures);
      var rest := CheckConditions(ctx, conditions[1..]);
      if captures.Ok? && rest.Ok? {
        var condition := match conditions[0]
          case SomeCondition(_) => SomeCondition(captures.value)
          case NoneCondition(_) => NoneCondition(captures.value);
        var conditions' := [condition] + rest.value;
        assert conditions'[0] == condition && conditions'[1..] == rest.value;
      }
    }
  }

  //---------------------------------------------------------------------------
  // Statements

  /**
   * The contract every statement check meets: captures as CapturesChecked
   * says, the result differs from `s` only in capture annotations, and the
   * environment evolves as Frames allows, the innermost scope gaining
   * exactly the names `s` declares, none of which it held before.
   */
  ghost predicate StatementChecked(ctx: CheckContext, env: Env, s: Statement, r: Result<(Statement, Env), CheckError>)
    requires Valid(ctx) && |env| > 0
  {
    && CapturesChecked(ctx, StatementCaptures(s), FailureOf(r), if r.Ok? then StatementCaptures(r.value.0) else [])
    && (r.Ok? ==> EraseStatement(r.value.0) == EraseStatement(s))
    && (r.Ok? ==> Frames(env, r.value.1, WrittenNames(s), DeclaredNames(s)))
    && (r.Ok? ==> DeclaredNames(s) !! env[0].Keys)
  }

  ghost predicate StatementsChecked(ctx: CheckContext, env: Env, ss: seq<Statement>, r: Result<(seq<Statement>, Env), CheckError>)
    requires Valid(ctx) && |env| > 0
  {
    && CapturesChecked(ctx, StatementsCaptures(ss), FailureOf(r), if r.Ok? then StatementsCaptures(r.value.0) else [])
    && (r.Ok? ==> EraseStatements(r.value.0) == EraseStatements(ss))
    && (r.Ok? ==> Frames(env, r.value.1, StatementsWrittenNames(ss), StatementsDeclaredNames(ss)))
    && (r.Ok? ==> StatementsDeclaredNames(ss) !! env[0].Keys)
  }

  lemma {:induction false} StatementSound(ctx: CheckContext, env: Env, s: Statement)
    requires Valid(ctx) && |env| > 0
    ensures StatementChecked(ctx, env, s, CheckStatement(ctx, env, s))
    decreases s, 1
  {
    match s
    case DeclareImmutable(_, _) => DeclarationSound(ctx, env, s);
    case DeclareMutable(_, _) => DeclarationSound(ctx, env, s);
    case Assign(_, _) => AssignSound(ctx, env, s);
    case CreateGraphNode(_) => CreateGraphNodeSound(ctx, env, s);
    case AddGraphNodeAttribute(_, _) => AddGraphNodeAttributeSound(ctx, env, s);
    case CreateEdge(_, _) => CreateEdgeSound(ctx, env, s);
    case AddEdgeAttribute(_, _, _) => AddEdgeAttributeSound(ctx, env, s);
    case Scan(_, _) => ScanSound(ctx, env, s);
    case Print(_) => PrintSound(ctx, env, s);
    case If(_) => IfSound(ctx, env, s);
    case ForIn(_, _, _, _) => ForInSound(ctx, env, s);
  }

  lemma {:induction false} StatementsSound(ctx: CheckContext, env: Env, ss: seq<Statement>)
    requires Valid(ctx) && |env| > 0
    ensures StatementsChecked(ctx, env, ss, CheckStatements(ctx, env, ss))
    decreases ss, 0
  {
    if ss == [] {
      FramesRefl(env);
    } else {
      FirstUndefinedAppend(ctx, StatementCaptures(ss[0]), StatementsCaptures(ss[1..]));
      StatementSound(ctx, env, ss[0]);
      var first := CheckStatement(ctx, env, ss[0]);
      if first.Ok? {
        var env1 := first.value.1;
        assert ScopeFrames(env[0], env1[0], WrittenNames(ss[0]), DeclaredNames(ss[0]));
        StatementsSound(ctx, env1, ss[1..]);
        var rest := CheckStatements(ctx, env1, ss[1..]);
        if rest.Ok? {
          FramesTrans(env, env1, rest.value.1, WrittenNames(ss[0]), DeclaredNames(ss[0]),
                      StatementsWrittenNames(ss[1..]), StatementsDeclaredNames(ss[1..]));
          var ss' := [first.value.0] + rest.value.0;
          assert ss'[0] == first.value.0 && ss'[1..] == rest.value.0;
        }
      }
    }
  }

  lemma {:induction false} DeclarationSound(ctx: CheckContext, env: Env, s: Statement)
    requires Valid(ctx) && |env| > 0 && (s.DeclareImmutable? || s.DeclareMutable?)
    ensures StatementChecked(ctx, env, s, CheckDeclaration(ctx, env, s))
    decreases s, 0
  {
    FirstUndefinedAppend(ctx, ExpressionCaptures(s.value), VariableCaptures(s.variable));
    ExpressionSound(ctx, env, s.value);
    var value := CheckExpression(ctx, env, s.value);
    if value.Err? {
      assert CheckDeclaration(ctx, env, s) == Err(value.error);
    } else {
      VariableAddSound(ctx, env, s.variable, value.value.1, s.DeclareMutable?);
      var declared := CheckVariableAdd(ctx, env, s.variable, value.value.1, s.DeclareMutable?);
      if declared.Err? {
        assert CheckDeclaration(ctx, env, s) == Err(declared.error);
      } else {
        var s' := if s.DeclareMutable? then DeclareMutable(declared.value.0, value.value.0) else DeclareImmutable(declared.value.0, value.value.0);
        assert CheckDeclaration(ctx, env, s) == Ok((s', declared.value.1));
        assert StatementCaptures(s') == ExpressionCaptures(value.value.0) + VariableCaptures(declared.value.0);
      }
    }
  }

  lemma {:induction false} AssignSound(ctx: CheckContext, env: Env, s: Statement)
    requires Valid(ctx) && |env| > 0 && s.Assign?
    ensures StatementChecked(ctx, env, s, CheckAssign(ctx, env, s))
    decreases s, 0
  {
    FirstUndefinedAppend(ctx, ExpressionCaptures(s.value), VariableCaptures(s.variable));
    ExpressionSound(ctx, env, s.value);
    var value := CheckExpression(ctx, env, s.value);
    if value.Err? {
      assert CheckAssign(ctx, env, s) == Err(value.error);
    } else {
      VariableSetSound(ctx, env, s.variable, value.value.1);
      var target := CheckVariableSet(ctx, env, s.variable, value.value.1);
      if target.Err? {
        assert CheckAssign(ctx, env, s) == Err(target.error);
      } else {
        var s' := Assign(target.value.0, value.value.0);
        assert CheckAssign(ctx, env, s) == Ok((s', target.value.1));
        assert StatementCaptures(s') == ExpressionCaptures(value.value.0) + VariableCaptures(target.value.0);
      }
    }
  }

  lemma {:induction false} CreateGraphNodeSound(ctx: CheckContext, env: Env, s: Statement)
    requires Valid(ctx) && |env| > 0 && s.CreateGraphNode?
    ensures StatementChecked(ctx, env, s, CheckCreateGraphNode(ctx, env, s))
    decreases s, 0
  {
    VariableAddSound(ctx, env, s.nodeVariable, One, false);
  }

  lemma {:induction false} AddGraphNodeAttributeSound(ctx: CheckContext, env: Env, s: Statement)
    requires Valid(ctx) && |env| > 0 && s.AddGraphNodeAttribute?
    ensures StatementChecked(ctx, env, s, CheckAddGraphNodeAttribute(ctx, env, s))
    decreases s, 0
  {
    FirstUndefinedAppend(ctx, ExpressionCaptures(s.node), AttributesCaptures(s.attributes));
    ExpressionSound(ctx, env, s.node);
    AttributesSound(ctx, env, s.attributes);
    FramesRefl(env);
  }

  lemma {:induction false} CreateEdgeSound(ctx: CheckContext, env: Env, s: Statement)
    requires Valid(ctx) && |env| > 0 && s.CreateEdge?
    ensures StatementChecked(ctx, env, s, CheckCreateEdge(ctx, env, s))
    decreases s, 0
  {
    FirstUndefinedAppend(ctx, ExpressionCaptures(s.source), ExpressionCaptures(s.sink));
    ExpressionSound(ctx, env, s.source);
    ExpressionSound(ctx, env, s.sink);
    FramesRefl(env);
  }

  lemma {:induction false} AddEdgeAttributeSound(ctx: CheckContext, env: Env, s: Statement)
    requires Valid(ctx) && |env| > 0 && s.AddEdgeAttribute?
    ensures StatementChecked(ctx, env, s, CheckAddEdgeAttribute(ctx, env, s))
    decreases s, 0
  {
    FirstUndefinedAppend(ctx, ExpressionCaptures(s.source), ExpressionCaptures(s.sink));
    FirstUndefinedAppend(ctx, ExpressionCaptures(s.source) + ExpressionCaptures(s.sink), AttributesCaptures(s.attributes));
    ExpressionSound(ctx, env, s.source);
    ExpressionSound(ctx, env, s.sink);
    AttributesSound(ctx, env, s.attributes);
    FramesRefl(env);
  }

  lemma {:induction false} PrintSound(ctx: CheckContext, env: Env, s: Statement)
    requires Valid(ctx) && |env| > 0 && s.Print?
    ensures StatementChecked(ctx, env, s, CheckPrint(ctx, env, s))
    decreases s, 0
  {
    ExpressionsSound(ctx, env, s.values);
    FramesRefl(env);
  }

  lemma {:induction false} ScanSound(ctx: CheckContext, env: Env, s: Statement)
    requires Valid(ctx) && |env| > 0 && s.Scan?
    ensures StatementChecked(ctx, env, s, CheckScan(ctx, env, s))
    decreases s, 0
  {
    FirstUndefinedAppend(ctx, ScanExpressionCaptures(s.scanned), ScanArmsCaptures(s.scanArms));
    ScanExpressionSound(ctx, env, s.scanned);
    ScanArmsSound(ctx, env, s.scanArms);
  }

  /** Each `scan` arm's body runs in its own child scope, so the arms together declare nothing. */
  lemma {:induction false} ScanArmsSound(ctx: CheckContext, env: Env, arms: seq<ScanArm>)
    requires Valid(ctx) && |env| > 0
    ensures var r := CheckScanArms(ctx, env, arms);
            && CapturesChecked(ctx, ScanArmsCaptures(arms), FailureOf(r), if r.Ok? then ScanArmsCaptures(r.value.0) else [])
            && (r.Ok? ==> EraseScanArms(r.value.0) == EraseScanArms(arms))
            && (r.Ok? ==> Frames(env, r.value.1, ScanArmsWrittenNames(arms), {}))
    decreases arms
  {
    if arms == [] {
      FramesRefl(env);
    } else {
      FirstUndefinedAppend(ctx, StatementsCaptures(arms[0].statements), ScanArmsCaptures(arms[1..]));
      StatementsSound(ctx, Child(env), arms[0].statements);
      var body := CheckStatements(ctx, Child(env), arms[0].statements);
      if body.Ok? {
        FramesPop(Child(env), body.value.1, StatementsWrittenNames(arms[0].statements), StatementsDeclaredNames(arms[0].statements));
        var env1 := body.value.1[1..];
        ScanArmsSound(ctx, env1, arms[1..]);
        var rest := CheckScanArms(ctx, env1, arms[1..]);
        if rest.Ok? {
          FramesTrans(env, env1, rest.value.1, StatementsWrittenNames(arms[0].statements), {}, ScanArmsWrittenNames(arms[1..]), {});
          var arms' := [arms[0].(statements := body.value.0)] + rest.value.0;
          assert arms'[0] == arms[0].(statements := body.value.0) && arms'[1..] == rest.value.0;
        }
      }
    }
  }

  lemma {:induction false} IfSound(ctx: CheckContext, env: Env, s: Statement)
    requires Valid(ctx) && |env| > 0 && s.If?
    ensures StatementChecked(ctx, env, s, CheckIf(ctx, env, s))
    decreases s, 0
  {
    assert StatementCaptures(s) == IfArmsCaptures(s.ifArms);
    assert WrittenNames(s) == IfArmsWrittenNames(s.ifArms) && DeclaredNames(s) == {};
    IfArmsSound(ctx, env, s.ifArms);
    var arms := CheckIfArms(ctx, env, s.ifArms);
    if arms.Ok? {
      var s' := If(arms.value.0);
      assert StatementCaptures(s') == IfArmsCaptures(arms.value.0);
      assert EraseStatement(s') == If(EraseIfArms(arms.value.0));
    }
  }

  /** The contract of checking one `if` arm. */
  ghost predicate IfArmChecked(ctx: CheckContext, env: Env, arm: IfArm, r: Result<(IfArm, Env), CheckError>)
    requires Valid(ctx)
  {
    && CapturesChecked(ctx, ConditionsCaptures(arm.conditions) + StatementsCaptures(arm.statements), FailureOf(r),
                       if r.Ok? then ConditionsCaptures(r.value.0.conditions) + StatementsCaptures(r.value.0.statements) else [])
    && (r.Ok? ==> EraseConditions(r.value.0.conditions) == EraseConditions(arm.conditions))
    && (r.Ok? ==> EraseStatements(r.value.0.statements) == EraseStatements(arm.statements))
    && (r.Ok? ==> Frames(env, r.value.1, StatementsWrittenNames(arm.statements), {}))
  }

  /** The contract of checking the arms of an `if`: the arms together declare nothing. */
  ghost predicate IfArmsChecked(ctx: CheckContext, env: Env, arms: seq<IfArm>, r: Result<(seq<IfArm>, Env), CheckError>)
    requires Valid(ctx)
  {
    && CapturesChecked(ctx, IfArmsCaptures(arms), FailureOf(r), if r.Ok? then IfArmsCaptures(r.value.0) else [])
    && (r.Ok? ==> EraseIfArms(r.value.0) == EraseIfArms(arms))
    && (r.Ok? ==> Frames(env, r.value.1, IfArmsWrittenNames(arms), {}))
  }

  /** An arm's conditions are checked first, then its body in a child scope that is dropped. */
  lemma {:induction false} IfArmSound(ctx: CheckContext, env: Env, arm: IfArm)
    requires Valid(ctx) && |env| > 0
    ensures IfArmChecked(ctx, env, arm, CheckIfArm(ctx, env, arm))
    decreases arm, 1
  {
    FirstUndefinedAppend(ctx, ConditionsCaptures(arm.conditions), StatementsCaptures(arm.statements));
    ConditionsSound(ctx, arm.conditions);
    StatementsSound(ctx, Child(env), arm.statements);
    var body := CheckStatements(ctx, Child(env), arm.statements);
    if body.Ok? {
      FramesPop(Child(env), body.value.1, StatementsWrittenNames(arm.statements), StatementsDeclaredNames(arm.statements));
    }
  }

  lemma {:induction false} IfArmsSound(ctx: CheckContext, env: Env, arms: seq<IfArm>)
    requires Valid(ctx) && |env| > 0
    ensures IfArmsChecked(ctx, env, arms, CheckIfArms(ctx, env, arms))
    decreases arms
  {
    if arms == [] {
      FramesRefl(env);
    } else {
      IfArmSound(ctx, env, arms[0]);
      var first := CheckIfArm(ctx, env, arms[0]);
      var rest := if first.Ok? then CheckIfArms(ctx, first.value.1, arms[1..]) else Ok(([], env));
      if first.Ok? {
        IfArmsSound(ctx, first.value.1, arms[1..]);
      }
      IfArmsCons(ctx, env, arms, first, rest);
    }
  }

  /**
   * The arms' contract composes: the first arm's result followed, from the
   * environment it leaves, by the other arms' result.
   */
  lemma IfArmsCons(ctx: CheckContext, env: Env, arms: seq<IfArm>,
                   first: Result<(IfArm, Env), CheckError>, rest: Result<(seq<IfArm>, Env), CheckError>)
    requires Valid(ctx) && arms != []
    requires IfArmChecked(ctx, env, arms[0], first)
    requires first.Ok? ==> IfArmsChecked(ctx, first.value.1, arms[1..], rest)
    ensures IfArmsChecked(ctx, env, arms,
                          match first
                          case Err(error) => Err(error)
                          case Ok(f) =>
                            match rest
                            case Err(error) => Err(error)
                            case Ok(checked) => Ok(([f.0] + checked.0, checked.1)))
  {
    FirstUndefinedAppend(ctx, ConditionsCaptures(arms[0].conditions) + StatementsCaptures(arms[0].statements), IfArmsCaptures(arms[1..]));
    if first.Ok? && rest.Ok? {
      var arms' := [first.value.0] + rest.value.0;
      assert arms'[0] == first.value.0 && arms'[1..] == rest.value.0;
      FramesTrans(env, first.value.1, rest.value.1, StatementsWrittenNames(arms[0].statements), {}, IfArmsWrittenNames(arms[1..]), {});
    }
  }

  lemma {:induction false} ForInSound(ctx: CheckContext, env: Env, s: Statement)
    requires Valid(ctx) && |env| > 0 && s.ForIn?
    ensures StatementChecked(ctx, env, s, CheckForIn(ctx, env, s))
    decreases s, 0
  {
    assert StatementCaptures(s) == [s.capture] + StatementsCaptures(s.body);
    assert WrittenNames(s) == StatementsWrittenNames(s.body) && DeclaredNames(s) == {};
    assert [s.capture][1..] == [];
    FirstUndefinedAppend(ctx, [s.capture], StatementsCaptures(s.body));
    var captured := CheckCapture(ctx, s.capture);
    if captured.Err? {
      assert CheckForIn(ctx, env, s) == Err(captured.error);
    } else if !IsList(captured.value.1) {
      assert CheckForIn(ctx, env, s) == Err(ExpectedListValue(s.location));
    } else {
      LoopBodySound(ctx, env, s.loopVariable.name, captured.value.1, s.body);
      var body := CheckLoopBody(ctx, env, s.loopVariable.name, captured.value.1, s.body);
      if body.Err? {
        assert CheckForIn(ctx, env, s) == Err(body.error);
      } else {
        var s' := ForIn(s.loopVariable, captured.value.0, body.value.0, s.location);
        assert CheckForIn(ctx, env, s) == Ok((s', body.value.1));
        assert StatementCaptures(s') == [captured.value.0] + StatementsCaptures(body.value.0);
        assert Frames(env, body.value.1, WrittenNames(s), DeclaredNames(s));
        assert EraseStatement(s') == EraseStatement(s);
      }
    }
  }

  /** The loop variable and everything the body declares vanish with the loop's child scope. */
  lemma {:induction false} LoopBodySound(ctx: CheckContext, env: Env, name: Name, quantifier: Quantifier, body: seq<Statement>)
    requires Valid(ctx) && |env| > 0
    ensures var r := CheckLoopBody(ctx, env, name, quantifier, body);
            && CapturesChecked(ctx, StatementsCaptures(body), FailureOf(r), if r.Ok? then StatementsCaptures(r.value.0) else [])
            && (r.Ok? ==> EraseStatements(r.value.0) == EraseStatements(body))
            && (r.Ok? ==> Frames(env, r.value.1, StatementsWrittenNames(body), {}))
    decreases body, 1
  {
    // the loop variable is the first name declared in the fresh child scope
    var added := Add(Child(env), name, quantifier, false);
    assert added.Ok?;
    var loopEnv := added.value;
    assert loopEnv[1..] == env;
    StatementsSound(ctx, loopEnv, body);
    var checked := CheckStatements(ctx, loopEnv, body);
    if checked.Err? {
      assert CheckLoopBody(ctx, env, name, quantifier, body) == Err(checked.error);
    } else {
      assert CheckLoopBody(ctx, env, name, quantifier, body) == Ok((checked.value.0, checked.value.1[1..]));
      FramesPop(loopEnv, checked.value.1, StatementsWrittenNames(body), StatementsDeclaredNames(body));
    }
  }

  //---------------------------------------------------------------------------
  // Stanzas

  /**
   * The contract of a stanza check: captures as CapturesChecked says under
   * the stanza's own context, the body differs from the stanza's only in
   * capture annotations, and the full-match index comes from the file query.
   */
  ghost predicate StanzaChecked(fileQuery: Query, index: nat, stanza: Stanza, r: Result<Stanza, CheckError>)
    requires Compatible(fileQuery, index, stanza.query)
    requires FullMatch in fileQuery.captureIndices
  {
    var ctx := CheckContext(fileQuery, index, stanza.query);
    && CapturesChecked(ctx, StatementsCaptures(stanza.statements), FailureOf(r),
                       if r.Ok? then StatementsCaptures(r.value.statements) else [])
    && (r.Ok? ==> r.value.query == stanza.query)
    && (r.Ok? ==> r.value.fullMatchFileCaptureIndex == fileQuery.captureIndices[FullMatch])
    && (r.Ok? ==> EraseStatements(r.value.statements) == EraseStatements(stanza.statements))
  }

  /** What a stanza check establishes about the captures and annotations of its body. */
  lemma StanzaSound(fileQuery: Query, index: nat, stanza: Stanza)
    requires FullMatch in fileQuery.captureIndices
    requires Compatible(fileQuery, index, stanza.query)
    ensures StanzaChecked(fileQuery, index, stanza, CheckStanza(fileQuery, index, stanza))
  {
    StatementsSound(CheckContext(fileQuery, index, stanza.query), Root(), stanza.statements);
  }
}
