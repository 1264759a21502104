/**
 * Properties of the checker: the fixed cardinalities of expressions, the
 * exact-match rules of `for` loops and `some`/`none` conditions, the binding
 * each binding site makes, scope isolation, and fail-fast ordering.
 */
module Properties {
  import opened Quantifiers
  import opened Results
  import opened Names
  import opened Ast
  import opened Variables
  import opened Checker
  import opened Soundness

  //---------------------------------------------------------------------------
  // Cardinalities of expressions

  /** Literals, constants and regex captures never fail and are single values. */
  lemma ConstantsAreOne(ctx: CheckContext, env: Env, e: Expression)
    requires Valid(ctx)
    requires e.FalseLiteral? || e.NullLiteral? || e.TrueLiteral? || e.IntegerConstant? || e.StringConstant? || e.RegexCapture?
    ensures CheckExpression(ctx, env, e) == Ok((e, One))
  {
  }

  /**
   * A list or set comprehension is a ZeroOrMore value whatever its elements
   * are; it fails exactly when one of its elements mentions an undefined capture.
   */
  lemma ComprehensionsAreZeroOrMore(ctx: CheckContext, env: Env, e: Expression)
    requires Valid(ctx)
    requires e.ListComprehension? || e.SetComprehension?
    ensures var r := CheckExpression(ctx, env, e);
            && (r.Ok? <==> forall c :: c in ExpressionsCaptures(e.elements) ==> Defined(ctx, c))
            && (r.Ok? ==> r.value.1 == ZeroOrMore)
  {
    assert ExpressionCaptures(e) == ExpressionsCaptures(e.elements);
    ExpressionsSound(ctx, env, e.elements);
    if e.ListComprehension? {
      assert CheckExpression(ctx, env, e) == CheckListComprehension(ctx, env, e);
    } else {
      assert CheckExpression(ctx, env, e) == CheckSetComprehension(ctx, env, e);
    }
  }

  /** A call's result is assumed to be a single value once its arguments check. */
  lemma CallsAreOne(ctx: CheckContext, env: Env, e: Expression)
    requires Valid(ctx) && e.Call?
    ensures var r := CheckExpression(ctx, env, e);
            && (r.Ok? <==> forall c :: c in ExpressionsCaptures(e.parameters) ==> Defined(ctx, c))
            && (r.Ok? ==> r.value.1 == One)
  {
    assert ExpressionCaptures(e) == ExpressionsCaptures(e.parameters);
    ExpressionsSound(ctx, env, e.parameters);
    assert CheckExpression(ctx, env, e) == CheckCall(ctx, env, e);
  }

  /** A capture reads its quantifier from the file query's table for this stanza. */
  lemma CaptureReadsTable(ctx: CheckContext, env: Env, e: Expression)
    requires Valid(ctx) && e.CaptureExpression?
    ensures var r := CheckExpression(ctx, env, e);
            && (r.Err? <==> !Defined(ctx, e.capture))
            && (r.Err? ==> r.error == UndefinedSyntaxCapture(e.capture.name, e.capture.location))
            && (r.Ok? ==> r.value.1 == QuantifierOf(ctx, e.capture))
  {
  }

  /**
   * Reading an unscoped variable never fails: it yields the cardinality of
   * the innermost binding of the name, or One for a name bound nowhere.
   */
  lemma UnscopedReadNeverFails(ctx: CheckContext, env: Env, u: UnscopedVariable)
    requires Valid(ctx)
    ensures var e := VariableExpression(Unscoped(u));
            CheckExpression(ctx, env, e)
              == Ok((e, if Lookup(env, u.name).Some? then Lookup(env, u.name).value.quantifier else One))
  {
    var e := VariableExpression(Unscoped(u));
    assert CheckExpression(ctx, env, e) == CheckVariableExpression(ctx, env, e);
  }

  /** Reading a scoped variable only checks its scope, and yields One. */
  lemma ScopedReadIsOne(ctx: CheckContext, env: Env, v: ScopedVariable)
    requires Valid(ctx)
    ensures var r := CheckExpression(ctx, env, VariableExpression(Scoped(v)));
            && (r.Ok? <==> CheckExpression(ctx, env, v.scope).Ok?)
            && (r.Ok? ==> r.value.1 == One)
  {
    var e := VariableExpression(Scoped(v));
    assert CheckExpression(ctx, env, e) == CheckVariableExpression(ctx, env, e);
  }

  //---------------------------------------------------------------------------
  // `some` / `none` conditions

  /** Why a capture cannot stand in a `some`/`none` condition, if it cannot. */
  function OptionalFailure(ctx: CheckContext, c: Capture): Option<CheckError>
    requires Valid(ctx)
  {
    if !Defined(ctx, c) then Some(UndefinedError(c))
    else if QuantifierOf(ctx, c) != ZeroOrOne then Some(ExpectedOptionalValue(c.location))
    else None
  }

  /** A condition's captures are accepted exactly when every one is defined and ZeroOrOne. */
  lemma {:induction false} OptionalCapturesAcceptOnlyOptionals(ctx: CheckContext, cs: seq<Capture>)
    requires Valid(ctx)
    ensures CheckOptionalCaptures(ctx, cs).Ok? <==> forall i :: 0 <= i < |cs| ==> OptionalFailure(ctx, cs[i]).None?
    decreases cs
  {
    if cs != [] {
      OptionalCapturesAcceptOnlyOptionals(ctx, cs[1..]);
      if forall i :: 0 <= i < |cs[1..]| ==> OptionalFailure(ctx, cs[1..][i]).None? {
        forall i | 0 < i < |cs|
          ensures OptionalFailure(ctx, cs[i]).None?
        {
          assert cs[i] == cs[1..][i - 1];
        }
      }
    }
  }

  /** A rejected condition reports the error the first offending capture gives. */
  lemma {:induction false} OptionalCapturesFailFirst(ctx: CheckContext, cs: seq<Capture>)
    requires Valid(ctx)
    ensures CheckOptionalCaptures(ctx, cs).Err? ==>
              exists i :: && 0 <= i < |cs|
                          && (forall j :: 0 <= j < i ==> OptionalFailure(ctx, cs[j]).None?)
                          && OptionalFailure(ctx, cs[i]) == Some(CheckOptionalCaptures(ctx, cs).error)
    decreases cs
  {
    if cs != [] && OptionalFailure(ctx, cs[0]).None? && CheckOptionalCaptures(ctx, cs).Err? {
      OptionalCapturesFailFirst(ctx, cs[1..]);
      var k :| && 0 <= k < |cs[1..]|
               && (forall j :: 0 <= j < k ==> OptionalFailure(ctx, cs[1..][j]).None?)
               && OptionalFailure(ctx, cs[1..][k]) == Some(CheckOptionalCaptures(ctx, cs[1..]).error);
      forall j | 0 < j < k + 1
        ensures OptionalFailure(ctx, cs[j]).None?
      {
        assert cs[j] == cs[1..][j - 1];
      }
      assert cs[k + 1] == cs[1..][k];
    }
  }

  //---------------------------------------------------------------------------
  // `for` loops

  /**
   * A `for` loop over a defined capture fails with ExpectedListValue at the
   * loop's location, before its body is looked at, unless the capture is a
   * list value; otherwise the body is checked in a fresh child scope holding
   * only the loop variable, bound immutably with the capture's own
   * quantifier, and that child scope is discarded afterwards.
   */
  lemma ForInRequiresList(ctx: CheckContext, env: Env, s: Statement)
    requires Valid(ctx) && |env| > 0 && s.ForIn? && Defined(ctx, s.capture)
    ensures var q := QuantifierOf(ctx, s.capture);
            var r := CheckStatement(ctx, env, s);
            && (!IsList(q) ==> r == Err(ExpectedListValue(s.location)))
            && (IsList(q) ==>
                  var inner := CheckStatements(ctx, [map[s.loopVariable.name := Binding(q, false)]] + env, s.body);
                  && (r.Ok? <==> inner.Ok?)
                  && (r.Err? ==> r.error == inner.error)
                  && (r.Ok? ==> r.value.1 == inner.value.1[1..]))
  {
    var q := QuantifierOf(ctx, s.capture);
    assert CheckStatement(ctx, env, s) == CheckForIn(ctx, env, s);
    assert CheckCapture(ctx, s.capture).Ok? && CheckCapture(ctx, s.capture).value.1 == q;
    if IsList(q) {
      var name := s.loopVariable.name;
      assert Child(env)[0][name := Binding(q, false)] == map[name := Binding(q, false)];
      assert Add(Child(env), name, q, false) == Ok([map[name := Binding(q, false)]] + env);
      var body := CheckLoopBody(ctx, env, name, q, s.body);
      var inner := CheckStatements(ctx, [map[name := Binding(q, false)]] + env, s.body);
      assert body.Ok? <==> inner.Ok?;
    }
  }

  /** A list of conditions is accepted exactly when all its captures are defined optional values. */
  lemma {:induction false} ConditionsAcceptOnlyOptionals(ctx: CheckContext, conditions: seq<Condition>)
    requires Valid(ctx)
    ensures CheckConditions(ctx, conditions).Ok? <==>
              forall c :: c in ConditionsCaptures(conditions) ==> OptionalFailure(ctx, c).None?
    decreases conditions
  {
    if conditions != [] {
      OptionalCapturesAcceptOnlyOptionals(ctx, conditions[0].captures);
      ConditionsAcceptOnlyOptionals(ctx, conditions[1..]);
    }
  }

  /**
   * An `if` arm's conditions are checked before its body: when they fail,
   * their error is the statement's error, whatever the body holds.
   */
  lemma IfChecksConditionsFirst(ctx: CheckContext, env: Env, s: Statement)
    requires Valid(ctx) && |env| > 0 && s.If? && |s.ifArms| > 0
    requires CheckConditions(ctx, s.ifArms[0].conditions).Err?
    ensures CheckStatement(ctx, env, s) == Err(CheckConditions(ctx, s.ifArms[0].conditions).error)
  {
    assert CheckStatement(ctx, env, s) == CheckIf(ctx, env, s);
    assert CheckIfArms(ctx, env, s.ifArms) == Err(CheckConditions(ctx, s.ifArms[0].conditions).error);
  }

  /**
   * An `if` is its arms: it fails exactly when they fail, with their error,
   * and otherwise leaves the environment where the last arm left it.
   */
  lemma IfIsItsArms(ctx: CheckContext, env: Env, s: Statement)
    requires Valid(ctx) && |env| > 0 && s.If?
    ensures var r := CheckStatement(ctx, env, s);
            var arms := CheckIfArms(ctx, env, s.ifArms);
            && (r.Ok? <==> arms.Ok?)
            && (r.Err? ==> r.error == arms.error)
            && (r.Ok? ==> r.value.1 == arms.value.1)
  {
    assert CheckStatement(ctx, env, s) == CheckIf(ctx, env, s);
  }

  /** One step of checking the arms of an `if`: the first arm, then the rest from where it leaves the scopes. */
  lemma IfArmsStep(ctx: CheckContext, env: Env, arms: seq<IfArm>)
    requires Valid(ctx) && |env| > 0 && arms != []
    ensures CheckIfArms(ctx, env, arms) ==
              match CheckConditions(ctx, arms[0].conditions)
              case Err(error) => Err(error)
              case Ok(conditions) =>
                match CheckStatements(ctx, Child(env), arms[0].statements)
                case Err(error) => Err(error)
                case Ok(body) =>
                  match CheckIfArms(ctx, body.1[1..], arms[1..])
                  case Err(error) => Err(error)
                  case Ok(rest) => Ok(([IfArm(conditions, body.0)] + rest.0, rest.1))
  {
  }

  //---------------------------------------------------------------------------
  // Binding sites

  /**
   * `let` and `var` declare an unscoped name in the innermost scope, with
   * the value's cardinality and the matching mutability; a name already
   * declared in that scope is an error, whatever its mutability.
   */
  lemma DeclarationBinds(ctx: CheckContext, env: Env, s: Statement)
    requires Valid(ctx) && |env| > 0
    requires (s.DeclareImmutable? || s.DeclareMutable?) && s.variable.Unscoped?
    requires CheckExpression(ctx, env, s.value).Ok?
    ensures var q := CheckExpression(ctx, env, s.value).value.1;
            var name := s.variable.unscoped.name;
            var r := CheckStatement(ctx, env, s);
            && (r.Err? <==> name in env[0])
            && (r.Err? ==> r.error == VariableFailure(AlreadyDefined, name))
            && (r.Ok? ==> r.value.1 == [env[0][name := Binding(q, s.DeclareMutable?)]] + env[1..])
  {
    assert CheckStatement(ctx, env, s) == CheckDeclaration(ctx, env, s);
  }

  /**
   * `set` needs a visible, mutable binding; it then records the value's
   * cardinality there, and every other name reads as before.
   */
  lemma AssignmentRebinds(ctx: CheckContext, env: Env, s: Statement)
    requires Valid(ctx) && |env| > 0
    requires s.Assign? && s.variable.Unscoped?
    requires CheckExpression(ctx, env, s.value).Ok?
    ensures var q := CheckExpression(ctx, env, s.value).value.1;
            var name := s.variable.unscoped.name;
            var r := CheckStatement(ctx, env, s);
            && (Lookup(env, name).None? ==> r == Err(VariableFailure(UndefinedVariable, name)))
            && (Lookup(env, name).Some? && !Lookup(env, name).value.mutable ==>
                  r == Err(VariableFailure(CannotAssignImmutableVariable, name)))
            && (Lookup(env, name).Some? && Lookup(env, name).value.mutable ==>
                  && r.Ok?
                  && r.value.1 == env[FindScope(env, name).value := env[FindScope(env, name).value][name := Binding(q, true)]]
                  && Lookup(r.value.1, name) == Some(Binding(q, true))
                  && forall n :: n != name ==> Lookup(r.value.1, n) == Lookup(env, n))
  {
    assert CheckStatement(ctx, env, s) == CheckAssign(ctx, env, s);
    var name := s.variable.unscoped.name;
    var q := CheckExpression(ctx, env, s.value).value.1;
    if Lookup(env, name).Some? && Lookup(env, name).value.mutable {
      var i := FindScope(env, name).value;
      assert Set(env, name, q) == Ok(env[i := env[i][name := Binding(q, true)]]) by {
        SetSucceedsOnMutable(env, name, q);
      }
      SetEffect(env, name, q, Set(env, name, q).value);
    }
  }

  /** `set` succeeds whenever the innermost binding of the name is mutable. */
  lemma {:induction false} SetSucceedsOnMutable(env: Env, name: Name, q: Quantifier)
    requires Lookup(env, name).Some? && Lookup(env, name).value.mutable
    ensures Set(env, name, q).Ok?
    decreases env
  {
    if name !in env[0] {
      assert Lookup(env[1..], name) == Lookup(env, name);
      SetSucceedsOnMutable(env[1..], name, q);
    }
  }

  /** `node n` declares `n` as an immutable single value in the innermost scope. */
  lemma NodeCreationBindsOne(ctx: CheckContext, env: Env, s: Statement)
    requires Valid(ctx) && |env| > 0
    requires s.CreateGraphNode? && s.nodeVariable.Unscoped?
    ensures var name := s.nodeVariable.unscoped.name;
            var r := CheckStatement(ctx, env, s);
            && (r.Err? <==> name in env[0])
            && (r.Err? ==> r.error == VariableFailure(AlreadyDefined, name))
            && (r.Ok? ==> r.value.1 == [env[0][name := Binding(One, false)]] + env[1..])
  {
    assert CheckStatement(ctx, env, s) == CheckCreateGraphNode(ctx, env, s);
  }

  /**
   * Statements that bind nothing (print, edge creation, attribute
   * additions) fail only on an undefined capture and leave the environment
   * exactly as it was.
   */
  lemma NonBindingStatementsKeepEnv(ctx: CheckContext, env: Env, s: Statement)
    requires Valid(ctx) && |env| > 0
    requires s.Print? || s.CreateEdge? || s.AddGraphNodeAttribute? || s.AddEdgeAttribute?
    ensures var r := CheckStatement(ctx, env, s);
            && (r.Ok? <==> forall c :: c in StatementCaptures(s) ==> Defined(ctx, c))
            && (r.Ok? ==> r.value.1 == env)
            && (r.Err? ==> r.error == UndefinedError(FirstUndefined(ctx, StatementCaptures(s)).value))
  {
    var r := CheckStatement(ctx, env, s);
    match s
    case Print(_) =>
      assert r == CheckPrint(ctx, env, s);
      ExpressionsSound(ctx, env, s.values);
    case CreateEdge(_, _) =>
      assert r == CheckCreateEdge(ctx, env, s);
      FirstUndefinedAppend(ctx, ExpressionCaptures(s.source), ExpressionCaptures(s.sink));
      ExpressionSound(ctx, env, s.source);
      ExpressionSound(ctx, env, s.sink);
    case AddGraphNodeAttribute(_, _) =>
      assert r == CheckAddGraphNodeAttribute(ctx, env, s);
      FirstUndefinedAppend(ctx, ExpressionCaptures(s.node), AttributesCaptures(s.attributes));
      ExpressionSound(ctx, env, s.node);
      AttributesSound(ctx, env, s.attributes);
    case AddEdgeAttribute(_, _, _) =>
      assert r == CheckAddEdgeAttribute(ctx, env, s);
      FirstUndefinedAppend(ctx, ExpressionCaptures(s.source), ExpressionCaptures(s.sink));
      FirstUndefinedAppend(ctx, ExpressionCaptures(s.source) + ExpressionCaptures(s.sink), AttributesCaptures(s.attributes));
      ExpressionSound(ctx, env, s.source);
      ExpressionSound(ctx, env, s.sink);
      AttributesSound(ctx, env, s.attributes);
  }

  /**
   * A binding site whose target is a scoped variable only checks the scope
   * expression: the environment is left exactly as it was.
   */
  lemma ScopedTargetsBindNothing(ctx: CheckContext, env: Env, s: Statement)
    requires Valid(ctx) && |env| > 0
    requires || ((s.DeclareImmutable? || s.DeclareMutable? || s.Assign?) && s.variable.Scoped?)
             || (s.CreateGraphNode? && s.nodeVariable.Scoped?)
    requires CheckStatement(ctx, env, s).Ok?
    ensures CheckStatement(ctx, env, s).value.1 == env
  {
    FramesNothing(env, CheckStatement(ctx, env, s).value.1);
  }

  //---------------------------------------------------------------------------
  // Scope isolation

  /**
   * After an `if`, `scan` or `for` statement every enclosing scope declares
   * exactly the names it declared before, with the same mutability: nothing
   * bound in an arm or loop body is visible afterwards. A binding keeps its
   * cardinality too unless it is mutable and assigned somewhere in the
   * statement, so a statement that assigns nothing leaves the environment
   * exactly as it was.
   */
  lemma CompoundStatementsIsolateScopes(ctx: CheckContext, env: Env, s: Statement)
    requires Valid(ctx) && |env| > 0
    requires s.If? || s.Scan? || s.ForIn?
    requires CheckStatement(ctx, env, s).Ok?
    ensures var env' := CheckStatement(ctx, env, s).value.1;
            && |env'| == |env|
            && (forall i :: 0 <= i < |env| ==> env'[i].Keys == env[i].Keys)
            && (forall i, n :: 0 <= i < |env| && n in env[i] ==> env'[i][n].mutable == env[i][n].mutable)
            && (forall i, n :: 0 <= i < |env| && n in env[i] && (n !in WrittenNames(s) || !env[i][n].mutable) ==>
                                env'[i][n] == env[i][n])
            && (WrittenNames(s) == {} ==> env' == env)
  {
    var env' := CheckStatement(ctx, env, s).value.1;
    StatementSound(ctx, env, s);
    assert Frames(env, env', WrittenNames(s), {});
    forall i | 0 <= i < |env|
      ensures env'[i].Keys == env[i].Keys
    {
      assert ScopeFrames(env[i], env'[i], WrittenNames(s), {});
    }
    forall i, n | 0 <= i < |env| && n in env[i]
      ensures env'[i][n].mutable == env[i][n].mutable
    {
      assert ScopeFrames(env[i], env'[i], WrittenNames(s), {});
    }
    if WrittenNames(s) == {} {
      FramesNothing(env, env');
    }
  }

  //---------------------------------------------------------------------------
  // Fail-fast ordering

  /** One step of checking a block: its first statement, then the rest. */
  lemma StatementsStep(ctx: CheckContext, env: Env, ss: seq<Statement>)
    requires Valid(ctx) && |env| > 0 && ss != []
    ensures CheckStatements(ctx, env, ss) ==
              match CheckStatement(ctx, env, ss[0])
              case Err(error) => Err(error)
              case Ok(first) =>
                match CheckStatements(ctx, first.1, ss[1..])
                case Err(error) => Err(error)
                case Ok(rest) => Ok(([first.0] + rest.0, rest.1))
  {
  }

  /**
   * Checking `a + b` is checking `a` and then, from the environment `a`
   * leaves, checking `b`: the first error is returned unchanged and nothing
   * after it is looked at.
   */
  lemma {:induction false} StatementsCompose(ctx: CheckContext, env: Env, a: seq<Statement>, b: seq<Statement>)
    requires Valid(ctx) && |env| > 0
    ensures CheckStatements(ctx, env, a + b) ==
              match CheckStatements(ctx, env, a)
              case Err(error) => Err(error)
              case Ok(checkedA) =>
                match CheckStatements(ctx, checkedA.1, b)
                case Err(error) => Err(error)
                case Ok(checkedB) => Ok((checkedA.0 + checkedB.0, checkedB.1))
    decreases a
  {
    if a == [] {
      assert a + b == b;
      assert CheckStatements(ctx, env, a) == Ok(([], env));
      var checkedB := CheckStatements(ctx, env, b);
      if checkedB.Ok? {
        assert [] + checkedB.value.0 == checkedB.value.0;
      }
    } else {
      assert (a + b)[0] == a[0];
      assert (a + b)[1..] == a[1..] + b;
      StatementsStep(ctx, env, a + b);
      StatementsStep(ctx, env, a);
      var first := CheckStatement(ctx, env, a[0]);
      if first.Ok? {
        var env1 := first.value.1;
        StatementsCompose(ctx, env1, a[1..], b);
        var restA := CheckStatements(ctx, env1, a[1..]);
        var restAB := CheckStatements(ctx, env1, a[1..] + b);
        assert CheckStatements(ctx, env, a + b) ==
                 if restAB.Err? then Err(restAB.error) else Ok(([first.value.0] + restAB.value.0, restAB.value.1));
        if restA.Ok? {
          var checkedA := CheckStatements(ctx, env, a);
          assert checkedA == Ok(([first.value.0] + restA.value.0, restA.value.1));
          var restB := CheckStatements(ctx, restA.value.1, b);
          if restB.Ok? {
            assert restAB == Ok((restA.value.0 + restB.value.0, restB.value.1));
            assert [first.value.0] + (restA.value.0 + restB.value.0) == ([first.value.0] + restA.value.0) + restB.value.0;
          } else {
            assert restAB == Err(restB.error);
          }
        } else {
          assert restAB == Err(restA.error);
          assert CheckStatements(ctx, env, a) == Err(restA.error);
        }
      } else {
        assert CheckStatements(ctx, env, a + b) == Err(first.error);
        assert CheckStatements(ctx, env, a) == Err(first.error);
      }
    }
  }
}
