/**
 * Small programs whose outcome the checker fixes, stated for every context
 * and every choice of names: each lemma is a family of concrete stanzas.
 */
module Scenarios {
  import opened Quantifiers
  import opened Results
  import opened Names
  import opened Ast
  import opened Variables
  import opened Checker
  import opened Properties

  function Var(name: Name, loc: Location): Variable {
    Unscoped(UnscopedVariable(name, loc))
  }

  /** `let`/`var` of a name, chosen by `mutable`. */
  function Declaration(mutable: bool, name: Name, value: Expression, loc: Location): (s: Statement)
    ensures s.DeclareImmutable? || s.DeclareMutable?
    ensures s.DeclareMutable? <==> mutable
    ensures s.variable == Var(name, loc) && s.value == value
  {
    if mutable then DeclareMutable(Var(name, loc), value) else DeclareImmutable(Var(name, loc), value)
  }

  /**
   * `let x = @c` then `for n in @c { print n }` checks when `@c` is a list
   * capture, and afterwards only `x` is bound: `n` lived in the loop's scope.
   */
  lemma ListCaptureLoops(ctx: CheckContext, c: Capture, x: Name, n: Name, loc: Location)
    requires Valid(ctx) && Defined(ctx, c) && IsList(QuantifierOf(ctx, c))
    ensures var body := [DeclareImmutable(Var(x, loc), CaptureExpression(c)),
                         ForIn(UnscopedVariable(n, loc), c, [Print([VariableExpression(Var(n, loc))])], loc)];
            var r := CheckStatements(ctx, Root(), body);
            r.Ok? && r.value.1 == [map[x := Binding(QuantifierOf(ctx, c), false)]]
  {
    var q := QuantifierOf(ctx, c);
    var s1 := DeclareImmutable(Var(x, loc), CaptureExpression(c));
    var loopBody := [Print([VariableExpression(Var(n, loc))])];
    var s2 := ForIn(UnscopedVariable(n, loc), c, loopBody, loc);
    var env1 := [map[x := Binding(q, false)]];
    CaptureReadsTable(ctx, Root(), CaptureExpression(c));
    DeclarationBinds(ctx, Root(), s1);
    assert CheckStatement(ctx, Root(), s1).value.1 == env1;
    var loopEnv := [map[n := Binding(q, false)]] + env1;
    var read := VariableExpression(Var(n, loc));
    assert ExpressionCaptures(read) == [];
    assert [read][1..] == [];
    assert ExpressionsCaptures([read]) == [];
    assert StatementCaptures(loopBody[0]) == [];
    NonBindingStatementsKeepEnv(ctx, loopEnv, loopBody[0]);
    StatementsStep(ctx, loopEnv, loopBody);
    ForInRequiresList(ctx, env1, s2);
    assert CheckStatement(ctx, env1, s2).value.1 == env1;
    StatementsStep(ctx, env1, [s2]);
    StatementsStep(ctx, Root(), [s1, s2]);
    assert [s1, s2][1..] == [s2];
  }

  /** The same loop over a capture that is not a list fails at the loop. */
  lemma SingleCaptureDoesNotLoop(ctx: CheckContext, c: Capture, n: Name, loc: Location)
    requires Valid(ctx) && Defined(ctx, c) && !IsList(QuantifierOf(ctx, c))
    ensures CheckStatements(ctx, Root(), [ForIn(UnscopedVariable(n, loc), c, [Print([VariableExpression(Var(n, loc))])], loc)])
            == Err(ExpectedListValue(loc))
  {
    var s := ForIn(UnscopedVariable(n, loc), c, [Print([VariableExpression(Var(n, loc))])], loc);
    ForInRequiresList(ctx, Root(), s);
    StatementsStep(ctx, Root(), [s]);
  }

  /** `if none @c {}` fails when `@c` is not an optional capture. */
  lemma NoneOnNonOptionalFails(ctx: CheckContext, env: Env, c: Capture)
    requires Valid(ctx) && |env| > 0 && Defined(ctx, c) && !IsOptional(QuantifierOf(ctx, c))
    ensures CheckStatement(ctx, env, If([IfArm([NoneCondition([c])], [])])) == Err(ExpectedOptionalValue(c.location))
  {
    var s := If([IfArm([NoneCondition([c])], [])]);
    assert CheckOptionalCaptures(ctx, [c]) == Err(ExpectedOptionalValue(c.location));
    assert CheckConditions(ctx, s.ifArms[0].conditions) == Err(ExpectedOptionalValue(c.location));
    IfChecksConditionsFirst(ctx, env, s);
  }

  /** Declaring a name twice in one scope fails, whatever the two mutabilities. */
  lemma RedeclarationFails(ctx: CheckContext, y: Name, m1: bool, m2: bool, i: nat, j: nat, loc: Location)
    requires Valid(ctx)
    ensures CheckStatements(ctx, Root(), [Declaration(m1, y, IntegerConstant(i), loc),
                                         Declaration(m2, y, IntegerConstant(j), loc)])
            == Err(VariableFailure(AlreadyDefined, y))
  {
    var s1 := Declaration(m1, y, IntegerConstant(i), loc);
    var s2 := Declaration(m2, y, IntegerConstant(j), loc);
    var env1 := [map[y := Binding(One, m1)]];
    ConstantsAreOne(ctx, Root(), IntegerConstant(i));
    ConstantsAreOne(ctx, env1, IntegerConstant(j));
    DeclarationBinds(ctx, Root(), s1);
    assert CheckStatement(ctx, Root(), s1).value.1 == env1;
    DeclarationBinds(ctx, env1, s2);
    StatementsStep(ctx, env1, [s2]);
    StatementsStep(ctx, Root(), [s1, s2]);
    assert [s1, s2][1..] == [s2];
  }

  /** `let x = i` then `set x = j` fails: `x` is immutable. */
  lemma AssigningImmutableFails(ctx: CheckContext, x: Name, i: nat, j: nat, loc: Location)
    requires Valid(ctx)
    ensures CheckStatements(ctx, Root(), [DeclareImmutable(Var(x, loc), IntegerConstant(i)),
                                         Assign(Var(x, loc), IntegerConstant(j))])
            == Err(VariableFailure(CannotAssignImmutableVariable, x))
  {
    var s1 := DeclareImmutable(Var(x, loc), IntegerConstant(i));
    var s2 := Assign(Var(x, loc), IntegerConstant(j));
    var env1 := [map[x := Binding(One, false)]];
    ConstantsAreOne(ctx, Root(), IntegerConstant(i));
    ConstantsAreOne(ctx, env1, IntegerConstant(j));
    DeclarationBinds(ctx, Root(), s1);
    assert CheckStatement(ctx, Root(), s1).value.1 == env1;
    assert Lookup(env1, x) == Some(Binding(One, false));
    AssignmentRebinds(ctx, env1, s2);
    StatementsStep(ctx, env1, [s2]);
    StatementsStep(ctx, Root(), [s1, s2]);
    assert [s1, s2][1..] == [s2];
  }

  /** `let z = i` in an arm binds `z` in the arm's own scope only. */
  lemma ArmBindsLocally(ctx: CheckContext, z: Name, i: nat, loc: Location)
    requires Valid(ctx)
    ensures var r := CheckStatements(ctx, Child(Root()), [DeclareImmutable(Var(z, loc), IntegerConstant(i))]);
            r.Ok? && r.value.1 == [map[z := Binding(One, false)], map[]]
  {
    var declare := DeclareImmutable(Var(z, loc), IntegerConstant(i));
    var armEnv := Child(Root());
    ConstantsAreOne(ctx, armEnv, IntegerConstant(i));
    DeclarationBinds(ctx, armEnv, declare);
    var armEnv' := [map[z := Binding(One, false)], map[]];
    assert CheckStatement(ctx, armEnv, declare).value.1 == armEnv';
    StatementsStep(ctx, armEnv, [declare]);
  }

  /** `set z = j` in a fresh arm scope fails: nothing declares `z`. */
  lemma ArmMissesUndeclared(ctx: CheckContext, z: Name, j: nat, loc: Location)
    requires Valid(ctx)
    ensures CheckStatements(ctx, Child(Root()), [Assign(Var(z, loc), IntegerConstant(j))])
            == Err(VariableFailure(UndefinedVariable, z))
  {
    var assign := Assign(Var(z, loc), IntegerConstant(j));
    var armEnv := Child(Root());
    ConstantsAreOne(ctx, armEnv, IntegerConstant(j));
    assert FindScope(armEnv[1..], z).None?;
    assert Lookup(armEnv, z).None?;
    AssignmentRebinds(ctx, armEnv, assign);
    StatementsStep(ctx, armEnv, [assign]);
  }

  /** `if some @opt` passes its condition check when `@opt` is an optional capture. */
  lemma OptionalConditionHolds(ctx: CheckContext, opt: Capture)
    requires Valid(ctx) && Defined(ctx, opt) && IsOptional(QuantifierOf(ctx, opt))
    ensures CheckConditions(ctx, [SomeCondition([opt])]).Ok?
  {
    var conditions := [SomeCondition([opt])];
    assert CheckOptionalCaptures(ctx, [opt]).Ok?;
    assert conditions[1..] == [];
  }

  /** An unconditional arm that assigns an undeclared name fails. */
  lemma LastArmFails(ctx: CheckContext, z: Name, j: nat, loc: Location)
    requires Valid(ctx)
    ensures CheckIfArms(ctx, Root(), [IfArm([], [Assign(Var(z, loc), IntegerConstant(j))])])
            == Err(VariableFailure(UndefinedVariable, z))
  {
    var arms := [IfArm([], [Assign(Var(z, loc), IntegerConstant(j))])];
    ArmMissesUndeclared(ctx, z, j, loc);
    assert CheckConditions(ctx, arms[0].conditions) == Ok([]);
    IfArmsStep(ctx, Root(), arms);
  }

  /** A name bound in one `if` arm is not visible in the next arm. */
  lemma SiblingArmsAreIsolated(ctx: CheckContext, opt: Capture, z: Name, i: nat, j: nat, loc: Location)
    requires Valid(ctx) && Defined(ctx, opt) && IsOptional(QuantifierOf(ctx, opt))
    ensures CheckStatement(ctx, Root(),
                           If([IfArm([SomeCondition([opt])], [DeclareImmutable(Var(z, loc), IntegerConstant(i))]),
                               IfArm([], [Assign(Var(z, loc), IntegerConstant(j))])]))
            == Err(VariableFailure(UndefinedVariable, z))
  {
    var first := IfArm([SomeCondition([opt])], [DeclareImmutable(Var(z, loc), IntegerConstant(i))]);
    var second := IfArm([], [Assign(Var(z, loc), IntegerConstant(j))]);
    var arms := [first, second];
    OptionalConditionHolds(ctx, opt);
    ArmBindsLocally(ctx, z, i, loc);
    assert CheckStatements(ctx, Child(Root()), first.statements).value.1[1..] == Root();
    LastArmFails(ctx, z, j, loc);
    assert arms[1..] == [second];
    IfArmsStep(ctx, Root(), arms);
    assert CheckIfArms(ctx, Root(), arms) == Err(VariableFailure(UndefinedVariable, z));
    IfIsItsArms(ctx, Root(), If(arms));
  }

  /** A capture the stanza's own query does not bind is undefined there, whatever other stanzas bind. */
  lemma CapturesAreStanzaLocal(fileQuery: Query, index: nat, query: Query, c: Capture, k: nat)
    requires FullMatch in fileQuery.captureIndices && Compatible(fileQuery, index, query)
    requires c.name !in query.captureIndices
    ensures CheckStanza(fileQuery, index, Stanza(query, [Print([CaptureExpression(c)])], k))
            == Err(UndefinedSyntaxCapture(c.name, c.location))
  {
    var ctx := CheckContext(fileQuery, index, query);
    var read := CaptureExpression(c);
    var p := Print([read]);
    assert [read][1..] == [];
    assert ExpressionsCaptures([read]) == [c];
    assert StatementCaptures(p) == [c];
    assert [c][1..] == [];
    assert FirstUndefined(ctx, [c]) == Some(c);
    NonBindingStatementsKeepEnv(ctx, Root(), p);
    StatementsStep(ctx, Root(), [p]);
  }

  /** Every stanza starts from an empty environment: assigning a name it never declared fails. */
  lemma StanzasStartEmpty(fileQuery: Query, index: nat, query: Query, g: Name, j: nat, loc: Location, k: nat)
    requires FullMatch in fileQuery.captureIndices && Compatible(fileQuery, index, query)
    ensures CheckStanza(fileQuery, index, Stanza(query, [Assign(Var(g, loc), IntegerConstant(j))], k))
            == Err(VariableFailure(UndefinedVariable, g))
  {
    var ctx := CheckContext(fileQuery, index, query);
    var assign := Assign(Var(g, loc), IntegerConstant(j));
    ConstantsAreOne(ctx, Root(), IntegerConstant(j));
    assert Lookup(Root(), g).None?;
    AssignmentRebinds(ctx, Root(), assign);
    StatementsStep(ctx, Root(), [assign]);
  }

  /** `set m = @c` from an arm scope that does not hold `m` rewrites the enclosing binding. */
  lemma WriteThroughStep(ctx: CheckContext, inner: Scope, outer: Scope, c: Capture, m: Name, loc: Location)
    requires Valid(ctx) && Defined(ctx, c)
    requires m !in inner && m in outer && outer[m].mutable
    ensures var r := CheckStatement(ctx, [inner, outer], Assign(Var(m, loc), CaptureExpression(c)));
            r.Ok? && r.value.1 == [inner, outer[m := Binding(QuantifierOf(ctx, c), true)]]
  {
    var env := [inner, outer];
    CaptureReadsTable(ctx, env, CaptureExpression(c));
    assert FindScope(env[1..], m) == Some(0);
    assert FindScope(env, m) == Some(1);
    AssignmentRebinds(ctx, env, Assign(Var(m, loc), CaptureExpression(c)));
    assert env[1 := env[1][m := Binding(QuantifierOf(ctx, c), true)]] == [inner, outer[m := Binding(QuantifierOf(ctx, c), true)]];
  }

  /** `let x = @c` in a fresh arm scope declares `x` there, whatever the enclosing scope holds. */
  lemma ShadowStep(ctx: CheckContext, outer: Scope, c: Capture, x: Name, loc: Location)
    requires Valid(ctx) && Defined(ctx, c)
    ensures var r := CheckStatement(ctx, Child([outer]), DeclareImmutable(Var(x, loc), CaptureExpression(c)));
            r.Ok? && r.value.1 == [map[x := Binding(QuantifierOf(ctx, c), false)], outer]
  {
    CaptureReadsTable(ctx, Child([outer]), CaptureExpression(c));
    DeclarationBinds(ctx, Child([outer]), DeclareImmutable(Var(x, loc), CaptureExpression(c)));
  }

  /** In an arm, `let x = @c` shadows the outer `x` and `set m = @c` rewrites the outer `m`. */
  lemma ArmShadowsAndWrites(ctx: CheckContext, outer: Scope, c: Capture, x: Name, m: Name, loc: Location)
    requires Valid(ctx) && Defined(ctx, c) && x != m
    requires m in outer && outer[m].mutable
    ensures var r := CheckStatements(ctx, Child([outer]), [DeclareImmutable(Var(x, loc), CaptureExpression(c)),
                                                           Assign(Var(m, loc), CaptureExpression(c))]);
            r.Ok? && r.value.1 == [map[x := Binding(QuantifierOf(ctx, c), false)],
                                   outer[m := Binding(QuantifierOf(ctx, c), true)]]
  {
    var q := QuantifierOf(ctx, c);
    var shadow := DeclareImmutable(Var(x, loc), CaptureExpression(c));
    var write := Assign(Var(m, loc), CaptureExpression(c));
    var a1 := [map[x := Binding(q, false)], outer];
    ShadowStep(ctx, outer, c, x, loc);
    WriteThroughStep(ctx, map[x := Binding(q, false)], outer, c, m, loc);
    StatementsStep(ctx, a1, [write]);
    StatementsStep(ctx, Child([outer]), [shadow, write]);
    assert [shadow, write][1..] == [write];
  }

  /** The single arm of `if some @opt { let x = @c  set m = @c }` leaves the enclosing scope with `m` rewritten. */
  lemma WriteThroughArm(ctx: CheckContext, outer: Scope, opt: Capture, c: Capture, x: Name, m: Name, loc: Location)
    requires Valid(ctx) && Defined(ctx, opt) && IsOptional(QuantifierOf(ctx, opt))
    requires Defined(ctx, c) && x != m && m in outer && outer[m].mutable
    ensures var r := CheckIfArms(ctx, [outer], [IfArm([SomeCondition([opt])],
                                                      [DeclareImmutable(Var(x, loc), CaptureExpression(c)),
                                                       Assign(Var(m, loc), CaptureExpression(c))])]);
            r.Ok? && r.value.1 == [outer[m := Binding(QuantifierOf(ctx, c), true)]]
  {
    var q := QuantifierOf(ctx, c);
    var arm := IfArm([SomeCondition([opt])], [DeclareImmutable(Var(x, loc), CaptureExpression(c)),
                                             Assign(Var(m, loc), CaptureExpression(c))]);
    OptionalConditionHolds(ctx, opt);
    ArmShadowsAndWrites(ctx, outer, c, x, m, loc);
    var after := [outer[m := Binding(q, true)]];
    assert [map[x := Binding(q, false)], outer[m := Binding(q, true)]][1..] == after;
    assert CheckIfArms(ctx, after, []) == Ok(([], after));
    assert [arm][1..] == [];
    IfArmsStep(ctx, [outer], [arm]);
  }

  /**
   * After `if some @opt { let x = @c  set m = @c }`, every outer binding but
   * `m` is as it was (the arm's `x` only shadowed an outer `x`), while the
   * outer mutable `m` carries the quantifier the arm assigned: `set` writes
   * through to the scope that declares the name.
   */
  lemma ShadowingAndWriteThrough(ctx: CheckContext, outer: Scope, opt: Capture, c: Capture, x: Name, m: Name, loc: Location)
    requires Valid(ctx) && Defined(ctx, opt) && IsOptional(QuantifierOf(ctx, opt))
    requires Defined(ctx, c) && x != m && m in outer && outer[m].mutable
    ensures var r := CheckStatement(ctx, [outer], If([IfArm([SomeCondition([opt])],
                                                            [DeclareImmutable(Var(x, loc), CaptureExpression(c)),
                                                             Assign(Var(m, loc), CaptureExpression(c))])]));
            r.Ok? && r.value.1 == [outer[m := Binding(QuantifierOf(ctx, c), true)]]
  {
    var arm := IfArm([SomeCondition([opt])], [DeclareImmutable(Var(x, loc), CaptureExpression(c)),
                                             Assign(Var(m, loc), CaptureExpression(c))]);
    WriteThroughArm(ctx, outer, opt, c, x, m, loc);
    IfIsItsArms(ctx, [outer], If([arm]));
  }
}
