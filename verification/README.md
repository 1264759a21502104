# tree-sitter-graph static checker, modelled in Dafny

This project models the static checking pass of tree-sitter-graph
(`src/checker.rs`). The pass runs over a parsed graph DSL file before the
file is executed. For every stanza it:

- resolves each syntax capture (`@name`) against the stanza's own query,
  then against the file-wide query, and records two indices and a
  cardinality ("quantifier") on the capture;
- tracks local variables (`let`, `var`, `set`, `node`, the `for` loop
  variable) through a chain of scopes. There is one root scope per stanza,
  and one child scope per `if` arm, per `scan` arm and per `for` body;
- enforces two cardinality rules. A `for` loop needs a list value
  (ZeroOrMore or OneOrMore). A `some`/`none` condition needs an optional
  value (exactly ZeroOrOne).

Checking is fail-fast. The result is either the file with every capture
annotated, or the first `CheckError`.

Files:

| file | contents |
|---|---|
| `names.dfy` | identifiers (`Name` = `string`) |
| `results.dfy` | `Option`, and `Result` with `:-` support |
| `quantifiers.dfy` | the four-valued quantifier, plus the list/optional tests |
| `variables.dfy` | the scope-chained environment (`Env`), with its assumed add/set/get contract and the `Frames` relation between environments |
| `ast.dfy` | the AST: queries, captures, expressions, variables, statements, stanzas, the file. Also annotation erasure, capture collection in checking order, and the names a statement declares or assigns |
| `checker.dfy` | the check itself: a function for each check of the source, plus `CheckFile` as a loop over stanzas. Constants, regex captures and single attributes are checked inline by their callers |
| `soundness.dfy` | what each check establishes, one lemma per check function, proved along the same recursion |
| `properties.dfy` | lemmas: the cardinality each expression kind yields, condition and loop rules, binding sites, scope isolation, fail-fast composition |
| `scenarios.dfy` | small programs whose outcome the checker fixes, stated for every context and every choice of names |

Design:

- The check functions only compute. Their own contracts say only that a
  statement check returns the environment at the depth it was given. The
  full contract of each check is a lemma in `soundness.dfy`. A proof that
  needs it calls that lemma.
- The AST is immutable. Instead of annotating in place, every check
  function returns the annotated tree together with the environment after
  the statement.
  - `Erase*` strips annotations.
  - Each soundness lemma states that the result erases to the input.
  - `Resolved` and `AllResolved` state that every capture of the result
    carries the indices and the quantifier the two queries give it.
- `CapturesChecked` ties success and failure to `FirstUndefined`, the first
  undefined capture in checking order.
  - Success means every capture the tree mentions is defined.
  - An `UndefinedSyntaxCapture` error names the first undefined one.
- `Frames(env, env', written, declared)` describes how a statement may
  change the environment:
  - the same scope depth;
  - the innermost scope gains exactly the names declared;
  - mutability is kept;
  - only mutable bindings of assigned names change.
- The environment implementation (`VariableMap`, in `src/variables.rs`) is
  not part of this model. `variables.dfy` states an assumed contract for it:
  - `add` fails with AlreadyDefined when the innermost scope already holds
    the name, and otherwise declares it there;
  - `set` fails with UndefinedVariable when no scope holds the name, and
    with CannotAssignImmutableVariable when the innermost binding is
    immutable. Otherwise it overwrites that binding where it is, keeping it
    mutable;
  - `get` returns the innermost binding along the chain.
- The three `unwrap`s of the source become preconditions (`WellFormed`,
  `Compatible`, `FullMatch in ...`):
  - the file query exists (src/checker.rs:51);
  - the file query contains the full-match capture (src/checker.rs:78);
  - every capture name of a stanza query is in the file query, with an
    in-range quantifier table row (src/checker.rs:343-345).

Two facts about the code that the contracts rely on:

- The `for` loop variable is bound immutably with the capture's own
  quantifier (src/checker.rs:255).
- `set` writes through to the scope that declares the name. So after an
  `if`, `scan` or `for`, the enclosing scopes are guaranteed to keep their
  keys and mutability, but not their values. `CompoundStatementsIsolateScopes`
  states what holds:
  - the same scopes and keys;
  - the same mutability;
  - unchanged values except for mutable bindings the body assigns;
  - the environment is unchanged outright when the body assigns nothing.
  `Scenarios.ShadowingAndWriteThrough` shows an arm rewriting an outer
  mutable binding.

## Model

| member | source | states |
|---|---|---|
| Variables.Root | src/checker.rs:69 | a stanza starts from a single empty scope |
| Variables.Child | src/checker.rs:173 | a child scope is a fresh empty innermost scope in front of the unchanged enclosing chain |
| Variables.FindScope | src/checker.rs:428-431 | finds the innermost scope holding the name; none means no scope of the chain holds it |
| Variables.Lookup | src/checker.rs:428-434 | assumed `get`: a binding some scope of the chain holds for the name (the one in the scope FindScope picks); nothing exactly when no scope holds it |
| Variables.Add | src/checker.rs:411-413 | assumed `add`: fails with AlreadyDefined exactly when the innermost scope holds the name; otherwise the name reads back as the new binding, every other name reads as before, and only the innermost scope gained the name |
| Variables.Set | src/checker.rs:421-423 | assumed `set`: UndefinedVariable when no scope holds the name, CannotAssignImmutableVariable when its innermost binding is immutable, else that binding is overwritten in the scope where it lives and nothing else changes |
| Variables.SetEffect | src/checker.rs:421-423 | after a successful `set`, the name reads as the new mutable binding, all other names read as before, and the change is a Frames step that writes only that name |
| Variables.RebindEffect | src/checker.rs:421-423 | overwriting a binding in its own scope changes what that name reads as and nothing else |
| Variables.FindScopeSameKeys | src/checker.rs:421-423 | lookup depends only on which names each scope holds, so a write that keeps the keys keeps where every name is found |
| Variables.FramesRefl | src/checker.rs:190-197 | leaving the environment as it is is a step that writes and declares nothing |
| Variables.FramesTrans | src/checker.rs:79-81 | two successive statement steps compose into one, writing and declaring the union |
| Variables.FramesPop | src/checker.rs:206-217 | discarding the innermost scope (an arm's or a loop's child scope) after its body leaves a step on the enclosing chain that declares nothing |
| Variables.FramesNothing | src/checker.rs:190-197 | a step that writes and declares nothing leaves the environment exactly as it was |
| Checker.FirstUndefined | src/checker.rs:335-342 | the first capture, in checking order, that the stanza query does not define; none exactly when all are defined |
| Checker.FirstUndefinedAppend | src/checker.rs:79-81 | the first undefined capture of a concatenation is the first of the front part, else the first of the back part |
| Checker.CheckCapture | src/checker.rs:335-350 | fails with UndefinedSyntaxCapture(name, location) exactly when the stanza query lacks the name; otherwise the capture is annotated with its stanza index, file index and the quantifier from this stanza's row of the file table, and that quantifier is returned |
| Checker.CheckVariableAdd | src/checker.rs:373-383 | declaring a variable, scoped or not, never changes the number of scopes |
| Checker.CheckVariableSet | src/checker.rs:385-394 | assigning a variable, scoped or not, never changes the number of scopes |
| Checker.CheckStatement | src/checker.rs:89-105 | a statement returns the environment at the depth it was given: every child scope it opens is dropped again |
| Checker.CheckStatements | src/checker.rs:79-81 | a block, checked statement by statement, keeps the depth of the environment |
| Checker.CheckDeclaration | src/checker.rs:107-121 | `let`/`var` keeps the depth of the environment |
| Checker.CheckAssign | src/checker.rs:123-129 | `set` keeps the depth of the environment |
| Checker.CheckCreateGraphNode | src/checker.rs:131-137 | `node` keeps the depth of the environment |
| Checker.CheckAddGraphNodeAttribute | src/checker.rs:139-147 | adding node attributes leaves the environment exactly as it was |
| Checker.CheckCreateEdge | src/checker.rs:149-155 | creating an edge leaves the environment exactly as it was |
| Checker.CheckAddEdgeAttribute | src/checker.rs:157-166 | adding edge attributes leaves the environment exactly as it was |
| Checker.CheckPrint | src/checker.rs:190-197 | `print` leaves the environment exactly as it was |
| Checker.CheckScan | src/checker.rs:168-188 | `scan` keeps the depth of the environment |
| Checker.CheckScanArms | src/checker.rs:172-185 | each arm's child scope is dropped after its body, so the arms keep the depth of the environment |
| Checker.CheckIf | src/checker.rs:199-221 | `if` keeps the depth of the environment |
| Checker.CheckIfArms | src/checker.rs:201-218 | the arms, checked in order, keep the depth of the environment |
| Checker.CheckIfArm | src/checker.rs:201-217 | one arm keeps the depth of the environment: its child scope is dropped after the body |
| Checker.CheckForIn | src/checker.rs:240-261 | `for` keeps the depth of the environment |
| Checker.CheckLoopBody | src/checker.rs:247-258 | the loop's child scope is dropped after the body, so the depth of the environment is kept |
| Checker.CheckStanza | src/checker.rs:62-83 | a checked stanza keeps its query, and its full-match index is the one the file query gives the full-match name |
| Checker.CheckFile | src/checker.rs:49-56 | succeeds exactly when every stanza, checked at its own index, succeeds; the result keeps the query and holds each stanza's checked form; an error is the error of the first failing stanza, and all earlier ones succeeded |
| Soundness.ExpressionSound | src/checker.rs:272-288 | contract of `Checker.CheckExpression` (and of `Checker.CheckCaptureExpression` for a capture): only UndefinedSyntaxCapture can fail an expression, and then it names the first undefined capture in checking order; on success every capture of the annotated expression is resolved and it erases to the input |
| Soundness.ListComprehensionSound | src/checker.rs:313-321 | contract of `Checker.CheckListComprehension`: the expression contract, the elements checked in order |
| Soundness.SetComprehensionSound | src/checker.rs:323-332 | contract of `Checker.CheckSetComprehension`: the expression contract, the elements checked in order |
| Soundness.VariableExpressionSound | src/checker.rs:283 | contract of `Checker.CheckVariableExpression`: a variable read meets the expression contract; only a scoped variable's scope can fail it |
| Soundness.CallSound | src/checker.rs:352-361 | contract of `Checker.CheckCall`: the expression contract, the parameters checked in order |
| Soundness.ExpressionsSound | src/checker.rs:315-317 | contract of `Checker.CheckExpressions`: expressions are checked front to back and stop at the first undefined capture; the results are resolved and erase to the inputs |
| Soundness.ScanExpressionSound | src/checker.rs:290-299 | contract of `Checker.CheckScanExpression`: the scanned value fails only on an undefined capture, the first one; on success it is resolved and erases to the input |
| Soundness.VariableGetSound | src/checker.rs:396-401 | contract of `Checker.CheckVariableGet`: reading a variable fails only on the first undefined capture of a scoped variable's scope |
| Soundness.VariableAddSound | src/checker.rs:373-383 | contract of `Checker.CheckVariableAdd`: an unscoped target fails with Variable(AlreadyDefined, name) exactly when the innermost scope holds the name, and otherwise reads back as the new binding; a scoped target succeeds exactly when its scope expression checks and can fail only with UndefinedSyntaxCapture; either way only the innermost scope gains names, exactly the unscoped target's |
| Soundness.VariableSetSound | src/checker.rs:385-394 | contract of `Checker.CheckVariableSet`: an unscoped target fails with Variable(UndefinedVariable) or Variable(CannotAssignImmutableVariable) as `set` does, and otherwise reads back as mutable with the new quantifier, only that name being written; a scoped target succeeds exactly when its scope expression checks, can fail only with UndefinedSyntaxCapture, and leaves the environment as it was |
| Soundness.AttributesSound | src/checker.rs:470-475 | contract of `Checker.CheckAttributes`: attribute values are checked in order and fail only on the first undefined capture |
| Soundness.OptionalCapturesSound | src/checker.rs:230-235 | contract of `Checker.CheckOptionalCaptures`: on success every capture of a condition is resolved with quantifier ZeroOrOne; the only errors are UndefinedSyntaxCapture (for the first undefined capture) and ExpectedOptionalValue |
| Soundness.ConditionsSound | src/checker.rs:223-238 | contract of `Checker.CheckConditions`: conditions are checked in order; errors are UndefinedSyntaxCapture or ExpectedOptionalValue, and on success all captures are resolved |
| Soundness.StatementSound | src/checker.rs:89-105 | the statement contract: a capture error names the first undefined capture; the result erases to the input with all captures resolved; the environment changes only by a Frames step writing the assigned names and declaring exactly the declared names, none of them already in the innermost scope |
| Soundness.StatementsSound | src/checker.rs:79-81 | a block meets the same contract: its step is the composition of its statements' steps |
| Soundness.DeclarationSound | src/checker.rs:107-121 | `let`/`var` meets the statement contract, declaring its unscoped name in the innermost scope |
| Soundness.AssignSound | src/checker.rs:123-129 | `set` meets the statement contract, writing only its own name |
| Soundness.CreateGraphNodeSound | src/checker.rs:131-137 | `node` meets the statement contract, declaring its unscoped name |
| Soundness.AddGraphNodeAttributeSound | src/checker.rs:139-147 | node attributes meet the statement contract: the node first, then the attributes |
| Soundness.CreateEdgeSound | src/checker.rs:149-155 | edge creation meets the statement contract: the source first, then the sink |
| Soundness.AddEdgeAttributeSound | src/checker.rs:157-166 | edge attributes meet the statement contract: source, sink, then attributes |
| Soundness.PrintSound | src/checker.rs:190-197 | `print` meets the statement contract, its values checked in order |
| Soundness.ScanSound | src/checker.rs:168-188 | `scan` meets the statement contract: the scanned value before any arm, and nothing declared in the enclosing scope |
| Soundness.ScanArmsSound | src/checker.rs:172-185 | each arm body runs in a fresh child scope that is dropped: the arms declare nothing in the enclosing chain and change it only through assignments |
| Soundness.IfSound | src/checker.rs:199-221 | `if` meets the statement contract and declares nothing in the enclosing scope |
| Soundness.IfArmSound | src/checker.rs:201-217 | an arm's conditions are checked before its body, which runs in a fresh child scope that is dropped |
| Soundness.IfArmsSound | src/checker.rs:201-218 | the arms, checked in order, declare nothing in the enclosing chain and change it only through assignments |
| Soundness.IfArmsCons | src/checker.rs:201-218 | the arms' contract holds for a first arm followed, from the environment it leaves, by the remaining arms |
| Soundness.ForInSound | src/checker.rs:240-261 | `for` meets the statement contract: the capture first, then the body; nothing is declared in the enclosing scope |
| Soundness.LoopBodySound | src/checker.rs:247-258 | the loop variable and everything the body declares vanish with the loop's child scope; only assignments reach the enclosing chain |
| Soundness.StanzaSound | src/checker.rs:62-83 | a stanza's body is checked from a new root: on success all its captures are resolved, it erases to the input, and the full-match index is the file query's; a capture error names the first undefined capture |
| Properties.ConstantsAreOne | src/checker.rs:275-279 | true, false, null, integer and string constants and regex captures always check, yielding One |
| Properties.ComprehensionsAreZeroOrMore | src/checker.rs:313-333 | a list or set comprehension succeeds exactly when all captures in its elements are defined, and then yields ZeroOrMore |
| Properties.CallsAreOne | src/checker.rs:352-361 | a call succeeds exactly when all captures in its parameters are defined, and then yields One |
| Properties.CaptureReadsTable | src/checker.rs:335-349 | reading a capture fails exactly when the stanza query lacks it, with UndefinedSyntaxCapture; otherwise it yields the file table's quantifier for this stanza |
| Properties.UnscopedReadNeverFails | src/checker.rs:426-436 | reading an unscoped variable always succeeds, yielding the bound quantifier, or One for an unbound name |
| Properties.ScopedReadIsOne | src/checker.rs:459-464 | reading a scoped variable succeeds exactly when its scope expression does, and yields One |
| Properties.OptionalCapturesAcceptOnlyOptionals | src/checker.rs:230-236 | a condition's captures pass exactly when each is defined and ZeroOrOne |
| Properties.OptionalCapturesFailFirst | src/checker.rs:230-236 | a rejected condition reports the error the first offending capture gives: UndefinedSyntaxCapture or ExpectedOptionalValue at that capture |
| Properties.ConditionsAcceptOnlyOptionals | src/checker.rs:223-237 | a list of conditions passes exactly when every capture in it is defined and ZeroOrOne |
| Properties.ForInRequiresList | src/checker.rs:242-258 | a loop over a non-list capture fails with ExpectedListValue at the loop; over a list capture, it succeeds exactly when its body succeeds in a child scope binding only the loop variable, immutable with the capture's quantifier, and the child is dropped afterwards |
| Properties.IfChecksConditionsFirst | src/checker.rs:201-204 | a failing condition in the first arm fails the whole `if` with that error, before any body is looked at |
| Properties.DeclarationBinds | src/checker.rs:107-121 | `let`/`var` fails with Variable(AlreadyDefined) exactly when the innermost scope holds the name; otherwise the innermost scope gains the name with the value's quantifier and the statement's mutability, and nothing else changes |
| Properties.AssignmentRebinds | src/checker.rs:123-129 | `set` fails with UndefinedVariable for an unbound name and CannotAssignImmutableVariable for an immutable one; otherwise exactly the binding's own scope is rewritten to the value's quantifier, still mutable |
| Properties.SetSucceedsOnMutable | src/checker.rs:421-423 | `set` succeeds whenever the innermost binding of the name is mutable |
| Properties.NodeCreationBindsOne | src/checker.rs:131-137 | `node n` fails exactly when `n` is already in the innermost scope; otherwise it adds `n` as an immutable One there |
| Properties.NonBindingStatementsKeepEnv | src/checker.rs:139-166 | print, edge and attribute statements succeed exactly when all their captures are defined, leave the environment as it was, and fail with the first undefined capture |
| Properties.ScopedTargetsBindNothing | src/checker.rs:439-457 | a binding statement whose target is a scoped variable leaves the environment as it was |
| Properties.CompoundStatementsIsolateScopes | src/checker.rs:168-261 | after an `if`, `scan` or `for`, the enclosing chain has the same scopes, keys and mutability; only mutable bindings the body assigns may change, and nothing changes when it assigns nothing |
| Properties.StatementsCompose | src/checker.rs:79-81 | checking `a + b` is checking `a`, then `b` from where `a` left the environment; the first error is returned unchanged |
| Scenarios.ListCaptureLoops | src/checker.rs:240-261 | `let x = @c` then a loop over a list capture `@c` printing the loop variable checks, leaving only `x` bound, with `@c`'s quantifier |
| Scenarios.SingleCaptureDoesNotLoop | src/checker.rs:242-245 | the same loop over a non-list capture fails with ExpectedListValue at the loop |
| Scenarios.NoneOnNonOptionalFails | src/checker.rs:231-234 | `if none @c {}` fails with ExpectedOptionalValue at the capture when `@c` is not ZeroOrOne |
| Scenarios.RedeclarationFails | src/checker.rs:107-121 | declaring the same name twice in a stanza fails with Variable(AlreadyDefined), whatever the two mutabilities |
| Scenarios.AssigningImmutableFails | src/checker.rs:123-129 | `let x = i` then `set x = j` fails with Variable(CannotAssignImmutableVariable) |
| Scenarios.ArmBindsLocally | src/checker.rs:206-217 | a declaration in an arm lands in the arm's own scope, and the enclosing root stays empty |
| Scenarios.ArmMissesUndeclared | src/checker.rs:206-217 | assigning an undeclared name in an arm fails with Variable(UndefinedVariable) |
| Scenarios.OptionalConditionHolds | src/checker.rs:223-237 | `some @opt` passes when `@opt` is ZeroOrOne |
| Scenarios.LastArmFails | src/checker.rs:201-218 | an unconditional arm that assigns an undeclared name fails the arms |
| Scenarios.SiblingArmsAreIsolated | src/checker.rs:199-221 | a name declared in one `if` arm is undefined in the next arm |
| Scenarios.ArmShadowsAndWrites | src/checker.rs:206-217 | inside an arm, `let x` shadows the outer `x` in the arm's scope while `set m` rewrites the outer mutable `m` with the value's quantifier |
| Scenarios.WriteThroughStep | src/checker.rs:421-423 | `set m` from an arm scope that does not hold `m` rewrites the enclosing mutable binding with the value's quantifier |
| Scenarios.ShadowStep | src/checker.rs:107-113 | `let x` in a fresh arm scope declares `x` there even when the enclosing scope holds `x` |
| Scenarios.WriteThroughArm | src/checker.rs:201-218 | the arm `some @opt { let x = @c  set m = @c }` leaves the enclosing scope with only `m` rewritten |
| Scenarios.ShadowingAndWriteThrough | src/checker.rs:199-221 | after that `if`, every outer binding but `m` is as it was, and the outer mutable `m` carries the quantifier the arm assigned |
| Scenarios.CapturesAreStanzaLocal | src/checker.rs:338-342 | a capture that the stanza's own query does not bind fails with UndefinedSyntaxCapture, whatever other stanzas bind |
| Scenarios.StanzasStartEmpty | src/checker.rs:69-81 | every stanza starts from an empty environment: assigning a name it never declared fails |

## Left out

- The `VariableMap` implementation (src/variables.rs is not part of this model). Only its assumed add/set/get contract is modelled, as described above.
- Name interning (`Context::resolve`), `display_with`, and the error message texts. Names are plain strings, and a `Location` is an opaque (row, column) pair carried in errors.
- `tree_sitter::Query` internals. A query is a map from capture name to index, plus a quantifier table with one row per stanza.
- The value of the full-match capture name: `FullMatch` is "__tsg__full_match". It comes from src/parser.rs, which is not part of this model.
- The parser that builds the AST, and the execution engine that consumes the annotations.
- In-place annotation on failure. The source may leave some captures annotated before it returns an error. The model returns nothing but the error.
- IntegerConstant is an unbounded `nat`. The checker never inspects its value, so the source's 32-bit width does not matter here.
- The field types of src/ast.rs are not part of this model. The loop source of `for` is a capture, the scanned value is a scan expression, and the node and edge endpoints are expressions. These are the types the check calls imply.
- The `&mut dyn Variables` plumbing and Rust borrowing. Each check returns the new environment instead.
- CompoundStatementsIsolateScopes: is weaker than "the enclosing scope is unchanged". Assignments in a body write through to outer mutable bindings, as described above.
