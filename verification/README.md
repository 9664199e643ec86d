# qmllint's scope-building visitor, in Dafny

This project models the core of `FindWarningVisitor` from qmllint
(`tools/qmllint/findwarnings.cpp`). It is the syntax-tree visitor that builds
the scope graph of a QML document while the parser's traversal driver calls
it at every node entry and exit. Afterwards `check()` revisits the deferred
`Connections` objects and hands the collected state to the identifier
checker. The model covers:

- the environment stack (`enterEnvironment` / `leaveEnvironment`);
- `signalName`, which maps a handler name such as `onClicked` to `clicked`;
- `importExportedNames`, which copies members along the base-type chain and
  detects cycles and unresolved bases;
- the signal-handler protocol: a handler binding records a pending handler,
  and the next expression statement or block opens a scope and receives the
  signal's parameters (`flushPendingSignalParameters`);
- how JavaScript declarations are classified: `var`, `let`/`const`, formal
  parameters, `catch` bindings and named functions;
- the member-access chain recorder: identifiers, field accesses, and `as`
  casts;
- `Connections` objects: they get their target's methods or are queued, and
  `check()` drains the queue;
- root-id detection for `id:` bindings.

## How the model is built

- **Scopes.** Scopes live in an arena `seq<Scope>` and are named by index
  (`Scopes`). A parent always has a smaller index than its children, so the
  lexical chain is acyclic. A base-type link may point anywhere, so the
  base chain may cycle; this is the case `importExportedNames` detects.
- **Visitor state.** The visitor's fields form one immutable record,
  `State.Visitor`. Every `visit`/`endVisit` is a pure function of that
  record.
- **Grows.** `State.Grows` holds of every operation: no scope, member, id,
  handler, queued connection, failure or warning is ever taken back.
- **Trees.** The syntax tree is a `Tree` of events (`Ast`).
  `Traversal.Walk` visits a node, walks its children only when the visit
  answers true, and then always calls the end visit. This matches the
  parser's `accept`.
- **Undefined behaviour.** Where the source dereferences a null pointer or
  fails a `Q_ASSERT`, the model returns `None`:
  - an `id:` binding whose value is not an identifier;
  - a field-access end visit with no chain to extend;
  - leaving the outermost scope;
  - an object binding with an empty type name;
  - a `Connections` object with no explicit target and no QML scope above it.
- **Parameters.** The identifier checker's verdict is a parameter of
  `Check`. The imported type scopes and the import table are parameters of
  `Init`.

Two choices differ from a naive reading of the source:

- **Expression-statement scopes.** The end visit of an expression statement
  is modelled as intended, not as written (see Findings). The visitor keeps
  a stack `handlerFrames` with one flag per open expression statement. The
  flag records whether that statement's visit entered a handler scope, and
  the end visit leaves a scope exactly when the flag says so.
- **The deferred `Connections` pass.** `check()` walks over a snapshot of
  the queued objects. In the source, a `Connections` object found during
  the re-walk is appended to the vector the range-for is iterating, which is
  undefined behaviour. Such late entries are never revisited.

Two further behaviours of the source:

- `check()` answers false before draining the queue when a visit failed.
  It answers true without consulting the identifier checker when
  unqualified-access warnings are off, and failures latched during the
  re-walk do not change its answer.
- The implicit target of a `Connections` object is found by walking
  `parentScope` links from the object's own scope. The search stops at the
  first QML scope strictly above it, and that scope's base-type name is
  looked up among the root imports.

## Model

| member | source | states |
|---|---|---|
| State.Init | tools/qmllint/findwarnings.cpp:388-435 | the visitor starts in a parentless global function scope named "global" appended to the imported scopes; its identifiers are exactly the nine host names the constructor lists itself, each lexical at no location; no handler is pending, the root id is "<id>", nothing has failed, nothing is queued and nothing is warned |
| State.EnterEnvironment | tools/qmllint/findwarnings.cpp:46-51 | a new composite scope of the given type and name becomes current, its parent is the old current scope, and every existing scope is untouched |
| State.LeaveEnvironment | tools/qmllint/findwarnings.cpp:53-56 | the parent of the current scope becomes current, and nothing else changes |
| State.EnterThenLeave | tools/qmllint/findwarnings.cpp:46-56 | leaving right after entering restores the current scope |
| State.FlushPendingSignalParameters | tools/qmllint/findwarnings.cpp:106-117 | every parameter of the pending handler's signal becomes an injected identifier of the current scope, located at the handler; the pending marker becomes invalid; a location missing from the handler table gains a default entry (the effect of `operator[]`), and only the current scope changes |
| SignalNames.ScanSignal | tools/qmllint/findwarnings.cpp:281-288 | the scan gives up at a lower-case letter; at the first upper-case letter, reached after uncased characters only, it returns the string with just that letter lower-cased; otherwise it returns nothing |
| SignalNames.SignalName | tools/qmllint/findwarnings.cpp:276-291 | the result is non-empty exactly for "on" followed by uncased characters and then a capital letter, and it is then the rest of the name with that capital lower-cased |
| SignalNames.SignalNameOfHandlerName | tools/qmllint/findwarnings.cpp:276-291 | a signal name that starts with a lower-case letter survives the round trip through its handler name "on" + capitalised name |
| SignalNames.LowerCaseAfterPrefixIsNoHandler | tools/qmllint/findwarnings.cpp:285-286 | a lower-case letter after "on" and uncased characters means the name is not a handler name |
| Scopes.AddMethod | tools/qmllint/findwarnings.cpp:364 | a method becomes the newest overload of its name, the older overloads follow it, and other names keep their overloads |
| Scopes.AddMethods | tools/qmllint/findwarnings.cpp:88 | each name's overloads afterwards are those of the source plus those of the destination, as a multiset: no overload is lost or invented, and a name has methods exactly when either side had them |
| State.MethodsIncludedGrowing | tools/qmllint/findwarnings.cpp:88 | overloads one scope includes are still included after that scope only gains members |
| Scopes.FirstSignal | tools/qmllint/findwarnings.cpp:335-346 | the first overload, in table order, whose kind is signal; none exactly when no overload is a signal |
| Scopes.InsertAll | tools/qmllint/findwarnings.cpp:108-114 | every listed name maps to the given identifier, and the other names keep their entries |
| Scopes.RootObjectScopeIsDepthTwo | tools/qmllint/findwarnings.cpp:303-308 | the test "has a parent and a grandparent, and the grandparent has no parent" holds exactly at depth two |
| Scopes.Ancestors | tools/qmllint/findwarnings.cpp:656-659 | the proper ancestors of a scope, nearest first: empty exactly for a parentless scope, the first entry is the scope's parent and each later entry is the parent of the one before it, one per level of depth |
| Scopes.FirstQml | tools/qmllint/findwarnings.cpp:656-659 | the position of the first QML scope in a list of scopes, or none when the list has no QML scope |
| Scopes.NearestQmlAncestor | tools/qmllint/findwarnings.cpp:653-660 | the do/while parent walk agrees with the reference definition: the first QML scope in the list of proper ancestors, or none when there is none |
| Scopes.NearestQmlAncestorPrefix | tools/qmllint/findwarnings.cpp:653-660 | appending scopes does not change the nearest QML ancestor of an existing scope |
| Inheritance.BaseChain | tools/qmllint/findwarnings.cpp:58-104 | the scopes the loop visits are distinct and each is the base of the previous one; the loop ends at a scope without a base-type name, at a base that was already visited (a cycle), or at a base name that did not resolve; the walk terminates because each step visits a new scope |
| Inheritance.CopyAll | tools/qmllint/findwarnings.cpp:84-88 | copying only ever adds members to the current scope, and every other scope stays unchanged |
| Inheritance.CopyAllInherits | tools/qmllint/findwarnings.cpp:84-88 | after copying, the current scope holds every property and every method overload of each visited scope |
| Inheritance.Report | tools/qmllint/findwarnings.cpp:63-102 | reaching the root changes nothing; on a cycle, the repeated scope's internal name becomes an unknown import and, when cycle warnings are on, a warning lists the visited base-type names; an unresolved base records and reports its name; the failure flag is latched exactly on those two ends; only the scopes stay as they were |
| Inheritance.BaseChainShape | tools/qmllint/findwarnings.cpp:58-104 | the base chain depends only on the scopes' base links and names: two arenas whose scopes have the same shapes give the same chain, so copying members never changes it |
| Inheritance.HoldsBaseChainGrowing | tools/qmllint/findwarnings.cpp:84-88 | a scope that holds every member of its base chain still does after it only gains members |
| Inheritance.ImportExportedNames | tools/qmllint/findwarnings.cpp:58-104 | the current scope inherits the members of every scope on the base chain and no other scope changes; the failure flag ends up set exactly when it already was or the chain did not end at a scope without a base-type name; a cycle records the repeated scope's internal name as an unknown import and, when cycle warnings are on, warns with the visited base-type names; an unresolved base name is recorded and warned about; reaching the root adds no unknown import and no warning |
| Declarations.Classify | tools/qmllint/findwarnings.cpp:463-465 | a `var` declaration is function-scoped, and anything else is lexical |
| Declarations.LastDecl | tools/qmllint/findwarnings.cpp:460-470 | the last declaration of a name in the list; none exactly when the list does not declare the name |
| Declarations.DeclareAll | tools/qmllint/findwarnings.cpp:460-470 | the table after inserting the declarations in order: each declared name holds the record of its last declaration, and undeclared names keep their entries |
| Declarations.VisitVariableDeclarationList | tools/qmllint/findwarnings.cpp:458-472 | only the current scope's identifier table changes, and it becomes the table after all the declarations |
| Declarations.VarIsFunctionScopedLetIsLexical | tools/qmllint/findwarnings.cpp:462-466 | a single `var` declaration yields a function-scoped identifier, and a single `let` or `const` a lexical one, at the declaration's location |
| Declarations.VisitPatternElement | tools/qmllint/findwarnings.cpp:678-695 | a declaring pattern changes only the current scope's identifier table: each bound name maps to its declaration kind at the pattern's location, the table gains exactly the bound names, and every other identifier keeps its entry; any other pattern changes nothing |
| Declarations.VisitFormalParameterList | tools/qmllint/findwarnings.cpp:516-526 | each bound name becomes a parameter located at the list and other identifiers are kept; nothing but the current scope's identifier table changes |
| Declarations.VisitCatch | tools/qmllint/findwarnings.cpp:240-249 | a lexical "catch" scope opens below the current one and holds exactly the binding identifier, lexical, at its location; every existing scope and every other field of the visitor is unchanged |
| Declarations.VisitFunction | tools/qmllint/findwarnings.cpp:474-514 | a named function becomes the newest "void" overload of its name in a QML scope, other names keeping their overloads, or a lexical identifier elsewhere; then its function scope opens below; an anonymous one opens "<anon>" and declares nothing; no other scope and no other field of the visitor changes |
| Handlers.FlushIfPending | tools/qmllint/findwarnings.cpp:218-219 | with a handler pending, the parameters are flushed into the current scope; otherwise nothing changes |
| Handlers.VisitExpressionStatement | tools/qmllint/findwarnings.cpp:199-206 | with a handler pending, exactly one child scope is appended and becomes current, the existing scopes are untouched, the handler stops pending and a missing handler-table entry gains its default; in every case the frame stack gains one flag saying whether a scope was opened, and without a pending handler nothing else changes |
| Handlers.ExpressionStatementInjectsParameters | tools/qmllint/findwarnings.cpp:199-206 | with a handler pending, the new scope is a function scope named "signalhandler"; it holds exactly the signal's parameters, injected at the handler's location, and the handler is no longer pending |
| Handlers.EndExpressionStatement | tools/qmllint/findwarnings.cpp:208-214 | (corrected) pops the frame and leaves a scope exactly when the matching visit opened one |
| Handlers.ExpressionStatementBalanced | tools/qmllint/findwarnings.cpp:199-214 | whatever the statement's children do, provided they return to where they started, the end visit restores the statement's starting scope and frame stack |
| Handlers.EndExpressionStatementAsWritten | tools/qmllint/findwarnings.cpp:208-214 | (as written) leaves whenever the current scope is a function scope named "signalhandler", and otherwise changes nothing |
| Handlers.AsWrittenDiffersOnlyInSignalhandlerNamedScopes | tools/qmllint/findwarnings.cpp:208-214 | the written end visit agrees with the intended one exactly when a handler was pending or the statement did not start inside a function scope named "signalhandler" |
| Handlers.UserFunctionNamedSignalhandlerLeavesEarly | tools/qmllint/findwarnings.cpp:208-214 | counterexample: in a user function named `signalhandler`, the written end of a statement leaves the function's scope, while the intended one stays in it |
| Handlers.VisitBlock | tools/qmllint/findwarnings.cpp:216-222 | a lexical "block" scope opens and then, with a handler pending, receives its parameters |
| Handlers.BlockInjectsParameters | tools/qmllint/findwarnings.cpp:216-222 | with a handler pending, the block scope holds exactly the signal's parameters, injected at the handler |
| Handlers.VisitWith | tools/qmllint/findwarnings.cpp:256-269 | a discouragement warning is emitted exactly when enabled, a lexical "with" scope opens below the current one, and no existing scope and no other field of the visitor changes |
| Handlers.BindId | tools/qmllint/findwarnings.cpp:296-308 | the id maps to the current scope; the root id becomes that id exactly when the current scope is at depth two (global, program, root object) |
| Handlers.BindHandler | tools/qmllint/findwarnings.cpp:309-349 | the "no matching signal" warning is emitted exactly when the name maps to a signal, the current scope has no method of that name, and unqualified warnings are on; only the handler fields and the warnings change |
| Handlers.BindHandlerRegisters | tools/qmllint/findwarnings.cpp:327-346 | when the name maps to a signal, the statement is not a function, and the scope has a signal overload of that name: the first such overload is recorded at the statement's start, it becomes pending, and it is multiline exactly when the statement's end line is after its start line |
| Handlers.BindHandlerIgnores | tools/qmllint/findwarnings.cpp:309-346 | otherwise neither the handler table nor the pending handler changes |
| Handlers.VisitScriptBinding | tools/qmllint/findwarnings.cpp:293-351 | fails exactly on an `id:` binding whose value is not a bare identifier; otherwise it binds the id or the handler and stays in the current scope |
| MemberAccess.VisitIdentifierExpression | tools/qmllint/findwarnings.cpp:380-386 | the current scope gains a new one-link chain with the identifier's name and no type, and the identifier becomes the chain end; other scopes' chains are unchanged |
| MemberAccess.EndFieldMemberExpression | tools/qmllint/findwarnings.cpp:721-747 | when the unwrapped base is the chain end, the field joins the current scope's last chain, typed by the base's `as` cast, and becomes the chain end; otherwise the chain end is cleared; fails exactly when there is no last chain to extend or that chain is empty |
| MemberAccess.EndBinaryExpression | tools/qmllint/findwarnings.cpp:754-760 | an `as` whose left operand is the chain end becomes the chain end; anything else clears it |
| MemberAccess.IdentifierThenField | tools/qmllint/findwarnings.cpp:380-747 | `x.y` records the chain [x, y] with no types |
| MemberAccess.CastThenField | tools/qmllint/findwarnings.cpp:721-760 | `(x as T).y` records the chain [x, y] with y typed T |
| MemberAccess.OtherOperatorBreaksChain | tools/qmllint/findwarnings.cpp:721-760 | any other binary operator between x and `.y` leaves the chain at [x] and clears the chain end |
| Objects.ParameterNames | tools/qmllint/findwarnings.cpp:359-363 | the declared parameter names, in declaration order |
| Objects.ParameterTypes | tools/qmllint/findwarnings.cpp:359-363 | the declared parameter type names, in declaration order |
| Objects.DeclaredProperty | tools/qmllint/findwarnings.cpp:366-374 | the property's type name is the member type, or empty; it is a list exactly for the "list" modifier, writable exactly when not read-only, an alias exactly for type "alias", and typed by the import of its type name |
| Objects.VisitPublicMember | tools/qmllint/findwarnings.cpp:353-378 | a signal becomes the newest overload of its name, with its parameters, and other names are untouched; a property enters the current scope's property table, replacing any property of that name |
| Objects.ResolveAndImport | tools/qmllint/findwarnings.cpp:631-632 | the current scope's base type becomes the import of its base-type name; it keeps its own members and holds every member of every scope on its base chain; the chain's end is reported as importExportedNames reports it (failure flag, unknown imports, warnings); no other scope and no other field changes |
| Objects.ImportedChain | tools/qmllint/findwarnings.cpp:631-632 | importing the current scope's base chain leaves it holding the members of the chain computed on the resulting scopes, and reports that chain's end |
| Objects.OpenObjectScope | tools/qmllint/findwarnings.cpp:627-632 | a QML scope named after the type opens below the current scope and the existing scopes are untouched; its base type is the import of its name, it holds every member of its base chain, and the chain's end is reported in the failure flag, unknown imports and warnings |
| Objects.ConnectionsTarget | tools/qmllint/findwarnings.cpp:635-652 | the first member binding named `target` decides the target: its value's identifier name, or empty when the value is not a bare identifier; empty when there is no such binding |
| Objects.AddTargetMethods | tools/qmllint/findwarnings.cpp:672-673 | with a target, the current scope gains all of its overloads; without one, nothing changes |
| Objects.ConnectTarget | tools/qmllint/findwarnings.cpp:653-673 | no target: the nearest QML scope above supplies the target through the import of its base-type name, and the case fails exactly when there is none; a known id supplies its scope; an unknown id queues the object with its scope and members, and the members are not visited |
| Objects.VisitObjectDefinition | tools/qmllint/findwarnings.cpp:618-676 | a QML scope named by the dotted type name opens below the current one; an all-lower-case name skips the members and resolves nothing; otherwise the result is exactly that of opening, resolving and importing the scope, followed for a name ending in "Connections" by the target step |
| Objects.AddTargetMethodsKeepsBaseChain | tools/qmllint/findwarnings.cpp:672-673 | adding a target's overloads keeps the object's scope holding its base chain, and the chain is unchanged |
| Objects.ConnectTargetKeepsBaseChain | tools/qmllint/findwarnings.cpp:653-673 | whatever the target step does, the object's scope still holds its base chain, the chain is unchanged, and the failure flag is untouched |
| Objects.ObjectDefinitionImportsBaseChain | tools/qmllint/findwarnings.cpp:618-676 | a resolved object's scope ends up holding every member of its base chain, and the failure flag is latched exactly when it already was or the chain did not end at a scope without a base-type name |
| Objects.EndObjectDefinition | tools/qmllint/findwarnings.cpp:697-714 | leaves the object's scope; unless the enclosing scope is named "Component" or "program", a `parent` property of the object is retyped as the enclosing scope |
| Objects.VisitObjectBinding | tools/qmllint/findwarnings.cpp:584-603 | the current scope's property named by the binding becomes a writable pointer property with the dotted type name, an alias exactly for "alias", typed by the import of the first segment, and no other existing scope changes; then the object's QML scope opens below, its base type the import of the dotted name, holding every member of its base chain with the chain's end reported; fails exactly on an empty type name |
| Objects.EndObjectBinding | tools/qmllint/findwarnings.cpp:605-616 | leaves to the parent scope and sets the property named by the binding's qualified id to a writable pointer property whose type name is the first type-name segment (an alias exactly for "alias") and whose type is the object's scope; nothing else changes; fails exactly without a parent or a type name |
| Objects.ImplicitTargetNeedsQmlScopeAbove | tools/qmllint/findwarnings.cpp:653-660 | a `Connections` object without a target fails exactly when neither the enclosing scope nor any scope above it is a QML scope |
| Objects.UnknownTargetIsQueued | tools/qmllint/findwarnings.cpp:661-669 | a `Connections` object with an unknown target id is appended to the queue with its target, scope and members, and its members are not walked |
| Objects.KnownTargetMethodsAreAdded | tools/qmllint/findwarnings.cpp:661-673 | a target id registered with a scope adds every overload of that scope to the `Connections` scope, and the members are walked |
| Objects.NullTargetAddsNothing | tools/qmllint/findwarnings.cpp:663-673 | a target id registered without a scope adds nothing, and the members are walked |
| Traversal.EnterFor | tools/qmllint/findwarnings.cpp:126-237 | each of these visits opens exactly one empty scope below the current one and changes nothing else: a QML scope "program" for the program, a function scope named after the class, and lexical scopes "forloop", "foreachloop" and "case" |
| Traversal.Visit | tools/qmllint/findwarnings.cpp:126-760 | the scope-opening visits leave a child of the old current scope current; an expression statement pushes one frame; every other visit keeps the current scope and the frame stack |
| Traversal.EndVisit | tools/qmllint/findwarnings.cpp:150-760 | the end visits of scope-opening nodes return to the parent scope; the others keep the current scope and the frames, except the expression statement, which pops its frame |
| Traversal.EndUndoesVisit | tools/qmllint/findwarnings.cpp:46-56 | after a visit and a balanced walk of the children, the end visit restores the scope and frame stack the visit started from |
| Traversal.Walk | tools/qmllint/findwarnings.cpp:46-56 | a completed walk of a tree returns to its starting scope and frame stack and never takes back anything recorded |
| Traversal.WalkAll | tools/qmllint/findwarnings.cpp:46-56 | the same for a sequence of sibling trees |
| Traversal.LookupId | tools/qmllint/findwarnings.cpp:444 | looking up a missing id inserts a null entry for it, and nothing else changes |
| Traversal.MergeTarget | tools/qmllint/findwarnings.cpp:444-446 | a queued object's scope gains its target's overloads exactly when the id resolves to a scope; otherwise the scopes are unchanged |
| Traversal.ReviseConnection | tools/qmllint/findwarnings.cpp:443-448 | the target id ends up in the id map; when the id named a scope, the object's scope ends up holding every overload of that scope, whatever its members' walk adds; the current scope is restored afterwards |
| Traversal.MergedMethodsKept | tools/qmllint/findwarnings.cpp:444-446 | once merged, the target's overloads stay in the object's scope through any later growth |
| Traversal.MemberlessConnectionOnlyMerges | tools/qmllint/findwarnings.cpp:443-448 | an object with no members is only merged: its revision is exactly the merge step |
| Traversal.ReviseAll | tools/qmllint/findwarnings.cpp:443-448 | every target id of the queue ends up in the id map, nothing recorded is taken back, and the current scope is restored |
| Traversal.ReviseAllHead | tools/qmllint/findwarnings.cpp:443-448 | a non-empty queue is drained by revising its first object and then the rest from the state that leaves; a failed first revision fails the drain |
| Traversal.ReviseAllSplit | tools/qmllint/findwarnings.cpp:443-448 | the objects are revisited in queue order: the first `i` are revised first and the rest continue from the state they leave |
| Traversal.ReviseAllMergesFirst | tools/qmllint/findwarnings.cpp:444-446 | the first queued object ends up holding every overload of the scope its target id names when the drain starts |
| Traversal.ReviseAllMergesEach | tools/qmllint/findwarnings.cpp:443-448 | every queued object whose target id names a scope when its turn comes ends up, after the whole drain, holding every overload of that scope |
| Traversal.Check | tools/qmllint/findwarnings.cpp:437-456 | answers false with the state untouched when a visit failed; otherwise its state is exactly the one the queue's drain leaves, it fails exactly when the drain does, and it answers true when unqualified warnings are off and the identifier checker's verdict when they are on |
| Scenarios.RootObjectIdBecomesRootId | tools/qmllint/findwarnings.cpp:303-308 | starting from a fresh visitor, an `id:` binding in the program's top-level object sets the root id to that id |
| Scenarios.NestedObjectIdKeepsRootId | tools/qmllint/findwarnings.cpp:303-308 | an `id:` binding in an object nested below the root object registers its scope but leaves the root id alone |
| Scenarios.DeclaredSignalHandlerSeesParameters | tools/qmllint/findwarnings.cpp:199-378 | after `signal s(params)`, the binding `onS: stmt` records that signal at the statement's start, and the statement's "signalhandler" scope holds every parameter as an injected identifier |

## Left out

- The importer and all file I/O: loading builtins, qmltypes files and the
  document's directory in `visit(UiProgram)` (lines 126-148), and
  `visit(UiImport)`. Imports are fixed when the visitor is created, as the
  import table and imported scopes passed to `State.Init`.
- `visit(UiEnumDeclaration)`: enums play no part in scopes, ids, handlers or
  chains.
- `throwRecursionDepthError` and the traversal's depth limit. The model's
  walk is a structural recursion with no depth bound.
- Colour output, `printContext` and message text. Warnings are recorded
  only by kind and subject.
- `CheckIdentifiers`, the identifier checker. Its verdict is the
  `identifiersPass` parameter of `Traversal.Check`.
- State.Init: does not seed the JavaScript engine's global names
  (`s_globalNames`, lines 424-428), because that list is not part of this
  model; only the nine host names the constructor lists itself are seeded.
- Hoisting in `insertJSIdentifier`, and the `xChanged` handler names that
  `insertPropertyIdentifier` synthesises. Both are treated as plain
  insertions into the identifier or property table, because their
  definitions are not part of this model.
- Unicode case classes. `isLower`/`isUpper`/`toLower` are modelled on ASCII
  letters, and every other character is uncased.
- A binding's qualified id is reduced to its first segment, which is what
  the source compares.
- The undefined-behaviour paths yield `None` instead of a crash. The model
  makes no claim about what the program does there.
- Traversal.ReviseAll: revisits a snapshot of the queue. A `Connections`
  object queued during the re-walk is not revisited, because in the source
  that append happens inside a range-for over the same vector.
- Traversal.Check: failures latched during the re-walk do not change the
  answer, as in the source. The model does not state which diagnostics the
  re-walk emits.

## Findings

| source | as written | input that shows it | evidently intended | confidence | as-written member | corrected member |
|---|---|---|---|---|---|---|
| tools/qmllint/findwarnings.cpp:208-214 | the end visit of every expression statement leaves the current scope whenever it is a function scope named "signalhandler", whether or not this statement's visit entered it | `function signalhandler() { e; }` with no handler pending: the end of `e;` leaves the function's scope, so the function's own end visit then leaves the enclosing scope, and every later declaration lands one level too high | leave only the scope that the matching `visit(ExpressionStatement)` entered | medium, not executed | Handlers.EndExpressionStatementAsWritten, Handlers.UserFunctionNamedSignalhandlerLeavesEarly | Handlers.EndExpressionStatement, Handlers.ExpressionStatementBalanced |
