/**
 * Script bindings and the signal-handler protocol. A binding `onFoo: stmt`
 * whose name maps to a signal of the current scope records a pending
 * handler; the next expression statement or block opens a scope and injects
 * the signal's parameters into it. An `id:` binding registers the current
 * scope under that id and, on the document's root object, sets the root id.
 */
module Handlers {
  import opened Options
  import opened Scopes
  import opened Ast
  import opened State
  import opened SignalNames

  /** flushPendingSignalParameters when a handler is pending, else nothing. */
  function FlushIfPending(v: Visitor): (r: Visitor)
    requires Valid(v)
    ensures Valid(r) && Grows(v, r) && PendingRegistered(r) && !r.pendingSignalHandler.IsValid()
    ensures r.currentScope == v.currentScope && r.handlerFrames == v.handlerFrames
    ensures r.arena == v.arena[v.currentScope := Current(r)]
    ensures v.pendingSignalHandler.IsValid() ==> r == FlushPendingSignalParameters(v)
    ensures !v.pendingSignalHandler.IsValid() ==> r == v
  {
    if v.pendingSignalHandler.IsValid() then FlushPendingSignalParameters(v) else v
  }

  /** The identifiers a handler scope holds right after the flush: the parameters, injected at the handler. */
  predicate HoldsParameters(ids: map<string, JSIdentifier>, v: Visitor) {
    && ids.Keys == set p | p in PendingParameters(v)
    && forall p :: p in PendingParameters(v) ==> p in ids && ids[p] == JSIdentifier(Injected, v.pendingSignalHandler)
  }

  /**
   * visit(ExpressionStatement): with a handler pending, a function scope named
   * "signalhandler" opens and receives the signal's parameters. The frame
   * pushed here remembers whether a scope was entered.
   */
  function VisitExpressionStatement(v: Visitor): (r: Visitor)
    requires Valid(v)
    ensures Valid(r) && Grows(v, r)
    ensures r.handlerFrames == v.handlerFrames + [v.pendingSignalHandler.IsValid()]
    ensures v.pendingSignalHandler.IsValid() ==> Current(r).parentScope == Some(v.currentScope)
    ensures v.pendingSignalHandler.IsValid() ==>
              && |r.arena| == |v.arena| + 1 && r.arena[..|v.arena|] == v.arena && r.currentScope == |v.arena|
              && !r.pendingSignalHandler.IsValid()
              && r.signalHandlers == (if v.pendingSignalHandler in v.signalHandlers then v.signalHandlers
                                      else v.signalHandlers[v.pendingSignalHandler := DefaultSignalHandler])
              && r == v.(arena := r.arena, currentScope := r.currentScope, handlerFrames := r.handlerFrames,
                         signalHandlers := r.signalHandlers, pendingSignalHandler := r.pendingSignalHandler)
    ensures !v.pendingSignalHandler.IsValid() ==> r == v.(handlerFrames := r.handlerFrames)
  {
    var pushed := v.(handlerFrames := v.handlerFrames + [v.pendingSignalHandler.IsValid()]);
    ExtendsReflexive(v.arena);
    if v.pendingSignalHandler.IsValid() then
      var e := EnterEnvironment(pushed, JSFunctionScope, "signalhandler");
      var f := FlushPendingSignalParameters(e);
      GrowsTransitive(pushed, e, f);
      f
    else
      pushed
  }

  /**
   * Under a pending handler an expression statement opens a function scope
   * named "signalhandler" whose identifiers are exactly the signal's
   * parameters, and no handler is pending afterwards.
   */
  lemma {:induction false} ExpressionStatementInjectsParameters(v: Visitor)
    requires Valid(v) && v.pendingSignalHandler.IsValid()
    ensures var r := VisitExpressionStatement(v);
            && r.currentScope == |v.arena| && PendingRegistered(r) && !r.pendingSignalHandler.IsValid()
            && Current(r).scopeType == JSFunctionScope && Current(r).baseTypeName == "signalhandler"
            && HoldsParameters(Current(r).jsIdentifiers, v)
  {
    var e := EnterEnvironment(v, JSFunctionScope, "signalhandler");
    assert PendingParameters(e) == PendingParameters(v);
  }

  /**
   * endVisit(ExpressionStatement), stated as intended: pop the frame and leave
   * the scope exactly when the matching visit entered one. None on a frame
   * stack that is empty or a scope without a parent, neither of which a
   * walk produces.
   */
  function EndExpressionStatement(v: Visitor): (r: Option<Visitor>)
    requires Valid(v)
    ensures r.None? <==> |v.handlerFrames| == 0 || (v.handlerFrames[|v.handlerFrames| - 1] && !HasParent(v))
    ensures r.Some? ==>
              && Valid(r.value) && Grows(v, r.value)
              && r.value.handlerFrames == v.handlerFrames[..|v.handlerFrames| - 1]
              && r.value == v.(currentScope := r.value.currentScope, handlerFrames := r.value.handlerFrames)
              && (if v.handlerFrames[|v.handlerFrames| - 1]
                  then Some(r.value.currentScope) == Current(v).parentScope
                  else r.value.currentScope == v.currentScope)
  {
    if |v.handlerFrames| == 0 then None
    else
      var entered := v.handlerFrames[|v.handlerFrames| - 1];
      var popped := v.(handlerFrames := v.handlerFrames[..|v.handlerFrames| - 1]);
      if !entered then Some(popped)
      else if HasParent(popped) then Some(LeaveEnvironment(popped))
      else None
  }

  /** The current scope is a function scope named "signalhandler". */
  predicate InSignalhandlerNamedScope(v: Visitor)
    requires Valid(v)
  {
    Current(v).scopeType == JSFunctionScope && Current(v).baseTypeName == "signalhandler"
  }

  /**
   * endVisit(ExpressionStatement) as the source writes it: leave whenever the
   * current scope is a function scope named "signalhandler", whoever entered
   * it. None when that scope has no parent.
   */
  function EndExpressionStatementAsWritten(v: Visitor): (r: Option<Visitor>)
    requires Valid(v)
    ensures r.None? <==> InSignalhandlerNamedScope(v) && !HasParent(v)
    ensures r.Some? ==> Valid(r.value) && Grows(v, r.value) && r.value == v.(currentScope := r.value.currentScope)
    ensures r.Some? && InSignalhandlerNamedScope(v) ==> Some(r.value.currentScope) == Current(v).parentScope
    ensures r.Some? && !InSignalhandlerNamedScope(v) ==> r.value == v
  {
    if InSignalhandlerNamedScope(v) then
      if HasParent(v) then Some(LeaveEnvironment(v)) else None
    else Some(v)
  }

  /**
   * What walking the children of a node leaves behind: the same current scope
   * and frame stack over a grown arena.
   */
  ghost predicate Resumes(w: Visitor, x: Visitor) {
    && Valid(w) && Valid(x) && Grows(w, x)
    && x.currentScope == w.currentScope && x.handlerFrames == w.handlerFrames
  }

  /**
   * An expression statement is balanced: whatever its children do, as long as
   * they return to the scope they started in, the end visit returns to the
   * scope and frame stack the statement started with.
   */
  lemma ExpressionStatementBalanced(v: Visitor, x: Visitor)
    requires Valid(v) && Resumes(VisitExpressionStatement(v), x)
    ensures var r := EndExpressionStatement(x);
            r.Some? && r.value.currentScope == v.currentScope && r.value.handlerFrames == v.handlerFrames
  {
    var w := VisitExpressionStatement(v);
    assert x.handlerFrames[..|x.handlerFrames| - 1] == v.handlerFrames;
    if v.pendingSignalHandler.IsValid() {
      assert SameShape(w.arena[w.currentScope], x.arena[w.currentScope]);
    }
  }

  /**
   * Where the as-written end visit differs from the intended one: exactly when
   * the statement started directly inside a function scope named
   * "signalhandler" and entered no scope itself.
   */
  lemma AsWrittenDiffersOnlyInSignalhandlerNamedScopes(v: Visitor, x: Visitor)
    requires Valid(v) && Resumes(VisitExpressionStatement(v), x)
    ensures var intended := EndExpressionStatement(x);
            var written := EndExpressionStatementAsWritten(x);
            && intended.Some?
            && (written.Some? && written.value.currentScope == intended.value.currentScope
                <==> v.pendingSignalHandler.IsValid() || !InSignalhandlerNamedScope(v))
  {
    var w := VisitExpressionStatement(v);
    ExpressionStatementBalanced(v, x);
    assert SameShape(w.arena[w.currentScope], x.arena[w.currentScope]);
    if !v.pendingSignalHandler.IsValid() && InSignalhandlerNamedScope(v) {
      var written := EndExpressionStatementAsWritten(x);
      if written.Some? {
        assert LinksWellFormed(x.arena, x.currentScope);
      }
    }
  }

  /**
   * The counterexample: `function signalhandler() { e; }` with no handler
   * pending. The as-written end of `e;` already leaves the function's scope,
   * so the function's own end visit will leave the enclosing one; the
   * intended end stays in the function's scope.
   */
  lemma UserFunctionNamedSignalhandlerLeavesEarly(v: Visitor, x: Visitor)
    requires Valid(v) && !v.pendingSignalHandler.IsValid()
    requires var f := EnterEnvironment(v, JSFunctionScope, "signalhandler");
             Resumes(VisitExpressionStatement(f), x)
    ensures var f := EnterEnvironment(v, JSFunctionScope, "signalhandler");
            && EndExpressionStatementAsWritten(x) == Some(x.(currentScope := v.currentScope))
            && EndExpressionStatement(x).Some?
            && EndExpressionStatement(x).value.currentScope == f.currentScope != v.currentScope
  {
    var f := EnterEnvironment(v, JSFunctionScope, "signalhandler");
    ExpressionStatementBalanced(f, x);
    assert SameShape(f.arena[f.currentScope], x.arena[f.currentScope]);
  }

  /**
   * visit(Block): a lexical "block" scope opens and, with a handler pending,
   * receives the signal's parameters.
   */
  function VisitBlock(v: Visitor): (r: Visitor)
    requires Valid(v)
    ensures Valid(r) && Grows(v, r) && PendingRegistered(r) && !r.pendingSignalHandler.IsValid()
    ensures r.handlerFrames == v.handlerFrames
    ensures r.currentScope == |v.arena| && Current(r).parentScope == Some(v.currentScope)
    ensures Current(r).scopeType == JSLexicalScope && Current(r).baseTypeName == "block"
    ensures r == FlushIfPending(EnterEnvironment(v, JSLexicalScope, "block"))
  {
    var e := EnterEnvironment(v, JSLexicalScope, "block");
    var r := FlushIfPending(e);
    GrowsTransitive(v, e, r);
    r
  }

  /** A block opened under a pending handler holds exactly its parameters; otherwise it starts empty and no handler is touched. */
  lemma {:induction false} BlockInjectsParameters(v: Visitor)
    requires Valid(v)
    ensures var r := VisitBlock(v);
            && (v.pendingSignalHandler.IsValid() ==> HoldsParameters(Current(r).jsIdentifiers, v))
            && (!v.pendingSignalHandler.IsValid() ==> Current(r).jsIdentifiers == map[] && r.signalHandlers == v.signalHandlers)
  {
    var e := EnterEnvironment(v, JSLexicalScope, "block");
    assert PendingParameters(e) == PendingParameters(v);
  }

  /** visit(WithStatement): warn when enabled, then open a lexical "with" scope. */
  function VisitWith(v: Visitor, at: Location): (r: Visitor)
    requires Valid(v)
    ensures Valid(r) && Grows(v, r) && r.currentScope == |v.arena|
    ensures Current(r).parentScope == Some(v.currentScope)
    ensures Current(r).scopeType == JSLexicalScope && Current(r).baseTypeName == "with"
    ensures r.warnings == v.warnings + (if v.config.warnWithStatement then [WithStatementDiscouraged(at)] else [])
    ensures |r.arena| == |v.arena| + 1 && r.arena[..|v.arena|] == v.arena
    ensures r == v.(arena := r.arena, currentScope := r.currentScope, warnings := r.warnings)
  {
    ExtendsReflexive(v.arena);
    var warned := v.(warnings := v.warnings + (if v.config.warnWithStatement then [WithStatementDiscouraged(at)] else []));
    EnterEnvironment(warned, JSLexicalScope, "with")
  }

  /**
   * `id: name`: the current scope is registered under `name`, and `name`
   * becomes the root id when the current scope sits exactly two levels below
   * a scope without a parent (global, then program, then the root object).
   */
  function BindId(v: Visitor, name: string): (r: Visitor)
    requires Valid(v)
    ensures Valid(r) && Grows(v, r)
    ensures r.qmlIdToScope == v.qmlIdToScope[name := Some(v.currentScope)]
    ensures r.rootId == (if Depth(v.arena, v.currentScope) == 2 then name else v.rootId)
    ensures r == v.(qmlIdToScope := r.qmlIdToScope, rootId := r.rootId)
  {
    var ids := v.qmlIdToScope[name := Some(v.currentScope)];
    var r := v.(qmlIdToScope := ids, rootId := if IsRootObjectScope(v.arena, v.currentScope) then name else v.rootId);
    assert Valid(r) by {
      forall k | k in ids ensures RefValid(ids[k], |v.arena|) {
        if k != name { assert RefValid(v.qmlIdToScope[k], |v.arena|); }
      }
    }
    assert Grows(v, r) by { ExtendsReflexive(v.arena); }
    RootObjectScopeIsDepthTwo(v.arena, v.currentScope);
    r
  }

  /** Some overload registered under `name` is a signal. */
  predicate HasSignal(ms: Methods, name: string) {
    exists i :: 0 <= i < |Entries(ms, name)| && Entries(ms, name)[i].methodType == Signal
  }

  /**
   * A handler binding `name: stmt` at `at`. Nothing happens unless the name
   * maps to a signal name. Without any method of that name a warning is
   * emitted when enabled. A function literal is left alone. Otherwise the
   * first signal overload of that name becomes the handler recorded at the
   * statement's start, which is now pending.
   */
  function BindHandler(v: Visitor, name: string, stmt: Statement, at: Location): (r: Visitor)
    requires Valid(v)
    ensures Valid(r) && Grows(v, r) && (PendingRegistered(v) ==> PendingRegistered(r))
    ensures r == v.(pendingSignalHandler := r.pendingSignalHandler, signalHandlers := r.signalHandlers,
                    warnings := r.warnings)
    ensures var sig := SignalName(name);
            r.warnings == v.warnings +
              (if sig != "" && !HasMethod(Current(v).methods, sig) && v.config.warnUnqualified
               then [NoMatchingSignal(name, at)] else [])
  {
    ExtendsReflexive(v.arena);
    var sig := SignalName(name);
    if sig == "" then v
    else if !HasMethod(Current(v).methods, sig) && v.config.warnUnqualified then
      v.(warnings := v.warnings + [NoMatchingSignal(name, at)])
    else if stmt.IsFunctionBody() then v
    else
      match FirstSignal(Entries(Current(v).methods, sig))
      case None => v
      case Some(m) =>
        v.(pendingSignalHandler := stmt.first,
           signalHandlers := v.signalHandlers[stmt.first := SignalHandler(m, stmt.last.startLine > stmt.first.startLine)])
  }

  /**
   * A handler is recorded when the name maps to a signal name, the statement
   * is not a function literal, and the current scope has a signal overload of
   * that name: the first such overload, at the statement's start, which
   * becomes the pending handler.
   */
  lemma {:induction false} BindHandlerRegisters(v: Visitor, name: string, signal: string, stmt: Statement, at: Location)
    requires Valid(v)
    requires SignalName(name) == signal && signal != ""
    requires !stmt.IsFunctionBody() && HasSignal(Current(v).methods, signal)
    ensures var r := BindHandler(v, name, stmt, at);
            && r.pendingSignalHandler == stmt.first
            && stmt.first in r.signalHandlers
            && r.signalHandlers == v.signalHandlers[stmt.first := r.signalHandlers[stmt.first]]
            && FirstSignal(Entries(Current(v).methods, signal)) == Some(r.signalHandlers[stmt.first].signal)
            && r.signalHandlers[stmt.first].isMultiline == (stmt.last.startLine > stmt.first.startLine)
  {
    assert HasMethod(Current(v).methods, signal);
    assert FirstSignal(Entries(Current(v).methods, signal)).Some?;
  }

  /** Otherwise neither the handler table nor the pending handler changes. */
  lemma {:induction false} BindHandlerIgnores(v: Visitor, name: string, stmt: Statement, at: Location)
    requires Valid(v)
    requires SignalName(name) == "" || stmt.IsFunctionBody() || !HasSignal(Current(v).methods, SignalName(name))
    ensures var r := BindHandler(v, name, stmt, at);
            r.pendingSignalHandler == v.pendingSignalHandler && r.signalHandlers == v.signalHandlers
  {
    var sig := SignalName(name);
    if sig != "" && !stmt.IsFunctionBody() {
      assert FirstSignal(Entries(Current(v).methods, sig)).None?;
    }
  }

  /**
   * visit(UiScriptBinding). An `id:` binding must hold a bare identifier: any
   * other statement is None, where the source dereferences a failed cast.
   */
  function VisitScriptBinding(v: Visitor, name: string, stmt: Statement, at: Location): (r: Option<Visitor>)
    requires Valid(v)
    ensures r.None? <==> name == "id" && !stmt.IsIdentifierStatement()
    ensures r.Some? ==> Valid(r.value) && Grows(v, r.value)
    ensures r.Some? ==> r.value.currentScope == v.currentScope && r.value.handlerFrames == v.handlerFrames
    ensures r.Some? ==> (PendingRegistered(v) ==> PendingRegistered(r.value))
    ensures name == "id" && stmt.IsIdentifierStatement() ==> r == Some(BindId(v, stmt.expression.name))
    ensures name != "id" ==> r == Some(BindHandler(v, name, stmt, at))
  {
    if name == "id" then
      if stmt.IsIdentifierStatement() then Some(BindId(v, stmt.expression.name)) else None
    else Some(BindHandler(v, name, stmt, at))
  }
}
