/**
 * Short visit sequences that tie several operations together: ids of the
 * root object and of nested objects, and a declared signal whose handler
 * sees the signal's parameters.
 */
module Scenarios {
  import opened Options
  import opened Strings
  import opened SignalNames
  import opened Scopes
  import opened Ast
  import opened State
  import opened Handlers
  import opened Objects

  /** In a program's top-level object, the `id:` binding names the root id. */
  lemma {:induction false} RootObjectIdBecomesRootId(config: Config, imported: seq<Scope>,
                                                     imports: map<string, Option<ScopeId>>,
                                                     typeName: seq<string>, members: seq<Tree>, name: string)
    requires WellFormed(imported) && forall k :: k in imports ==> RefValid(imports[k], |imported|)
    requires !EndsWith(JoinDotted(typeName), "Connections")
    ensures var g := Init(config, imported, imports);
            var p := EnterEnvironment(g, QMLScope, "program");
            var o := VisitObjectDefinition(p, typeName, members);
            && o.Some?
            && Depth(o.value.state.arena, o.value.state.currentScope) == 2
            && var root := BindId(o.value.state, name);
               && root.rootId == name
               && root.qmlIdToScope[name] == Some(o.value.state.currentScope)
  {
    var g := Init(config, imported, imports);
    var p := EnterEnvironment(g, QMLScope, "program");
    var os := VisitObjectDefinition(p, typeName, members).value.state;
    DepthStable(p.arena, os.arena, p.currentScope);
    DepthStable(g.arena, p.arena, g.currentScope);
  }

  /**
   * An `id:` binding in an object nested below the root object registers the
   * nested scope but leaves the root id alone.
   */
  lemma {:induction false} NestedObjectIdKeepsRootId(v: Visitor, typeName: seq<string>, members: seq<Tree>, name: string)
    requires Valid(v) && Depth(v.arena, v.currentScope) >= 2
    requires !EndsWith(JoinDotted(typeName), "Connections")
    ensures var c := VisitObjectDefinition(v, typeName, members);
            && c.Some?
            && var child := BindId(c.value.state, name);
               && child.rootId == v.rootId
               && child.qmlIdToScope[name] == Some(c.value.state.currentScope)
  {
    var cs := VisitObjectDefinition(v, typeName, members).value.state;
    DepthStable(v.arena, cs.arena, v.currentScope);
  }

  /**
   * A signal declared in a scope gets a handler: binding its handler name to
   * a plain statement records the declared signal at the statement's start,
   * and the statement's visit opens a "signalhandler" scope in which every
   * signal parameter is an injected identifier.
   */
  lemma {:induction false} DeclaredSignalHandlerSeesParameters(v: Visitor, signal: string, ps: seq<UiParameter>,
                                                               stmt: Statement, at: Location)
    requires Valid(v) && |signal| > 0 && IsLowerChar(signal[0])
    requires !stmt.IsFunctionBody() && stmt.first.IsValid()
    ensures var w := VisitPublicMember(v, true, signal, ps, None, "", false);
            var b := BindHandler(w, HandlerName(signal), stmt, at);
            var e := VisitExpressionStatement(b);
            && stmt.first in b.signalHandlers
            && b.signalHandlers[stmt.first].signal == SignalMethod(signal, ps)
            && Current(e).scopeType == JSFunctionScope && Current(e).baseTypeName == "signalhandler"
            && forall i :: 0 <= i < |ps| ==>
                 ps[i].name in Current(e).jsIdentifiers
                 && Current(e).jsIdentifiers[ps[i].name] == JSIdentifier(Injected, stmt.first)
  {
    var w := VisitPublicMember(v, true, signal, ps, None, "", false);
    SignalNameOfHandlerName(signal);
    var overloads := Entries(Current(w).methods, signal);
    assert overloads[0] == SignalMethod(signal, ps);
    assert HasSignal(Current(w).methods, signal);
    BindHandlerRegisters(w, HandlerName(signal), signal, stmt, at);
    var b := BindHandler(w, HandlerName(signal), stmt, at);
    assert b.signalHandlers[stmt.first].signal == SignalMethod(signal, ps);
    ExpressionStatementInjectsParameters(b);
    assert PendingParameters(b) == ParameterNames(ps);
  }
}
