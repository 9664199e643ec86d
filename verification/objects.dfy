/**
 * QML object structure: member declarations, object definitions (with the
 * Connections special case) and object bindings. Each object opens a QML
 * scope named by its dotted type name, resolves that name against the
 * imports and pulls in the members of its base-type chain.
 */
module Objects {
  import opened Options
  import opened Strings
  import opened Scopes
  import opened Ast
  import opened State
  import opened Inheritance

  function ParameterNames(ps: seq<UiParameter>): (r: seq<string>)
    ensures |r| == |ps| && forall i :: 0 <= i < |ps| ==> r[i] == ps[i].name
  {
    seq(|ps|, i requires 0 <= i < |ps| => ps[i].name)
  }

  function ParameterTypes(ps: seq<UiParameter>): (r: seq<string>)
    ensures |r| == |ps| && forall i :: 0 <= i < |ps| ==> r[i] == ps[i].typeName
  {
    seq(|ps|, i requires 0 <= i < |ps| => ps[i].typeName)
  }

  /** The method a `signal name(params)` declaration adds. */
  function SignalMethod(name: string, ps: seq<UiParameter>): MetaMethod {
    MetaMethod(name, "", Signal, ParameterNames(ps), ParameterTypes(ps))
  }

  /** The property a `property T name` declaration adds, its type looked up among the imports. */
  function DeclaredProperty(imports: map<string, Option<ScopeId>>, name: string, memberType: Option<string>,
                            typeModifier: string, isReadonly: bool): (p: MetaProperty)
    ensures p.propertyName == name && p.typeName == memberType.GetOr("")
    ensures p.isList <==> typeModifier == "list"
    ensures p.isWritable <==> !isReadonly
    ensures !p.isPointer && p.revision == 0
    ensures p.isAlias <==> memberType == Some("alias")
    ensures p.propertyType == Lookup(imports, p.typeName)
  {
    var typeName := memberType.GetOr("");
    MetaProperty(name, typeName, typeModifier == "list", !isReadonly, false, memberType == Some("alias"), 0,
                 Lookup(imports, typeName))
  }

  /**
   * visit(UiPublicMember): a signal declaration becomes the newest overload of
   * its name; a property declaration enters the property table of the
   * current scope, replacing any property of that name.
   */
  function VisitPublicMember(v: Visitor, isSignal: bool, name: string, ps: seq<UiParameter>,
                             memberType: Option<string>, typeModifier: string, isReadonly: bool): (r: Visitor)
    requires Valid(v)
    ensures Valid(r) && Grows(v, r) && r == v.(arena := r.arena)
    ensures r.arena == v.arena[v.currentScope := Current(r)]
    ensures isSignal ==>
              && Current(r) == Current(v).(methods := Current(r).methods)
              && Entries(Current(r).methods, name) == [SignalMethod(name, ps)] + Entries(Current(v).methods, name)
              && forall n :: n != name ==> Entries(Current(r).methods, n) == Entries(Current(v).methods, n)
    ensures !isSignal ==>
              && Current(r) == Current(v).(properties := Current(r).properties)
              && Current(r).properties.Keys == Current(v).properties.Keys + {name}
              && Current(r).properties[name] == DeclaredProperty(v.rootScopeImports, name, memberType, typeModifier, isReadonly)
              && forall p :: p in Current(v).properties && p != name ==> Current(r).properties[p] == Current(v).properties[p]
  {
    var s := Current(v);
    if isSignal then
      UpdateScope(v, v.currentScope, s.(methods := AddMethod(s.methods, SignalMethod(name, ps))))
    else
      var p := DeclaredProperty(v.rootScopeImports, name, memberType, typeModifier, isReadonly);
      UpdateScope(v, v.currentScope, s.(properties := s.properties[name := p]))
  }

  /**
   * resolveTypes then importExportedNames on the current scope: its base type
   * is looked up by its base-type name, it ends up holding the members of its
   * whole base chain, the chain's exit is reported, and only the current
   * scope changes.
   */
  function ResolveAndImport(e: Visitor): (r: Visitor)
    requires Valid(e)
    ensures Valid(r) && |r.arena| == |e.arena| && r.currentScope == e.currentScope
    ensures forall i :: 0 <= i < |e.arena| && i != e.currentScope ==> r.arena[i] == e.arena[i]
    ensures var c := Current(r);
            var d := Current(e);
            && c.scopeType == d.scopeType && c.parentScope == d.parentScope && c.baseTypeName == d.baseTypeName
            && c.internalName == d.internalName && c.isComposite == d.isComposite
            && c.baseType == Lookup(e.rootScopeImports, d.baseTypeName)
            && MembersIncluded(d, c)
    ensures r == e.(arena := r.arena, unknownImports := r.unknownImports, visitFailed := r.visitFailed,
                    warnings := r.warnings)
    ensures HoldsBaseChain(r)
    ensures ImportReported(e, BaseChain(r.arena, r.currentScope, []), r)
  {
    var t := ResolveTypes(e);
    ImportedChain(t);
    ImportExportedNames(t, t.currentScope).state
  }

  /** importExportedNames on the current scope, restated over the resulting arena's own base chain. */
  lemma ImportedChain(t: Visitor)
    requires Valid(t)
    ensures var r := ImportExportedNames(t, t.currentScope).state;
            && HoldsBaseChain(r)
            && ImportReported(t, BaseChain(r.arena, r.currentScope, []), r)
  {
    var run := ImportExportedNames(t, t.currentScope);
    var r := run.state;
    BaseChainShape(t.arena, r.arena, t.currentScope, []);
    forall i | 0 <= i < |run.visited| ensures Inherits(r.arena[run.visited[i]], Current(r)) {
      if run.visited[i] != t.currentScope {
        assert r.arena[run.visited[i]] == t.arena[run.visited[i]];
      }
    }
  }

  /**
   * A new QML scope for an object of type `name`: it becomes current under the
   * old current scope, its base type is resolved and its base chain imported.
   */
  function OpenObjectScope(v: Visitor, name: string): (r: Visitor)
    requires Valid(v)
    ensures Valid(r) && Grows(v, r) && |r.arena| == |v.arena| + 1 && r.currentScope == |v.arena|
    ensures Current(r).parentScope == Some(v.currentScope)
    ensures Current(r).scopeType == QMLScope && Current(r).baseTypeName == name
    ensures Current(r).baseType == Lookup(v.rootScopeImports, name)
    ensures r.arena[..|v.arena|] == v.arena
    ensures r == v.(arena := r.arena, currentScope := r.currentScope, unknownImports := r.unknownImports,
                    visitFailed := r.visitFailed, warnings := r.warnings)
    ensures HoldsBaseChain(r)
    ensures ImportReported(v, BaseChain(r.arena, r.currentScope, []), r)
  {
    var e := EnterEnvironment(v, QMLScope, name);
    var r := ResolveAndImport(e);
    assert r.arena[..|v.arena|] == v.arena;
    ExtendsPrefix(v.arena, r.arena);
    r
  }

  /** The member is a script binding whose first name segment is "target". */
  predicate IsTargetBinding(t: Tree) {
    t.event.UiScriptBinding? && t.event.bindingName == "target"
  }

  /** members[k] is the first `target:` binding among the members. */
  predicate FirstTargetBinding(members: seq<Tree>, k: nat) {
    k < |members| && IsTargetBinding(members[k]) && forall j :: 0 <= j < k ==> !IsTargetBinding(members[j])
  }

  /** The id a `target:` statement names: a bare identifier, otherwise nothing. */
  function TargetName(stmt: Statement): string {
    if stmt.IsIdentifierStatement() then stmt.expression.name else ""
  }

  /**
   * The explicit target of a Connections object: the first `target:` binding
   * among its members decides, and only a bare identifier names a target.
   */
  function ConnectionsTarget(members: seq<Tree>): (r: string)
    ensures forall i :: 0 <= i < |members| && IsTargetBinding(members[i])
                        && (forall j :: 0 <= j < i ==> !IsTargetBinding(members[j])) ==>
              r == TargetName(members[i].event.statement)
    ensures (forall i :: 0 <= i < |members| ==> !IsTargetBinding(members[i])) ==> r == ""
  {
    if |members| == 0 then ""
    else if IsTargetBinding(members[0]) then TargetName(members[0].event.statement)
    else
      var rest := ConnectionsTarget(members[1..]);
      assert forall i :: 1 <= i < |members| ==> members[1..][i - 1] == members[i];
      rest
  }

  /** addMethods of the target's methods into the current scope, when there is a target. */
  function AddTargetMethods(w: Visitor, target: Option<ScopeId>): (r: Visitor)
    requires Valid(w) && RefValid(target, |w.arena|)
    ensures Valid(r) && Grows(w, r) && r == w.(arena := r.arena)
    ensures target.None? ==> r == w
    ensures target.Some? ==>
              r.arena == w.arena[w.currentScope := Current(w).(methods := AddMethods(Current(w).methods, w.arena[target.value].methods))]
  {
    match target
    case None => w
    case Some(s) => AddMethodsTo(w, w.currentScope, w.arena[s].methods)
  }

  /**
   * The Connections part of visit(UiObjectDefinition) on the freshly opened
   * scope. Without an explicit target, the nearest QML scope strictly above
   * supplies the target type by its base-type name (None when there is none,
   * where the source follows a null parent). A known target id supplies its
   * scope. An unknown one queues the object for the final check and skips
   * its members.
   */
  function ConnectTarget(w: Visitor, target: string, members: seq<Tree>): (r: Option<Step>)
    requires Valid(w)
    ensures r.None? <==> target == "" && NearestQmlAncestor(w.arena, w.currentScope).None?
    ensures r.Some? ==> Valid(r.value.state) && Grows(w, r.value.state)
    ensures r.Some? ==> r.value.state.currentScope == w.currentScope && r.value.state.handlerFrames == w.handlerFrames
    ensures r.Some? ==> (!r.value.descend <==> target != "" && target !in w.qmlIdToScope)
    ensures r.Some? && !r.value.descend ==>
              r.value.state == w.(outstandingConnections := w.outstandingConnections + [Connection(target, w.currentScope, members)])
    ensures target != "" && target in w.qmlIdToScope ==>
              r == Some(Step(AddTargetMethods(w, w.qmlIdToScope[target]), true))
    ensures target == "" && NearestQmlAncestor(w.arena, w.currentScope).Some? ==>
              var q := NearestQmlAncestor(w.arena, w.currentScope).value;
              r == Some(Step(AddTargetMethods(w, Lookup(w.rootScopeImports, w.arena[q].baseTypeName)), true))
  {
    if target == "" then
      match NearestQmlAncestor(w.arena, w.currentScope)
      case None => None
      case Some(q) =>
        assert RefValid(Lookup(w.rootScopeImports, w.arena[q].baseTypeName), |w.arena|);
        Some(Step(AddTargetMethods(w, Lookup(w.rootScopeImports, w.arena[q].baseTypeName)), true))
    else if target in w.qmlIdToScope then
      Some(Step(AddTargetMethods(w, w.qmlIdToScope[target]), true))
    else
      var queued := w.(outstandingConnections := w.outstandingConnections + [Connection(target, w.currentScope, members)]);
      ExtendsReflexive(w.arena);
      Some(Step(queued, false))
  }

  /**
   * visit(UiObjectDefinition): a QML scope named by the dotted type name
   * opens. An all-lower-case name is a grouped property: nothing is resolved
   * and the members are skipped. Otherwise the scope is resolved and its base
   * chain imported, and a type whose name ends in "Connections" gets its
   * target's methods or is queued.
   */
  function VisitObjectDefinition(v: Visitor, typeName: seq<string>, members: seq<Tree>): (r: Option<Step>)
    requires Valid(v)
    ensures r.Some? ==> Valid(r.value.state) && Grows(v, r.value.state)
    ensures r.Some? ==> && r.value.state.currentScope == |v.arena|
                        && Current(r.value.state).parentScope == Some(v.currentScope)
                        && Current(r.value.state).scopeType == QMLScope
                        && Current(r.value.state).baseTypeName == JoinDotted(typeName)
                        && r.value.state.handlerFrames == v.handlerFrames
    ensures IsLowerString(JoinDotted(typeName)) ==>
              r == Some(Step(EnterEnvironment(v, QMLScope, JoinDotted(typeName)), false))
    ensures !IsLowerString(JoinDotted(typeName)) && !EndsWith(JoinDotted(typeName), "Connections") ==>
              r == Some(Step(OpenObjectScope(v, JoinDotted(typeName)), true))
    ensures !IsLowerString(JoinDotted(typeName)) && EndsWith(JoinDotted(typeName), "Connections") ==>
              r == ConnectTarget(OpenObjectScope(v, JoinDotted(typeName)), ConnectionsTarget(members), members)
  {
    var name := JoinDotted(typeName);
    if IsLowerString(name) then
      Some(Step(EnterEnvironment(v, QMLScope, name), false))
    else
      var w := OpenObjectScope(v, name);
      if !EndsWith(name, "Connections") then Some(Step(w, true))
      else
        var r := ConnectTarget(w, ConnectionsTarget(members), members);
        assert r.Some? ==> Grows(v, r.value.state) by {
          if r.Some? { GrowsTransitive(v, w, r.value.state); }
        }
        r
  }

  /** Adding a target's methods keeps the base chain held and leaves it unchanged. */
  lemma AddTargetMethodsKeepsBaseChain(w: Visitor, target: Option<ScopeId>)
    requires Valid(w) && RefValid(target, |w.arena|) && HoldsBaseChain(w)
    ensures var x := AddTargetMethods(w, target);
            && HoldsBaseChain(x)
            && BaseChain(x.arena, x.currentScope, []) == BaseChain(w.arena, w.currentScope, [])
  {
    var x := AddTargetMethods(w, target);
    if target.Some? {
      assert forall n :: multiset(Entries(Current(w).methods, n)) <= multiset(Entries(Current(x).methods, n));
      HoldsBaseChainGrowing(w, x);
      BaseChainShape(w.arena, x.arena, w.currentScope, []);
    }
  }

  /** Connecting a target only grows the current scope's methods or queues the object: the base chain stays held. */
  lemma ConnectTargetKeepsBaseChain(w: Visitor, target: string, members: seq<Tree>)
    requires Valid(w) && HoldsBaseChain(w)
    ensures var r := ConnectTarget(w, target, members);
            r.Some? ==>
              var x := r.value.state;
              && HoldsBaseChain(x) && x.visitFailed == w.visitFailed
              && BaseChain(x.arena, x.currentScope, []) == BaseChain(w.arena, w.currentScope, [])
  {
    if target == "" {
      match NearestQmlAncestor(w.arena, w.currentScope)
      case None =>
      case Some(q) =>
        AddTargetMethodsKeepsBaseChain(w, Lookup(w.rootScopeImports, w.arena[q].baseTypeName));
    } else if target in w.qmlIdToScope {
      AddTargetMethodsKeepsBaseChain(w, w.qmlIdToScope[target]);
    }
  }

  /**
   * Whatever the Connections handling adds, a resolved object's scope holds
   * every member of its base chain, and the failure flag is latched exactly
   * when that chain does not end at a scope without a base-type name.
   */
  lemma ObjectDefinitionImportsBaseChain(v: Visitor, typeName: seq<string>, members: seq<Tree>)
    requires Valid(v) && !IsLowerString(JoinDotted(typeName))
    ensures var r := VisitObjectDefinition(v, typeName, members);
            r.Some? ==>
              var x := r.value.state;
              && HoldsBaseChain(x)
              && x.visitFailed == (v.visitFailed || !BaseChain(x.arena, x.currentScope, []).end.ReachedRoot?)
  {
    var w := OpenObjectScope(v, JoinDotted(typeName));
    if EndsWith(JoinDotted(typeName), "Connections") {
      ConnectTargetKeepsBaseChain(w, ConnectionsTarget(members), members);
    }
  }

  /**
   * endVisit(UiObjectDefinition): leave the object's scope; unless the
   * enclosing scope is a Component or the program, a `parent` property the
   * object has gets the enclosing scope as its type. None when the object's
   * scope has no parent.
   */
  function EndObjectDefinition(v: Visitor): (r: Option<Visitor>)
    requires Valid(v)
    ensures r.None? <==> !HasParent(v)
    ensures r.Some? ==> Valid(r.value) && Grows(v, r.value) && Some(r.value.currentScope) == Current(v).parentScope
    ensures r.Some? ==> r.value == v.(arena := r.value.arena, currentScope := r.value.currentScope)
    ensures r.Some? ==>
              var child := v.currentScope;
              var holder := r.value.arena[r.value.currentScope].baseTypeName;
              var props := v.arena[child].properties;
              if "parent" in props && holder != "Component" && holder != "program"
              then r.value.arena == v.arena[child := v.arena[child].(properties :=
                     props["parent" := props["parent"].(propertyType := Some(r.value.currentScope))])]
              else r.value.arena == v.arena
  {
    if !HasParent(v) then None
    else
      var child := v.currentScope;
      var l := LeaveEnvironment(v);
      var holder := Current(l).baseTypeName;
      var props := l.arena[child].properties;
      if holder == "Component" || holder == "program" || "parent" !in props then Some(l)
      else
        var retyped := props["parent" := props["parent"].(propertyType := Some(l.currentScope))];
        var r := UpdateScope(l, child, l.arena[child].(properties := retyped));
        GrowsTransitive(v, l, r);
        Some(r)
  }

  /**
   * visit(UiObjectBinding) `name: T { ... }`: the current scope gets a
   * pointer property `name` of the dotted type, typed by what the imports
   * map the first type-name segment to; then a QML scope for the object
   * opens, is resolved and imports its base chain, as for a definition.
   * None for an empty type name, which the source dereferences.
   */
  function VisitObjectBinding(v: Visitor, propertyName: string, typeName: seq<string>): (r: Option<Visitor>)
    requires Valid(v)
    ensures r.None? <==> |typeName| == 0
    ensures r.Some? ==> Valid(r.value) && Grows(v, r.value) && r.value.currentScope == |v.arena|
    ensures r.Some? ==> && Current(r.value).parentScope == Some(v.currentScope)
                        && Current(r.value).scopeType == QMLScope
                        && Current(r.value).baseTypeName == JoinDotted(typeName)
                        && Current(r.value).baseType == Lookup(v.rootScopeImports, JoinDotted(typeName))
                        && r.value.handlerFrames == v.handlerFrames
    ensures r.Some? ==>
              var holder := Current(v);
              var prop := MetaProperty(propertyName, JoinDotted(typeName), false, true, true,
                                       JoinDotted(typeName) == "alias", 0, Lookup(v.rootScopeImports, typeName[0]));
              && |r.value.arena| == |v.arena| + 1
              && r.value.arena[..|v.arena|]
                 == v.arena[v.currentScope := holder.(properties := holder.properties[propertyName := prop])]
    ensures r.Some? ==> r.value == v.(arena := r.value.arena, currentScope := r.value.currentScope,
                                      unknownImports := r.value.unknownImports, visitFailed := r.value.visitFailed,
                                      warnings := r.value.warnings)
    ensures r.Some? ==> HoldsBaseChain(r.value)
    ensures r.Some? ==> ImportReported(v, BaseChain(r.value.arena, r.value.currentScope, []), r.value)
  {
    if |typeName| == 0 then None
    else
      var name := JoinDotted(typeName);
      var prop := MetaProperty(propertyName, name, false, true, true, name == "alias", 0,
                               Lookup(v.rootScopeImports, typeName[0]));
      var s := Current(v);
      var w := UpdateScope(v, v.currentScope, s.(properties := s.properties[propertyName := prop]));
      var r := OpenObjectScope(w, name);
      GrowsTransitive(v, w, r);
      Some(r)
  }

  /**
   * endVisit(UiObjectBinding): leave the object's scope and replace the
   * property `propertyName` with one whose type name is the first type-name
   * segment and whose type is the object's own scope. None when there is no
   * parent or no type name.
   */
  function EndObjectBinding(v: Visitor, propertyName: string, typeName: seq<string>): (r: Option<Visitor>)
    requires Valid(v)
    ensures r.None? <==> !HasParent(v) || |typeName| == 0
    ensures r.Some? ==> Valid(r.value) && Grows(v, r.value) && Some(r.value.currentScope) == Current(v).parentScope
    ensures r.Some? ==> r.value == v.(arena := r.value.arena, currentScope := r.value.currentScope)
    ensures r.Some? ==> r.value.currentScope < v.currentScope
    ensures r.Some? ==>
              var holder := v.arena[r.value.currentScope];
              var prop := MetaProperty(propertyName, typeName[0], false, true, true,
                                       typeName[0] == "alias", 0, Some(v.currentScope));
              r.value.arena == v.arena[r.value.currentScope := holder.(properties := holder.properties[propertyName := prop])]
  {
    if !HasParent(v) || |typeName| == 0 then None
    else
      var child := v.currentScope;
      var l := LeaveEnvironment(v);
      var prop := MetaProperty(propertyName, typeName[0], false, true, true, typeName[0] == "alias", 0, Some(child));
      var s := Current(l);
      var r := UpdateScope(l, l.currentScope, s.(properties := s.properties[propertyName := prop]));
      GrowsTransitive(v, l, r);
      Some(r)
  }

  /**
   * A Connections object without a target fails exactly when neither the
   * enclosing scope nor any scope above it is a QML scope.
   */
  lemma ImplicitTargetNeedsQmlScopeAbove(v: Visitor, typeName: seq<string>, members: seq<Tree>)
    requires Valid(v)
    requires !IsLowerString(JoinDotted(typeName)) && EndsWith(JoinDotted(typeName), "Connections")
    requires ConnectionsTarget(members) == ""
    ensures VisitObjectDefinition(v, typeName, members).None? <==>
              Current(v).scopeType != QMLScope && NearestQmlAncestor(v.arena, v.currentScope).None?
  {
    var w := OpenObjectScope(v, JoinDotted(typeName));
    assert LinksWellFormed(w.arena, w.currentScope);
    assert w.arena[v.currentScope] == v.arena[v.currentScope] by {
      assert w.arena[..|v.arena|][v.currentScope] == w.arena[v.currentScope];
    }
    NearestQmlAncestorPrefix(v.arena, w.arena, v.currentScope);
  }

  /** A Connections object whose target id is not known yet is queued with its scope and members, unwalked. */
  lemma UnknownTargetIsQueued(v: Visitor, typeName: seq<string>, members: seq<Tree>, k: nat)
    requires Valid(v)
    requires !IsLowerString(JoinDotted(typeName)) && EndsWith(JoinDotted(typeName), "Connections")
    requires FirstTargetBinding(members, k)
    requires TargetName(members[k].event.statement) != "" && TargetName(members[k].event.statement) !in v.qmlIdToScope
    ensures var r := VisitObjectDefinition(v, typeName, members);
            && r.Some? && !r.value.descend
            && r.value.state.outstandingConnections
               == v.outstandingConnections + [Connection(TargetName(members[k].event.statement), |v.arena|, members)]
  {
    assert ConnectionsTarget(members) == TargetName(members[k].event.statement);
  }

  /** A Connections object whose target id is known gains every overload of the target's scope. */
  lemma KnownTargetMethodsAreAdded(v: Visitor, typeName: seq<string>, members: seq<Tree>, k: nat, t: ScopeId)
    requires Valid(v)
    requires !IsLowerString(JoinDotted(typeName)) && EndsWith(JoinDotted(typeName), "Connections")
    requires FirstTargetBinding(members, k)
    requires var target := TargetName(members[k].event.statement);
             target != "" && target in v.qmlIdToScope && v.qmlIdToScope[target] == Some(t)
    ensures var r := VisitObjectDefinition(v, typeName, members);
            && r.Some? && r.value.descend
            && forall n :: multiset(Entries(v.arena[t].methods, n)) <= multiset(Entries(Current(r.value.state).methods, n))
  {
    assert ConnectionsTarget(members) == TargetName(members[k].event.statement);
    var w := OpenObjectScope(v, JoinDotted(typeName));
    assert RefValid(v.qmlIdToScope[ConnectionsTarget(members)], |v.arena|);
    assert w.arena[t] == v.arena[t] by {
      assert w.arena[..|v.arena|][t] == w.arena[t];
    }
    var x := AddTargetMethods(w, Some(t));
    assert VisitObjectDefinition(v, typeName, members) == Some(Step(x, true));
    assert Current(x).methods == AddMethods(Current(w).methods, v.arena[t].methods);
  }

  /** A Connections object whose target id is registered without a scope gains nothing, and its members are walked. */
  lemma NullTargetAddsNothing(v: Visitor, typeName: seq<string>, members: seq<Tree>, k: nat)
    requires Valid(v)
    requires !IsLowerString(JoinDotted(typeName)) && EndsWith(JoinDotted(typeName), "Connections")
    requires FirstTargetBinding(members, k)
    requires var target := TargetName(members[k].event.statement);
             target != "" && target in v.qmlIdToScope && v.qmlIdToScope[target].None?
    ensures var r := VisitObjectDefinition(v, typeName, members);
            && r.Some? && r.value.descend
            && r.value.state == OpenObjectScope(v, JoinDotted(typeName))
  {
    assert ConnectionsTarget(members) == TargetName(members[k].event.statement);
  }
}
