/**
 * The state of the scope-building visitor and the primitive moves on it:
 * entering and leaving an environment, updating a scope's member tables, and
 * flushing a pending signal handler into the current scope.
 */
module State {
  import opened Options
  import opened Scopes
  import opened Ast

  /** The three warning switches fixed at construction. */
  datatype Config = Config(warnUnqualified: bool, warnWithStatement: bool, warnInheritanceCycle: bool)

  /** A diagnostic written to the output; only its kind and subject are modelled. */
  datatype Warning =
    | WithStatementDiscouraged(at: Location)
    | NoMatchingSignal(handler: string, at: Location)
    | InheritanceCycle(scopeName: string, cycle: seq<string>)
    | BaseTypeNotFound(baseTypeName: string)

  datatype SignalHandler = SignalHandler(signal: MetaMethod, isMultiline: bool)

  /** What QHash::operator[] inserts for a missing handler key. */
  const DefaultSignalHandler: SignalHandler := SignalHandler(MetaMethod("", "", Method, [], []), false)

  /** One link of a member-access chain. */
  datatype FieldMember = FieldMember(name: string, parentType: string, location: Location)

  /** A Connections object whose target id was unknown when it was visited. */
  datatype Connection = Connection(targetName: string, scope: ScopeId, members: seq<Tree>)

  /**
   * The visitor's fields. `handlerFrames` has one entry per expression
   * statement being visited: whether its visit entered a signal-handler scope.
   */
  datatype Visitor = Visitor(
    config: Config,
    arena: seq<Scope>,
    rootScope: ScopeId,
    currentScope: ScopeId,
    rootScopeImports: map<string, Option<ScopeId>>,
    pendingSignalHandler: Location,
    signalHandlers: map<Location, SignalHandler>,
    memberAccessChains: map<ScopeId, seq<seq<FieldMember>>>,
    fieldMemberBase: Option<NodeId>,
    qmlIdToScope: map<string, Option<ScopeId>>,
    rootId: string,
    outstandingConnections: seq<Connection>,
    unknownImports: set<string>,
    visitFailed: bool,
    warnings: seq<Warning>,
    handlerFrames: seq<bool>)

  /** What a visit answers: the new state, and whether the driver walks the node's children. */
  datatype Step = Step(state: Visitor, descend: bool)

  predicate RefValid(o: Option<ScopeId>, n: nat) {
    o.Some? ==> o.value < n
  }

  /** Every scope reference the visitor holds points into the arena. */
  predicate Valid(v: Visitor) {
    && WellFormed(v.arena)
    && v.rootScope < |v.arena|
    && v.currentScope < |v.arena|
    && (forall k :: k in v.rootScopeImports ==> RefValid(v.rootScopeImports[k], |v.arena|))
    && (forall k :: k in v.qmlIdToScope ==> RefValid(v.qmlIdToScope[k], |v.arena|))
    && (forall i :: 0 <= i < |v.outstandingConnections| ==> v.outstandingConnections[i].scope < |v.arena|)
  }

  /** A pending handler location always names an entry of the handler table. */
  predicate PendingRegistered(v: Visitor) {
    v.pendingSignalHandler.IsValid() ==> v.pendingSignalHandler in v.signalHandlers
  }

  /** QHash::value: the stored scope, or null. */
  function Lookup(m: map<string, Option<ScopeId>>, key: string): Option<ScopeId> {
    if key in m then m[key] else None
  }

  function Current(v: Visitor): Scope
    requires Valid(v)
  {
    v.arena[v.currentScope]
  }

  predicate HasParent(v: Visitor)
    requires Valid(v)
  {
    Current(v).parentScope.Some?
  }

  /** The fields of a scope that are fixed once its visit has set them up. */
  predicate SameShape(s: Scope, t: Scope) {
    && s.scopeType == t.scopeType
    && s.parentScope == t.parentScope
    && s.baseTypeName == t.baseTypeName
    && s.baseType == t.baseType
    && s.internalName == t.internalName
    && s.isComposite == t.isComposite
  }

  /** Every member `s` has, `t` has too: tables only ever grow. */
  ghost predicate MembersIncluded(s: Scope, t: Scope) {
    && s.properties.Keys <= t.properties.Keys
    && s.jsIdentifiers.Keys <= t.jsIdentifiers.Keys
    && forall n :: multiset(Entries(s.methods, n)) <= multiset(Entries(t.methods, n))
  }

  /** Every method overload of `s` is among `t`'s. */
  ghost predicate MethodsIncluded(s: Scope, t: Scope) {
    forall n :: multiset(Entries(s.methods, n)) <= multiset(Entries(t.methods, n))
  }

  lemma MethodsIncludedGrowing(s: Scope, t: Scope, u: Scope)
    requires MethodsIncluded(s, t) && MembersIncluded(t, u)
    ensures MethodsIncluded(s, u)
  {
    forall n ensures multiset(Entries(s.methods, n)) <= multiset(Entries(u.methods, n)) {
      assert multiset(Entries(t.methods, n)) <= multiset(Entries(u.methods, n));
    }
  }

  /** `b` is `a` with new scopes appended and existing scopes' tables grown. */
  ghost predicate Extends(a: seq<Scope>, b: seq<Scope>) {
    && |a| <= |b|
    && forall i :: 0 <= i < |a| ==> SameShape(a[i], b[i]) && MembersIncluded(a[i], b[i])
  }

  /** What no visit ever takes back: scopes, ids, handlers, queued connections, failures, warnings. */
  ghost predicate Grows(v: Visitor, w: Visitor) {
    && Extends(v.arena, w.arena)
    && w.config == v.config
    && w.rootScope == v.rootScope
    && w.rootScopeImports == v.rootScopeImports
    && v.qmlIdToScope.Keys <= w.qmlIdToScope.Keys
    && v.signalHandlers.Keys <= w.signalHandlers.Keys
    && v.outstandingConnections <= w.outstandingConnections
    && v.unknownImports <= w.unknownImports
    && (v.visitFailed ==> w.visitFailed)
    && v.warnings <= w.warnings
  }

  lemma MembersIncludedTransitive(s: Scope, t: Scope, u: Scope)
    requires MembersIncluded(s, t) && MembersIncluded(t, u)
    ensures MembersIncluded(s, u)
  {
    forall n ensures multiset(Entries(s.methods, n)) <= multiset(Entries(u.methods, n)) {
      assert multiset(Entries(t.methods, n)) <= multiset(Entries(u.methods, n));
    }
  }

  lemma ExtendsTransitive(a: seq<Scope>, b: seq<Scope>, c: seq<Scope>)
    requires Extends(a, b) && Extends(b, c)
    ensures Extends(a, c)
  {
    forall i | 0 <= i < |a|
      ensures SameShape(a[i], c[i]) && MembersIncluded(a[i], c[i])
    {
      MembersIncludedTransitive(a[i], b[i], c[i]);
    }
  }

  lemma GrowsTransitive(u: Visitor, v: Visitor, w: Visitor)
    requires Grows(u, v) && Grows(v, w)
    ensures Grows(u, w)
  {
    ExtendsTransitive(u.arena, v.arena, w.arena);
  }

  lemma ExtendsReflexive(a: seq<Scope>)
    ensures Extends(a, a)
  {
  }

  /** Appending scopes and changing only appended ones extends the arena. */
  lemma ExtendsPrefix(a: seq<Scope>, b: seq<Scope>)
    requires |a| <= |b| && b[..|a|] == a
    ensures Extends(a, b)
  {
    forall i | 0 <= i < |a| ensures SameShape(a[i], b[i]) && MembersIncluded(a[i], b[i]) {
      assert b[..|a|][i] == b[i];
    }
  }

  /** A scope keeps its depth as the arena grows. */
  lemma {:induction false} DepthStable(a: seq<Scope>, b: seq<Scope>, i: ScopeId)
    requires WellFormed(a) && WellFormed(b) && Extends(a, b) && i < |a|
    ensures Depth(b, i) == Depth(a, i)
    decreases i
  {
    assert SameShape(a[i], b[i]);
    assert LinksWellFormed(a, i);
    if a[i].parentScope.Some? {
      DepthStable(a, b, a[i].parentScope.value);
    }
  }

  lemma AppendWellFormed(a: seq<Scope>, s: Scope)
    requires WellFormed(a) && (s.parentScope.Some? ==> s.parentScope.value < |a|) && s.baseType.None?
    ensures WellFormed(a + [s])
  {
    var b := a + [s];
    forall i | 0 <= i < |b| ensures LinksWellFormed(b, i) {
      if i < |a| { assert LinksWellFormed(a, i); assert b[i] == a[i]; }
    }
  }

  /** The host-provided globals seeded into the outermost scope. */
  const GlobalNames: seq<string> := [
    "console", "print", "gc", "qsTr", "qsTrId", "QT_TR_NOOP",
    "QT_TRANSLATE_NOOP", "QT_TRID_NOOP", "XMLHttpRequest"]

  /** The identifier table of the global scope: every host global name, lexical, with no location. */
  function GlobalIdentifiers(): (ids: map<string, JSIdentifier>)
    ensures ids.Keys == set n | n in GlobalNames
    ensures forall n :: n in GlobalNames ==> ids[n] == JSIdentifier(LexicalScoped, NoLocation)
  {
    InsertAll(map[], GlobalNames, JSIdentifier(LexicalScoped, NoLocation))
  }

  /**
   * The constructor: a global function scope appended to the imported scopes,
   * seeded with the host names the constructor lists itself, and made current.
   */
  function Init(config: Config, imported: seq<Scope>, imports: map<string, Option<ScopeId>>): (v: Visitor)
    requires WellFormed(imported)
    requires forall k :: k in imports ==> RefValid(imports[k], |imported|)
    ensures Valid(v) && PendingRegistered(v)
    ensures v.rootScope == v.currentScope == |imported| && v.arena[..|imported|] == imported
    ensures Current(v).scopeType == JSFunctionScope && Current(v).parentScope.None?
    ensures Current(v).internalName == "global" && Current(v).baseTypeName == ""
    ensures Current(v).jsIdentifiers.Keys == set n | n in GlobalNames
    ensures forall n :: n in GlobalNames ==> Current(v).jsIdentifiers[n] == JSIdentifier(LexicalScoped, NoLocation)
    ensures !v.pendingSignalHandler.IsValid() && v.rootId == "<id>" && !v.visitFailed
    ensures v.outstandingConnections == [] && v.warnings == [] && v.handlerFrames == []
  {
    var global := CreateScope(JSFunctionScope, None).(internalName := "global");
    var seeded := global.(jsIdentifiers := GlobalIdentifiers());
    var arena := imported + [seeded];
    AppendWellFormed(imported, seeded);
    assert arena[..|imported|] == imported;
    assert forall k :: k in imports ==> RefValid(imports[k], |arena|) by {
      forall k | k in imports ensures RefValid(imports[k], |arena|) {
        assert RefValid(imports[k], |imported|);
      }
    }
    Visitor(config, arena, |imported|, |imported|, imports, NoLocation, map[], map[], None,
            map[], "<id>", [], {}, false, [], [])
  }

  /** Scope `id` replaced by `s`, which keeps its shape and at least its members. */
  function ReplaceScope(a: seq<Scope>, id: ScopeId, s: Scope): (r: seq<Scope>)
    requires WellFormed(a) && id < |a|
    requires SameShape(a[id], s) && MembersIncluded(a[id], s)
    ensures WellFormed(r) && Extends(a, r) && |r| == |a| && r[id] == s
    ensures forall i :: 0 <= i < |a| && i != id ==> r[i] == a[i]
  {
    var r := a[id := s];
    assert forall i :: 0 <= i < |r| ==> LinksWellFormed(r, i) by {
      forall i | 0 <= i < |r| ensures LinksWellFormed(r, i) {
        assert LinksWellFormed(a, i);
      }
    }
    r
  }

  /** The visitor with scope `id` replaced as `ReplaceScope` does. */
  function UpdateScope(v: Visitor, id: ScopeId, s: Scope): (r: Visitor)
    requires Valid(v) && id < |v.arena|
    requires SameShape(v.arena[id], s) && MembersIncluded(v.arena[id], s)
    ensures Valid(r) && Grows(v, r) && |r.arena| == |v.arena|
    ensures r == v.(arena := v.arena[id := s])
  {
    v.(arena := ReplaceScope(v.arena, id, s))
  }

  /**
   * enterEnvironment: a new composite scope of the given type, whose parent is
   * the old current scope and whose base-type name is `name`, becomes current.
   */
  function EnterEnvironment(v: Visitor, scopeType: ScopeType, name: string): (r: Visitor)
    requires Valid(v)
    ensures Valid(r) && Grows(v, r)
    ensures |r.arena| == |v.arena| + 1 && r.arena[..|v.arena|] == v.arena
    ensures r.currentScope == |v.arena|
    ensures Current(r).parentScope == Some(v.currentScope)
    ensures Current(r).scopeType == scopeType && Current(r).baseTypeName == name && Current(r).isComposite
    ensures Current(r).baseType.None? && Current(r).internalName == ""
    ensures Current(r).properties == map[] && Current(r).methods == map[] && Current(r).jsIdentifiers == map[]
    ensures r == v.(arena := r.arena, currentScope := r.currentScope)
  {
    var scope := CreateScope(scopeType, Some(v.currentScope)).(baseTypeName := name, isComposite := true);
    var arena := v.arena + [scope];
    AppendWellFormed(v.arena, scope);
    assert arena[..|v.arena|] == v.arena;
    var r := v.(arena := arena, currentScope := |v.arena|);
    assert Extends(v.arena, r.arena) by {
      forall i | 0 <= i < |v.arena| ensures arena[i] == v.arena[i] { }
    }
    r
  }

  /** leaveEnvironment: the parent of the current scope becomes current. */
  function LeaveEnvironment(v: Visitor): (r: Visitor)
    requires Valid(v) && HasParent(v)
    ensures Valid(r) && Grows(v, r)
    ensures Some(r.currentScope) == Current(v).parentScope && r.currentScope < v.currentScope
    ensures r == v.(currentScope := r.currentScope)
  {
    assert LinksWellFormed(v.arena, v.currentScope);
    v.(currentScope := Current(v).parentScope.value)
  }

  /** A leave right after an enter restores the previous current scope and keeps the new scope. */
  lemma EnterThenLeave(v: Visitor, scopeType: ScopeType, name: string)
    requires Valid(v)
    ensures var e := EnterEnvironment(v, scopeType, name);
            HasParent(e) && LeaveEnvironment(e) == v.(arena := e.arena)
            && LeaveEnvironment(e).currentScope == v.currentScope
  {
  }

  /**
   * resolveTypes on the current scope: its base type becomes whatever the
   * imports map its base-type name to.
   */
  function ResolveTypes(v: Visitor): (r: Visitor)
    requires Valid(v)
    ensures Valid(r) && |r.arena| == |v.arena|
    ensures forall i :: 0 <= i < |v.arena| && i != v.currentScope ==> r.arena[i] == v.arena[i]
    ensures Current(r) == Current(v).(baseType := Lookup(v.rootScopeImports, Current(v).baseTypeName))
    ensures r == v.(arena := r.arena)
  {
    var s := Current(v);
    var base := Lookup(v.rootScopeImports, s.baseTypeName);
    var arena := v.arena[v.currentScope := s.(baseType := base)];
    assert forall i :: 0 <= i < |arena| ==> LinksWellFormed(arena, i) by {
      forall i | 0 <= i < |arena| ensures LinksWellFormed(arena, i) {
        assert LinksWellFormed(v.arena, i);
      }
    }
    v.(arena := arena)
  }

  /** insertJSIdentifier for every name, all with the same record, into the current scope. */
  function InsertIdentifiers(v: Visitor, names: seq<string>, ident: JSIdentifier): (r: Visitor)
    requires Valid(v)
    ensures Valid(r) && Grows(v, r) && |r.arena| == |v.arena|
    ensures Current(r) == Current(v).(jsIdentifiers := InsertAll(Current(v).jsIdentifiers, names, ident))
    ensures r == v.(arena := r.arena)
  {
    var s := Current(v);
    UpdateScope(v, v.currentScope, s.(jsIdentifiers := InsertAll(s.jsIdentifiers, names, ident)))
  }

  /** addMethods into scope `id`. */
  function AddMethodsTo(v: Visitor, id: ScopeId, ms: Methods): (r: Visitor)
    requires Valid(v) && id < |v.arena|
    ensures Valid(r) && Grows(v, r) && |r.arena| == |v.arena|
    ensures r.arena[id] == v.arena[id].(methods := AddMethods(v.arena[id].methods, ms))
    ensures r.arena == v.arena[id := r.arena[id]]
    ensures r == v.(arena := r.arena)
  {
    var s := v.arena[id];
    UpdateScope(v, id, s.(methods := AddMethods(s.methods, ms)))
  }

  /** The parameters of the pending handler's signal; none when no handler is recorded there. */
  function PendingParameters(v: Visitor): seq<string> {
    if v.pendingSignalHandler in v.signalHandlers
    then v.signalHandlers[v.pendingSignalHandler].signal.parameterNames
    else []
  }

  /**
   * flushPendingSignalParameters: every parameter of the pending handler's
   * signal becomes an injected identifier of the current scope located at the
   * handler, and the pending marker is invalidated. A location missing from
   * the handler table gets a default entry, whose signal has no parameters.
   */
  function FlushPendingSignalParameters(v: Visitor): (r: Visitor)
    requires Valid(v)
    ensures Valid(r) && Grows(v, r) && PendingRegistered(r) && !r.pendingSignalHandler.IsValid()
    ensures r.arena == v.arena[v.currentScope := Current(r)]
    ensures Current(r) == Current(v).(jsIdentifiers := InsertAll(Current(v).jsIdentifiers, PendingParameters(v),
                                                                 JSIdentifier(Injected, v.pendingSignalHandler)))
    ensures r.signalHandlers == (if v.pendingSignalHandler in v.signalHandlers then v.signalHandlers
                                 else v.signalHandlers[v.pendingSignalHandler := DefaultSignalHandler])
    ensures r == v.(arena := r.arena, signalHandlers := r.signalHandlers, pendingSignalHandler := NoLocation)
  {
    var at := v.pendingSignalHandler;
    if at in v.signalHandlers then
      var injected := InsertIdentifiers(v, v.signalHandlers[at].signal.parameterNames, JSIdentifier(Injected, at));
      injected.(pendingSignalHandler := NoLocation)
    else
      // operator[] default-constructs the missing entry
      v.(signalHandlers := v.signalHandlers[at := DefaultSignalHandler], pendingSignalHandler := NoLocation)
  }
}
