/**
 * The scope graph: scopes live in an arena (a sequence indexed by scope id).
 * A scope's lexical parent always has a smaller id, so the parent chain is
 * acyclic; a scope's resolved base type may point anywhere in the arena, so
 * the base-type chain may be cyclic.
 */
module Scopes {
  import opened Options

  type ScopeId = nat

  datatype ScopeType = JSFunctionScope | JSLexicalScope | QMLScope

  /** A source location; the default one (all zero) is the invalid location. */
  datatype Location = Location(offset: nat, length: nat, startLine: nat, startColumn: nat) {
    predicate IsValid() { this != Location(0, 0, 0, 0) }
  }

  const NoLocation: Location := Location(0, 0, 0, 0)

  datatype IdentifierKind = FunctionScoped | LexicalScoped | Parameter | Injected

  datatype JSIdentifier = JSIdentifier(kind: IdentifierKind, location: Location)

  datatype MethodType = Signal | Slot | Method

  datatype MetaMethod = MetaMethod(
    methodName: string,
    returnType: string,
    methodType: MethodType,
    parameterNames: seq<string>,
    parameterTypes: seq<string>)

  datatype MetaProperty = MetaProperty(
    propertyName: string,
    typeName: string,
    isList: bool,
    isWritable: bool,
    isPointer: bool,
    isAlias: bool,
    revision: int,
    propertyType: Option<ScopeId>)

  /** A multimap from method name to its overloads, most recently added first. */
  type Methods = map<string, seq<MetaMethod>>

  datatype Scope = Scope(
    scopeType: ScopeType,
    parentScope: Option<ScopeId>,
    baseTypeName: string,
    baseType: Option<ScopeId>,
    internalName: string,
    isComposite: bool,
    properties: map<string, MetaProperty>,
    methods: Methods,
    jsIdentifiers: map<string, JSIdentifier>)

  /** QQmlJSScope::create(type, parent): an empty scope. */
  function CreateScope(scopeType: ScopeType, parent: Option<ScopeId>): Scope {
    Scope(scopeType, parent, "", None, "", false, map[], map[], map[])
  }

  /** The overloads registered under `name`, empty when there are none. */
  function Entries(ms: Methods, name: string): seq<MetaMethod> {
    if name in ms then ms[name] else []
  }

  /** QMultiHash::contains: some overload is registered under `name`. */
  predicate HasMethod(ms: Methods, name: string) {
    |Entries(ms, name)| > 0
  }

  /** addMethod: `m` becomes the newest overload of its name. */
  function AddMethod(ms: Methods, m: MetaMethod): (r: Methods)
    ensures HasMethod(r, m.methodName) && Entries(r, m.methodName)[0] == m
    ensures Entries(r, m.methodName)[1..] == Entries(ms, m.methodName)
    ensures forall n :: n != m.methodName ==> Entries(r, n) == Entries(ms, n)
    ensures forall n :: multiset(Entries(ms, n)) <= multiset(Entries(r, n))
  {
    ms[m.methodName := [m] + Entries(ms, m.methodName)]
  }

  /** addMethods: the multimap union of `dst` and `src`; no overload is lost or invented. */
  function AddMethods(dst: Methods, src: Methods): (r: Methods)
    ensures forall n :: multiset(Entries(r, n)) == multiset(Entries(src, n)) + multiset(Entries(dst, n))
    ensures forall n :: HasMethod(r, n) <==> HasMethod(dst, n) || HasMethod(src, n)
  {
    map n | n in dst.Keys + src.Keys :: Entries(src, n) + Entries(dst, n)
  }

  /**
   * The first overload of the signal kind in iteration order, as the loop
   * over equal_range in the binding visit finds it.
   */
  function FirstSignal(overloads: seq<MetaMethod>): (r: Option<MetaMethod>)
    ensures r.None? <==> forall i :: 0 <= i < |overloads| ==> overloads[i].methodType != Signal
    ensures r.Some? ==> exists i :: 0 <= i < |overloads| && overloads[i] == r.value
                          && r.value.methodType == Signal
                          && forall j :: 0 <= j < i ==> overloads[j].methodType != Signal
  {
    if |overloads| == 0 then None
    else if overloads[0].methodType == Signal then Some(overloads[0])
    else
      var rest := FirstSignal(overloads[1..]);
      assert forall i :: 1 <= i < |overloads| ==> overloads[i] == overloads[1..][i - 1];
      rest
  }

  /** Insert every name in `names` with the same identifier record; later names overwrite nothing else. */
  function InsertAll(ids: map<string, JSIdentifier>, names: seq<string>, ident: JSIdentifier)
    : (r: map<string, JSIdentifier>)
    decreases |names|
    ensures r.Keys == ids.Keys + set n | n in names
    ensures forall n :: n in names ==> r[n] == ident
    ensures forall n :: n in ids && n !in names ==> r[n] == ids[n]
  {
    if |names| == 0 then ids
    else InsertAll(ids[names[0] := ident], names[1..], ident)
  }

  /** Scope links point backwards (parent) or into the arena (base type). */
  predicate LinksWellFormed(a: seq<Scope>, i: nat)
    requires i < |a|
  {
    && (a[i].parentScope.Some? ==> a[i].parentScope.value < i)
    && (a[i].baseType.Some? ==> a[i].baseType.value < |a|)
  }

  predicate WellFormed(a: seq<Scope>) {
    forall i :: 0 <= i < |a| ==> LinksWellFormed(a, i)
  }

  /** Number of parent links from scope `i` up to a scope without a parent. */
  function Depth(a: seq<Scope>, i: ScopeId): nat
    requires WellFormed(a) && i < |a|
    decreases i
  {
    assert LinksWellFormed(a, i);
    match a[i].parentScope
    case None => 0
    case Some(p) => 1 + Depth(a, p)
  }

  /** The check of an `id:` binding: scope `i` has a parent and a grandparent, and the grandparent has no parent. */
  predicate IsRootObjectScope(a: seq<Scope>, i: ScopeId)
    requires WellFormed(a) && i < |a|
  {
    assert LinksWellFormed(a, i);
    match a[i].parentScope
    case None => false
    case Some(p) =>
      assert LinksWellFormed(a, p);
      match a[p].parentScope
      case None => false
      case Some(g) => a[g].parentScope.None?
  }

  /** That check holds exactly at depth two: global scope, program scope, root object. */
  lemma RootObjectScopeIsDepthTwo(a: seq<Scope>, i: ScopeId)
    requires WellFormed(a) && i < |a|
    ensures IsRootObjectScope(a, i) <==> Depth(a, i) == 2
  {
    assert LinksWellFormed(a, i);
    match a[i].parentScope
    case None =>
    case Some(p) =>
      assert LinksWellFormed(a, p);
      match a[p].parentScope
      case None =>
      case Some(g) =>
        assert LinksWellFormed(a, g);
        assert Depth(a, i) == 2 + Depth(a, g);
        match a[g].parentScope
        case None =>
          assert Depth(a, g) == 0;
        case Some(h) =>
          assert LinksWellFormed(a, h);
          assert Depth(a, g) == 1 + Depth(a, h);
  }

  /** The proper ancestors of scope `i`, nearest first. */
  function Ancestors(a: seq<Scope>, i: ScopeId): (r: seq<ScopeId>)
    requires WellFormed(a) && i < |a|
    ensures forall j :: 0 <= j < |r| ==> r[j] < i
    ensures |r| == Depth(a, i)
    ensures |r| == 0 <==> a[i].parentScope.None?
    ensures |r| > 0 ==> a[i].parentScope == Some(r[0])
    ensures forall j :: 0 <= j < |r| - 1 ==> a[r[j]].parentScope == Some(r[j + 1])
    decreases i
  {
    assert LinksWellFormed(a, i);
    match a[i].parentScope
    case None => []
    case Some(p) => [p] + Ancestors(a, p)
  }

  /** The position of the first QML scope in `xs`, if any: the reference for the parent walk. */
  function FirstQml(a: seq<Scope>, xs: seq<ScopeId>): (r: Option<nat>)
    requires forall k :: 0 <= k < |xs| ==> xs[k] < |a|
    ensures r.Some? ==> && r.value < |xs| && a[xs[r.value]].scopeType == QMLScope
                        && forall k :: 0 <= k < r.value ==> a[xs[k]].scopeType != QMLScope
    ensures r.None? ==> forall k :: 0 <= k < |xs| ==> a[xs[k]].scopeType != QMLScope
    decreases |xs|
  {
    if xs == [] then None
    else if a[xs[0]].scopeType == QMLScope then Some(0)
    else
      match FirstQml(a, xs[1..])
      case None => None
      case Some(j) => Some(j + 1)
  }

  /**
   * The do/while walk of the Connections visit: step to the parent at least
   * once and keep stepping until a QML scope is reached. None when the chain
   * ends first (the source would dereference a null parent there). It agrees
   * with the first QML scope among the ancestors.
   */
  function NearestQmlAncestor(a: seq<Scope>, i: ScopeId): (r: Option<ScopeId>)
    requires WellFormed(a) && i < |a|
    ensures var up := Ancestors(a, i);
            match FirstQml(a, up)
            case None => r.None?
            case Some(j) => r == Some(up[j])
    decreases i
  {
    assert LinksWellFormed(a, i);
    match a[i].parentScope
    case None => None
    case Some(p) =>
      var up := Ancestors(a, i);
      assert up[1..] == Ancestors(a, p);
      if a[p].scopeType == QMLScope then Some(p) else NearestQmlAncestor(a, p)
  }

  /** The parent walk only looks at scopes up the chain, so appending scopes does not change it. */
  lemma {:induction false} NearestQmlAncestorPrefix(a: seq<Scope>, b: seq<Scope>, i: ScopeId)
    requires WellFormed(a) && WellFormed(b) && |a| <= |b| && b[..|a|] == a && i < |a|
    ensures NearestQmlAncestor(b, i) == NearestQmlAncestor(a, i)
    decreases i
  {
    assert b[..|a|][i] == b[i];
    assert LinksWellFormed(a, i);
    match a[i].parentScope
    case None =>
    case Some(p) =>
      assert b[..|a|][p] == b[p];
      NearestQmlAncestorPrefix(a, b, p);
  }
}
