/**
 * The driver: every event dispatches to its visit, the children are walked
 * when the visit answers true, and the matching end visit always follows.
 * The final check re-walks the queued Connections objects once all ids are
 * known.
 */
module Traversal {
  import opened Options
  import opened Scopes
  import opened Ast
  import opened State
  import opened Declarations
  import opened Handlers
  import opened MemberAccess
  import opened Objects

  /** The events whose visit opens exactly one scope and whose end visit leaves it. */
  predicate Opens(e: Event) {
    || e.UiProgram? || e.ClassExpression? || e.ClassDeclaration? || e.ForStatement? || e.ForEachStatement?
    || e.CaseBlock? || e.WithStatement? || e.Block? || e.Catch? || e.FunctionExpression? || e.FunctionDeclaration?
    || e.UiObjectDefinition? || e.UiObjectBinding?
  }

  /** What a successful visit leaves for the children walk, relative to the state before it. */
  ghost predicate VisitShape(v: Visitor, e: Event, w: Visitor)
    requires Valid(v) && Valid(w)
  {
    && Grows(v, w)
    && (Opens(e) ==> Current(w).parentScope == Some(v.currentScope) && w.handlerFrames == v.handlerFrames)
    && (e.ExpressionStatement? ==>
          && |w.handlerFrames| == |v.handlerFrames| + 1
          && w.handlerFrames[..|v.handlerFrames|] == v.handlerFrames
          && (if w.handlerFrames[|v.handlerFrames|]
              then Current(w).parentScope == Some(v.currentScope)
              else w.currentScope == v.currentScope))
    && (!Opens(e) && !e.ExpressionStatement? ==>
          w.currentScope == v.currentScope && w.handlerFrames == v.handlerFrames)
  }

  /**
   * The visits that only open a named scope: exactly one new, empty scope is
   * appended below the current one and becomes current. A program opens the
   * QML scope "program", a class a function scope named after the class, and
   * for, for-each and case blocks the lexical scopes "forloop",
   * "foreachloop" and "case".
   */
  function EnterFor(v: Visitor, e: Event): (r: Visitor)
    requires Valid(v)
    requires e.UiProgram? || e.ClassExpression? || e.ClassDeclaration? || e.ForStatement? || e.ForEachStatement?
             || e.CaseBlock?
    ensures Valid(r) && VisitShape(v, e, r)
    ensures |r.arena| == |v.arena| + 1 && r.arena[..|v.arena|] == v.arena && r.currentScope == |v.arena|
    ensures r == v.(arena := r.arena, currentScope := r.currentScope)
    ensures Current(r).properties == map[] && Current(r).methods == map[] && Current(r).jsIdentifiers == map[]
    ensures e.UiProgram? ==> Current(r).scopeType == QMLScope && Current(r).baseTypeName == "program"
    ensures e.ClassExpression? || e.ClassDeclaration? ==>
              Current(r).scopeType == JSFunctionScope && Current(r).baseTypeName == e.className
    ensures e.ForStatement? ==> Current(r).scopeType == JSLexicalScope && Current(r).baseTypeName == "forloop"
    ensures e.ForEachStatement? ==> Current(r).scopeType == JSLexicalScope && Current(r).baseTypeName == "foreachloop"
    ensures e.CaseBlock? ==> Current(r).scopeType == JSLexicalScope && Current(r).baseTypeName == "case"
  {
    match e
    case UiProgram => EnterEnvironment(v, QMLScope, "program")
    case ClassExpression(n) => EnterEnvironment(v, JSFunctionScope, n)
    case ClassDeclaration(n) => EnterEnvironment(v, JSFunctionScope, n)
    case ForStatement => EnterEnvironment(v, JSLexicalScope, "forloop")
    case ForEachStatement => EnterEnvironment(v, JSLexicalScope, "foreachloop")
    case CaseBlock => EnterEnvironment(v, JSLexicalScope, "case")
  }

  /** A visit that opens a scope below the current one, keeping the frame stack, has the shape its end visit undoes. */
  lemma OpeningShape(v: Visitor, e: Event, w: Visitor)
    requires Valid(v) && Valid(w) && Opens(e) && Grows(v, w)
    requires Current(w).parentScope == Some(v.currentScope) && w.handlerFrames == v.handlerFrames
    ensures VisitShape(v, e, w)
  {
  }

  /** A visit that stays in the current scope and keeps the frame stack has the shape its end visit undoes. */
  lemma InPlaceShape(v: Visitor, e: Event, w: Visitor)
    requires Valid(v) && Valid(w) && !Opens(e) && !e.ExpressionStatement? && Grows(v, w)
    requires w.currentScope == v.currentScope && w.handlerFrames == v.handlerFrames
    ensures VisitShape(v, e, w)
  {
  }

  /** The JavaScript visits that open a scope. */
  function VisitScoping(v: Visitor, e: Event): (r: Visitor)
    requires Valid(v)
    requires e.WithStatement? || e.Block? || e.Catch? || e.FunctionExpression? || e.FunctionDeclaration?
    ensures Valid(r) && VisitShape(v, e, r)
  {
    var r := match e
      case WithStatement(at) => VisitWith(v, at)
      case Block => VisitBlock(v)
      case Catch(b, at) => VisitCatch(v, b, at)
      case FunctionExpression(n, at) => VisitFunction(v, n, at)
      case FunctionDeclaration(n, at) => VisitFunction(v, n, at);
    OpeningShape(v, e, r);
    r
  }

  /** The visits that declare JavaScript names in the current scope. */
  function VisitDeclaring(v: Visitor, e: Event): (r: Visitor)
    requires Valid(v)
    requires e.VariableDeclarationList? || e.PatternElement? || e.FormalParameterList?
    ensures Valid(r) && VisitShape(v, e, r)
  {
    var r := match e
      case VariableDeclarationList(ds) => VisitVariableDeclarationList(v, ds)
      case PatternElement(isDecl, names, scope, at) => VisitPatternElement(v, isDecl, names, scope, at)
      case FormalParameterList(names, at) => VisitFormalParameterList(v, names, at);
    InPlaceShape(v, e, r);
    r
  }

  /** visit(UiScriptBinding) as a step: None for an id binding whose value is not an identifier. */
  function VisitBinding(v: Visitor, e: Event): (r: Option<Visitor>)
    requires Valid(v) && e.UiScriptBinding?
    ensures r.Some? ==> Valid(r.value) && VisitShape(v, e, r.value)
  {
    var r := VisitScriptBinding(v, e.bindingName, e.statement, e.location);
    if r.Some? then
      InPlaceShape(v, e, r.value);
      r
    else r
  }

  /** visit(ExpressionStatement) as a step. */
  function VisitStatement(v: Visitor): (r: Visitor)
    requires Valid(v)
    ensures Valid(r) && VisitShape(v, ExpressionStatement, r)
  {
    var w := VisitExpressionStatement(v);
    assert w.handlerFrames[..|v.handlerFrames|] == v.handlerFrames;
    w
  }

  /** The QML object visits that open the object's scope. */
  function VisitObject(v: Visitor, e: Event, children: seq<Tree>): (r: Option<Step>)
    requires Valid(v) && (e.UiObjectDefinition? || e.UiObjectBinding?)
    ensures r.Some? ==> Valid(r.value.state) && VisitShape(v, e, r.value.state)
  {
    var r := if e.UiObjectDefinition? then VisitObjectDefinition(v, e.typeName, children)
             else match VisitObjectBinding(v, e.propertyName, e.typeName)
                  case None => None
                  case Some(w) => Some(Step(w, true));
    if r.Some? then
      OpeningShape(v, e, r.value.state);
      r
    else r
  }

  /** The visits of a public member and of an identifier, which stay in the current scope. */
  function VisitMember(v: Visitor, e: Event): (r: Visitor)
    requires Valid(v) && (e.UiPublicMember? || e.IdentifierExpression?)
    ensures Valid(r) && VisitShape(v, e, r)
  {
    var r := match e
      case UiPublicMember(isSignal, n, ps, mt, tm, ro) => VisitPublicMember(v, isSignal, n, ps, mt, tm, ro)
      case IdentifierExpression(node, n, at) => VisitIdentifierExpression(v, node, n, at);
    InPlaceShape(v, e, r);
    r
  }

  /** visit(node): None where the source has undefined behaviour. */
  function Visit(v: Visitor, e: Event, children: seq<Tree>): (r: Option<Step>)
    requires Valid(v)
    ensures r.Some? ==> Valid(r.value.state) && VisitShape(v, e, r.value.state)
  {
    if e.UiProgram? || e.ClassExpression? || e.ClassDeclaration? || e.ForStatement? || e.ForEachStatement?
       || e.CaseBlock? then
      Some(Step(EnterFor(v, e), true))
    else if e.WithStatement? || e.Block? || e.Catch? || e.FunctionExpression? || e.FunctionDeclaration? then
      Some(Step(VisitScoping(v, e), true))
    else if e.ExpressionStatement? then
      Some(Step(VisitStatement(v), true))
    else if e.VariableDeclarationList? || e.PatternElement? || e.FormalParameterList? then
      Some(Step(VisitDeclaring(v, e), true))
    else if e.UiScriptBinding? then
      match VisitBinding(v, e)
      case None => None
      case Some(w) => Some(Step(w, true))
    else if e.UiObjectDefinition? || e.UiObjectBinding? then
      VisitObject(v, e, children)
    else if e.UiPublicMember? || e.IdentifierExpression? then
      Some(Step(VisitMember(v, e), true))
    else
      // FieldMemberExpression, BinaryExpression and every other node: nothing happens on the way in
      ExtendsReflexive(v.arena);
      Some(Step(v, true))
  }

  /** The end visits of the events that open a scope: each leaves it. */
  function EndOpening(v: Visitor, e: Event): (r: Option<Visitor>)
    requires Valid(v) && Opens(e)
    ensures r.Some? ==> Valid(r.value) && Grows(v, r.value)
    ensures r.Some? ==> Some(r.value.currentScope) == Current(v).parentScope && r.value.handlerFrames == v.handlerFrames
  {
    match e
    case UiObjectDefinition(_) => EndObjectDefinition(v)
    case UiObjectBinding(p, tn) => EndObjectBinding(v, p, tn)
    case _ => if HasParent(v) then Some(LeaveEnvironment(v)) else None
  }

  /** endVisit(node): None where the source has undefined behaviour. */
  function EndVisit(v: Visitor, e: Event): (r: Option<Visitor>)
    requires Valid(v)
    ensures r.Some? ==> Valid(r.value) && Grows(v, r.value)
    ensures r.Some? && Opens(e) ==> Some(r.value.currentScope) == Current(v).parentScope && r.value.handlerFrames == v.handlerFrames
    ensures r.Some? && !Opens(e) && !e.ExpressionStatement? ==>
              r.value.currentScope == v.currentScope && r.value.handlerFrames == v.handlerFrames
    ensures e.ExpressionStatement? ==> r == EndExpressionStatement(v)
  {
    if Opens(e) then EndOpening(v, e)
    else
      match e
      case ExpressionStatement => EndExpressionStatement(v)
      case FieldMemberExpression(node, base, n, at) => EndFieldMemberExpression(v, node, base, n, at)
      case BinaryExpression(node, op, left) => Some(EndBinaryExpression(v, node, op, left))
      case _ =>
        ExtendsReflexive(v.arena);
        Some(v)
  }

  /** The end visit undoes what the visit did to the current scope and the frame stack. */
  lemma EndUndoesVisit(v: Visitor, e: Event, w: Visitor, x: Visitor)
    requires Valid(v) && Valid(w) && VisitShape(v, e, w) && Resumes(w, x)
    ensures var r := EndVisit(x, e);
            r.Some? ==> r.value.currentScope == v.currentScope && r.value.handlerFrames == v.handlerFrames
  {
    if Opens(e) || e.ExpressionStatement? {
      assert SameShape(w.arena[w.currentScope], x.arena[w.currentScope]);
    }
    if e.ExpressionStatement? {
      assert x.handlerFrames[..|x.handlerFrames| - 1] == v.handlerFrames;
    }
  }

  /**
   * Walking a tree: visit, walk the children only when the visit answers
   * true, then end visit. A completed walk returns to the scope and frame
   * stack it started from, and nothing recorded is lost.
   */
  function Walk(v: Visitor, t: Tree): (r: Option<Visitor>)
    requires Valid(v)
    ensures r.Some? ==> Valid(r.value) && Grows(v, r.value)
    ensures r.Some? ==> r.value.currentScope == v.currentScope && r.value.handlerFrames == v.handlerFrames
    decreases t
  {
    match Visit(v, t.event, t.children)
    case None => None
    case Some(step) =>
      var w := step.state;
      var walked := if step.descend then WalkAll(w, t.children) else Some(w);
      match walked
      case None => None
      case Some(x) =>
        assert Resumes(w, x) by { if !step.descend { ExtendsReflexive(w.arena); } }
        var r := EndVisit(x, t.event);
        EndUndoesVisit(v, t.event, w, x);
        assert r.Some? ==> Grows(v, r.value) by {
          if r.Some? {
            GrowsTransitive(v, w, x);
            GrowsTransitive(v, x, r.value);
          }
        }
        r
  }

  /** Walking siblings in order; each starts where the previous one returned. */
  function WalkAll(v: Visitor, ts: seq<Tree>): (r: Option<Visitor>)
    requires Valid(v)
    ensures r.Some? ==> Valid(r.value) && Grows(v, r.value)
    ensures r.Some? ==> r.value.currentScope == v.currentScope && r.value.handlerFrames == v.handlerFrames
    decreases ts
  {
    if |ts| == 0 then
      ExtendsReflexive(v.arena);
      Some(v)
    else
      match Walk(v, ts[0])
      case None => None
      case Some(w) =>
        var r := WalkAll(w, ts[1..]);
        assert r.Some? ==> Grows(v, r.value) by {
          if r.Some? { GrowsTransitive(v, w, r.value); }
        }
        r
  }

  /** The answer of check() and the state it leaves. */
  datatype CheckResult = CheckResult(passed: bool, state: Visitor)

  /**
   * m_qmlid2scope[name]: the scope registered under the id, and the id map
   * with a null entry inserted when the id was unknown.
   */
  function LookupId(v: Visitor, name: string): (r: Visitor)
    requires Valid(v)
    ensures Valid(r) && Grows(v, r) && name in r.qmlIdToScope
    ensures r.qmlIdToScope == if name in v.qmlIdToScope then v.qmlIdToScope else v.qmlIdToScope[name := None]
    ensures r == v.(qmlIdToScope := r.qmlIdToScope)
  {
    var ids := if name in v.qmlIdToScope then v.qmlIdToScope else v.qmlIdToScope[name := None];
    ExtendsReflexive(v.arena);
    v.(qmlIdToScope := ids)
  }

  /**
   * The first half of revising a queued Connections object: look its target
   * id up and, when the id resolves to a scope, add that scope's methods to
   * the object's scope.
   */
  function MergeTarget(v: Visitor, c: Connection): (r: Visitor)
    requires Valid(v) && c.scope < |v.arena|
    ensures Valid(r) && Grows(v, r) && |r.arena| == |v.arena| && c.targetName in r.qmlIdToScope
    ensures r.currentScope == v.currentScope
    ensures r.qmlIdToScope == if c.targetName in v.qmlIdToScope then v.qmlIdToScope else v.qmlIdToScope[c.targetName := None]
    ensures r == v.(arena := r.arena, qmlIdToScope := r.qmlIdToScope)
    ensures match r.qmlIdToScope[c.targetName]
            case None => r.arena == v.arena
            case Some(t) =>
              r.arena == v.arena[c.scope := v.arena[c.scope].(methods := AddMethods(v.arena[c.scope].methods, v.arena[t].methods))]
  {
    var looked := LookupId(v, c.targetName);
    match looked.qmlIdToScope[c.targetName]
    case None => looked
    case Some(s) =>
      var r := AddMethodsTo(looked, c.scope, looked.arena[s].methods);
      GrowsTransitive(v, looked, r);
      r
  }

  /** The visitor with another current scope. */
  function WithCurrent(v: Visitor, id: ScopeId): (r: Visitor)
    requires Valid(v) && id < |v.arena|
    ensures Valid(r) && Grows(v, r) && r == v.(currentScope := id)
  {
    ExtendsReflexive(v.arena);
    v.(currentScope := id)
  }

  /**
   * One queued Connections object: merge its target's methods, then walk
   * its members with the object's scope as the current scope and restore
   * the current scope afterwards.
   */
  function ReviseConnection(v: Visitor, c: Connection): (r: Option<Visitor>)
    requires Valid(v) && c.scope < |v.arena|
    ensures r.Some? ==> Valid(r.value) && Grows(v, r.value)
    ensures r.Some? ==> r.value.currentScope == v.currentScope && c.targetName in r.value.qmlIdToScope
    ensures r.Some? && Lookup(v.qmlIdToScope, c.targetName).Some? ==>
              var t := Lookup(v.qmlIdToScope, c.targetName).value;
              t < |v.arena| && MethodsIncluded(v.arena[t], r.value.arena[c.scope])
  {
    var merged := MergeTarget(v, c);
    var inside := WithCurrent(merged, c.scope);
    GrowsTransitive(v, merged, inside);
    match WalkAll(inside, c.members)
    case None => None
    case Some(x) =>
      GrowsTransitive(v, inside, x);
      var r := WithCurrent(x, v.currentScope);
      GrowsTransitive(v, x, r);
      GrowsTransitive(merged, inside, r);
      MergedMethodsKept(v, c, r);
      Some(r)
  }

  /** Once merged, the target's overloads stay in the object's scope as the state grows. */
  lemma MergedMethodsKept(v: Visitor, c: Connection, x: Visitor)
    requires Valid(v) && c.scope < |v.arena| && Grows(MergeTarget(v, c), x)
    ensures Lookup(v.qmlIdToScope, c.targetName).Some? ==>
              var t := Lookup(v.qmlIdToScope, c.targetName).value;
              t < |v.arena| && MethodsIncluded(v.arena[t], x.arena[c.scope])
  {
    var m := MergeTarget(v, c);
    if Lookup(v.qmlIdToScope, c.targetName).Some? {
      var t := Lookup(v.qmlIdToScope, c.targetName).value;
      assert RefValid(v.qmlIdToScope[c.targetName], |v.arena|);
      assert MethodsIncluded(v.arena[t], m.arena[c.scope]);
      MethodsIncludedGrowing(v.arena[t], m.arena[c.scope], x.arena[c.scope]);
    }
  }

  /** A queued object without members only gets its target's methods. */
  lemma MemberlessConnectionOnlyMerges(v: Visitor, name: string, scope: ScopeId)
    requires Valid(v) && scope < |v.arena|
    ensures ReviseConnection(v, Connection(name, scope, [])) == Some(MergeTarget(v, Connection(name, scope, [])))
  {
  }

  /** Every queued object's scope lies below `n`. */
  predicate ScopesBelow(cs: seq<Connection>, n: nat) {
    forall k :: 0 <= k < |cs| ==> cs[k].scope < n
  }

  /** A slice of a queue whose scopes lie below `n` has its scopes below any larger bound. */
  lemma ScopesBelowSlice(cs: seq<Connection>, n: nat, m: nat, lo: nat, hi: nat)
    requires ScopesBelow(cs, n) && n <= m && lo <= hi <= |cs|
    ensures ScopesBelow(cs[lo..hi], m)
  {
    assert forall k :: 0 <= k < hi - lo ==> cs[lo..hi][k] == cs[lo + k];
  }

  /** The target ids of queued Connections objects. */
  function Targets(cs: seq<Connection>): (r: set<string>)
    ensures forall i :: 0 <= i < |cs| ==> cs[i].targetName in r
    decreases |cs|
  {
    if |cs| == 0 then {}
    else
      var rest := Targets(cs[1..]);
      assert forall i :: 1 <= i < |cs| ==> cs[i] == cs[1..][i - 1];
      {cs[0].targetName} + rest
  }

  /**
   * The queued Connections objects of a snapshot, in order. Every target id
   * ends up in the id map: the lookup of an unknown id inserts a null entry.
   */
  function ReviseAll(v: Visitor, cs: seq<Connection>): (r: Option<Visitor>)
    requires Valid(v) && ScopesBelow(cs, |v.arena|)
    ensures r.Some? ==> Valid(r.value) && Grows(v, r.value) && r.value.currentScope == v.currentScope
    ensures r.Some? ==> Targets(cs) <= r.value.qmlIdToScope.Keys
    decreases |cs|
  {
    if |cs| == 0 then
      ExtendsReflexive(v.arena);
      Some(v)
    else
      match ReviseConnection(v, cs[0])
      case None => None
      case Some(w) =>
        ScopesBelowSlice(cs, |v.arena|, |w.arena|, 1, |cs|);
        var r := ReviseAll(w, cs[1..]);
        assert r.Some? ==> Grows(v, r.value) by {
          if r.Some? { GrowsTransitive(v, w, r.value); }
        }
        r
  }

  /** Revising a non-empty queue revises its head, then the rest from there. */
  lemma ReviseAllHead(v: Visitor, cs: seq<Connection>)
    requires Valid(v) && ScopesBelow(cs, |v.arena|) && |cs| > 0
    ensures match ReviseConnection(v, cs[0])
            case None => ReviseAll(v, cs).None?
            case Some(w) => ScopesBelow(cs[1..], |w.arena|) && ReviseAll(v, cs) == ReviseAll(w, cs[1..])
  {
    match ReviseConnection(v, cs[0])
    case None =>
    case Some(w) => ScopesBelowSlice(cs, |v.arena|, |w.arena|, 1, |cs|);
  }

  /** How a queue's prefix and suffix look once its head is dropped. */
  lemma SliceAfterHead(cs: seq<Connection>, i: nat)
    requires 0 < i <= |cs|
    ensures cs[..i][0] == cs[0] && cs[..i][1..] == cs[1..][..i - 1] && cs[1..][i - 1..] == cs[i..]
    ensures i < |cs| ==> cs[1..][i - 1] == cs[i]
  {
  }

  /**
   * Revisiting in order: the queue's first `i` objects are revisited first,
   * and the rest continue from the state they leave.
   */
  lemma {:induction false} ReviseAllSplit(v: Visitor, cs: seq<Connection>, i: nat)
    requires Valid(v) && ScopesBelow(cs, |v.arena|) && i <= |cs|
    ensures var before := ReviseAll(v, cs[..i]);
            ReviseAll(v, cs) == match before
                                case None => None
                                case Some(u) => ReviseAll(u, cs[i..])
    decreases i
  {
    if i > 0 {
      ScopesBelowSlice(cs, |v.arena|, |v.arena|, 0, i);
      SliceAfterHead(cs, i);
      ReviseAllHead(v, cs);
      ReviseAllHead(v, cs[..i]);
      if ReviseConnection(v, cs[0]).Some? {
        ReviseAllSplit(ReviseConnection(v, cs[0]).value, cs[1..], i - 1);
      }
    }
  }

  /** The first queued object ends up holding the overloads its target id names when the drain starts. */
  lemma ReviseAllMergesFirst(u: Visitor, cs: seq<Connection>)
    requires Valid(u) && ScopesBelow(cs, |u.arena|) && |cs| > 0
    ensures ReviseAll(u, cs).Some? && Lookup(u.qmlIdToScope, cs[0].targetName).Some? ==>
              var t := Lookup(u.qmlIdToScope, cs[0].targetName).value;
              t < |u.arena| && MethodsIncluded(u.arena[t], ReviseAll(u, cs).value.arena[cs[0].scope])
  {
    ReviseAllHead(u, cs);
    if ReviseAll(u, cs).Some? && Lookup(u.qmlIdToScope, cs[0].targetName).Some? {
      var w := ReviseConnection(u, cs[0]).value;
      var r := ReviseAll(w, cs[1..]).value;
      var t := Lookup(u.qmlIdToScope, cs[0].targetName).value;
      MethodsIncludedGrowing(u.arena[t], w.arena[cs[0].scope], r.arena[cs[0].scope]);
    }
  }

  /**
   * Every queued object whose target id names a scope by the time the object
   * is revisited ends up holding that scope's overloads.
   */
  lemma {:induction false} ReviseAllMergesEach(v: Visitor, cs: seq<Connection>, i: nat)
    requires Valid(v) && ScopesBelow(cs, |v.arena|) && i < |cs|
    requires ReviseAll(v, cs).Some?
    ensures var before := ReviseAll(v, cs[..i]);
            && before.Some?
            && (Lookup(before.value.qmlIdToScope, cs[i].targetName).Some? ==>
                  var t := Lookup(before.value.qmlIdToScope, cs[i].targetName).value;
                  t < |before.value.arena| && MethodsIncluded(before.value.arena[t], ReviseAll(v, cs).value.arena[cs[i].scope]))
    decreases i
  {
    ScopesBelowSlice(cs, |v.arena|, |v.arena|, 0, i);
    if i == 0 {
      assert cs[..0] == [];
      ReviseAllMergesFirst(v, cs);
    } else {
      ReviseAllHead(v, cs);
      ReviseAllHead(v, cs[..i]);
      SliceAfterHead(cs, i);
      ReviseAllMergesEach(ReviseConnection(v, cs[0]).value, cs[1..], i - 1);
    }
  }

  /**
   * check(): false at once when a visit failed. Otherwise the queued
   * Connections objects are revisited, and the answer is true when
   * unqualified-access warnings are off, else the identifier checker's
   * verdict, which is a parameter here.
   */
  function Check(v: Visitor, identifiersPass: bool): (r: Option<CheckResult>)
    requires Valid(v)
    ensures v.visitFailed ==> r == Some(CheckResult(false, v))
    ensures !v.visitFailed ==> (r.Some? <==> ReviseAll(v, v.outstandingConnections).Some?)
    ensures r.Some? && !v.visitFailed ==> ReviseAll(v, v.outstandingConnections) == Some(r.value.state)
    ensures r.Some? && !v.visitFailed ==>
              && Valid(r.value.state) && Grows(v, r.value.state)
              && r.value.passed == (!v.config.warnUnqualified || identifiersPass)
              && forall i :: 0 <= i < |v.outstandingConnections| ==>
                   v.outstandingConnections[i].targetName in r.value.state.qmlIdToScope
  {
    if v.visitFailed then Some(CheckResult(false, v))
    else
      match ReviseAll(v, v.outstandingConnections)
      case None => None
      case Some(w) => Some(CheckResult(!v.config.warnUnqualified || identifiersPass, w))
  }
}
