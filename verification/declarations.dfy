/**
 * How the visitor classifies JavaScript declarations into identifier kinds:
 * `var` is function-scoped, `let`/`const` (and anything else) lexical, formal
 * parameters are parameters, and named functions become methods of a QML
 * scope or lexical identifiers elsewhere.
 */
module Declarations {
  import opened Options
  import opened Scopes
  import opened Ast
  import opened State

  /** The identifier kind a variable declaration of this scope gets. */
  function Classify(scope: VariableScope): (k: IdentifierKind)
    ensures k == FunctionScoped <==> scope == Var
    ensures k != FunctionScoped ==> k == LexicalScoped
  {
    if scope == Var then FunctionScoped else LexicalScoped
  }

  /** The names `decls` declares. */
  function DeclaredNames(decls: seq<VariableDeclaration>): set<string> {
    set i | 0 <= i < |decls| :: decls[i].name
  }

  lemma DeclaredNamesSnoc(decls: seq<VariableDeclaration>)
    requires |decls| > 0
    ensures DeclaredNames(decls) == DeclaredNames(decls[..|decls| - 1]) + {decls[|decls| - 1].name}
  {
    var before := decls[..|decls| - 1];
    forall x | x in DeclaredNames(decls) ensures x in DeclaredNames(before) + {decls[|decls| - 1].name} {
      var i :| 0 <= i < |decls| && decls[i].name == x;
      if i < |before| {
        assert before[i].name == x;
      }
    }
    forall x | x in DeclaredNames(before) ensures x in DeclaredNames(decls) {
      var i :| 0 <= i < |before| && before[i].name == x;
      assert decls[i].name == x;
    }
    assert decls[|decls| - 1].name in DeclaredNames(decls);
  }

  /** The record a declaration inserts. */
  function Record(d: VariableDeclaration): JSIdentifier {
    JSIdentifier(Classify(d.scope), d.location)
  }

  /** The last declaration of `name` in `decls`, searching from the end. */
  function LastDecl(decls: seq<VariableDeclaration>, name: string): (r: Option<VariableDeclaration>)
    decreases |decls|
    ensures r.None? <==> name !in DeclaredNames(decls)
    ensures r.Some? ==> r.value in decls && r.value.name == name
  {
    if |decls| == 0 then None
    else
      DeclaredNamesSnoc(decls);
      var d := decls[|decls| - 1];
      if d.name == name then Some(d) else LastDecl(decls[..|decls| - 1], name)
  }

  /**
   * The identifier table after one insertJSIdentifier per declaration, in
   * list order (the loop's state after the last declaration): each declared
   * name holds the record of its last declaration and no other entry changes.
   */
  function DeclareAll(ids: map<string, JSIdentifier>, decls: seq<VariableDeclaration>): (r: map<string, JSIdentifier>)
    decreases |decls|
    ensures r.Keys == ids.Keys + DeclaredNames(decls)
    ensures forall n :: n in DeclaredNames(decls) ==> LastDecl(decls, n).Some? && r[n] == Record(LastDecl(decls, n).value)
    ensures forall n :: n in ids && n !in DeclaredNames(decls) ==> r[n] == ids[n]
  {
    if |decls| == 0 then
      ids
    else
      var d := decls[|decls| - 1];
      DeclaredNamesSnoc(decls);
      DeclareAll(ids, decls[..|decls| - 1])[d.name := Record(d)]
  }

  /** visit(VariableDeclarationList): every declaration of the list enters the current scope. */
  function VisitVariableDeclarationList(v: Visitor, decls: seq<VariableDeclaration>): (r: Visitor)
    requires Valid(v)
    ensures Valid(r) && Grows(v, r) && |r.arena| == |v.arena|
    ensures Current(r).jsIdentifiers == DeclareAll(Current(v).jsIdentifiers, decls)
    ensures Current(r) == Current(v).(jsIdentifiers := Current(r).jsIdentifiers)
    ensures r.arena == v.arena[v.currentScope := Current(r)]
    ensures r == v.(arena := r.arena)
  {
    var s := Current(v);
    UpdateScope(v, v.currentScope, s.(jsIdentifiers := DeclareAll(s.jsIdentifiers, decls)))
  }

  /** A `var` declaration is function-scoped and a `let` or `const` one lexical, at the declaration's location. */
  lemma {:induction false} VarIsFunctionScopedLetIsLexical(ids: map<string, JSIdentifier>, name: string, at: Location)
    ensures DeclareAll(ids, [VariableDeclaration(name, Var, at)])[name] == JSIdentifier(FunctionScoped, at)
    ensures DeclareAll(ids, [VariableDeclaration(name, Let, at)])[name] == JSIdentifier(LexicalScoped, at)
    ensures DeclareAll(ids, [VariableDeclaration(name, Const, at)])[name] == JSIdentifier(LexicalScoped, at)
  {
    assert [VariableDeclaration(name, Var, at)][0].name == name;
    assert [VariableDeclaration(name, Let, at)][0].name == name;
    assert [VariableDeclaration(name, Const, at)][0].name == name;
  }

  /**
   * visit(PatternElement): a variable-declaring pattern enters each bound
   * name with the kind its declaration scope gives; any other pattern
   * changes nothing.
   */
  function VisitPatternElement(v: Visitor, isVariableDeclaration: bool, boundNames: seq<string>,
                               scope: VariableScope, at: Location): (r: Visitor)
    requires Valid(v)
    ensures Valid(r) && Grows(v, r) && |r.arena| == |v.arena| && r == v.(arena := r.arena)
    ensures !isVariableDeclaration ==> r == v
    ensures isVariableDeclaration ==>
              && r.arena == v.arena[v.currentScope := Current(v).(jsIdentifiers := Current(r).jsIdentifiers)]
              && Current(r).jsIdentifiers.Keys == Current(v).jsIdentifiers.Keys + set n | n in boundNames
              && (forall n :: n in boundNames ==>
                    n in Current(r).jsIdentifiers && Current(r).jsIdentifiers[n] == JSIdentifier(Classify(scope), at))
              && forall n :: n in Current(v).jsIdentifiers && n !in boundNames ==>
                   Current(r).jsIdentifiers[n] == Current(v).jsIdentifiers[n]
  {
    if isVariableDeclaration then InsertIdentifiers(v, boundNames, JSIdentifier(Classify(scope), at)) else v
  }

  /** visit(FormalParameterList): every bound name is a parameter located at the list. */
  function VisitFormalParameterList(v: Visitor, names: seq<string>, at: Location): (r: Visitor)
    requires Valid(v)
    ensures Valid(r) && Grows(v, r) && |r.arena| == |v.arena| && r == v.(arena := r.arena)
    ensures r.arena == v.arena[v.currentScope := Current(v).(jsIdentifiers := Current(r).jsIdentifiers)]
    ensures Current(r).jsIdentifiers.Keys == Current(v).jsIdentifiers.Keys + set n | n in names
    ensures forall n :: n in names ==> n in Current(r).jsIdentifiers && Current(r).jsIdentifiers[n] == JSIdentifier(Parameter, at)
    ensures forall n :: n in Current(v).jsIdentifiers && n !in names ==>
              Current(r).jsIdentifiers[n] == Current(v).jsIdentifiers[n]
  {
    InsertIdentifiers(v, names, JSIdentifier(Parameter, at))
  }

  /**
   * visit(Catch): a lexical "catch" scope becomes current and holds the
   * binding identifier as a lexical identifier.
   */
  function VisitCatch(v: Visitor, binding: string, at: Location): (r: Visitor)
    requires Valid(v)
    ensures Valid(r) && Grows(v, r) && |r.arena| == |v.arena| + 1 && r.currentScope == |v.arena|
    ensures Current(r).parentScope == Some(v.currentScope)
    ensures Current(r).scopeType == JSLexicalScope && Current(r).baseTypeName == "catch"
    ensures Current(r).jsIdentifiers == map[binding := JSIdentifier(LexicalScoped, at)]
    ensures r.arena[..|v.arena|] == v.arena && r == v.(arena := r.arena, currentScope := r.currentScope)
  {
    InsertIdentifiers(EnterEnvironment(v, JSLexicalScope, "catch"), [binding], JSIdentifier(LexicalScoped, at))
  }

  /** The method a named function declares in a QML scope. */
  function FunctionMethod(name: string): MetaMethod {
    MetaMethod(name, "void", Method, [], [])
  }

  /**
   * visitFunctionExpressionHelper: a named function is declared in the
   * enclosing scope (a method of a QML scope, a lexical identifier
   * elsewhere) and a function scope named after it becomes current; an
   * anonymous function gets a scope named "<anon>" and declares nothing.
   */
  function VisitFunction(v: Visitor, name: string, at: Location): (r: Visitor)
    requires Valid(v)
    ensures Valid(r) && Grows(v, r) && |r.arena| == |v.arena| + 1 && r.currentScope == |v.arena|
    ensures Current(r).parentScope == Some(v.currentScope) && Current(r).scopeType == JSFunctionScope
    ensures Current(r).baseTypeName == (if name == "" then "<anon>" else name)
    ensures r == v.(arena := r.arena, currentScope := r.currentScope)
    ensures var outer := r.arena[v.currentScope];
            && r.arena[..|v.arena|] == v.arena[v.currentScope := outer]
            && (name == "" ==> outer == Current(v))
            && (name != "" && Current(v).scopeType == QMLScope ==>
                  && outer == Current(v).(methods := outer.methods)
                  && Entries(outer.methods, name) == [FunctionMethod(name)] + Entries(Current(v).methods, name)
                  && forall n :: n != name ==> Entries(outer.methods, n) == Entries(Current(v).methods, n))
            && (name != "" && Current(v).scopeType != QMLScope ==>
                  && outer == Current(v).(jsIdentifiers := outer.jsIdentifiers)
                  && outer.jsIdentifiers == Current(v).jsIdentifiers[name := JSIdentifier(LexicalScoped, at)])
  {
    if name == "" then
      EnterEnvironment(v, JSFunctionScope, "<anon>")
    else
      var s := Current(v);
      var declared :=
        if s.scopeType == QMLScope
        then UpdateScope(v, v.currentScope, s.(methods := AddMethod(s.methods, FunctionMethod(name))))
        else UpdateScope(v, v.currentScope, s.(jsIdentifiers := s.jsIdentifiers[name := JSIdentifier(LexicalScoped, at)]));
      EnterEnvironment(declared, JSFunctionScope, name)
  }
}
