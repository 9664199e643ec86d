/**
 * The member-access chain recorder. An identifier starts a new chain in the
 * current scope; a field access whose base (through parentheses) is the node
 * that last extended a chain appends its name to that chain, carrying the
 * target type of an `as` cast when the base is one; anything else breaks the
 * chain.
 */
module MemberAccess {
  import opened Options
  import opened Scopes
  import opened Ast
  import opened State

  /** m_memberAccessChains[scope]: the chains recorded in a scope, none when absent. */
  function Chains(v: Visitor, id: ScopeId): seq<seq<FieldMember>> {
    if id in v.memberAccessChains then v.memberAccessChains[id] else []
  }

  /** Every recorded chain has at least one link: the assertion of the field-access end visit. */
  predicate ChainsNonEmpty(v: Visitor) {
    forall id, i :: id in v.memberAccessChains && 0 <= i < |v.memberAccessChains[id]| ==>
      |v.memberAccessChains[id][i]| > 0
  }

  /** visit(IdentifierExpression): a one-link chain for the identifier, which becomes the chain's end. */
  function VisitIdentifierExpression(v: Visitor, node: NodeId, name: string, at: Location): (r: Visitor)
    requires Valid(v)
    ensures Valid(r) && Grows(v, r)
    ensures Chains(r, v.currentScope) == Chains(v, v.currentScope) + [[FieldMember(name, "", at)]]
    ensures forall id :: id != v.currentScope ==> Chains(r, id) == Chains(v, id)
    ensures r.fieldMemberBase == Some(node)
    ensures ChainsNonEmpty(v) ==> ChainsNonEmpty(r)
    ensures r == v.(memberAccessChains := r.memberAccessChains, fieldMemberBase := r.fieldMemberBase)
  {
    ExtendsReflexive(v.arena);
    var chains := Chains(v, v.currentScope) + [[FieldMember(name, "", at)]];
    v.(memberAccessChains := v.memberAccessChains[v.currentScope := chains], fieldMemberBase := Some(node))
  }

  /**
   * endVisit(FieldMemberExpression). When the unwrapped base is the current
   * chain end, the field joins the last chain of the current scope, typed by
   * the base's `as` cast, and becomes the chain end; otherwise the chain end
   * is cleared. None when there is no last chain to extend or it is empty,
   * where the source asserts.
   */
  function EndFieldMemberExpression(v: Visitor, node: NodeId, base: ExprRef, name: string, at: Location)
    : (r: Option<Visitor>)
    requires Valid(v)
    ensures var b := Unwrap(base);
            var chains := Chains(v, v.currentScope);
            && (r.None? <==> v.fieldMemberBase == Some(NodeOf(b)) && (|chains| == 0 || |chains[|chains| - 1]| == 0))
            && (r.Some? && v.fieldMemberBase == Some(NodeOf(b)) ==>
                  && |chains| > 0
                  && Chains(r.value, v.currentScope)
                     == chains[..|chains| - 1] + [chains[|chains| - 1] + [FieldMember(name, CastType(b), at)]]
                  && r.value.fieldMemberBase == Some(node))
            && (v.fieldMemberBase != Some(NodeOf(b)) ==> r == Some(v.(fieldMemberBase := None)))
    ensures r.Some? ==> Valid(r.value) && Grows(v, r.value)
    ensures r.Some? ==> forall id :: id != v.currentScope ==> Chains(r.value, id) == Chains(v, id)
    ensures r.Some? ==> r.value == v.(memberAccessChains := r.value.memberAccessChains,
                                      fieldMemberBase := r.value.fieldMemberBase)
    ensures r.Some? && ChainsNonEmpty(v) ==> ChainsNonEmpty(r.value)
    ensures ChainsNonEmpty(v) && v.fieldMemberBase == Some(NodeOf(Unwrap(base))) ==>
              (r.None? <==> |Chains(v, v.currentScope)| == 0)
  {
    ExtendsReflexive(v.arena);
    var b := Unwrap(base);
    if v.fieldMemberBase == Some(NodeOf(b)) then
      var chains := Chains(v, v.currentScope);
      if |chains| == 0 || |chains[|chains| - 1]| == 0 then None
      else
        var last := chains[|chains| - 1] + [FieldMember(name, CastType(b), at)];
        var extended := chains[..|chains| - 1] + [last];
        Some(v.(memberAccessChains := v.memberAccessChains[v.currentScope := extended], fieldMemberBase := Some(node)))
    else
      Some(v.(fieldMemberBase := None))
  }

  /** endVisit(BinaryExpression): an `as` cast of the chain end becomes the chain end; anything else clears it. */
  function EndBinaryExpression(v: Visitor, node: NodeId, op: Operator, left: NodeId): (r: Visitor)
    requires Valid(v)
    ensures Valid(r) && Grows(v, r)
    ensures r.fieldMemberBase.Some? <==> op == As && v.fieldMemberBase == Some(left)
    ensures r.fieldMemberBase.Some? ==> r.fieldMemberBase == Some(node)
    ensures r == v.(fieldMemberBase := r.fieldMemberBase)
  {
    ExtendsReflexive(v.arena);
    v.(fieldMemberBase := if op == As && v.fieldMemberBase == Some(left) then Some(node) else None)
  }

  /** `x.y`: the identifier's chain gains the field, untyped. */
  lemma IdentifierThenField(v: Visitor, x: NodeId, xName: string, xAt: Location,
                            f: NodeId, fName: string, fAt: Location)
    requires Valid(v)
    ensures var w := VisitIdentifierExpression(v, x, xName, xAt);
            var r := EndFieldMemberExpression(w, f, ExprNode(x), fName, fAt);
            && r.Some?
            && Chains(r.value, v.currentScope)
               == Chains(v, v.currentScope) + [[FieldMember(xName, "", xAt), FieldMember(fName, "", fAt)]]
            && r.value.fieldMemberBase == Some(f)
  {
    var w := VisitIdentifierExpression(v, x, xName, xAt);
    var chains := Chains(w, v.currentScope);
    assert chains[..|chains| - 1] == Chains(v, v.currentScope);
    assert chains[|chains| - 1] + [FieldMember(fName, "", fAt)] == [FieldMember(xName, "", xAt), FieldMember(fName, "", fAt)];
  }

  /** `(x as T).y`: the field is typed by the cast. */
  lemma CastThenField(v: Visitor, x: NodeId, xName: string, xAt: Location, b: NodeId, t: string,
                      f: NodeId, fName: string, fAt: Location)
    requires Valid(v)
    ensures var w := VisitIdentifierExpression(v, x, xName, xAt);
            var c := EndBinaryExpression(w, b, As, x);
            var r := EndFieldMemberExpression(c, f, Nested(BinaryRef(b, As, Some(t))), fName, fAt);
            && r.Some?
            && Chains(r.value, v.currentScope)
               == Chains(v, v.currentScope) + [[FieldMember(xName, "", xAt), FieldMember(fName, t, fAt)]]
  {
    var w := VisitIdentifierExpression(v, x, xName, xAt);
    var c := EndBinaryExpression(w, b, As, x);
    assert Unwrap(Nested(BinaryRef(b, As, Some(t)))) == BinaryRef(b, As, Some(t));
    assert c.fieldMemberBase == Some(b);
    var chains := Chains(c, v.currentScope);
    assert chains[..|chains| - 1] == Chains(v, v.currentScope);
    assert chains[|chains| - 1] + [FieldMember(fName, t, fAt)] == [FieldMember(xName, "", xAt), FieldMember(fName, t, fAt)];
  }

  /** Any other binary expression in between breaks the chain: the field access records nothing. */
  lemma OtherOperatorBreaksChain(v: Visitor, x: NodeId, xName: string, xAt: Location, b: NodeId,
                                 f: NodeId, fName: string, fAt: Location)
    requires Valid(v)
    ensures var w := VisitIdentifierExpression(v, x, xName, xAt);
            var c := EndBinaryExpression(w, b, OtherOperator, x);
            var r := EndFieldMemberExpression(c, f, Nested(BinaryRef(b, OtherOperator, None)), fName, fAt);
            && r.Some?
            && Chains(r.value, v.currentScope) == Chains(v, v.currentScope) + [[FieldMember(xName, "", xAt)]]
            && r.value.fieldMemberBase.None?
  {
  }
}
