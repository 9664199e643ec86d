/**
 * importExportedNames: walk a scope's base-type chain, flatten each visited
 * scope's properties and methods into the current scope, and stop at a scope
 * without a base-type name, at a base-type name that did not resolve, or at
 * the first scope met twice (an inheritance cycle).
 */
module Inheritance {
  import opened Options
  import opened Scopes
  import opened State

  /** How the walk ended. */
  datatype ImportEnd = ReachedRoot | Cycle(scope: ScopeId) | Unresolved(baseTypeName: string)

  /** The scopes the loop visits, in order, and how it ends. */
  datatype Path = Path(visited: seq<ScopeId>, end: ImportEnd)

  /** The visitor after importExportedNames, with the loop's visited scopes and ending. */
  datatype ImportRun = ImportRun(state: Visitor, visited: seq<ScopeId>, end: ImportEnd)

  predicate Distinct(xs: seq<ScopeId>) {
    forall i, j :: 0 <= i < j < |xs| ==> xs[i] != xs[j]
  }

  predicate AllBelow(xs: seq<ScopeId>, n: nat) {
    forall i :: 0 <= i < |xs| ==> xs[i] < n
  }

  /** Pigeonhole: a list of distinct ids below `n` has at most `n` entries. */
  lemma {:induction false} DistinctBounded(xs: seq<ScopeId>, n: nat)
    requires Distinct(xs) && AllBelow(xs, n)
    ensures |xs| <= n
    decreases n
  {
    if |xs| == 0 {
      return;
    }
    assert xs[0] < n;
    if p :| 0 <= p < |xs| && xs[p] == n - 1 {
      var ys := xs[..p] + xs[p + 1..];
      assert forall i :: 0 <= i < |ys| ==> ys[i] == (if i < p then xs[i] else xs[i + 1]);
      assert forall i :: 0 <= i < |ys| ==> ys[i] < n - 1 by {
        forall i | 0 <= i < |ys| ensures ys[i] < n - 1 {
          if i < p { assert xs[i] != xs[p]; } else { assert xs[i + 1] != xs[p]; }
        }
      }
      assert Distinct(ys) by {
        forall i, j | 0 <= i < j < |ys| ensures ys[i] != ys[j] {
          var i' := if i < p then i else i + 1;
          var j' := if j < p then j else j + 1;
          assert i' < j';
        }
      }
      DistinctBounded(ys, n - 1);
    } else {
      assert AllBelow(xs, n - 1) by {
        forall i | 0 <= i < |xs| ensures xs[i] < n - 1 { assert xs[i] != n - 1; }
      }
      DistinctBounded(xs, n - 1);
    }
  }

  /** `x` has a non-empty base-type name that resolved to `y`: the walk steps from `x` to `y`. */
  predicate BaseLink(a: seq<Scope>, x: ScopeId, y: ScopeId)
    requires x < |a|
  {
    a[x].baseTypeName != "" && a[x].baseType == Some(y)
  }

  /** The base-type names of the scopes in `xs`, as the cycle warning lists them. */
  function BaseNames(a: seq<Scope>, xs: seq<ScopeId>): (r: seq<string>)
    requires AllBelow(xs, |a|)
    ensures |r| == |xs| && forall i :: 0 <= i < |xs| ==> r[i] == a[xs[i]].baseTypeName
  {
    seq(|xs|, i requires 0 <= i < |xs| => a[xs[i]].baseTypeName)
  }

  lemma BaseNamesStable(a: seq<Scope>, b: seq<Scope>, xs: seq<ScopeId>)
    requires Extends(a, b) && AllBelow(xs, |a|)
    ensures BaseNames(a, xs) == BaseNames(b, xs)
  {
    assert forall i :: 0 <= i < |xs| ==> SameShape(a[xs[i]], b[xs[i]]);
  }

  /** Every property name and method overload of `src` is present in `dst`. */
  ghost predicate Inherits(src: Scope, dst: Scope) {
    && src.properties.Keys <= dst.properties.Keys
    && forall n :: multiset(Entries(src.methods, n)) <= multiset(Entries(dst.methods, n))
  }

  /** The current scope holds every property and method overload of each scope on its base chain. */
  ghost predicate HoldsBaseChain(v: Visitor)
    requires Valid(v)
  {
    var p := BaseChain(v.arena, v.currentScope, []);
    forall i :: 0 <= i < |p.visited| ==> Inherits(v.arena[p.visited[i]], Current(v))
  }

  /** Growing the current scope's members keeps it holding its base chain. */
  lemma HoldsBaseChainGrowing(w: Visitor, r: Visitor)
    requires Valid(w) && Valid(r) && HoldsBaseChain(w)
    requires r.currentScope == w.currentScope && |r.arena| == |w.arena| && r.arena == w.arena[w.currentScope := Current(r)]
    requires SameShape(Current(w), Current(r)) && MembersIncluded(Current(w), Current(r))
    ensures HoldsBaseChain(r)
  {
    ReplaceExtends(w.arena, r.arena, w.currentScope);
    BaseChainShape(w.arena, r.arena, w.currentScope, []);
    var p := BaseChain(w.arena, w.currentScope, []);
    forall i | 0 <= i < |p.visited| ensures Inherits(r.arena[p.visited[i]], Current(r)) {
      if p.visited[i] != w.currentScope {
        InheritsInto(w.arena[p.visited[i]], Current(w), Current(r));
      }
    }
  }

  /** The current scope's tables merged with `src`'s: what one iteration writes back. */
  function Merge(dst: Scope, src: Scope): (r: Scope)
    ensures SameShape(dst, r) && MembersIncluded(dst, r) && Inherits(src, r)
    ensures forall p :: p in src.properties ==> r.properties[p] == src.properties[p]
    ensures forall p :: p in dst.properties && p !in src.properties ==> r.properties[p] == dst.properties[p]
  {
    var r := dst.(properties := dst.properties + src.properties,
                  methods := AddMethods(dst.methods, src.methods));
    assert forall n :: multiset(Entries(r.methods, n)) == multiset(Entries(src.methods, n)) + multiset(Entries(dst.methods, n));
    r
  }

  /** One iteration's copy: scope `s`'s properties and methods are inserted into scope `cur`. */
  function CopyMembers(a: seq<Scope>, cur: ScopeId, s: ScopeId): (r: seq<Scope>)
    requires WellFormed(a) && cur < |a| && s < |a|
    ensures WellFormed(r) && |r| == |a| && r == a[cur := r[cur]]
    ensures SameShape(a[cur], r[cur]) && MembersIncluded(a[cur], r[cur])
    ensures Inherits(a[s], r[cur])
    ensures forall p :: p in a[s].properties ==> r[cur].properties[p] == a[s].properties[p]
    ensures forall p :: p in a[cur].properties && p !in a[s].properties ==>
              p in r[cur].properties && r[cur].properties[p] == a[cur].properties[p]
  {
    ReplaceScope(a, cur, Merge(a[cur], a[s]))
  }

  /** `Inherits` survives shrinking the source to a scope it grew from. */
  lemma InheritsFrom(a0: Scope, a: Scope, c: Scope)
    requires MembersIncluded(a0, a) && Inherits(a, c)
    ensures Inherits(a0, c)
  {
    forall n ensures multiset(Entries(a0.methods, n)) <= multiset(Entries(c.methods, n)) {
      assert multiset(Entries(a0.methods, n)) <= multiset(Entries(a.methods, n));
    }
  }

  /** `Inherits` survives growing the destination. */
  lemma InheritsInto(a: Scope, b: Scope, c: Scope)
    requires Inherits(a, b) && MembersIncluded(b, c)
    ensures Inherits(a, c)
  {
    forall n ensures multiset(Entries(a.methods, n)) <= multiset(Entries(c.methods, n)) {
      assert multiset(Entries(a.methods, n)) <= multiset(Entries(b.methods, n));
    }
  }

  /** Replacing scope `cur` by a scope of the same shape with more members extends the arena. */
  lemma ReplaceExtends(a: seq<Scope>, b: seq<Scope>, cur: ScopeId)
    requires cur < |a| && |b| == |a| && b == a[cur := b[cur]]
    requires SameShape(a[cur], b[cur]) && MembersIncluded(a[cur], b[cur])
    ensures Extends(a, b)
  {
    forall x | 0 <= x < |a| ensures SameShape(a[x], b[x]) && MembersIncluded(a[x], b[x]) {
      if x != cur {
        assert b[x] == a[x];
      }
    }
  }

  /** What the loop's last visited scope says about how the loop ended. */
  predicate EndsAt(a: seq<Scope>, last: ScopeId, end: ImportEnd)
    requires last < |a|
  {
    match end
    case ReachedRoot => a[last].baseTypeName == ""
    case Cycle(c) => BaseLink(a, last, c)
    case Unresolved(n) => n != "" && a[last].baseTypeName == n && a[last].baseType.None?
  }

  /**
   * The scopes the loop of importExportedNames visits from `s`, having already
   * visited `visited`, each reached from the previous one by a base link. The
   * loop's copying never changes a base-type name or base type (`Merge` keeps
   * the shape), so the path depends on the shapes alone. The measure is the
   * number of arena scopes not yet visited.
   */
  function BaseChain(a: seq<Scope>, s: ScopeId, visited: seq<ScopeId>): (r: Path)
    requires WellFormed(a) && s < |a|
    requires Distinct(visited) && AllBelow(visited, |a|)
    requires |visited| > 0 ==> BaseLink(a, visited[|visited| - 1], s)
    decreases |a| - |visited|
    ensures Distinct(r.visited) && AllBelow(r.visited, |a|)
    ensures |visited| <= |r.visited| && r.visited[..|visited|] == visited
    ensures s in visited <==> r.visited == visited
    ensures s !in visited ==> r.visited[|visited|] == s
    ensures forall i :: |visited| <= i < |r.visited| - 1 ==> BaseLink(a, r.visited[i], r.visited[i + 1])
    ensures |r.visited| > 0 ==> EndsAt(a, r.visited[|r.visited| - 1], r.end)
    ensures r.end.Cycle? ==> r.end.scope in r.visited
  {
    if s in visited then
      Path(visited, Cycle(s))
    else
      var seen := visited + [s];
      assert seen[|visited|] == s && seen[..|visited|] == visited;
      DistinctBounded(seen, |a|);
      if a[s].baseTypeName == "" then
        Path(seen, ReachedRoot)
      else if a[s].baseType.Some? then
        assert LinksWellFormed(a, s);
        var rest := BaseChain(a, a[s].baseType.value, seen);
        assert rest.visited[..|visited|] == seen[..|visited|];
        rest
      else
        Path(seen, Unresolved(a[s].baseTypeName))
  }

  /**
   * The loop's copying: the members of each scope in `xs`, in order and as
   * they stand when reached, are inserted into scope `cur`. Only scope `cur`
   * changes, and only by gaining members.
   */
  function CopyAll(a: seq<Scope>, cur: ScopeId, xs: seq<ScopeId>): (r: seq<Scope>)
    requires WellFormed(a) && cur < |a| && AllBelow(xs, |a|)
    decreases |xs|
    ensures WellFormed(r) && |r| == |a| && r == a[cur := r[cur]]
    ensures SameShape(a[cur], r[cur]) && MembersIncluded(a[cur], r[cur])
  {
    if xs == [] then
      a
    else
      var b := CopyMembers(a, cur, xs[0]);
      var r := CopyAll(b, cur, xs[1..]);
      MembersIncludedTransitive(a[cur], b[cur], r[cur]);
      r
  }

  /** After the copying, scope `cur` holds every property and method overload of every scope in `xs`. */
  lemma {:induction false} CopyAllInherits(a: seq<Scope>, cur: ScopeId, xs: seq<ScopeId>)
    requires WellFormed(a) && cur < |a| && AllBelow(xs, |a|)
    decreases |xs|
    ensures forall i :: 0 <= i < |xs| ==> Inherits(a[xs[i]], CopyAll(a, cur, xs)[cur])
  {
    if xs != [] {
      var b := CopyMembers(a, cur, xs[0]);
      var r := CopyAll(b, cur, xs[1..]);
      assert r == CopyAll(a, cur, xs);
      CopyAllInherits(b, cur, xs[1..]);
      ReplaceExtends(a, b, cur);
      InheritsInto(a[xs[0]], b[cur], r[cur]);
      forall i | 1 <= i < |xs| ensures Inherits(a[xs[i]], r[cur]) {
        assert xs[1..][i - 1] == xs[i];
        InheritsFrom(a[xs[i]], b[xs[i]], r[cur]);
      }
    }
  }

  /** Latch the failure, record `name` as an unknown import, and emit `warnings`. */
  function Fail(v: Visitor, warnings: seq<Warning>, name: string): (r: Visitor)
    requires Valid(v) && v.warnings <= warnings
    ensures Valid(r) && Grows(v, r)
    ensures r == v.(warnings := warnings, unknownImports := v.unknownImports + {name}, visitFailed := true)
  {
    v.(warnings := warnings, unknownImports := v.unknownImports + {name}, visitFailed := true)
  }

  /**
   * What the loop's exit records, with the scope names read from `r`'s arena:
   * reaching a scope without a base-type name records nothing; a cycle
   * records the repeated scope's internal name and, when enabled, warns
   * with the visited scopes' base-type names; an unresolved base records and
   * reports its name. Both failures latch `visitFailed`.
   */
  predicate ImportReported(v: Visitor, p: Path, r: Visitor)
    requires AllBelow(p.visited, |r.arena|)
    requires p.end.Cycle? ==> p.end.scope < |r.arena|
  {
    && r.visitFailed == (v.visitFailed || !p.end.ReachedRoot?)
    && match p.end
       case ReachedRoot =>
         r.unknownImports == v.unknownImports && r.warnings == v.warnings
       case Cycle(c) =>
         && r.unknownImports == v.unknownImports + {r.arena[c].internalName}
         && r.warnings == v.warnings +
              (if v.config.warnInheritanceCycle
               then [InheritanceCycle(r.arena[c].internalName, BaseNames(r.arena, p.visited))]
               else [])
       case Unresolved(n) =>
         && r.unknownImports == v.unknownImports + {n}
         && r.warnings == v.warnings + [BaseTypeNotFound(n)]
  }

  /** The loop's exits, as `ImportReported` describes them; reaching a root changes nothing. */
  function Report(v: Visitor, p: Path): (r: Visitor)
    requires Valid(v) && AllBelow(p.visited, |v.arena|)
    requires p.end.Cycle? ==> p.end.scope < |v.arena|
    ensures Valid(r) && Grows(v, r)
    ensures r == v.(unknownImports := r.unknownImports, visitFailed := r.visitFailed, warnings := r.warnings)
    ensures ImportReported(v, p, r)
    ensures p.end.ReachedRoot? ==> r == v
  {
    match p.end
    case ReachedRoot =>
      v
    case Cycle(c) =>
      var name := v.arena[c].internalName;
      var warnings := if v.config.warnInheritanceCycle
                      then [InheritanceCycle(name, BaseNames(v.arena, p.visited))]
                      else [];
      Fail(v, v.warnings + warnings, name)
    case Unresolved(n) =>
      Fail(v, v.warnings + [BaseTypeNotFound(n)], n)
  }

  /** The walk reads only the scopes' shapes, so growing members does not change it. */
  lemma {:induction false} BaseChainShape(a: seq<Scope>, b: seq<Scope>, s: ScopeId, visited: seq<ScopeId>)
    requires WellFormed(a) && WellFormed(b) && Extends(a, b) && |b| == |a| && s < |a|
    requires Distinct(visited) && AllBelow(visited, |a|)
    requires |visited| > 0 ==> BaseLink(a, visited[|visited| - 1], s)
    decreases |a| - |visited|
    ensures BaseChain(a, s, visited) == BaseChain(b, s, visited)
  {
    assert SameShape(a[s], b[s]);
    if |visited| > 0 {
      assert SameShape(a[visited[|visited| - 1]], b[visited[|visited| - 1]]);
    }
    if s !in visited && a[s].baseTypeName != "" && a[s].baseType.Some? {
      var seen := visited + [s];
      assert seen[|visited|] == s && seen[..|visited|] == visited;
      DistinctBounded(seen, |a|);
      assert LinksWellFormed(a, s);
      BaseChainShape(a, b, a[s].baseType.value, seen);
    }
  }

  /**
   * importExportedNames(scope): the loop visits the base chain from `s`, every
   * visited scope's members end up in the current scope, no other scope
   * changes, and the exit is reported: failure is latched, and the cycle's
   * scope or the unresolved name recorded and warned about, exactly when the
   * chain does not end at a scope without a base-type name.
   */
  function ImportExportedNames(v: Visitor, s: ScopeId): (r: ImportRun)
    requires Valid(v) && s < |v.arena|
    ensures Valid(r.state) && Grows(v, r.state) && |r.state.arena| == |v.arena|
    ensures r.state == v.(arena := r.state.arena, unknownImports := r.state.unknownImports,
                          visitFailed := r.state.visitFailed, warnings := r.state.warnings)
    ensures forall i :: 0 <= i < |v.arena| && i != v.currentScope ==> r.state.arena[i] == v.arena[i]
    ensures Path(r.visited, r.end) == BaseChain(v.arena, s, []) && r.visited[0] == s
    ensures forall i :: 0 <= i < |r.visited| ==> Inherits(v.arena[r.visited[i]], Current(r.state))
    ensures ImportReported(v, Path(r.visited, r.end), r.state)
  {
    var path := BaseChain(v.arena, s, []);
    var arena := CopyAll(v.arena, v.currentScope, path.visited);
    CopyAllInherits(v.arena, v.currentScope, path.visited);
    ReplaceExtends(v.arena, arena, v.currentScope);
    ImportRun(Report(v.(arena := arena), path), path.visited, path.end)
  }
}
