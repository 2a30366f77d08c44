/** The types a service method needs: everything its parameter and return types lead to. */
module RelatedTypes {
  import opened Ordering
  import opened Text
  import opened Wrappers

  datatype Type = Type(name: string, items: seq<string>, properties: map<string, string>, enums: seq<string>)

  /** One provider's metadata; it, its spec and each declared type may be missing. */
  datatype Metadata = Missing | NoSpec | Spec(types: seq<Option<Type>>)

  datatype Method = Method(parameterTypes: seq<string>, returnType: string)

  type TypeMap = map<string, Type>

  // ---------------------------------------------------------------- declarations

  /** The usable declarations of one provider, in order. */
  function Usable(ts: seq<Option<Type>>): seq<Type>
  {
    if ts == [] then []
    else
      var last := ts[|ts| - 1];
      Usable(ts[..|ts| - 1]) + if last.Some? && last.value.name != "" then [last.value] else []
  }

  function Declarations(list: seq<Metadata>): seq<Type>
  {
    if list == [] then []
    else
      var last := list[|list| - 1];
      Declarations(list[..|list| - 1]) + if last.Spec? then Usable(last.types) else []
  }

  /** Declaration k is the first of its name. */
  predicate FirstOf(ds: seq<Type>, k: nat)
  {
    k < |ds| && forall j :: 0 <= j < k ==> ds[j].name != ds[k].name
  }

  predicate Declares(ds: seq<Type>, name: string)
  {
    exists j :: 0 <= j < |ds| && ds[j].name == name
  }

  /** The map holds exactly the declared names, each with its first declaration. */
  ghost predicate HoldsFirst(m: TypeMap, ds: seq<Type>)
  {
    && (forall name :: name in m <==> Declares(ds, name))
    && (forall k: nat :: FirstOf(ds, k) ==> m[ds[k].name] == ds[k])
    && (forall name :: name in m ==> m[name].name == name)
  }

  lemma HoldsOneMore(m: TypeMap, ds: seq<Type>, t: Type)
    requires HoldsFirst(m, ds)
    ensures HoldsFirst(if t.name in m then m else m[t.name := t], ds + [t])
  {
    var m', ds' := if t.name in m then m else m[t.name := t], ds + [t];
    assert ds'[|ds|] == t;
    forall name ensures name in m' <==> Declares(ds', name) {
      if Declares(ds, name) {
        var j :| 0 <= j < |ds| && ds[j].name == name;
        assert ds'[j].name == name;
      }
    }
    forall k: nat | FirstOf(ds', k) ensures m'[ds'[k].name] == ds'[k] {
      if k < |ds| {
        assert forall j :: 0 <= j < k ==> ds[j] == ds'[j];
        assert FirstOf(ds, k);
      } else {
        assert forall j :: 0 <= j < |ds| ==> ds[j] == ds'[j];
      }
    }
  }

  /** Keep the first declaration of each name. */
  function FirstDeclared(ds: seq<Type>): TypeMap
  {
    if ds == [] then map[]
    else
      var m, t := FirstDeclared(ds[..|ds| - 1]), ds[|ds| - 1];
      if t.name in m then m else m[t.name := t]
  }

  lemma {:induction false} FirstDeclaredHoldsFirst(ds: seq<Type>)
    ensures HoldsFirst(FirstDeclared(ds), ds)
  {
    if ds != [] {
      var n := |ds| - 1;
      FirstDeclaredHoldsFirst(ds[..n]);
      HoldsOneMore(FirstDeclared(ds[..n]), ds[..n], ds[n]);
      assert ds[..n] + [ds[n]] == ds;
    }
  }

  lemma FirstDeclaredStep(ds: seq<Type>, t: Type)
    ensures var m := FirstDeclared(ds); FirstDeclared(ds + [t]) == if t.name in m then m else m[t.name := t]
  {
    var next := ds + [t];
    assert next[..|next| - 1] == ds;
  }

  lemma UsableStep(ds: seq<Type>, ts: seq<Option<Type>>, i: nat)
    requires i < |ts|
    ensures if ts[i].Some? && ts[i].value.name != ""
            then ds + Usable(ts[..i + 1]) == ds + Usable(ts[..i]) + [ts[i].value]
            else Usable(ts[..i + 1]) == Usable(ts[..i])
  {
    assert ts[..i + 1][..i] == ts[..i];
  }

  method AddTypes(m: TypeMap, ts: seq<Option<Type>>, ghost ds: seq<Type>) returns (m': TypeMap)
    requires m == FirstDeclared(ds)
    ensures m' == FirstDeclared(ds + Usable(ts))
  {
    m' := m;
    assert ts[..0] == [] && ds + [] == ds;
    for i := 0 to |ts|
      invariant m' == FirstDeclared(ds + Usable(ts[..i]))
    {
      UsableStep(ds, ts, i);
      if ts[i].Some? && ts[i].value.name != "" {
        var t := ts[i].value;
        FirstDeclaredStep(ds + Usable(ts[..i]), t);
        if t.name !in m' {
          m' := m'[t.name := t];
        }
      }
    }
    assert ts[..|ts|] == ts;
  }

  method BuildTypeMap(list: seq<Metadata>) returns (m: TypeMap)
    ensures m == FirstDeclared(Declarations(list))
    ensures HoldsFirst(m, Declarations(list))
  {
    m := map[];
    for i := 0 to |list|
      invariant m == FirstDeclared(Declarations(list[..i]))
    {
      assert list[..i + 1][..i] == list[..i];
      if list[i].Spec? {
        m := AddTypes(m, list[i].types, Declarations(list[..i]));
      } else {
        assert Declarations(list[..i + 1]) == Declarations(list[..i]);
      }
    }
    assert list[..|list|] == list;
    FirstDeclaredHoldsFirst(Declarations(list));
  }

  // ---------------------------------------------------------------- reachability

  /** A name the walk follows. */
  predicate Known(m: TypeMap, name: string)
  {
    !Blank(name) && name in m
  }

  predicate Mentions(t: Type, name: string)
  {
    name in t.items || name in t.properties.Values
  }

  predicate Link(m: TypeMap, a: string, b: string)
  {
    Known(m, a) && Known(m, b) && Mentions(m[a], b)
  }

  predicate IsPath(m: TypeMap, p: seq<string>)
  {
    && p != [] && Known(m, p[0])
    && forall i :: 0 <= i < |p| - 1 ==> Link(m, p[i], p[i + 1])
  }

  ghost predicate Leads(m: TypeMap, p: seq<string>, a: string, b: string)
  {
    IsPath(m, p) && p[0] == a && p[|p| - 1] == b
  }

  ghost predicate Reaches(m: TypeMap, a: string, b: string)
  {
    exists p :: Leads(m, p, a, b)
  }

  lemma ReachesSelf(m: TypeMap, a: string)
    requires Known(m, a)
    ensures Reaches(m, a, a)
  {
    assert Leads(m, [a], a, a);
  }

  lemma ReachesThrough(m: TypeMap, a: string, b: string, c: string)
    requires Link(m, a, b) && Reaches(m, b, c)
    ensures Reaches(m, a, c)
  {
    var p :| Leads(m, p, b, c);
    var q := [a] + p;
    forall i | 0 <= i < |q| - 1 ensures Link(m, q[i], q[i + 1]) {
      if i > 0 {
        assert Link(m, p[i - 1], p[i]);
      }
    }
    assert Leads(m, q, a, c);
  }

  /** Everything a visited type mentions is visited too. */
  predicate Expanded(m: TypeMap, name: string, visited: set<string>)
  {
    Known(m, name) ==>
      && (forall i :: 0 <= i < |m[name].items| && Known(m, m[name].items[i]) ==> m[name].items[i] in visited)
      && (forall k :: k in m[name].properties && Known(m, m[name].properties[k]) ==> m[name].properties[k] in visited)
  }

  lemma LinkedIsVisited(m: TypeMap, a: string, b: string, visited: set<string>)
    requires Link(m, a, b) && Expanded(m, a, visited)
    ensures b in visited
  {
    if b in m[a].properties.Values {
      var k :| k in m[a].properties && m[a].properties[k] == b;
    }
  }

  /** A closed set of visited types contains all that can be reached from it. */
  lemma {:induction false} ClosedContainsReach(m: TypeMap, p: seq<string>, visited: set<string>)
    requires IsPath(m, p) && p[0] in visited
    requires forall n :: n in visited ==> Expanded(m, n, visited)
    ensures p[|p| - 1] in visited
  {
    if |p| > 1 {
      var front := p[..|p| - 1];
      ClosedContainsReach(m, front, visited);
      LinkedIsVisited(m, p[|p| - 2], p[|p| - 1], visited);
    }
  }

  // --------------------------------------------------------------------- the walk

  /** What one walk may add: only what its start reaches, each fully expanded. */
  ghost predicate Grows(m: TypeMap, start: string, before: set<string>, after: set<string>)
  {
    && before <= after <= m.Keys
    && (forall n :: n in after && n !in before ==> Reaches(m, start, n))
    && (forall n :: n in after && n !in before ==> Expanded(m, n, after))
  }

  /** The same with the start itself added and not yet expanded. */
  ghost predicate Growing(m: TypeMap, start: string, before: set<string>, after: set<string>)
  {
    && before + {start} <= after <= m.Keys
    && (forall n :: n in after && n !in before ==> Reaches(m, start, n))
    && (forall n :: n in after && n !in before && n != start ==> Expanded(m, n, after))
  }

  lemma ExpandedGrows(m: TypeMap, n: string, small: set<string>, large: set<string>)
    requires Expanded(m, n, small) && small <= large
    ensures Expanded(m, n, large)
  {
  }

  lemma GrowingStep(m: TypeMap, start: string, next: string, before: set<string>, mid: set<string>, after: set<string>)
    requires Growing(m, start, before, mid) && Grows(m, next, mid, after)
    requires Known(m, next) ==> Link(m, start, next)
    requires !Known(m, next) ==> after == mid
    ensures Growing(m, start, before, after)
  {
    forall n | n in after && n !in before ensures Reaches(m, start, n) {
      if n !in mid {
        ReachesThrough(m, start, next, n);
      }
    }
    forall n | n in after && n !in before && n != start ensures Expanded(m, n, after) {
      if n in mid {
        ExpandedGrows(m, n, mid, after);
      }
    }
  }

  class Walk {
    const typesByName: TypeMap
    var visited: set<string>

    constructor (m: TypeMap)
      ensures typesByName == m && visited == {}
    {
      typesByName := m;
      visited := {};
    }

    method CollectRelatedTypes(typeName: string)
      requires visited <= typesByName.Keys
      modifies this
      ensures Grows(typesByName, typeName, old(visited), visited)
      ensures if Known(typesByName, typeName) then typeName in visited else visited == old(visited)
      decreases typesByName.Keys - visited, 1
    {
      if Blank(typeName) || typeName !in typesByName || typeName in visited {
        return;
      }
      visited := visited + {typeName};
      ReachesSelf(typesByName, typeName);
      CollectItems(typeName, old(visited));
      CollectProperties(typeName, old(visited));
    }

    method CollectItems(typeName: string, ghost before: set<string>)
      requires Known(typesByName, typeName) && Growing(typesByName, typeName, before, visited)
      modifies this
      ensures old(visited) <= visited && Growing(typesByName, typeName, before, visited)
      ensures forall i :: 0 <= i < |typesByName[typeName].items| && Known(typesByName, typesByName[typeName].items[i])
                ==> typesByName[typeName].items[i] in visited
      decreases typesByName.Keys - visited, 2
    {
      var items := typesByName[typeName].items;
      for k := 0 to |items|
        invariant old(visited) <= visited && Growing(typesByName, typeName, before, visited)
        invariant forall i :: 0 <= i < k && Known(typesByName, items[i]) ==> items[i] in visited
      {
        ghost var mid := visited;
        CollectRelatedTypes(items[k]);
        GrowingStep(typesByName, typeName, items[k], before, mid, visited);
      }
    }

    method CollectProperties(typeName: string, ghost before: set<string>)
      requires Known(typesByName, typeName) && Growing(typesByName, typeName, before, visited)
      modifies this
      ensures old(visited) <= visited && Growing(typesByName, typeName, before, visited)
      ensures forall k ::
        k in typesByName[typeName].properties && Known(typesByName, typesByName[typeName].properties[k])
        ==> typesByName[typeName].properties[k] in visited
      decreases typesByName.Keys - visited, 2
    {
      var properties := typesByName[typeName].properties;
      var rest := properties.Keys;
      while rest != {}
        invariant rest <= properties.Keys
        invariant old(visited) <= visited && Growing(typesByName, typeName, before, visited)
        invariant forall k ::
          k in properties && k !in rest && Known(typesByName, properties[k]) ==> properties[k] in visited
        decreases |rest|
      {
        var k :| k in rest;
        ghost var mid := visited;
        CollectRelatedTypes(properties[k]);
        assert properties[k] in properties.Values;
        GrowingStep(typesByName, typeName, properties[k], before, mid, visited);
        rest := rest - {k};
      }
    }
  }

  // ---------------------------------------------------------------- the response

  datatype TypeResp =
    TypeResp(typeName: string, properties: map<string, string>, items: seq<string>, enums: seq<string>)

  function ToResp(t: Type): TypeResp
  {
    TypeResp(t.name, t.properties, t.items, t.enums)
  }

  function Names(resp: seq<TypeResp>): seq<string>
  {
    seq(|resp|, i requires 0 <= i < |resp| => resp[i].typeName)
  }

  /** Reached from a parameter type or from the return type. */
  ghost predicate Related(m: TypeMap, md: Method, name: string)
  {
    ReachedFrom(m, md.parameterTypes, name) || Reaches(m, md.returnType, name)
  }

  /** The walks so far: everything found is related, closed, and includes these starts. */
  ghost predicate Collected(m: TypeMap, roots: seq<string>, visited: set<string>)
  {
    && visited <= m.Keys
    && (forall n :: n in visited ==> ReachedFrom(m, roots, n) && Expanded(m, n, visited))
    && Started(m, roots, visited)
  }

  predicate Started(m: TypeMap, roots: seq<string>, visited: set<string>)
  {
    forall i :: 0 <= i < |roots| && Known(m, roots[i]) ==> roots[i] in visited
  }

  lemma StartedMore(m: TypeMap, roots: seq<string>, root: string, before: set<string>, after: set<string>)
    requires Started(m, roots, before) && before <= after && (Known(m, root) ==> root in after)
    ensures Started(m, roots + [root], after)
  {
  }

  ghost predicate ReachedFrom(m: TypeMap, roots: seq<string>, name: string)
  {
    exists i :: 0 <= i < |roots| && Reaches(m, roots[i], name)
  }

  lemma ReachedFromMore(m: TypeMap, roots: seq<string>, root: string, name: string)
    ensures ReachedFrom(m, roots + [root], name) <==> ReachedFrom(m, roots, name) || Reaches(m, root, name)
  {
    var more := roots + [root];
    assert more[|roots|] == root;
    if ReachedFrom(m, roots, name) {
      var i :| 0 <= i < |roots| && Reaches(m, roots[i], name);
      assert more[i] == roots[i];
    }
  }

  lemma CollectedOneMore(m: TypeMap, roots: seq<string>, root: string, before: set<string>, after: set<string>)
    requires Collected(m, roots, before) && Grows(m, root, before, after)
    requires Known(m, root) ==> root in after
    ensures Collected(m, roots + [root], after)
  {
    StartedMore(m, roots, root, before, after);
    forall n | n in after ensures ReachedFrom(m, roots + [root], n) && Expanded(m, n, after) {
      ReachedFromMore(m, roots, root, n);
      if n in before {
        ExpandedGrows(m, n, before, after);
      }
    }
  }

  /** Complete walks find exactly what the roots reach. */
  lemma CollectedIsReach(m: TypeMap, roots: seq<string>, visited: set<string>, name: string)
    requires Collected(m, roots, visited)
    ensures name in visited <==> ReachedFrom(m, roots, name)
  {
    if ReachedFrom(m, roots, name) {
      var i :| 0 <= i < |roots| && Reaches(m, roots[i], name);
      var p :| Leads(m, p, roots[i], name);
      ClosedContainsReach(m, p, visited);
    }
  }

  lemma CollectedIsRelated(m: TypeMap, md: Method, visited: set<string>)
    requires Collected(m, md.parameterTypes + [md.returnType], visited)
    ensures forall n :: n in visited <==> Related(m, md, n)
  {
    forall n ensures n in visited <==> Related(m, md, n) {
      CollectedIsReach(m, md.parameterTypes + [md.returnType], visited, n);
      ReachedFromMore(m, md.parameterTypes, md.returnType, n);
    }
  }

  /** One more walk, from one more root. */
  method CollectFrom(walk: Walk, ghost roots: seq<string>, root: string)
    requires Collected(walk.typesByName, roots, walk.visited)
    modifies walk
    ensures Collected(walk.typesByName, roots + [root], walk.visited)
  {
    ghost var before := walk.visited;
    walk.CollectRelatedTypes(root);
    CollectedOneMore(walk.typesByName, roots, root, before, walk.visited);
  }

  method CollectAll(m: TypeMap, md: Method) returns (visited: set<string>)
    ensures forall n :: n in visited <==> Related(m, md, n)
    ensures visited <= m.Keys
  {
    var walk := new Walk(m);
    for i := 0 to |md.parameterTypes|
      invariant walk.typesByName == m && Collected(m, md.parameterTypes[..i], walk.visited)
    {
      CollectFrom(walk, md.parameterTypes[..i], md.parameterTypes[i]);
      assert md.parameterTypes[..i] + [md.parameterTypes[i]] == md.parameterTypes[..i + 1];
    }
    assert md.parameterTypes[..|md.parameterTypes|] == md.parameterTypes;
    CollectFrom(walk, md.parameterTypes, md.returnType);
    visited := walk.visited;
    CollectedIsRelated(m, md, visited);
  }

  /** The elements of a set, in some order, each once. */
  method Elements(names: set<string>) returns (s: seq<string>)
    ensures Distinct(s) && forall n :: n in s <==> n in names
  {
    s := [];
    var rest := names;
    while rest != {}
      invariant rest <= names && Distinct(s)
      invariant forall n :: n in s <==> n in names && n !in rest
      decreases |rest|
    {
      var n :| n in rest;
      s := s + [n];
      rest := rest - {n};
    }
  }

  method Responses(m: TypeMap, names: seq<string>) returns (resp: seq<TypeResp>)
    requires forall n :: n in names ==> n in m && m[n].name == n
    ensures Names(resp) == names
    ensures forall i :: 0 <= i < |resp| ==> resp[i].typeName in m && resp[i] == ToResp(m[resp[i].typeName])
  {
    resp := [];
    for i := 0 to |names|
      invariant Names(resp) == names[..i]
      invariant forall j :: 0 <= j < |resp| ==> resp[j].typeName in m && resp[j] == ToResp(m[resp[j].typeName])
    {
      if names[i] in m {
        resp := resp + [ToResp(m[names[i]])];
      }
    }
  }

  /** The response says all the declaration does. */
  predicate Answers(resp: TypeResp, t: Type)
  {
    resp.typeName == t.name && resp.properties == t.properties && resp.items == t.items && resp.enums == t.enums
  }

  /** The response lists, in increasing order of name and each once, exactly the declared types that
      the method's signature reaches, each as first declared. */
  method BuildRelatedTypes(list: seq<Metadata>, md: Option<Method>) returns (resp: seq<TypeResp>)
    ensures Increasing(Names(resp))
    ensures md.None? ==> resp == []
    ensures var m := FirstDeclared(Declarations(list));
            && HoldsFirst(m, Declarations(list))
            && (md.Some? ==> forall n :: n in Names(resp) <==> Related(m, md.value, n))
            && (forall i :: 0 <= i < |resp| ==> resp[i].typeName in m && Answers(resp[i], m[resp[i].typeName]))
  {
    var typesByName := BuildTypeMap(list);
    if md.None? {
      return [];
    }
    var visited := CollectAll(typesByName, md.value);
    var typeNames := Elements(visited);
    SortDistinct(typeNames);
    SortKeeps(typeNames);
    resp := Responses(typesByName, Sort(typeNames));
  }

  /** Reached types are declared, have a visible name, and their first declaration is the answer. */
  lemma RelatedIsDeclared(list: seq<Metadata>, md: Method, name: string)
    requires Related(FirstDeclared(Declarations(list)), md, name)
    ensures !Blank(name) && Declares(Declarations(list), name)
  {
    var m := FirstDeclared(Declarations(list));
    FirstDeclaredHoldsFirst(Declarations(list));
    if Reaches(m, md.returnType, name) {
      ReachedIsKnown(m, md.returnType, name);
    } else {
      var i :| 0 <= i < |md.parameterTypes| && Reaches(m, md.parameterTypes[i], name);
      ReachedIsKnown(m, md.parameterTypes[i], name);
    }
  }

  lemma ReachedIsKnown(m: TypeMap, a: string, b: string)
    requires Reaches(m, a, b)
    ensures Known(m, b)
  {
    var p :| Leads(m, p, a, b);
    if |p| > 1 {
      assert Link(m, p[|p| - 2], p[|p| - 1]);
    }
  }

  // ------------------------------------------------------------- where a type comes from

  /** The i-th provider declares the type as its j-th. */
  predicate DeclaredAt(list: seq<Metadata>, i: nat, j: nat, t: Type)
  {
    i < |list| && list[i].Spec? && j < |list[i].types| && list[i].types[j] == Some(t) && t.name != ""
  }

  /** No provider before, and nothing before it at the same provider, declares that name. */
  ghost predicate FirstDeclaredAt(list: seq<Metadata>, i: nat, j: nat, t: Type)
  {
    && DeclaredAt(list, i, j, t)
    && forall i': nat, j': nat, u :: DeclaredAt(list, i', j', u) && (i' < i || (i' == i && j' < j)) ==> u.name != t.name
  }

  lemma {:induction false} UsableAre(ts: seq<Option<Type>>, t: Type)
    ensures t in Usable(ts) <==> t.name != "" && Some(t) in ts
  {
    if ts != [] {
      var n := |ts| - 1;
      UsableAre(ts[..n], t);
      assert ts == ts[..n] + [ts[n]];
    }
  }

  lemma {:induction false} UsablePrefix(ts: seq<Option<Type>>, j: nat)
    requires j < |ts| && ts[j].Some? && ts[j].value.name != ""
    ensures Usable(ts[..j]) + [ts[j].value] <= Usable(ts)
    decreases |ts|
  {
    var n := |ts| - 1;
    if j < n {
      assert ts[..n][..j] == ts[..j];
      UsablePrefix(ts[..n], j);
    } else {
      assert ts[..j] == ts[..n];
    }
  }

  lemma {:induction false} DeclarationsPrefix(list: seq<Metadata>, i: nat)
    requires i < |list| && list[i].Spec?
    ensures Declarations(list[..i]) + Usable(list[i].types) <= Declarations(list)
    decreases |list|
  {
    var n := |list| - 1;
    if i < n {
      assert list[..n][..i] == list[..i];
      DeclarationsPrefix(list[..n], i);
    } else {
      assert list[..i] == list[..n];
    }
  }

  ghost predicate Declared(list: seq<Metadata>, t: Type)
  {
    exists i: nat, j: nat :: DeclaredAt(list, i, j, t)
  }

  /** The last provider adds its usable types. */
  lemma DeclaredByLast(list: seq<Metadata>, t: Type)
    requires list != []
    ensures var n := |list| - 1;
            Declared(list, t) <==> Declared(list[..n], t) || (list[n].Spec? && t.name != "" && Some(t) in list[n].types)
  {
    var n := |list| - 1;
    if i: nat, j: nat :| DeclaredAt(list, i, j, t) {
      assert i < n ==> DeclaredAt(list[..n], i, j, t);
    }
    if i: nat, j: nat :| DeclaredAt(list[..n], i, j, t) {
      assert DeclaredAt(list, i, j, t);
    }
    if list[n].Spec? && t.name != "" && Some(t) in list[n].types {
      var j: nat :| j < |list[n].types| && list[n].types[j] == Some(t);
      assert DeclaredAt(list, n, j, t);
    }
  }

  /** The declarations are exactly the named types of the providers. */
  lemma {:induction false} DeclarationsAre(list: seq<Metadata>, t: Type)
    ensures t in Declarations(list) <==> Declared(list, t)
  {
    if list != [] {
      var n := |list| - 1;
      DeclarationsAre(list[..n], t);
      DeclaredByLast(list, t);
      if list[n].Spec? {
        UsableAre(list[n].types, t);
      }
    }
  }

  /** What the map holds for a name is what the first provider that declares it says first. */
  lemma FirstIsHeld(list: seq<Metadata>, i: nat, j: nat, t: Type)
    requires FirstDeclaredAt(list, i, j, t)
    ensures var m := FirstDeclared(Declarations(list)); t.name in m && m[t.name] == t
  {
    var ds, ts := Declarations(list), list[i].types;
    var before := Declarations(list[..i]) + Usable(ts[..j]);
    DeclarationsPrefix(list, i);
    UsablePrefix(ts, j);
    assert before + [t] <= ds;
    forall k | 0 <= k < |before| ensures before[k].name != t.name {
      EarlierIsOther(list, i, j, t, before[k]);
    }
    FirstDeclaredHoldsFirst(ds);
    assert forall k :: 0 <= k < |before| ==> ds[k] == before[k];
    assert ds[|before|] == t && FirstOf(ds, |before|);
  }

  lemma EarlierIsOther(list: seq<Metadata>, i: nat, j: nat, t: Type, u: Type)
    requires FirstDeclaredAt(list, i, j, t)
    requires u in Declarations(list[..i]) || u in Usable(list[i].types[..j])
    ensures u.name != t.name
  {
    if u in Declarations(list[..i]) {
      DeclarationsAre(list[..i], u);
      var i': nat, j': nat :| DeclaredAt(list[..i], i', j', u);
      assert DeclaredAt(list, i', j', u);
    } else {
      UsableAre(list[i].types[..j], u);
      var j': nat :| j' < j && list[i].types[j'] == Some(u);
      assert DeclaredAt(list, i, j', u);
    }
  }
}
