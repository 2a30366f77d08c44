/**
 The component start-up order: a dependency graph, Kahn's sort with an alphabetical
 frontier, and the depth-first search that names a dependency cycle.
 */
module DependencyGraph {
  import opened Ordering
  import opened Wrappers

  /** What the graph reads of a component: Type() and RequiredDependencies(). */
  datatype Component = Component(typ: string, deps: seq<string>)

  datatype Outcome =
    | Ordered(components: seq<Component>)
    | MissingDependency(component: string, dependency: string)
    | CircularDependency(cycle: seq<string>)

  type Components = map<string, Component>

  // ---------------------------------------------------------------- vocabulary

  predicate DependsOn(cs: Components, a: string, b: string)
  {
    a in cs && b in cs[a].deps
  }

  ghost predicate AllDeclared(cs: Components)
  {
    forall t, d :: DependsOn(cs, t, d) ==> d in cs
  }

  /** Each element depends on the next, and the last on the first; elements may repeat. */
  ghost predicate ClosedWalk(cs: Components, w: seq<string>)
  {
    && w != []
    && (forall i :: 0 <= i < |w| - 1 ==> DependsOn(cs, w[i], w[i + 1]))
    && DependsOn(cs, w[|w| - 1], w[0])
  }

  ghost predicate Acyclic(cs: Components)
  {
    forall w :: !ClosedWalk(cs, w)
  }

  ghost predicate SimpleCycle(cs: Components, w: seq<string>)
  {
    ClosedWalk(cs, w) && Distinct(w)
  }

  /** Every dependency of every listed component is listed before it. */
  ghost predicate DepsFirst(cs: Components, o: seq<string>)
  {
    forall i, d :: 0 <= i < |o| && DependsOn(cs, o[i], d) ==> d in o[..i]
  }

  /** A start-up order: every component once, dependencies first. */
  ghost predicate IsOrder(cs: Components, o: seq<string>)
  {
    && Distinct(o)
    && (forall t :: t in o <==> t in cs)
    && DepsFirst(cs, o)
  }

  /** Lexicographic comparison of orders, name by name. */
  ghost predicate LexLeq(a: seq<string>, b: seq<string>)
  {
    a == b || exists k :: 0 <= k < |a| && k < |b| && a[..k] == b[..k] && Less(a[k], b[k])
  }

  ghost predicate IsLeastOrder(cs: Components, o: seq<string>)
  {
    IsOrder(cs, o) && forall p :: IsOrder(cs, p) ==> LexLeq(o, p)
  }

  function Names(cs: seq<Component>): seq<string>
  {
    seq(|cs|, i requires 0 <= i < |cs| => cs[i].typ)
  }

  // ------------------------------------------------- orders exclude cycles

  ghost function Position(o: seq<string>, t: string): (i: nat)
    requires t in o
    ensures i < |o| && o[i] == t
  {
    var i :| 0 <= i < |o| && o[i] == t;
    i
  }

  lemma DependencyEarlier(cs: Components, o: seq<string>, a: string, b: string)
    requires IsOrder(cs, o) && DependsOn(cs, a, b)
    ensures a in o && b in o && Position(o, b) < Position(o, a)
  {
    var i := Position(o, a);
    assert b in o[..i];
    var j :| 0 <= j < i && o[j] == b;
    assert Position(o, b) == j;
  }

  lemma {:induction false} WalkDescends(cs: Components, o: seq<string>, w: seq<string>, i: nat)
    requires IsOrder(cs, o) && ClosedWalk(cs, w) && i < |w|
    ensures w[0] in o && w[i] in o && Position(o, w[i]) + i <= Position(o, w[0])
  {
    if i > 0 {
      WalkDescends(cs, o, w, i - 1);
      DependencyEarlier(cs, o, w[i - 1], w[i]);
    }
  }

  lemma OrderImpliesAcyclic(cs: Components, o: seq<string>)
    requires IsOrder(cs, o)
    ensures Acyclic(cs)
  {
    forall w ensures !ClosedWalk(cs, w) {
      if ClosedWalk(cs, w) {
        WalkDescends(cs, o, w, |w| - 1);
        DependencyEarlier(cs, o, w[|w| - 1], w[0]);
        assert false;
      }
    }
  }

  /** A non-empty set of components each waiting for another of the set. */
  ghost predicate Stuck(cs: Components, waiting: set<string>)
  {
    waiting != {} && forall t :: t in waiting ==> WaitsWithin(cs, waiting, t)
  }

  ghost predicate WaitsWithin(cs: Components, waiting: set<string>, t: string)
  {
    exists d :: d in waiting && DependsOn(cs, t, d)
  }

  lemma {:induction false} StuckDescends(cs: Components, o: seq<string>, waiting: set<string>, t: string)
    requires IsOrder(cs, o) && Stuck(cs, waiting)
    requires t in waiting && t in o
    ensures false
    decreases Position(o, t)
  {
    assert WaitsWithin(cs, waiting, t);
    var d :| d in waiting && DependsOn(cs, t, d);
    DependencyEarlier(cs, o, t, d);
    StuckDescends(cs, o, waiting, d);
  }

  lemma StuckHasNoOrder(cs: Components, waiting: set<string>)
    requires Stuck(cs, waiting)
    ensures forall o :: !IsOrder(cs, o)
  {
    forall o ensures !IsOrder(cs, o) {
      if IsOrder(cs, o) {
        var t :| t in waiting;
        assert WaitsWithin(cs, waiting, t);
        StuckDescends(cs, o, waiting, t);
      }
    }
  }

  // ------------------------------------------- the greedy order is the least

  ghost predicate Ready(cs: Components, done: seq<string>, t: string)
  {
    t in cs && t !in done && forall d :: d in cs[t].deps ==> d in done
  }

  /** At every position, the alphabetically first of the components ready there. */
  ghost predicate Greedy(cs: Components, o: seq<string>)
  {
    forall i, t :: 0 <= i < |o| && Ready(cs, o[..i], t) ==> Leq(o[i], t)
  }

  lemma {:induction false} FirstDifference(a: seq<string>, b: seq<string>) returns (k: nat)
    requires |a| == |b| && a != b
    ensures k < |a| && a[..k] == b[..k] && a[k] != b[k]
  {
    if a[0] != b[0] {
      k := 0;
    } else {
      assert a == [a[0]] + a[1..] && b == [b[0]] + b[1..];
      k := FirstDifference(a[1..], b[1..]);
      assert a[..k + 1] == [a[0]] + a[1..][..k];
      assert b[..k + 1] == [b[0]] + b[1..][..k];
      k := k + 1;
    }
  }

  lemma SameElementsSameMultiset<T>(a: seq<T>, b: seq<T>)
    requires Distinct(a) && Distinct(b)
    requires forall t :: t in a <==> t in b
    ensures multiset(a) == multiset(b)
    ensures |a| == |b|
  {
    DistinctMultiset(a);
    DistinctMultiset(b);
    forall t ensures multiset(a)[t] == multiset(b)[t] {
      assert t in a <==> t in multiset(a);
      assert t in b <==> t in multiset(b);
    }
    assert multiset(a) == multiset(b);
    assert |multiset(a)| == |a| && |multiset(b)| == |b|;
  }

  lemma GreedyIsLeast(cs: Components, o: seq<string>)
    requires IsOrder(cs, o) && Greedy(cs, o)
    ensures IsLeastOrder(cs, o)
  {
    forall p | IsOrder(cs, p) ensures LexLeq(o, p) {
      SameElementsSameMultiset(o, p);
      if o != p {
        var k := FirstDifference(o, p);
        assert Ready(cs, o[..k], p[k]);
      }
    }
  }

  lemma LexLeqAntisymmetric(a: seq<string>, b: seq<string>)
    requires LexLeq(a, b) && LexLeq(b, a)
    ensures a == b
  {
    if a != b {
      var k :| 0 <= k < |a| && k < |b| && a[..k] == b[..k] && Less(a[k], b[k]);
      var l :| 0 <= l < |b| && l < |a| && b[..l] == a[..l] && Less(b[l], a[l]);
      if k == l {
        LeqAntisymmetric(a[k], b[k]);
      }
    }
  }

  lemma LeastOrderUnique(cs: Components, o: seq<string>, p: seq<string>)
    requires IsLeastOrder(cs, o) && IsLeastOrder(cs, p)
    ensures o == p
  {
    LexLeqAntisymmetric(o, p);
  }

  // ------------------------------------------------------- building the graph

  /** The component map: a later component of a type replaces an earlier one. */
  function ComponentMap(cs: seq<Component>): (m: Components)
    ensures forall t :: t in m ==> m[t].typ == t && m[t] in cs
    ensures forall c :: c in cs ==> c.typ in m
  {
    if cs == [] then map[]
    else
      var last := cs[|cs| - 1];
      assert forall c :: c in cs ==> c in cs[..|cs| - 1] || c == last;
      ComponentMap(cs[..|cs| - 1])[last.typ := last]
  }

  lemma {:induction false} ComponentMapHolds(cs: seq<Component>, c: Component)
    requires Distinct(Names(cs)) && c in cs
    ensures c.typ in ComponentMap(cs) && ComponentMap(cs)[c.typ] == c
  {
    var n := |cs| - 1;
    var last := cs[n];
    if c != last {
      var j :| 0 <= j < |cs| && cs[j] == c;
      assert Names(cs)[j] != Names(cs)[n];
      assert Names(cs[..n]) == Names(cs)[..n];
      assert cs[..n][j] == c;
      ComponentMapHolds(cs[..n], c);
    }
  }

  lemma ComponentMapCovers(a: seq<Component>, b: seq<Component>)
    requires Distinct(Names(b)) && forall c :: c in a ==> c in b
    ensures forall t :: t in ComponentMap(a) ==>
              t in ComponentMap(b) && ComponentMap(a)[t] == ComponentMap(b)[t]
  {
    forall t | t in ComponentMap(a)
      ensures t in ComponentMap(b) && ComponentMap(a)[t] == ComponentMap(b)[t]
    {
      ComponentMapHolds(b, ComponentMap(a)[t]);
    }
  }

  /** The map does not depend on the order in which distinct components are given. */
  lemma ComponentMapPermutation(a: seq<Component>, b: seq<Component>)
    requires Distinct(Names(a)) && Distinct(Names(b))
    requires multiset(a) == multiset(b)
    ensures ComponentMap(a) == ComponentMap(b)
  {
    assert forall c :: c in a <==> c in multiset(a);
    assert forall c :: c in b <==> c in multiset(b);
    ComponentMapCovers(a, b);
    ComponentMapCovers(b, a);
  }

  /** typ, once for each time d occurs in deps. */
  function Repeats(typ: string, deps: seq<string>, d: string): seq<string>
  {
    if deps == [] then []
    else
      var n := |deps| - 1;
      Repeats(typ, deps[..n], d) + if deps[n] == d then [typ] else []
  }

  /** Who depends on d, in list order, once per time the dependency is declared. */
  function Dependents(cs: seq<Component>, d: string): seq<string>
  {
    if cs == [] then []
    else
      var n := |cs| - 1;
      Dependents(cs[..n], d) + Repeats(cs[n].typ, cs[n].deps, d)
  }

  /** How often x occurs in s. */
  ghost function Count(s: seq<string>, x: string): nat
  {
    if s == [] then 0
    else Count(s[..|s| - 1], x) + if s[|s| - 1] == x then 1 else 0
  }

  lemma {:induction false} CountMember(s: seq<string>, x: string)
    ensures Count(s, x) > 0 <==> x in s
  {
    if s != [] {
      CountMember(s[..|s| - 1], x);
      assert s == s[..|s| - 1] + [s[|s| - 1]];
    }
  }

  lemma {:induction false} CountConcat(s: seq<string>, t: seq<string>, x: string)
    ensures Count(s + t, x) == Count(s, x) + Count(t, x)
  {
    if t == [] {
      assert s + t == s;
    } else {
      var n := |t| - 1;
      CountConcat(s, t[..n], x);
      assert (s + t)[..|s + t| - 1] == s + t[..n];
    }
  }

  lemma {:induction false} RepeatsCount(typ: string, deps: seq<string>, d: string, t: string)
    ensures Count(Repeats(typ, deps, d), t) == if t == typ then Count(deps, d) else 0
  {
    if deps != [] {
      var n := |deps| - 1;
      RepeatsCount(typ, deps[..n], d, t);
      CountConcat(Repeats(typ, deps[..n], d), if deps[n] == d then [typ] else [], t);
    }
  }

  lemma {:induction false} DependentsAbsent(cs: seq<Component>, d: string, t: string)
    requires t !in Names(cs)
    ensures Count(Dependents(cs, d), t) == 0
  {
    if cs != [] {
      var n := |cs| - 1;
      assert Names(cs)[n] == cs[n].typ;
      assert Names(cs[..n]) == Names(cs)[..n];
      DependentsAbsent(cs[..n], d, t);
      RepeatsCount(cs[n].typ, cs[n].deps, d, t);
      CountConcat(Dependents(cs[..n], d), Repeats(cs[n].typ, cs[n].deps, d), t);
    }
  }

  lemma {:induction false} DependentsCount(cs: seq<Component>, d: string, t: string)
    requires Distinct(Names(cs))
    ensures Count(Dependents(cs, d), t)
         == if t in ComponentMap(cs) then Count(ComponentMap(cs)[t].deps, d) else 0
  {
    if cs != [] {
      var n := |cs| - 1;
      assert Names(cs[..n]) == Names(cs)[..n];
      DependentsCount(cs[..n], d, t);
      RepeatsCount(cs[n].typ, cs[n].deps, d, t);
      CountConcat(Dependents(cs[..n], d), Repeats(cs[n].typ, cs[n].deps, d), t);
      if cs[n].typ == t {
        assert Names(cs)[n] == t;
        DependentsAbsent(cs[..n], d, t);
      }
    }
  }

  // ------------------------------------------------------------- in-degrees

  /** How many entries of deps are not yet done; an entry listed twice counts twice. */
  ghost function Pending(deps: seq<string>, done: seq<string>): nat
  {
    if deps == [] then 0
    else Pending(deps[..|deps| - 1], done) + if deps[|deps| - 1] in done then 0 else 1
  }

  lemma {:induction false} PendingZero(deps: seq<string>, done: seq<string>)
    ensures Pending(deps, done) == 0 <==> forall d :: d in deps ==> d in done
  {
    if deps != [] {
      PendingZero(deps[..|deps| - 1], done);
      assert deps == deps[..|deps| - 1] + [deps[|deps| - 1]];
    }
  }

  lemma {:induction false} PendingNothingDone(deps: seq<string>)
    ensures Pending(deps, []) == |deps|
  {
    if deps != [] {
      PendingNothingDone(deps[..|deps| - 1]);
    }
  }

  lemma {:induction false} PendingAfter(deps: seq<string>, done: seq<string>, t: string)
    requires t !in done
    ensures Pending(deps, done + [t]) == Pending(deps, done) - Count(deps, t)
  {
    if deps != [] {
      PendingAfter(deps[..|deps| - 1], done, t);
    }
  }

  lemma {:induction false} PrefixCount(s: seq<string>, k: nat, t: string)
    requires k < |s|
    ensures Count(s[..k + 1], t) == Count(s[..k], t) + if s[k] == t then 1 else 0
    ensures Count(s[..k + 1], t) <= Count(s, t)
  {
    assert s[..k + 1][..k] == s[..k];
    CountConcat(s[..k + 1], s[k + 1..], t);
    assert s[..k + 1] + s[k + 1..] == s;
  }

  lemma {:induction false} DistinctCardinality(s: seq<string>)
    requires Distinct(s)
    ensures |set t | t in s| == |s|
  {
    if s != [] {
      var rest := s[1..];
      DistinctCardinality(rest);
      assert (set t | t in s) == (set t | t in rest) + {s[0]};
    }
  }

  // ------------------------------------------------------------ cycle search

  /** cycle is the path being explored, recStack its nodes; every other visited node has
      finished, after all its dependencies. */
  ghost predicate SearchState(cs: Components, visited: set<string>, recStack: set<string>,
                              cycle: seq<string>, finished: seq<string>)
  {
    && Distinct(cycle) && Distinct(finished)
    && (forall t :: t in recStack <==> t in cycle)
    && (forall t :: t in finished <==> t in visited && t !in recStack)
    && recStack <= visited <= cs.Keys
    && (forall i :: 0 <= i < |cycle| - 1 ==> DependsOn(cs, cycle[i], cycle[i + 1]))
    && DepsFirst(cs, finished)
  }

  lemma SearchEnters(cs: Components, visited: set<string>, recStack: set<string>,
                     cycle: seq<string>, finished: seq<string>, node: string)
    requires SearchState(cs, visited, recStack, cycle, finished)
    requires node in cs && node !in visited
    requires cycle != [] ==> DependsOn(cs, cycle[|cycle| - 1], node)
    ensures SearchState(cs, visited + {node}, recStack + {node}, cycle + [node], finished)
  {
  }

  lemma DepsFirstExtends(cs: Components, o: seq<string>, node: string)
    requires DepsFirst(cs, o)
    requires forall d :: DependsOn(cs, node, d) ==> d in o
    ensures DepsFirst(cs, o + [node])
  {
    var after := o + [node];
    forall i, d | 0 <= i < |after| && DependsOn(cs, after[i], d) ensures d in after[..i] {
      if i < |o| {
        assert after[..i] == o[..i];
      } else {
        assert after[..i] == o;
      }
    }
  }

  lemma SearchLeaves(cs: Components, visited: set<string>, recStack: set<string>,
                     cycle: seq<string>, finished: seq<string>)
    requires SearchState(cs, visited, recStack, cycle, finished) && cycle != []
    requires forall d :: DependsOn(cs, cycle[|cycle| - 1], d) ==> d in visited && d !in recStack
    ensures var node := cycle[|cycle| - 1];
            SearchState(cs, visited, recStack - {node}, cycle[..|cycle| - 1], finished + [node])
  {
    var node := cycle[|cycle| - 1];
    assert cycle == cycle[..|cycle| - 1] + [node];
    assert node in cycle && node !in finished;
    forall t ensures t in recStack - {node} <==> t in cycle[..|cycle| - 1] {
    }
    DepsFirstExtends(cs, finished, node);
  }

  /** The variables findCycle's recursive closure shares between its activations. */
  class CycleSearch {
    const components: Components
    var visited: set<string>
    var recStack: set<string>
    var cycle: seq<string>
    /** The nodes whose search has ended without a cycle, in the order they ended. */
    ghost var finished: seq<string>

    constructor (components: Components)
      ensures this.components == components
      ensures visited == {} && cycle == [] && finished == [] && Valid()
    {
      this.components := components;
      visited, recStack, cycle, finished := {}, {}, [], [];
    }

    ghost predicate Valid()
      reads this
    {
      SearchState(components, visited, recStack, cycle, finished)
    }

    /** Searches from a node not seen before; on success, cycle holds a simple cycle. */
    method Dfs(node: string) returns (found: bool)
      requires Valid() && AllDeclared(components)
      requires node in components && node !in visited
      requires cycle != [] ==> DependsOn(components, cycle[|cycle| - 1], node)
      modifies this
      ensures found ==> SimpleCycle(components, cycle)
      ensures !found ==> Valid() && cycle == old(cycle) && recStack == old(recStack)
      ensures !found ==> node in finished && old(visited) <= visited
      decreases components.Keys - visited
    {
      SearchEnters(components, visited, recStack, cycle, finished, node);
      visited := visited + {node};
      recStack := recStack + {node};
      cycle := cycle + [node];
      var deps := components[node].deps;
      var k := 0;
      while k < |deps|
        invariant 0 <= k <= |deps|
        invariant Valid() && cycle == old(cycle) + [node] && recStack == old(recStack) + {node}
        invariant old(visited) <= visited && node in visited
        invariant forall j :: 0 <= j < k ==> deps[j] in visited && deps[j] !in recStack
      {
        var dependency := deps[k];
        assert DependsOn(components, node, dependency);
        if dependency !in visited {
          found := Dfs(dependency);
          if found { return; }
        } else if dependency in recStack {
          CloseCycle(dependency);
          return true;
        }
        k := k + 1;
      }
      SearchLeaves(components, visited, recStack, cycle, finished);
      recStack := recStack - {node};
      cycle := cycle[..|cycle| - 1];
      finished := finished + [node];
      return false;
    }

    /** Cuts the path back to the node the last edge returns to. */
    method CloseCycle(dependency: string)
      requires Valid() && cycle != [] && dependency in recStack
      requires DependsOn(components, cycle[|cycle| - 1], dependency)
      modifies this`cycle
      ensures SimpleCycle(components, cycle)
      ensures cycle[0] == dependency && |cycle| <= |old(cycle)|
      ensures cycle == old(cycle)[|old(cycle)| - |cycle|..]
    {
      var i := 0;
      while cycle[i] != dependency
        invariant 0 <= i < |cycle|
        invariant dependency in cycle[i..]
        decreases |cycle| - i
      {
        assert cycle[i..] == [cycle[i]] + cycle[i + 1..];
        i := i + 1;
      }
      cycle := cycle[i..];
    }
  }

  // ------------------------------------------------------------ Kahn's algorithm

  /** The loop invariant of the sort: in-degrees count what is still missing, the queue
      holds exactly the ready components, and what was emitted is a greedy prefix. */
  ghost predicate SortState(cs: Components, indegree: map<string, int>, queue: seq<string>, result: seq<string>)
  {
    && EmittedState(cs, result)
    && indegree.Keys == cs.Keys
    && (forall t :: t in cs ==> indegree[t] == Pending(cs[t].deps, result))
    && Distinct(queue)
    && (forall t :: t in queue <==> t in cs && t !in result && indegree[t] == 0)
  }

  ghost predicate EmittedState(cs: Components, result: seq<string>)
  {
    && Distinct(result)
    && (forall t :: t in result ==> t in cs)
    && DepsFirst(cs, result)
    && Greedy(cs, result)
  }

  /** current has been emitted and the first k of its dependents have been released. */
  ghost predicate ReleaseState(cs: Components, indegree: map<string, int>, queue: seq<string>,
                               result: seq<string>, current: string, released: seq<string>)
  {
    && indegree.Keys == cs.Keys
    && (forall t :: t in cs ==>
          indegree[t] == Pending(cs[t].deps, result) - Count(released, t))
    && Distinct(queue)
    && (forall t :: t in queue <==> t in cs && t !in result && t != current && indegree[t] == 0)
  }

  /** result holds the components of the emitted names. */
  ghost predicate Emits(cs: Components, result: seq<Component>, emitted: seq<string>)
  {
    && |result| == |emitted|
    && forall i :: 0 <= i < |result| ==>
         result[i].typ in cs && result[i] == cs[result[i].typ] && result[i].typ == emitted[i]
  }

  lemma EmitsExtends(cs: Components, result: seq<Component>, emitted: seq<string>, t: string)
    requires Emits(cs, result, emitted) && t in cs && cs[t].typ == t
    ensures Emits(cs, result + [cs[t]], emitted + [t])
  {
  }

  lemma SortStarts(cs: Components, indegree: map<string, int>, queue: seq<string>)
    requires indegree.Keys == cs.Keys && forall t :: t in cs ==> indegree[t] == |cs[t].deps|
    requires Distinct(queue) && forall t :: t in queue <==> t in indegree && indegree[t] == 0
    ensures SortState(cs, indegree, queue, [])
  {
    forall t | t in cs ensures indegree[t] == Pending(cs[t].deps, []) {
      PendingNothingDone(cs[t].deps);
    }
  }

  lemma QueueSorted(cs: Components, indegree: map<string, int>, queue: seq<string>, result: seq<string>)
    requires SortState(cs, indegree, queue, result)
    ensures SortState(cs, indegree, Sort(queue), result)
    ensures |Sort(queue)| == |queue|
  {
    SortKeeps(queue);
    SortDistinct(queue);
  }

  lemma ReadyIffQueued(cs: Components, indegree: map<string, int>, queue: seq<string>,
                       result: seq<string>, t: string)
    requires SortState(cs, indegree, queue, result)
    ensures Ready(cs, result, t) <==> t in queue
  {
    if t in cs {
      PendingZero(cs[t].deps, result);
    }
  }

  lemma EmitFirst(cs: Components, indegree: map<string, int>, queue: seq<string>, result: seq<string>)
    requires SortState(cs, indegree, queue, result) && Sorted(queue) && queue != []
    ensures EmittedState(cs, result + [queue[0]])
    ensures ReleaseState(cs, indegree, queue[1..], result, queue[0], [])
  {
    var current := queue[0];
    ReadyIffQueued(cs, indegree, queue, result, current);
    DepsFirstExtends(cs, result, current);
    var after := result + [current];
    forall i, t | 0 <= i < |after| && Ready(cs, after[..i], t) ensures Leq(after[i], t) {
      if i < |result| {
        assert after[..i] == result[..i];
      } else {
        assert after[..i] == result;
        ReadyIffQueued(cs, indegree, queue, result, t);
        LeqReflexive(current);
      }
    }
    assert queue == [current] + queue[1..];
  }

  /** Whoever still waits for current has not been emitted and has a positive in-degree. */
  lemma DependentWaits(cs: Components, result: seq<string>, current: string, t: string)
    requires EmittedState(cs, result + [current]) && current !in result
    requires DependsOn(cs, t, current)
    ensures t !in result && t != current
    ensures Pending(cs[t].deps, result) >= Count(cs[t].deps, current) > 0
  {
    var after := result + [current];
    assert t !in after by {
      forall i | 0 <= i < |after| ensures after[i] != t {
        assert current !in after[..i];
      }
    }
    PendingAfter(cs[t].deps, result, current);
    CountMember(cs[t].deps, current);
  }

  /** adj lists the dependents of current, each as often as it names current. */
  ghost predicate DependentsOf(cs: Components, current: string, adj: seq<string>)
  {
    forall t :: Count(adj, t) == if t in cs then Count(cs[t].deps, current) else 0
  }

  function Decrement(indegree: map<string, int>, t: string): map<string, int>
    requires t in indegree
  {
    indegree[t := indegree[t] - 1]
  }

  lemma ReleaseNext(cs: Components, indegree: map<string, int>, queue: seq<string>, result: seq<string>,
                    current: string, adj: seq<string>, k: nat)
    requires EmittedState(cs, result + [current]) && current !in result && k < |adj|
    requires DependentsOf(cs, current, adj)
    requires ReleaseState(cs, indegree, queue, result, current, adj[..k])
    ensures adj[k] in indegree && adj[k] !in result && adj[k] != current
    ensures var after := Decrement(indegree, adj[k]);
            ReleaseState(cs, after, if after[adj[k]] == 0 then queue + [adj[k]] else queue,
                         result, current, adj[..k + 1])
  {
    var t := adj[k];
    CountMember(adj, t);
    assert t in cs;
    CountMember(cs[t].deps, current);
    DependentWaits(cs, result, current, t);
    forall u ensures Count(adj[..k + 1], u) == Count(adj[..k], u) + if u == t then 1 else 0 {
      PrefixCount(adj, k, u);
    }
    PrefixCount(adj, k, t);
    assert indegree[t] > 0;
  }

  lemma ReleaseEnds(cs: Components, indegree: map<string, int>, queue: seq<string>, result: seq<string>,
                    current: string, adj: seq<string>)
    requires EmittedState(cs, result + [current]) && current !in result && current in cs
    requires DependentsOf(cs, current, adj)
    requires ReleaseState(cs, indegree, queue, result, current, adj)
    ensures SortState(cs, indegree, queue, result + [current])
  {
    forall t | t in cs ensures indegree[t] == Pending(cs[t].deps, result + [current]) {
      PendingAfter(cs[t].deps, result, current);
    }
  }

  lemma StalledIsStuck(cs: Components, indegree: map<string, int>, result: seq<string>)
    requires SortState(cs, indegree, [], result) && AllDeclared(cs)
    requires exists t :: t in cs && t !in result
    ensures Stuck(cs, set t | t in cs && t !in result)
  {
    var waiting := set t | t in cs && t !in result;
    var w :| w in cs && w !in result;
    assert w in waiting;
    forall t | t in waiting ensures WaitsWithin(cs, waiting, t) {
      PendingZero(cs[t].deps, result);
      assert indegree[t] != 0;
      var d :| d in cs[t].deps && d !in result;
      assert DependsOn(cs, t, d);
    }
  }

  lemma CompleteIsOrder(cs: Components, result: seq<string>)
    requires EmittedState(cs, result)
    ensures |result| == |cs| <==> forall t :: t in cs ==> t in result
    ensures |result| == |cs| ==> IsLeastOrder(cs, result)
  {
    var emitted := set t | t in result;
    DistinctCardinality(result);
    assert emitted <= cs.Keys;
    if |result| == |cs| {
      assert |cs.Keys - emitted| == |cs.Keys| - |emitted|;
      assert cs.Keys - emitted == {};
      assert forall t :: t in cs ==> t in emitted;
      GreedyIsLeast(cs, result);
    }
    if forall t :: t in cs ==> t in result {
      assert emitted == cs.Keys;
    }
  }

  // ----------------------------------------------------------------- the graph

  ghost predicate Reverses(cs: Components, adjList: map<string, seq<string>>)
  {
    && (forall t :: t in cs ==> cs[t].typ == t && t in adjList)
    && (forall t, d :: DependsOn(cs, t, d) ==> d in adjList)
    && (forall d :: d in adjList ==> DependentsOf(cs, d, adjList[d]))
  }

  /** What adjList holds for a name; a name without an entry has no dependents. */
  function Entry(adjList: map<string, seq<string>>, d: string): seq<string>
  {
    if d in adjList then adjList[d] else []
  }

  function AddEdge(adjList: map<string, seq<string>>, d: string, typ: string): map<string, seq<string>>
  {
    adjList[d := Entry(adjList, d) + [typ]]
  }

  /** adjList is before plus the edges of the first k dependencies of a component. */
  ghost predicate EdgesAdded(before: map<string, seq<string>>, adjList: map<string, seq<string>>,
                             typ: string, deps: seq<string>)
  {
    && before.Keys <= adjList.Keys
    && forall d :: Entry(adjList, d) == Entry(before, d) + Repeats(typ, deps, d)
  }

  lemma RepeatsOnce(typ: string, deps: seq<string>, dependency: string, d: string)
    ensures Repeats(typ, deps + [dependency], d) == Repeats(typ, deps, d) + if dependency == d then [typ] else []
  {
    assert (deps + [dependency])[..|deps|] == deps;
  }

  lemma EntryGrows(adjList: map<string, seq<string>>, typ: string, deps: seq<string>, dependency: string,
                   d: string, was: seq<string>)
    requires Entry(adjList, d) == was + Repeats(typ, deps, d)
    ensures Entry(AddEdge(adjList, dependency, typ), d) == was + Repeats(typ, deps + [dependency], d)
  {
    RepeatsOnce(typ, deps, dependency, d);
  }

  lemma EdgeAdded(before: map<string, seq<string>>, adjList: map<string, seq<string>>,
                  typ: string, deps: seq<string>, dependency: string)
    requires EdgesAdded(before, adjList, typ, deps)
    ensures EdgesAdded(before, AddEdge(adjList, dependency, typ), typ, deps + [dependency])
  {
    var after := AddEdge(adjList, dependency, typ);
    forall d ensures Entry(after, d) == Entry(before, d) + Repeats(typ, deps + [dependency], d) {
      EntryGrows(adjList, typ, deps, dependency, d, Entry(before, d));
    }
  }

  /** adjList lists exactly the dependents declared by the components of the list. */
  ghost predicate ListsDependents(adjList: map<string, seq<string>>, cs: seq<Component>)
  {
    forall d :: Entry(adjList, d) == Dependents(cs, d)
  }

  lemma ComponentAdded(before: map<string, seq<string>>, after: map<string, seq<string>>,
                       cs: seq<Component>, comp: Component)
    requires ListsDependents(before, cs)
    requires EdgesAdded(before, after, comp.typ, comp.deps)
    ensures ListsDependents(after, cs + [comp])
  {
    forall d ensures Entry(after, d) == Dependents(cs + [comp], d) {
      assert (cs + [comp])[..|cs|] == cs;
      assert Entry(before, d) == Dependents(cs, d);
    }
  }

  lemma DistinctTypesReverse(input: seq<Component>, adjList: map<string, seq<string>>)
    requires Distinct(Names(input))
    requires ListsDependents(adjList, input)
    requires ComponentMap(input).Keys <= adjList.Keys
    ensures Reverses(ComponentMap(input), adjList)
  {
    var cs := ComponentMap(input);
    forall d | d in adjList ensures DependentsOf(cs, d, adjList[d]) {
      assert Entry(adjList, d) == Dependents(input, d);
      forall t {
        DependentsCount(input, d, t);
      }
    }
    forall t, d | DependsOn(cs, t, d) ensures d in adjList {
      CountMember(cs[t].deps, d);
      assert Entry(adjList, d) == Dependents(input, d);
      DependentsCount(input, d, t);
    }
  }

  class DependencyGraph {
    var components: Components
    /** adjList[d] lists who depends on d, once per time the dependency is declared. */
    var adjList: map<string, seq<string>>

    /** Edges and components agree: adjList is exactly the reverse of the declared dependencies. */
    ghost predicate Consistent()
      reads this
    {
      Reverses(components, adjList)
    }

    constructor (input: seq<Component>)
      ensures components == ComponentMap(input)
      ensures ListsDependents(adjList, input)
      ensures Distinct(Names(input)) ==> Consistent()
    {
      components := map[];
      adjList := map[];
      new;
      IndexComponents(input);
      LinkDependents(input);
      if Distinct(Names(input)) {
        DistinctTypesReverse(input, adjList);
      }
    }

    method IndexComponents(input: seq<Component>)
      requires components == map[] && adjList == map[]
      modifies this
      ensures components == ComponentMap(input)
      ensures adjList.Keys == components.Keys && forall t :: t in adjList ==> adjList[t] == []
    {
      var i := 0;
      while i < |input|
        invariant 0 <= i <= |input|
        invariant components == ComponentMap(input[..i])
        invariant adjList.Keys == components.Keys && forall t :: t in adjList ==> adjList[t] == []
      {
        assert input[..i + 1][..i] == input[..i];
        components := components[input[i].typ := input[i]];
        adjList := adjList[input[i].typ := []];
        i := i + 1;
      }
      assert input[..i] == input;
    }

    method LinkDependents(input: seq<Component>)
      requires forall t :: t in adjList ==> adjList[t] == []
      modifies this`adjList
      ensures ListsDependents(adjList, input)
      ensures old(adjList).Keys <= adjList.Keys
    {
      var i := 0;
      while i < |input|
        invariant 0 <= i <= |input|
        invariant old(adjList).Keys <= adjList.Keys
        invariant ListsDependents(adjList, input[..i])
      {
        assert input[..i + 1] == input[..i] + [input[i]];
        ghost var before := adjList;
        AddEdges(input[i]);
        ComponentAdded(before, adjList, input[..i], input[i]);
        i := i + 1;
      }
      assert input[..i] == input;
    }

    method AddEdges(comp: Component)
      modifies this`adjList
      ensures EdgesAdded(old(adjList), adjList, comp.typ, comp.deps)
    {
      var k := 0;
      while k < |comp.deps|
        invariant 0 <= k <= |comp.deps|
        invariant EdgesAdded(old(adjList), adjList, comp.typ, comp.deps[..k])
      {
        EdgeAdded(old(adjList), adjList, comp.typ, comp.deps[..k], comp.deps[k]);
        assert comp.deps[..k + 1] == comp.deps[..k] + [comp.deps[k]];
        adjList := AddEdge(adjList, comp.deps[k], comp.typ);
        k := k + 1;
      }
      assert comp.deps[..k] == comp.deps;
    }

    /** Reports a component together with a dependency of it that nobody provides. */
    method Validate() returns (missing: Option<(string, string)>)
      ensures missing.None? <==> AllDeclared(components)
      ensures missing.Some? ==> DependsOn(components, missing.value.0, missing.value.1)
      ensures missing.Some? ==> missing.value.1 !in components
    {
      var todo := components.Keys;
      while todo != {}
        invariant todo <= components.Keys
        invariant forall t, d :: DependsOn(components, t, d) && t !in todo ==> d in components
        decreases todo
      {
        var t :| t in todo;
        var deps := components[t].deps;
        var k := 0;
        while k < |deps|
          invariant 0 <= k <= |deps|
          invariant forall d :: d in deps[..k] ==> d in components
        {
          if deps[k] !in components {
            assert DependsOn(components, t, deps[k]);
            return Some((t, deps[k]));
          }
          assert deps[..k + 1] == deps[..k] + [deps[k]];
          k := k + 1;
        }
        assert deps[..k] == deps;
        todo := todo - {t};
      }
      return None;
    }

    /** Names a cycle when there is one; otherwise the nodes' finishing order is a start-up order. */
    method FindCycle() returns (c: seq<string>)
      requires AllDeclared(components)
      ensures c != [] ==> SimpleCycle(components, c)
      ensures c == [] ==> exists o :: IsOrder(components, o)
    {
      var search := new CycleSearch(components);
      var todo := components.Keys;
      while todo != {}
        invariant search.components == components && search.Valid() && search.cycle == []
        invariant todo <= components.Keys
        invariant forall t :: t in components ==> t in todo || t in search.visited
        decreases todo
      {
        var t :| t in todo;
        if t !in search.visited {
          var found := search.Dfs(t);
          if found { return search.cycle; }
        }
        todo := todo - {t};
      }
      assert IsOrder(components, search.finished);
      return [];
    }

    method Indegrees() returns (indegree: map<string, int>)
      ensures indegree.Keys == components.Keys
      ensures forall t :: t in components ==> indegree[t] == |components[t].deps|
    {
      indegree := map[];
      var todo := components.Keys;
      while todo != {}
        invariant todo <= components.Keys && indegree.Keys == components.Keys - todo
        invariant forall t :: t in indegree ==> indegree[t] == |components[t].deps|
        decreases todo
      {
        var t :| t in todo;
        indegree := indegree[t := |components[t].deps|];
        todo := todo - {t};
      }
    }

    method Roots(indegree: map<string, int>) returns (queue: seq<string>)
      ensures Distinct(queue)
      ensures forall t :: t in queue <==> t in indegree && indegree[t] == 0
    {
      queue := [];
      var todo := indegree.Keys;
      while todo != {}
        invariant todo <= indegree.Keys && Distinct(queue)
        invariant forall t :: t in queue <==> t in indegree && t !in todo && indegree[t] == 0
        decreases todo
      {
        var t :| t in todo;
        if indegree[t] == 0 { queue := queue + [t]; }
        todo := todo - {t};
      }
    }

    /** The inner loop: every dependent of current loses one pending dependency. */
    method Release(current: string, indegree0: map<string, int>, queue0: seq<string>,
                   visited: set<string>, ghost result: seq<string>)
      returns (indegree: map<string, int>, queue: seq<string>)
      requires Consistent() && current in components && current !in result
      requires EmittedState(components, result + [current])
      requires forall t :: t in visited <==> t in result || t == current
      requires ReleaseState(components, indegree0, queue0, result, current, [])
      ensures SortState(components, indegree, queue, result + [current])
    {
      indegree, queue := indegree0, queue0;
      var adj := adjList[current];
      assert DependentsOf(components, current, adj);
      var k := 0;
      while k < |adj|
        invariant 0 <= k <= |adj|
        invariant ReleaseState(components, indegree, queue, result, current, adj[..k])
      {
        var dependent := adj[k];
        ReleaseNext(components, indegree, queue, result, current, adj, k);
        indegree := Decrement(indegree, dependent);
        if indegree[dependent] == 0 && dependent !in visited {
          queue := queue + [dependent];
        }
        k := k + 1;
      }
      assert adj[..k] == adj;
      ReleaseEnds(components, indegree, queue, result, current, adj);
    }

    /** One round: sorts the queue, pops its first name and releases its dependents. */
    method EmitNext(degree: map<string, int>, queue: seq<string>, visited: set<string>, ghost emitted: seq<string>)
      returns (current: string, degree': map<string, int>, queue': seq<string>)
      requires Consistent() && queue != []
      requires SortState(components, degree, queue, emitted)
      requires forall t :: t in visited <==> t in emitted
      ensures current in components && current !in visited
      ensures SortState(components, degree', queue', emitted + [current])
    {
      QueueSorted(components, degree, queue, emitted);
      var sorted := Sort(queue);
      current := sorted[0];
      assert current in sorted;
      EmitFirst(components, degree, sorted, emitted);
      degree', queue' := Release(current, degree, sorted[1..], visited + {current}, emitted);
    }

    /** The main loop: emits the alphabetically first ready component until none is ready. */
    method EmitAll() returns (result: seq<Component>, ghost emitted: seq<string>, ghost indegree: map<string, int>)
      requires Consistent()
      ensures SortState(components, indegree, [], emitted)
      ensures Emits(components, result, emitted)
    {
      var degree := Indegrees();
      var queue := Roots(degree);
      var visited: set<string> := {};
      result, emitted := [], [];
      SortStarts(components, degree, queue);
      while queue != []
        invariant SortState(components, degree, queue, emitted)
        invariant forall t :: t in visited <==> t in emitted
        invariant Emits(components, result, emitted)
        decreases components.Keys - visited
      {
        var current;
        current, degree, queue := EmitNext(degree, queue, visited, emitted);
        EmitsExtends(components, result, emitted, current);
        result := result + [components[current]];
        visited := visited + {current};
        emitted := emitted + [current];
      }
      indegree := degree;
    }

    method TopologicalSort() returns (r: Outcome)
      requires Consistent()
      ensures r.Ordered? <==> AllDeclared(components) && Acyclic(components)
      ensures r.Ordered? ==> IsLeastOrder(components, Names(r.components))
      ensures r.Ordered? ==> forall c :: c in r.components ==> c.typ in components && c == components[c.typ]
      ensures r.MissingDependency? <==> !AllDeclared(components)
      ensures r.MissingDependency? ==> DependsOn(components, r.component, r.dependency)
      ensures r.MissingDependency? ==> r.dependency !in components
      ensures r.CircularDependency? ==> SimpleCycle(components, r.cycle)
    {
      var missing := Validate();
      if missing.Some? {
        return MissingDependency(missing.value.0, missing.value.1);
      }
      ghost var indegree, emitted;
      var result;
      result, emitted, indegree := EmitAll();
      CompleteIsOrder(components, emitted);
      if |result| != |components| {
        StalledIsStuck(components, indegree, emitted);
        StuckHasNoOrder(components, set t | t in components && t !in emitted);
        var cycle := FindCycle();
        return CircularDependency(cycle);
      }
      OrderImpliesAcyclic(components, emitted);
      assert Names(result) == emitted;
      return Ordered(result);
    }
  }

  /** The bootstrapper's use of the graph, over components of distinct types. */
  method SortComponents(input: seq<Component>) returns (r: Outcome)
    requires Distinct(Names(input))
    ensures r.Ordered? <==> AllDeclared(ComponentMap(input)) && Acyclic(ComponentMap(input))
    ensures r.Ordered? ==> multiset(r.components) == multiset(input)
    ensures r.Ordered? ==> IsLeastOrder(ComponentMap(input), Names(r.components))
    ensures r.CircularDependency? ==> SimpleCycle(ComponentMap(input), r.cycle)
    ensures r.MissingDependency? <==> !AllDeclared(ComponentMap(input))
  {
    var graph := new DependencyGraph(input);
    r := graph.TopologicalSort();
    if r.Ordered? {
      SameComponents(input, r.components);
    }
  }

  lemma SameComponents(input: seq<Component>, order: seq<Component>)
    requires Distinct(Names(input)) && Distinct(Names(order))
    requires forall t :: t in Names(order) <==> t in ComponentMap(input)
    requires forall c :: c in order ==> c.typ in ComponentMap(input) && c == ComponentMap(input)[c.typ]
    ensures multiset(order) == multiset(input)
  {
    DistinctNamesDistinct(input);
    DistinctNamesDistinct(order);
    forall c ensures c in input <==> c in order {
      if c in input {
        ComponentMapHolds(input, c);
        assert c.typ in Names(order);
        var i :| 0 <= i < |order| && Names(order)[i] == c.typ;
        assert order[i] in order;
      }
    }
    SameElementsSameMultiset(order, input);
  }

  lemma DistinctNamesDistinct(cs: seq<Component>)
    requires Distinct(Names(cs))
    ensures Distinct(cs)
  {
    forall i, j | 0 <= i < j < |cs| ensures cs[i] != cs[j] {
      assert Names(cs)[i] != Names(cs)[j];
    }
  }

  /** The order depends only on which components are given, not on how they are listed. */
  lemma OrderIgnoresInputOrder(a: seq<Component>, b: seq<Component>, o: seq<string>, p: seq<string>)
    requires Distinct(Names(a)) && Distinct(Names(b)) && multiset(a) == multiset(b)
    requires IsLeastOrder(ComponentMap(a), o) && IsLeastOrder(ComponentMap(b), p)
    ensures o == p
  {
    ComponentMapPermutation(a, b);
    LeastOrderUnique(ComponentMap(a), o, p);
  }
}
