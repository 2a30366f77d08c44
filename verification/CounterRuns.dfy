/**
 The counters over whole runs: provider metadata from the informer, instances and applications from
 their subscribers, on this replica or on others that share the stores, and the turns of leadership.
 */
module CounterRuns {
  import opened Wrappers
  import opened Resources
  import opened Informer
  import opened InstanceLifecycle
  import opened Counters
  import opened CounterManager
  import opened CounterComponent

  /** The shared stores, and the counters of one replica. */
  datatype System = System(stores: Stores, counts: Snapshot, leader: bool)

  /** `heard` says whether the event reaches this replica's counters: discovery, the engine and the
      counters elect their leaders apart, and an event stays on the bus of the replica that sends
      it. */
  datatype Action =
    | Metadata(delta: Delta, indexing: Indexing, heard: bool)
    | Lifecycle(handling: Handling, heard: bool)
    | ApplicationSeen(mesh: string, name: string, fails: bool, heard: bool)
    | Elected(routes: Routes)
    | Deposed

  /** The counters after an event, if there is one, it is heard, and this replica leads. */
  function Told(sys: System, kind: Kind, event: Option<Event>, heard: bool): Snapshot
  {
    if sys.leader && heard && event.Some? then Handled(sys.counts, kind, event.value) else sys.counts
  }

  function AfterMetadata(sys: System, d: Delta, x: Indexing, heard: bool): System
  {
    var h := Handle(sys.stores.providers, d, x);
    if h.None? then sys
    else System(sys.stores.(providers := h.value.0), Told(sys, ServiceProviderMetadata, Some(h.value.1), heard),
                sys.leader)
  }

  ghost predicate Step(sys: System, a: Action, sys': System)
  {
    match a
    case Metadata(d, x, heard) => sys' == AfterMetadata(sys, d, x, heard)
    case Lifecycle(h, heard) =>
      var e := Emitted(sys.stores.instances, h);
      sys' == System(sys.stores.(instances := e.store), Told(sys, Instance, e.event, heard), sys.leader)
    case ApplicationSeen(mesh, name, fails, heard) =>
      var e := Announced(sys.stores.application, mesh, name, fails);
      sys' == System(sys.stores.(application := e.store), Told(sys, Application, e.event, heard), sys.leader)
    case Elected(routes) =>
      sys'.stores == sys.stores && sys'.leader && LoadedUpTo(sys'.counts, sys.stores, routes)
    case Deposed => sys' == System(sys.stores, EMPTY, false)
  }

  ghost predicate IsRun(run: seq<System>, actions: seq<Action>)
  {
    && |run| == |actions| + 1
    && (forall i :: 0 <= i < |actions| ==> Step(run[i], actions[i], run[i + 1]))
  }

  ghost predicate Inv(sys: System)
  {
    AllLocated(sys.stores.instances) && (!sys.leader ==> sys.counts == EMPTY)
  }

  lemma StepKeepsInvariant(sys: System, a: Action, sys': System)
    requires Inv(sys) && Step(sys, a, sys')
    ensures Inv(sys')
  {
    if a.Lifecycle? {
      HandlersAreProper(sys.stores.instances, a.handling);
      ProperKeepsLocated(sys.stores.instances, EffectOf(sys.stores.instances, a.handling));
    }
  }

  lemma {:induction false} RunKeepsInvariant(run: seq<System>, actions: seq<Action>, i: nat)
    requires IsRun(run, actions) && Inv(run[0]) && i < |run|
    ensures Inv(run[i])
  {
    if i > 0 {
      RunKeepsInvariant(run, actions, i - 1);
      StepKeepsInvariant(run[i - 1], actions[i - 1], run[i]);
    }
  }

  /** A batch of deltas is a run of single ones: the store and the counters end as the batch, up to
      its first failure, leaves them. */
  lemma {:induction false} BatchIsRun(sys: System, ds: seq<Delta>, xs: seq<Indexing>, heard: bool)
    returns (run: seq<System>, actions: seq<Action>)
    requires |xs| == |ds|
    ensures IsRun(run, actions) && run[0] == sys
    ensures var b := HandleAll(sys.stores.providers, ds, xs);
            var counts := HandledAll(sys.counts, ServiceProviderMetadata, b.1);
            run[|actions|] == System(sys.stores.(providers := b.0), if sys.leader && heard then counts else sys.counts,
                                     sys.leader)
    decreases |ds|
  {
    if ds == [] || Handle(sys.stores.providers, ds[0], xs[0]).None? {
      return [sys], [];
    }
    var next := AfterMetadata(sys, ds[0], xs[0], heard);
    var later, rest := BatchIsRun(next, ds[1..], xs[1..], heard);
    run, actions := [sys] + later, [Metadata(ds[0], xs[0], heard)] + rest;
    assert forall i :: 0 < i < |actions| ==> run[i] == later[i - 1] && actions[i] == rest[i - 1];
    var h := Handle(sys.stores.providers, ds[0], xs[0]).value;
    assert HandleAll(sys.stores.providers, ds, xs).1[1..] == HandleAll(h.0, ds[1..], xs[1..]).1;
    assert run[|actions|] == later[|rest|];
  }

  // ------------------------------------------------------- when a step keeps a count right

  datatype Count = Applications | Providers | Instances | By(metric: Metric)

  /** While this replica leads, the count equals a recount of the store. */
  ghost predicate Exact(sys: System, c: Count)
  {
    sys.leader ==>
      match c
      case Applications => SimpleAgrees(sys.counts.application, sys.stores.application)
      case Providers => SimpleAgrees(sys.counts.providers, sys.stores.providers)
      case Instances => SimpleAgrees(sys.counts.instances, sys.stores.instances)
      case By(m) => DistributionAgrees(DistributionOf(sys.counts, m), sys.stores.instances, m)
  }

  /** Before a delta: an upsert must find its resource under the mesh it brings, and a deletion the
      one it names, or nothing at all to take away; unheard, no resource may come or go. */
  ghost predicate DeltaKeeps(store: Store, d: Delta, x: Indexing, heard: bool)
  {
    Handle(store, d, x).Some? ==>
      var r := ToResource(d.payload).value;
      if Key(r) in store then MeshOf(store[Key(r)]) == MeshOf(r) && (heard || !d.typ.Deleted?)
      else if d.typ.Deleted? then !heard || Recount(store, MeshOf, MeshOf(r)) == 0
      else heard
  }

  /** Before a handler: a new instance that can be identified, or the last source of one going. */
  predicate Enters(store: Store, h: Handling)
  {
    !h.fails &&
    match h
    case RpcUpsert(rpc, _, _) => EnoughRpc(rpc) && InstanceKey(rpc.mesh, rpc.name) !in store
    case RuntimeUpsert(rt, other, _) => EnoughRuntime(rt) && Related(store, rt, other).None?
    case _ => false
  }

  predicate Leaves(store: Store, h: Handling)
  {
    !h.fails &&
    match h
    case RpcDelete(rpc, _) =>
      InstanceKey(rpc.mesh, rpc.name) in store && !HasRuntimeSource(store[InstanceKey(rpc.mesh, rpc.name)])
    case RuntimeDelete(rt, other, _) =>
      Related(store, rt, other).Some? && !HasRpcSource(store[Related(store, rt, other).value])
    case _ => false
  }

  /** The value a registry announces for a metric. */
  function Announces(rpc: RpcSpec, m: Metric): string
  {
    if m.Protocol? then rpc.protocol else rpc.release
  }

  /** Before the call: a merge announces the key the instance is counted under, and an instance that
      leaves the registry was counted as unknown. Runtime reports touch neither. */
  predicate KeepsKey(store: Store, h: Handling, m: Metric)
  {
    h.fails || match h
    case RpcUpsert(rpc, _, _) =>
      var key := InstanceKey(rpc.mesh, rpc.name);
      EnoughRpc(rpc) && key in store ==> KeyIn(m, store[key]) == KeyName(Announces(rpc.spec.value, m))
    case RpcDelete(rpc, _) =>
      var key := InstanceKey(rpc.mesh, rpc.name);
      key in store ==> KeyIn(m, store[key]) == "unknown"
    case _ => true
  }

  /** Before the step: whether it keeps the count right. */
  ghost predicate Keeps(sys: System, a: Action, c: Count)
  {
    match a
    case Metadata(d, x, heard) => sys.leader && c.Providers? ==> DeltaKeeps(sys.stores.providers, d, x, heard)
    case Lifecycle(h, heard) => sys.leader ==> HandlingKeeps(sys.stores.instances, h, heard, c)
    case ApplicationSeen(mesh, name, fails, heard) =>
      sys.leader && c.Applications? ==> heard || fails || AppKey(mesh, name) in sys.stores.application
    case Elected(routes) => LoadKeeps(sys.stores, routes, c)
    case Deposed => true
  }

  predicate HandlingKeeps(store: Store, h: Handling, heard: bool, c: Count)
  {
    (c.Instances? || c.By? ==> heard || (!Enters(store, h) && !Leaves(store, h)))
    && (c.By? && !c.metric.Discovery? ==> KeepsKey(store, h, c.metric))
  }

  /** Before a load: a store that cannot be reached counts as empty, and so do the kinds after it. */
  ghost predicate LoadKeeps(stores: Stores, routes: Routes, c: Count)
  {
    match c
    case Instances => routes.instances || stores.instances == map[]
    case Applications => (routes.instances && routes.application) || stores.application == map[]
    case Providers => (routes.instances && routes.application && routes.providers) || stores.providers == map[]
    case By(m) => if routes.instances then AllComplete(stores.instances, m) else stores.instances == map[]
  }

  // ------------------------------------------------------------------------ metadata

  lemma MetadataFollowsIff(store: Store, d: Delta, x: Indexing)
    requires Handle(store, d, x).Some?
    ensures var h := Handle(store, d, x).value;
            && (Follows(store, h.0, MeshOf, SimpleShift(h.1)) <==> DeltaKeeps(store, d, x, true))
            && (Follows(store, h.0, MeshOf, Shift(None, None)) <==> DeltaKeeps(store, d, x, false))
  {
    var r := ToResource(d.payload).value;
    var k := Key(r);
    SilenceLosesChanges(store, MeshOf, k, r);
    if k in store {
      FollowsRemove(store, MeshOf, k, MeshOf(r));
      FollowsReplace(store, MeshOf, k, r);
    } else if d.typ.Deleted? {
      assert store - {k} == store;
      FollowsNothing(store, MeshOf, MeshOf(r));
    } else {
      FollowsAdd(store, MeshOf, k, r, MeshOf(r));
    }
  }

  /** Exactly when a delta keeps the count of provider metadata right. */
  lemma MetadataKeepsIff(sys: System, d: Delta, x: Indexing, heard: bool)
    requires sys.leader && Exact(sys, Providers)
    ensures Exact(AfterMetadata(sys, d, x, heard), Providers) <==> DeltaKeeps(sys.stores.providers, d, x, heard)
  {
    var store := sys.stores.providers;
    if Handle(store, d, x).Some? {
      var h := Handle(store, d, x).value;
      MetadataFollowsIff(store, d, x);
      SimpleStepIff(sys.counts.providers, store, h.0, h.1);
      SimpleSilentIff(sys.counts.providers, store, h.0);
    }
  }

  // ---------------------------------------------------------------- instance handlers

  lemma EntersIsCreate(store: Store, h: Handling)
    requires AllLocated(store)
    ensures Enters(store, h) <==> EffectOf(store, h).Create?
    ensures Leaves(store, h) <==> EffectOf(store, h).Remove?
  {
  }

  /** What one handler does moves the count by mesh right, if it is heard: a removed or rewritten
      instance still carries the mesh it was counted under. Unheard, nothing may come or go. */
  lemma EffectKeepsMeshCountIff(data: Tally, store: Store, e: Effect, heard: bool)
    requires SimpleAgrees(data, store) && Proper(store, e)
    ensures var c := Carried(store, e);
            SimpleAgrees(if heard && c.event.Some? then ProcessSimple(data, c.event.value) else data, c.store)
            <==> heard || !(e.Create? || e.Remove?)
  {
    var c := Carried(store, e);
    SimpleSilentIff(data, store, c.store);
    match e
    case Nothing =>
    case Create(r) =>
      FollowsAdd(store, MeshOf, Key(r), r, MeshOf(r));
      SilenceLosesChanges(store, MeshOf, Key(r), r);
      SimpleStepIff(data, store, c.store, Event(Added, None, Some(r)));
    case Rewrite(k, r, _) =>
      FollowsReplace(store, MeshOf, k, r);
      SimpleStepIff(data, store, c.store, Event(Updated, Some(r), Some(r)));
    case Remove(k, r) =>
      FollowsRemove(store, MeshOf, k, MeshOf(r));
      SilenceLosesChanges(store, MeshOf, k, r);
      SimpleStepIff(data, store, c.store, Event(Deleted, Some(r), None));
  }

  /** The key counted for the instance is the one its event carries. */
  predicate KeyKept(store: Store, e: Effect, m: Metric)
  {
    match e
    case Rewrite(k, r, _) => k in store && KeyIn(m, store[k]) == KeyIn(m, r)
    case Remove(k, r) => k in store && KeyIn(m, store[k]) == KeyIn(m, r)
    case _ => true
  }

  /** Whether a distribution is right after an effect. */
  ghost predicate RightAfter(data: Distribution, store: Store, e: Effect, m: Metric, heard: bool)
  {
    var c := Carried(store, e);
    DistributionAgrees(if heard && c.event.Some? then ProcessDistribution(data, m, c.event.value) else data, c.store, m)
  }

  lemma SilentEffectIff(data: Distribution, store: Store, e: Effect, m: Metric)
    requires DistributionAgrees(data, store, m) && Proper(store, e)
    ensures RightAfter(data, store, e, m, false) <==> KeyKept(store, e, m) && !(e.Create? || e.Remove?)
  {
    DistributionSilentIff(data, store, Carried(store, e).store, m);
    match e
    case Nothing =>
    case Create(r) => SilenceLosesChanges(store, CellOf(m), Key(r), r);
    case Rewrite(k, r, _) => FollowsReplace(store, CellOf(m), k, r);
    case Remove(k, r) => SilenceLosesChanges(store, CellOf(m), k, r);
  }

  lemma HeardRewriteIff(data: Distribution, store: Store, k: string, r: Resource, m: Metric)
    requires DistributionAgrees(data, store, m) && Proper(store, Rewrite(k, r, true))
    ensures RightAfter(data, store, Rewrite(k, r, true), m, true) <==> KeyKept(store, Rewrite(k, r, true), m)
  {
    FollowsReplace(store, CellOf(m), k, r);
    DistributionStepIff(data, store, store[k := r], m, Event(Updated, Some(r), Some(r)));
  }

  lemma HeardEffectIff(data: Distribution, store: Store, e: Effect, m: Metric)
    requires DistributionAgrees(data, store, m) && Proper(store, e)
    ensures RightAfter(data, store, e, m, true) <==> KeyKept(store, e, m)
  {
    match e
    case Nothing =>
    case Create(r) =>
      FollowsAdd(store, CellOf(m), Key(r), r, CellIn(m, r));
      DistributionStepIff(data, store, store[Key(r) := r], m, Event(Added, None, Some(r)));
    case Rewrite(k, r, told) =>
      if told {
        HeardRewriteIff(data, store, k, r, m);
      } else {
        SilentEffectIff(data, store, e, m);
      }
    case Remove(k, r) =>
      FollowsRemove(store, CellOf(m), k, CellIn(m, r));
      DistributionStepIff(data, store, store - {k}, m, Event(Deleted, Some(r), None));
  }

  lemma KeepsKeyIsKeyKept(store: Store, h: Handling, m: Metric)
    requires AllLocated(store)
    ensures KeyKept(store, EffectOf(store, h), m) <==> m.Discovery? || KeepsKey(store, h, m)
  {
    HandlersAreProper(store, h);
  }

  /** Exactly when a handler keeps a distribution over the instances right. */
  lemma LifecycleKeepsIff(data: Distribution, store: Store, h: Handling, m: Metric, heard: bool)
    requires DistributionAgrees(data, store, m) && AllLocated(store)
    ensures RightAfter(data, store, EffectOf(store, h), m, heard) <==> HandlingKeeps(store, h, heard, By(m))
  {
    HandlersAreProper(store, h);
    EntersIsCreate(store, h);
    KeepsKeyIsKeyKept(store, h, m);
    if heard {
      HeardEffectIff(data, store, EffectOf(store, h), m);
    } else {
      SilentEffectIff(data, store, EffectOf(store, h), m);
    }
  }

  /** What an ordinary deletion leaves behind: the counted cell is never decremented. */
  lemma DeletionLeaks(data: Distribution, store: Store, rpc: RpcInstance, m: Metric)
    requires DistributionAgrees(data, store, m) && AllLocated(store) && !m.Discovery?
    requires InstanceKey(rpc.mesh, rpc.name) in store
    requires var r := store[InstanceKey(rpc.mesh, rpc.name)]; !HasRuntimeSource(r) && KeyIn(m, r) != "unknown"
    ensures var r := store[InstanceKey(rpc.mesh, rpc.name)];
            var c := Emitted(store, RpcDelete(rpc, false));
            && c.event.Some?
            && Cell(ProcessDistribution(data, m, c.event.value), MeshOf(r), KeyIn(m, r))
               == Recount(c.store, CellOf(m), CellIn(m, r)) + 1
  {
    var key := InstanceKey(rpc.mesh, rpc.name);
    var r, e := store[key], Emitted(store, RpcDelete(rpc, false)).event.value;
    DistributionShifts(data, m, e, MeshOf(r), KeyIn(m, r));
    RecountRemove(store, CellOf(m), key, CellIn(m, r));
  }

  // --------------------------------------------------------------------- whole runs

  lemma ApplicationKeepsIff(data: Tally, apps: Store, mesh: string, name: string, fails: bool, heard: bool)
    requires SimpleAgrees(data, apps)
    ensures var c := Announced(apps, mesh, name, fails);
            SimpleAgrees(if heard && c.event.Some? then ProcessSimple(data, c.event.value) else data, c.store)
            <==> heard || fails || AppKey(mesh, name) in apps
  {
    var app := Resource(Application, mesh, name, None);
    if !fails && Key(app) !in apps {
      var apps' := apps[Key(app) := app];
      FollowsAdd(apps, MeshOf, Key(app), app, MeshOf(app));
      SilenceLosesChanges(apps, MeshOf, Key(app), app);
      SimpleStepIff(data, apps, apps', Event(Added, None, Some(app)));
      SimpleSilentIff(data, apps, apps');
    }
  }

  lemma LoadKeepsIff(sys: System, routes: Routes, sys': System, c: Count)
    requires Step(sys, Elected(routes), sys')
    ensures Exact(sys', c) <==> LoadKeeps(sys.stores, routes, c)
  {
    match c
    case Applications => EmptyAgreesIff(sys.stores.application, Protocol);
    case Providers => EmptyAgreesIff(sys.stores.providers, Protocol);
    case Instances => EmptyAgreesIff(sys.stores.instances, Protocol);
    case By(m) =>
      EmptyAgreesIff(sys.stores.instances, m);
      if routes.instances {
        LoadAgreesIff(DistributionOf(sys'.counts, m), sys.stores.instances, m);
      }
  }

  lemma HandledDistribution(s: Snapshot, e: Event, m: Metric)
    ensures DistributionOf(Handled(s, Instance, e), m) == ProcessDistribution(DistributionOf(s, m), m, e)
  {
  }

  lemma HandlingDistributionIff(sys: System, h: Handling, heard: bool, sys': System, m: Metric)
    requires Inv(sys) && Step(sys, Lifecycle(h, heard), sys') && Exact(sys, By(m)) && sys.leader
    ensures Exact(sys', By(m)) <==> HandlingKeeps(sys.stores.instances, h, heard, By(m))
  {
    var e := Emitted(sys.stores.instances, h);
    LifecycleKeepsIff(DistributionOf(sys.counts, m), sys.stores.instances, h, m, heard);
    if e.event.Some? {
      HandledDistribution(sys.counts, e.event.value, m);
    }
  }

  lemma HandlingExactIff(sys: System, h: Handling, heard: bool, sys': System, c: Count)
    requires Inv(sys) && Step(sys, Lifecycle(h, heard), sys') && Exact(sys, c) && sys.leader
    ensures Exact(sys', c) <==> HandlingKeeps(sys.stores.instances, h, heard, c)
  {
    var store := sys.stores.instances;
    match c
    case Instances =>
      HandlersAreProper(store, h);
      EntersIsCreate(store, h);
      EffectKeepsMeshCountIff(sys.counts.instances, store, EffectOf(store, h), heard);
    case By(m) => HandlingDistributionIff(sys, h, heard, sys', m);
    case _ =>
  }

  /** Exactly which steps keep a count right, judged before the step. */
  lemma StepExactIff(sys: System, a: Action, sys': System, c: Count)
    requires Inv(sys) && Step(sys, a, sys') && Exact(sys, c)
    ensures Exact(sys', c) <==> Keeps(sys, a, c)
  {
    match a
    case Metadata(d, x, heard) =>
      if sys.leader && c.Providers? {
        MetadataKeepsIff(sys, d, x, heard);
      }
    case Lifecycle(h, heard) =>
      if sys.leader {
        HandlingExactIff(sys, h, heard, sys', c);
      }
    case ApplicationSeen(mesh, name, fails, heard) =>
      if sys.leader {
        if c.Applications? {
          ApplicationKeepsIff(sys.counts.application, sys.stores.application, mesh, name, fails, heard);
        }
      }
    case Elected(routes) => LoadKeepsIff(sys, routes, sys', c);
    case Deposed =>
  }

  ghost predicate ExactUpTo(run: seq<System>, c: Count, n: nat)
  {
    n == 0 || (n <= |run| && Exact(run[n - 1], c) && ExactUpTo(run, c, n - 1))
  }

  ghost predicate KeepsUpTo(run: seq<System>, actions: seq<Action>, c: Count, n: nat)
  {
    n == 0 ||
    (n <= |run| && n <= |actions| && Keeps(run[n - 1], actions[n - 1], c) && KeepsUpTo(run, actions, c, n - 1))
  }

  lemma {:induction false} ExactUpToIff(run: seq<System>, actions: seq<Action>, c: Count, n: nat)
    requires IsRun(run, actions) && Inv(run[0]) && Exact(run[0], c) && n <= |actions|
    ensures ExactUpTo(run, c, n + 1) <==> KeepsUpTo(run, actions, c, n)
  {
    if n == 0 {
      assert ExactUpTo(run, c, 0);
    } else {
      ExactUpToIff(run, actions, c, n - 1);
      RunKeepsInvariant(run, actions, n - 1);
      if Exact(run[n - 1], c) {
        StepExactIff(run[n - 1], actions[n - 1], run[n], c);
      }
    }
  }

  lemma {:induction false} ExactUpToMeans(run: seq<System>, c: Count, n: nat)
    requires n <= |run|
    ensures ExactUpTo(run, c, n) <==> forall i :: 0 <= i < n ==> Exact(run[i], c)
  {
    if n > 0 {
      ExactUpToMeans(run, c, n - 1);
    }
  }

  lemma {:induction false} KeepsUpToMeans(run: seq<System>, actions: seq<Action>, c: Count, n: nat)
    requires n <= |run| && n <= |actions|
    ensures KeepsUpTo(run, actions, c, n) <==> forall i :: 0 <= i < n ==> Keeps(run[i], actions[i], c)
  {
    if n > 0 {
      KeepsUpToMeans(run, actions, c, n - 1);
    }
  }

  /** Over every run of this replica and of the others that write the stores: a count is right in
      every state in which this replica leads exactly when every step keeps it. */
  lemma CountsAreRecountsIff(run: seq<System>, actions: seq<Action>, c: Count)
    requires IsRun(run, actions) && Inv(run[0]) && Exact(run[0], c)
    ensures (forall i :: 0 <= i < |run| ==> Exact(run[i], c))
       <==> (forall i :: 0 <= i < |actions| ==> Keeps(run[i], actions[i], c))
  {
    ExactUpToIff(run, actions, c, |actions|);
    ExactUpToMeans(run, c, |run|);
    KeepsUpToMeans(run, actions, c, |actions|);
  }

  // ------------------------------------------------------------- a replica on its own

  predicate PlainDelta(d: Delta)
  {
    ToResource(d.payload).Some? ==> '/' !in ToResource(d.payload).value.mesh
  }

  /** Every change is heard here, mesh names of metadata hold no slash, carried-out deletions name
      something stored, and all stores can be reached when a load starts. */
  ghost predicate Alone(sys: System, a: Action)
  {
    match a
    case Metadata(d, x, heard) =>
      heard && PlainDelta(d)
      && (Handle(sys.stores.providers, d, x).Some? && d.typ.Deleted? ==>
            Key(ToResource(d.payload).value) in sys.stores.providers)
    case Lifecycle(_, heard) => heard
    case ApplicationSeen(_, _, _, heard) => heard
    case Elected(routes) => routes == ALL_ROUTED
    case Deposed => true
  }

  lemma AloneKeeps(sys: System, a: Action, sys': System, c: Count)
    requires Inv(sys) && PlainStore(sys.stores.providers) && Step(sys, a, sys') && Alone(sys, a)
    requires c.By? ==> c.metric.Discovery?
    ensures Keeps(sys, a, c) && PlainStore(sys'.stores.providers)
  {
    if a.Metadata? && Handle(sys.stores.providers, a.delta, a.indexing).Some? {
      var r := ToResource(a.delta.payload).value;
      if Key(r) in sys.stores.providers {
        KeyFixesMesh(sys.stores.providers[Key(r)], r);
      }
    }
  }

  /** A replica that hears every change reports right counts by mesh in every run, whatever the
      registry and the runtime platform do. */
  lemma {:induction false} MeshCountsAreRecounts(run: seq<System>, actions: seq<Action>, c: Count, i: nat)
    requires IsRun(run, actions) && Inv(run[0]) && Exact(run[0], c) && PlainStore(run[0].stores.providers)
    requires (forall k :: 0 <= k < |actions| ==> Alone(run[k], actions[k])) && i < |run|
    requires c.By? ==> c.metric.Discovery?
    ensures Exact(run[i], c) && PlainStore(run[i].stores.providers)
  {
    if i > 0 {
      MeshCountsAreRecounts(run, actions, c, i - 1);
      RunKeepsInvariant(run, actions, i - 1);
      AloneKeeps(run[i - 1], actions[i - 1], run[i], c);
      StepExactIff(run[i - 1], actions[i - 1], run[i], c);
    }
  }

  // ----------------------------------------------------------------------- instances

  const REGISTERED := RpcInstance("m", "i", Some(RpcSpec("app", "10.0.0.1", 20880, "dubbo", "3.3", "t")))

  lemma RegisteredIsEnough()
    ensures EnoughRpc(REGISTERED)
  {
    assert "m"[0] == 'm' && "app"[0] == 'a' && "10.0.0.1"[0] == '1';
    assert |"m"| != |DEFAULT_MESH|;
  }

  const NO_STORES := Stores(map[], map[], map[])

  /** A new leader of the counters with empty stores; another replica, leading discovery, stores one
      instance. From then on every count of instances is wrong. */
  lemma ElsewhereMiscounts() returns (run: seq<System>, actions: seq<Action>)
    ensures IsRun(run, actions) && |run| == 2 && Inv(run[0]) && run[0].leader
    ensures forall c :: Exact(run[0], c)
    ensures forall c :: Exact(run[1], c) <==> !(c.Instances? || c.By?)
  {
    var h := RpcUpsert(REGISTERED, None, false);
    var e := Emitted(map[], h);
    var first := System(NO_STORES, EMPTY, true);
    var second := System(NO_STORES.(instances := e.store), EMPTY, true);
    run, actions := [first, second], [Lifecycle(h, false)];
    RegisteredIsEnough();
    forall c ensures Exact(first, c) {
      EmptyAgreesIff(map[], if c.By? then c.metric else Protocol);
    }
    forall c ensures Exact(second, c) <==> !(c.Instances? || c.By?) {
      StepExactIff(first, actions[0], second, c);
    }
  }

  /** Registering one instance and letting it go leaves the protocol counted with no instance left. */
  lemma OrdinaryDeletionMiscounts()
    ensures var added := Emitted(map[], RpcUpsert(REGISTERED, None, false));
            var removed := Emitted(added.store, RpcDelete(REGISTERED, false));
            && added.event.Some? && removed.event.Some? && removed.store == map[]
            && var data := ProcessDistribution(map[], Protocol, added.event.value);
            && DistributionAgrees(data, added.store, Protocol)
            && Cell(ProcessDistribution(data, Protocol, removed.event.value), "m", "dubbo") == 1
  {
    var none: Store := map[];
    var h := RpcUpsert(REGISTERED, None, false);
    var added := Emitted(none, h);
    NothingAgrees(Protocol);
    RegisteredIsEnough();
    HandlersKeepEmpty(none, h);
    LifecycleKeepsIff(map[], none, h, Protocol, true);
    var data := ProcessDistribution(map[], Protocol, added.event.value);
    assert |"dubbo"| != |"unknown"|;
    DeletionLeaks(data, added.store, REGISTERED, Protocol);
    var removed := Emitted(added.store, RpcDelete(REGISTERED, false));
    assert removed.store == map[];
    assert Members(removed.store, CellOf(Protocol), ("m", "dubbo")) == {};
  }

  lemma HandlersKeepEmpty(store: Store, h: Handling)
    requires store == map[]
    ensures AllLocated(store) && AllLocated(Emitted(store, h).store)
  {
    HandlersAreProper(store, h);
    ProperKeepsLocated(store, EffectOf(store, h));
  }
}
