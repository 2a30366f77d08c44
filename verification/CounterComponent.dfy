/** The counter component: the manager's counters, their initial load, and leadership terms. */
module CounterComponent {
  import opened Wrappers
  import opened Resources
  import opened Counters
  import opened CounterManager
  import opened Informer

  /** All registered counters at one moment. */
  datatype Snapshot = Snapshot(application: Tally, providers: Tally, instances: Tally,
                               protocol: Distribution, release: Distribution, discovery: Distribution)

  const EMPTY := Snapshot(map[], map[], map[], map[], map[], map[])

  function SimpleOf(s: Snapshot, kind: Kind): Tally
  {
    match kind
    case Application => s.application
    case ServiceProviderMetadata => s.providers
    case Instance => s.instances
  }

  function DistributionOf(s: Snapshot, m: Metric): Distribution
  {
    match m
    case Protocol => s.protocol
    case Release => s.release
    case Discovery => s.discovery
  }

  function WithSimple(s: Snapshot, kind: Kind, data: Tally): Snapshot
  {
    match kind
    case Application => s.(application := data)
    case ServiceProviderMetadata => s.(providers := data)
    case Instance => s.(instances := data)
  }

  /** One event of the given kind, as the bound subscriber processes it. */
  function Handled(s: Snapshot, kind: Kind, e: Event): Snapshot
  {
    var s1 := WithSimple(s, kind, ProcessSimple(SimpleOf(s, kind), e));
    if !kind.Instance? then s1
    else s1.(protocol := ProcessDistribution(s.protocol, Protocol, e),
             release := ProcessDistribution(s.release, Release, e),
             discovery := ProcessDistribution(s.discovery, Discovery, e))
  }

  /** One stored resource, as the initial load counts it. */
  function LoadedOne(s: Snapshot, kind: Kind, r: Resource): Snapshot
  {
    var s1 := WithSimple(s, kind, Plus(SimpleOf(s, kind), MeshOf(r)));
    if !kind.Instance? then s1
    else s1.(protocol := Load(s.protocol, Protocol, r),
             release := Load(s.release, Release, r),
             discovery := Load(s.discovery, Discovery, r))
  }

  ghost predicate DistributionsLoaded(s: Snapshot, store: Store)
  {
    Loaded(s.protocol, store, Protocol) && Loaded(s.release, store, Release) && Loaded(s.discovery, store, Discovery)
  }

  /** The counters of one kind hold exactly what a load of this store counts. */
  ghost predicate KindLoaded(s: Snapshot, kind: Kind, store: Store)
  {
    && SimpleAgrees(SimpleOf(s, kind), store)
    && (kind.Instance? ==> DistributionsLoaded(s, store))
  }

  /** Everything that does not belong to the kind is the same in both. */
  ghost predicate SameElsewhere(s: Snapshot, t: Snapshot, kind: Kind)
  {
    if kind.Instance? then s.application == t.application && s.providers == t.providers
    else s == WithSimple(t, kind, SimpleOf(s, kind))
  }

  ghost predicate NothingOf(s: Snapshot, kind: Kind)
  {
    && SimpleOf(s, kind) == map[]
    && (kind.Instance? ==> s.protocol == s.release == s.discovery == map[])
  }

  /** A load of one kind in progress: this much of the store counted, other kinds as before. */
  ghost predicate Loading(s: Snapshot, before: Snapshot, kind: Kind, done: Store)
  {
    KindLoaded(s, kind, done) && SameElsewhere(s, before, kind)
  }

  lemma LoadingStarts(s: Snapshot, kind: Kind)
    requires NothingOf(s, kind)
    ensures Loading(s, s, kind, map[])
  {
  }

  lemma LoadingGoesOn(s: Snapshot, before: Snapshot, kind: Kind, done: Store, key: string, r: Resource)
    requires Loading(s, before, kind, done) && key !in done
    ensures Loading(LoadedOne(s, kind, r), before, kind, done[key := r])
  {
    SimpleLoadStep(SimpleOf(s, kind), done, key, r);
    if kind.Instance? {
      DistributionsGoOn(s, done, key, r);
    }
  }

  lemma DistributionsGoOn(s: Snapshot, done: Store, key: string, r: Resource)
    requires DistributionsLoaded(s, done) && key !in done
    ensures DistributionsLoaded(LoadedOne(s, Instance, r), done[key := r])
  {
    LoadStep(s.protocol, done, Protocol, key, r);
    LoadStep(s.release, done, Release, key, r);
    LoadStep(s.discovery, done, Discovery, key, r);
  }

  /** The three resource stores. */
  datatype Stores = Stores(application: Store, providers: Store, instances: Store)

  function StoreOf(stores: Stores, kind: Kind): Store
  {
    match kind
    case Application => stores.application
    case ServiceProviderMetadata => stores.providers
    case Instance => stores.instances
  }

  function WithStore(stores: Stores, kind: Kind, store: Store): Stores
  {
    match kind
    case Application => stores.(application := store)
    case ServiceProviderMetadata => stores.(providers := store)
    case Instance => stores.(instances := store)
  }

  ghost predicate OfKind(store: Store, kind: Kind)
  {
    forall k :: k in store ==> store[k].kind == kind
  }

  ghost predicate WellKinded(stores: Stores)
  {
    OfKind(stores.application, Application) && OfKind(stores.providers, ServiceProviderMetadata)
    && OfKind(stores.instances, Instance)
  }

  /** Which of the stores the router can find. */
  datatype Routes = Routes(application: bool, providers: bool, instances: bool)

  const ALL_ROUTED := Routes(true, true, true)

  /** The kinds are loaded in the order instances, applications, provider metadata. */
  ghost predicate LoadedUpTo(s: Snapshot, stores: Stores, routes: Routes)
  {
    var first := routes.instances;
    var second := first && routes.application;
    var third := second && routes.providers;
    && (if first then KindLoaded(s, Instance, stores.instances) else NothingOf(s, Instance))
    && (if second then KindLoaded(s, Application, stores.application) else NothingOf(s, Application))
    && (if third then KindLoaded(s, ServiceProviderMetadata, stores.providers)
        else NothingOf(s, ServiceProviderMetadata))
  }

  class Manager {
    const application: Counter
    const providers: Counter
    const instances: Counter
    const protocol: DistributionCounter
    const release: DistributionCounter
    const discovery: DistributionCounter
    /** The wired leader flag; None before any election is configured. */
    var isLeader: Option<bool>

    ghost predicate Valid()
    {
      && application != providers && application != instances && providers != instances
      && protocol != release && protocol != discovery && release != discovery
    }

    ghost function Counters(): set<object>
    {
      {application, providers, instances, protocol, release, discovery}
    }

    ghost function Now(): Snapshot
      reads Counters()
    {
      Snapshot(application.data, providers.data, instances.data, protocol.data, release.data, discovery.data)
    }

    constructor ()
      ensures Valid() && isLeader == None && Now() == EMPTY
      ensures fresh(Counters())
    {
      application := new Counter();
      providers := new Counter();
      instances := new Counter();
      protocol := new DistributionCounter();
      release := new DistributionCounter();
      discovery := new DistributionCounter();
      isLeader := None;
    }

    function Simple(kind: Kind): Counter
    {
      match kind
      case Application => application
      case ServiceProviderMetadata => providers
      case Instance => instances
    }

    function Metered(m: Metric): DistributionCounter
    {
      match m
      case Protocol => protocol
      case Release => release
      case Discovery => discovery
    }

    method Reset()
      requires Valid()
      modifies Counters()
      ensures Now() == EMPTY
    {
      application.Reset();
      providers.Reset();
      instances.Reset();
      protocol.Reset();
      release.Reset();
      discovery.Reset();
    }

    method ProcessSimpleCounter(counter: Counter, e: Event)
      modifies counter
      ensures counter.data == ProcessSimple(old(counter.data), e)
    {
      var mesh := ObjectMesh(e.newObj);
      if e.newObj.None? {
        mesh := ObjectMesh(e.oldObj);
      }
      match e.typ
      case Added => counter.Increment(mesh);
      case Sync => if e.oldObj.None? { counter.Increment(mesh); }
      case Replaced => if e.oldObj.None? { counter.Increment(mesh); }
      case Deleted => counter.Decrement(mesh);
      case Updated =>
    }

    method Update(counter: DistributionCounter, m: Metric, oldObj: Option<Resource>, newObj: Option<Resource>)
      modifies counter
      ensures counter.data == Move(old(counter.data), m, oldObj, newObj)
    {
      var oldKey, newKey := EventKey(m, oldObj), EventKey(m, newObj);
      var oldMesh, newMesh := ObjectMesh(oldObj), ObjectMesh(newObj);
      if oldKey == newKey && oldMesh == newMesh {
        return;
      }
      if oldObj.Some? {
        counter.Decrement(oldMesh, oldKey);
      }
      if newObj.Some? {
        counter.Increment(newMesh, newKey);
      }
    }

    method ProcessDistributionCounter(counter: DistributionCounter, m: Metric, e: Event)
      modifies counter
      ensures counter.data == ProcessDistribution(old(counter.data), m, e)
    {
      var mesh := ObjectMesh(e.newObj);
      if e.newObj.None? {
        mesh := ObjectMesh(e.oldObj);
      }
      match e.typ
      case Added => counter.Increment(mesh, EventKey(m, e.newObj));
      case Sync =>
        if e.oldObj.None? { counter.Increment(mesh, EventKey(m, e.newObj)); }
        else { Update(counter, m, e.oldObj, e.newObj); }
      case Replaced =>
        if e.oldObj.None? { counter.Increment(mesh, EventKey(m, e.newObj)); }
        else { Update(counter, m, e.oldObj, e.newObj); }
      case Deleted => counter.Decrement(mesh, EventKey(m, e.oldObj));
      case Updated => Update(counter, m, e.oldObj, e.newObj);
    }

    method HandleEvent(kind: Kind, e: Event)
      requires Valid()
      modifies Counters()
      ensures Now() == if isLeader == Some(false) then old(Now()) else Handled(old(Now()), kind, e)
    {
      if isLeader == Some(false) {
        return;
      }
      ProcessSimpleCounter(Simple(kind), e);
      if kind.Instance? {
        ProcessDistributionCounter(protocol, Protocol, e);
        ProcessDistributionCounter(release, Release, e);
        ProcessDistributionCounter(discovery, Discovery, e);
      }
    }

    method Count(kind: Kind) returns (n: int)
      ensures n == Total(SimpleOf(Now(), kind))
    {
      n := Simple(kind).Get();
    }

    method CountByMesh(kind: Kind, mesh: string) returns (n: int)
      ensures n == At(SimpleOf(Now(), kind), Group(mesh))
    {
      n := Simple(kind).GetByGroup(Group(mesh));
    }

    method Distribution(m: Metric) returns (result: Tally)
      ensures forall k :: At(result, k) == KeyTotal(DistributionOf(Now(), m), k)
    {
      result := Metered(m).GetAll();
    }

    method DistributionByMesh(m: Metric, mesh: string) returns (result: Tally)
      ensures forall k :: At(result, k) == Cell(DistributionOf(Now(), m), Group(mesh), k)
    {
      result := Metered(m).GetByGroup(Group(mesh));
    }

    method LoadInstance(r: Resource)
      requires Valid() && r.kind.Instance? && r.spec.Some?
      modifies protocol, release, discovery
      ensures protocol.data == Load(old(protocol.data), Protocol, r)
      ensures release.data == Load(old(release.data), Release, r)
      ensures discovery.data == Load(old(discovery.data), Discovery, r)
    {
      var mesh := if r.mesh == "" then "default" else r.mesh;
      if r.spec.value.protocol != "" {
        protocol.Increment(mesh, r.spec.value.protocol);
      }
      if r.spec.value.release != "" {
        release.Increment(mesh, r.spec.value.release);
      }
      discovery.Increment(mesh, mesh);
    }

    method LoadResource(kind: Kind, r: Resource)
      requires Valid() && r.kind == kind
      modifies Counters()
      ensures Now() == LoadedOne(old(Now()), kind, r)
    {
      var mesh := if r.mesh == "" then "default" else r.mesh;
      Simple(kind).Increment(mesh);
      if kind.Instance? && r.spec.Some? {
        LoadInstance(r);
      }
    }

    /** Count every stored resource of one kind, in whatever order the store lists them. */
    method InitializeResourceCount(kind: Kind, store: Store)
      requires Valid() && OfKind(store, kind) && NothingOf(Now(), kind)
      modifies Counters()
      ensures Loading(Now(), old(Now()), kind, store)
    {
      LoadingStarts(Now(), kind);
      var rest := store.Keys;
      ghost var done: Store := map[];
      while rest != {}
        invariant rest <= store.Keys && done == store - rest
        invariant Loading(Now(), old(Now()), kind, done)
        decreases |rest|
      {
        var k :| k in rest;
        LoadingGoesOn(Now(), old(Now()), kind, done, k, store[k]);
        LoadResource(kind, store[k]);
        rest := rest - {k};
        done := done[k := store[k]];
        assert done == store - rest;
      }
      assert done == store;
    }

    /** Load the kinds in order; a kind whose store cannot be routed to ends the load. */
    method InitializeCountsFromStore(stores: Stores, routes: Routes) returns (ok: bool)
      requires Valid() && WellKinded(stores) && Now() == EMPTY
      modifies Counters()
      ensures LoadedUpTo(Now(), stores, routes)
      ensures ok <==> routes.instances && routes.application && routes.providers
    {
      if !routes.instances { return false; }
      InitializeResourceCount(Instance, stores.instances);
      if !routes.application { return false; }
      InitializeResourceCount(Application, stores.application);
      if !routes.providers { return false; }
      InitializeResourceCount(ServiceProviderMetadata, stores.providers);
      return true;
    }

    method OnStartLeading(stores: Stores, routes: Routes)
      requires Valid() && WellKinded(stores)
      modifies this, Counters()
      ensures isLeader == Some(true) && LoadedUpTo(Now(), stores, routes)
    {
      isLeader := Some(true);
      Reset();
      var _ := InitializeCountsFromStore(stores, routes);
    }

    method OnStopLeading()
      requires Valid()
      modifies this, Counters()
      ensures isLeader == Some(false) && Now() == EMPTY
    {
      isLeader := Some(false);
      Reset();
    }
  }

  // ---------------------------------------------------------------- agreement

  ghost predicate Agrees(s: Snapshot, stores: Stores)
  {
    && SimpleAgrees(s.application, stores.application)
    && SimpleAgrees(s.providers, stores.providers)
    && InstancesAgree(s, stores.instances)
  }

  ghost predicate InstancesAgree(s: Snapshot, store: Store)
  {
    && SimpleAgrees(s.instances, store)
    && DistributionAgrees(s.protocol, store, Protocol)
    && DistributionAgrees(s.release, store, Release)
    && DistributionAgrees(s.discovery, store, Discovery)
  }

  /** The store changed, in every class that is counted for its kind, as the event says. */
  ghost predicate AllFollow(store: Store, store': Store, kind: Kind, e: Event)
  {
    && Follows(store, store', MeshOf, SimpleShift(e))
    && (kind.Instance? ==> CellsFollow(store, store', e))
  }

  ghost predicate CellsFollow(store: Store, store': Store, e: Event)
  {
    && Follows(store, store', CellOf(Protocol), DistributionShift(Protocol, e))
    && Follows(store, store', CellOf(Release), DistributionShift(Release, e))
    && Follows(store, store', CellOf(Discovery), DistributionShift(Discovery, e))
  }

  lemma InstanceEventIff(s: Snapshot, store: Store, store': Store, e: Event)
    requires InstancesAgree(s, store)
    ensures InstancesAgree(Handled(s, Instance, e), store') <==> AllFollow(store, store', Instance, e)
  {
    SimpleStepIff(s.instances, store, store', e);
    DistributionStepIff(s.protocol, store, store', Protocol, e);
    DistributionStepIff(s.release, store, store', Release, e);
    DistributionStepIff(s.discovery, store, store', Discovery, e);
  }

  /** For any event and any change of its kind's store: all counters stay right exactly when the
      store changed as the event says. */
  lemma EventKeepsAgreementIff(s: Snapshot, stores: Stores, kind: Kind, store': Store, e: Event)
    requires Agrees(s, stores)
    ensures Agrees(Handled(s, kind, e), WithStore(stores, kind, store'))
       <==> AllFollow(StoreOf(stores, kind), store', kind, e)
  {
    match kind
    case Application => SimpleStepIff(s.application, stores.application, store', e);
    case ServiceProviderMetadata => SimpleStepIff(s.providers, stores.providers, store', e);
    case Instance => InstanceEventIff(s, stores.instances, store', e);
  }

  /** Mesh names never contain the key separator. */
  ghost predicate Plain(r: Resource)
  {
    '/' !in r.mesh
  }

  ghost predicate PlainStore(store: Store)
  {
    WellKeyed(store) && forall k :: k in store ==> Plain(store[k])
  }

  ghost predicate PlainEvent(e: Event)
  {
    e.newObj.Some? ==> Plain(e.newObj.value)
  }

  ghost predicate AllPlain(es: seq<Event>)
  {
    forall i :: 0 <= i < |es| ==> PlainEvent(es[i])
  }

  lemma FaithfulMeshFollows(store: Store, e: Event)
    requires PlainStore(store) && PlainEvent(e) && Faithful(store, e)
    ensures Follows(store, Replay(store, e), MeshOf, SimpleShift(e))
  {
    if e.newObj.None? {
      FollowsRemove(store, MeshOf, Key(e.oldObj.value), MeshOf(e.oldObj.value));
    } else if e.oldObj.None? {
      FollowsAdd(store, MeshOf, Key(e.newObj.value), e.newObj.value, MeshOf(e.newObj.value));
    } else {
      KeyFixesMesh(e.oldObj.value, e.newObj.value);
      FollowsReplace(store, MeshOf, Key(e.newObj.value), e.newObj.value);
    }
  }

  lemma FaithfulCellFollows(store: Store, m: Metric, e: Event)
    requires Faithful(store, e)
    ensures Follows(store, Replay(store, e), CellOf(m), DistributionShift(m, e))
  {
    if e.newObj.None? {
      FollowsRemove(store, CellOf(m), Key(e.oldObj.value), CellIn(m, e.oldObj.value));
    } else if e.oldObj.None? {
      FollowsAdd(store, CellOf(m), Key(e.newObj.value), e.newObj.value, CellIn(m, e.newObj.value));
    } else if CellIn(m, e.oldObj.value) == CellIn(m, e.newObj.value) {
      FollowsReplace(store, CellOf(m), Key(e.newObj.value), e.newObj.value);
    } else {
      FollowsMove(store, CellOf(m), Key(e.newObj.value), e.newObj.value);
    }
  }

  lemma FaithfulFollows(store: Store, kind: Kind, e: Event)
    requires PlainStore(store) && PlainEvent(e) && Faithful(store, e)
    ensures AllFollow(store, Replay(store, e), kind, e)
  {
    FaithfulMeshFollows(store, e);
    FaithfulCellFollows(store, Protocol, e);
    FaithfulCellFollows(store, Release, e);
    FaithfulCellFollows(store, Discovery, e);
  }

  lemma PlainStays(store: Store, e: Event)
    requires PlainStore(store) && PlainEvent(e) && Faithful(store, e)
    ensures PlainStore(Replay(store, e))
  {
  }

  lemma FaithfulEventKeepsAgreement(s: Snapshot, stores: Stores, kind: Kind, e: Event)
    requires Agrees(s, stores) && PlainStore(StoreOf(stores, kind)) && PlainEvent(e)
    requires Faithful(StoreOf(stores, kind), e)
    ensures var stores' := WithStore(stores, kind, Replay(StoreOf(stores, kind), e));
            Agrees(Handled(s, kind, e), stores') && PlainStore(StoreOf(stores', kind))
  {
    var store := StoreOf(stores, kind);
    FaithfulFollows(store, kind, e);
    PlainStays(store, e);
    EventKeepsAgreementIff(s, stores, kind, Replay(store, e), e);
  }

  /** A faithful event never takes one from a count that is zero: the floor is not reached. */
  lemma FloorIsNotHit(store: Store, m: Metric, e: Event)
    requires Faithful(store, e)
    ensures SimpleShift(e).minus.Some? ==> Recount(store, MeshOf, SimpleShift(e).minus.value) > 0
    ensures DistributionShift(m, e).minus.Some? ==> Recount(store, CellOf(m), DistributionShift(m, e).minus.value) > 0
  {
    if e.oldObj.Some? {
      var key := Key(if e.newObj.Some? then e.newObj.value else e.oldObj.value);
      MemberCounts(store, MeshOf, key);
      MemberCounts(store, CellOf(m), key);
    }
  }

  /** Events in the order they were emitted. */
  function HandledAll(s: Snapshot, kind: Kind, es: seq<Event>): Snapshot
    decreases |es|
  {
    if es == [] then s else HandledAll(Handled(s, kind, es[0]), kind, es[1..])
  }

  /** Any sequence of faithful events keeps every counter equal to a recount. */
  lemma {:induction false} EventsKeepAgreement(s: Snapshot, stores: Stores, kind: Kind, es: seq<Event>)
    requires Agrees(s, stores) && PlainStore(StoreOf(stores, kind))
    requires AllFaithful(StoreOf(stores, kind), es) && AllPlain(es)
    ensures Agrees(HandledAll(s, kind, es), WithStore(stores, kind, ReplayAll(StoreOf(stores, kind), es)))
    decreases |es|
  {
    var store := StoreOf(stores, kind);
    if es == [] {
      assert WithStore(stores, kind, store) == stores;
    } else {
      var e := es[0];
      FaithfulEventKeepsAgreement(s, stores, kind, e);
      EventsKeepAgreement(Handled(s, kind, e), WithStore(stores, kind, Replay(store, e)), kind, es[1..]);
    }
  }

  ghost predicate AllComplete(store: Store, m: Metric)
  {
    forall k :: k in store ==> Complete(m, store[k])
  }

  /** A full load agrees with the stores exactly when every instance is complete. */
  lemma LoadAgrees(s: Snapshot, stores: Stores)
    requires LoadedUpTo(s, stores, ALL_ROUTED)
    ensures Agrees(s, stores)
       <==> && AllComplete(stores.instances, Protocol) && AllComplete(stores.instances, Release)
            && AllComplete(stores.instances, Discovery)
  {
    LoadAgreesIff(s.protocol, stores.instances, Protocol);
    LoadAgreesIff(s.release, stores.instances, Release);
    LoadAgreesIff(s.discovery, stores.instances, Discovery);
  }

  lemma ReportedTotals(s: Snapshot, stores: Stores, m: Metric, k: string, g: string)
    requires Agrees(s, stores)
    ensures Total(s.application) == |stores.application|
    ensures Total(s.providers) == |stores.providers|
    ensures Total(s.instances) == |stores.instances|
    ensures KeyTotal(DistributionOf(s, m), k) == Recount(stores.instances, KeyOf(m), k)
    ensures var d := DistributionOf(s, m); Total(if g in d then d[g] else map[]) == At(s.instances, g)
  {
    TotalIsStoreSize(s.application, stores.application);
    TotalIsStoreSize(s.providers, stores.providers);
    TotalIsStoreSize(s.instances, stores.instances);
    KeyTotalIsRecount(DistributionOf(s, m), stores.instances, m, k);
    MeshTotalIsCount(DistributionOf(s, m), s.instances, stores.instances, m, g);
  }
}
