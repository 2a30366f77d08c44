/**
 Where instances and applications come from: the subscribers that turn registry and runtime events
 into stored instances, and instances into stored applications.
 */
module InstanceLifecycle {
  import opened Resources
  import opened Wrappers
  import Text

  const DEFAULT_MESH := "default"

  datatype RpcSpec = RpcSpec(appName: string, ip: string, port: int, protocol: string, release: string,
                             registerTime: string)

  /** An instance as a registry announces it. Its name is built from application, address and port,
      and so is the name of the instance made from it. */
  datatype RpcInstance = RpcInstance(mesh: string, name: string, spec: Option<RpcSpec>)

  /** An instance as the runtime platform reports it, under the platform's own id and named like the
      instance it would become; `source` says whether the report fills any of the fields that mark
      an instance as known to the platform. */
  datatype RuntimeSpec = RuntimeSpec(appName: string, ip: string, port: int, source: bool)
  datatype RuntimeInstance = RuntimeInstance(id: string, mesh: string, name: string, spec: Option<RuntimeSpec>)

  predicate Identified(mesh: string, appName: string, ip: string, port: int)
  {
    !Text.Blank(appName) && !Text.Blank(ip) && port > 0 && !Text.Blank(mesh)
  }

  predicate EnoughRpc(rpc: RpcInstance)
  {
    && rpc.spec.Some? && Identified(rpc.mesh, rpc.spec.value.appName, rpc.spec.value.ip, rpc.spec.value.port)
    && rpc.mesh != DEFAULT_MESH
  }

  predicate EnoughRuntime(rt: RuntimeInstance)
  {
    && rt.spec.Some? && Identified(rt.mesh, rt.spec.value.appName, rt.spec.value.ip, rt.spec.value.port)
    && rt.mesh != DEFAULT_MESH
  }

  function InstanceKey(mesh: string, name: string): string
  {
    Key(Resource(Instance, mesh, name, None))
  }

  // ------------------------------------------------------------ merging and clearing

  function MergeRpc(spec: Spec, rpc: RpcSpec): Spec
  {
    spec.(protocol := rpc.protocol, release := rpc.release, registerTime := rpc.registerTime)
  }

  function ClearRpc(spec: Spec): Spec
  {
    spec.(protocol := "", release := "", registerTime := "")
  }

  function WithSpec(r: Resource, spec: Spec): Resource
  {
    r.(spec := Some(spec))
  }

  /** ClearRPCInstanceFromInstance; without a spec there is nothing to clear. */
  function WithoutRpc(r: Resource): Resource
  {
    if r.spec.None? then r else WithSpec(r, ClearRpc(r.spec.value))
  }

  function WithoutRuntime(r: Resource): Resource
  {
    if r.spec.None? then r else WithSpec(r, r.spec.value.(runtime := false))
  }

  predicate HasRuntimeSource(r: Resource)
  {
    r.spec.Some? && r.spec.value.runtime
  }

  predicate HasRpcSource(r: Resource)
  {
    r.spec.Some? && r.spec.value.registerTime != ""
  }

  // ------------------------------------------------------------------- the handlers

  /** What a handler did: the store it left and the event it sent, if any. */
  datatype Emission = Emission(store: Store, event: Option<Event>)

  /** One call of a handler. `fails` says that a lookup or the write fails; `found` is the runtime
      instance a new instance is merged with; `other` is the instance the name and address indexes
      lead to. */
  datatype Handling =
    | RpcUpsert(rpc: RpcInstance, found: Option<RuntimeInstance>, fails: bool)
    | RpcDelete(rpc: RpcInstance, fails: bool)
    | RuntimeUpsert(rt: RuntimeInstance, other: Option<string>, fails: bool)
    | RuntimeDelete(rt: RuntimeInstance, other: Option<string>, fails: bool)

  /** The stored instance a runtime instance belongs to: its own key first, then the indexes. */
  function Related(store: Store, rt: RuntimeInstance, other: Option<string>): Option<string>
  {
    if rt.spec.None? then None
    else if EnoughRuntime(rt) && InstanceKey(rt.mesh, rt.name) in store then Some(InstanceKey(rt.mesh, rt.name))
    else if other.Some? && other.value in store then other
    else None
  }

  function FromRpc(rpc: RpcInstance, found: Option<RuntimeInstance>): Resource
    requires rpc.spec.Some?
  {
    var source := found.Some? && found.value.spec.Some? && found.value.spec.value.source;
    Resource(Instance, rpc.mesh, rpc.name, Some(MergeRpc(Spec("", "", "", source), rpc.spec.value)))
  }

  function FromRuntime(rt: RuntimeInstance): Resource
    requires rt.spec.Some?
  {
    Resource(Instance, rt.mesh, rt.name, Some(Spec("", "", "", rt.spec.value.source)))
  }

  /** What a handler does to the store: create an instance, rewrite a stored one with or without
      telling, or remove one. The instance is the one the event carries. */
  datatype Effect = Nothing | Create(instance: Resource) | Rewrite(key: string, instance: Resource, told: bool)
                  | Remove(key: string, instance: Resource)

  function Carried(store: Store, e: Effect): Emission
  {
    match e
    case Nothing => Emission(store, None)
    case Create(r) => Emission(store[Key(r) := r], Some(Event(Added, None, Some(r))))
    case Rewrite(k, r, told) =>
      Emission(store[k := r], if told then Some(Event(Updated, Some(r), Some(r))) else None)
    case Remove(k, r) => Emission(store - {k}, Some(Event(Deleted, Some(r), None)))
  }

  /** A merge rewrites the stored instance and tells nobody; into an instance without a spec it
      cannot be done. A source that goes away is cleared from the instance, which is then kept if
      the other source knows it and removed otherwise. */
  function EffectOf(store: Store, h: Handling): Effect
  {
    if h.fails then Nothing
    else match h
      case RpcUpsert(rpc, found, _) =>
        var key := InstanceKey(rpc.mesh, rpc.name);
        if !EnoughRpc(rpc) then Nothing
        else if key !in store then Create(FromRpc(rpc, found))
        else if store[key].spec.None? then Nothing
        else Rewrite(key, WithSpec(store[key], MergeRpc(store[key].spec.value, rpc.spec.value)), false)
      case RpcDelete(rpc, _) =>
        var key := InstanceKey(rpc.mesh, rpc.name);
        if key !in store then Nothing
        else if HasRuntimeSource(store[key]) then Rewrite(key, WithoutRpc(store[key]), true)
        else Remove(key, WithoutRpc(store[key]))
      case RuntimeUpsert(rt, other, _) =>
        var related := Related(store, rt, other);
        if related.None? then if EnoughRuntime(rt) then Create(FromRuntime(rt)) else Nothing
        else if store[related.value].spec.None? then Nothing
        else
          var r := store[related.value];
          Rewrite(related.value, WithSpec(r, r.spec.value.(runtime := rt.spec.value.source)), false)
      case RuntimeDelete(rt, other, _) =>
        var related := Related(store, rt, other);
        if related.None? then Nothing
        else if HasRpcSource(store[related.value]) then
          Rewrite(related.value, WithoutRuntime(store[related.value]), true)
        else Remove(related.value, WithoutRuntime(store[related.value]))
  }

  function Emitted(store: Store, h: Handling): Emission
  {
    Carried(store, EffectOf(store, h))
  }

  function AppKey(mesh: string, name: string): string
  {
    Key(Resource(Application, mesh, name, None))
  }

  /** The application of an instance or of provider metadata is stored, and announced, when it is new. */
  function Announced(apps: Store, mesh: string, name: string, fails: bool): Emission
  {
    var app := Resource(Application, mesh, name, None);
    if fails || Key(app) in apps then Emission(apps, None)
    else Emission(apps[Key(app) := app], Some(Event(Added, None, Some(app))))
  }

  // -------------------------------------------------------------- the subscribers

  class InstanceSubscriber {
    var instances: Store
    var sent: seq<Event>

    constructor (store: Store)
      ensures instances == store && sent == []
    {
      instances, sent := store, [];
    }

    ghost predicate Did(sentBefore: seq<Event>, e: Emission)
      reads this
    {
      instances == e.store && sent == (if e.event.Some? then sentBefore + [e.event.value] else sentBefore)
    }

    method Send(e: Event)
      modifies this`sent
      ensures sent == old(sent) + [e]
    {
      sent := sent + [e];
    }

    method ProcessRpcUpsert(rpc: RpcInstance, found: Option<RuntimeInstance>, fails: bool)
      modifies this
      ensures Did(old(sent), Emitted(old(instances), RpcUpsert(rpc, found, fails)))
    {
      if !EnoughRpc(rpc) || fails {
        return;
      }
      var key := InstanceKey(rpc.mesh, rpc.name);
      if key in instances {
        var instance := instances[key];
        if instance.spec.Some? {
          instances := instances[key := WithSpec(instance, MergeRpc(instance.spec.value, rpc.spec.value))];
        }
        return;
      }
      var instance := FromRpc(rpc, found);
      instances := instances[key := instance];
      Send(Event(Added, None, Some(instance)));
    }

    method ProcessRpcDelete(rpc: RpcInstance, fails: bool)
      modifies this
      ensures Did(old(sent), Emitted(old(instances), RpcDelete(rpc, fails)))
    {
      var key := InstanceKey(rpc.mesh, rpc.name);
      if fails || key !in instances {
        return;
      }
      var instance := WithoutRpc(instances[key]);
      if HasRuntimeSource(instance) {
        instances := instances[key := instance];
        Send(Event(Updated, Some(instance), Some(instance)));
        return;
      }
      instances := instances - {key};
      Send(Event(Deleted, Some(instance), None));
    }

    method ProcessRuntimeUpsert(rt: RuntimeInstance, other: Option<string>, fails: bool)
      modifies this
      ensures Did(old(sent), Emitted(old(instances), RuntimeUpsert(rt, other, fails)))
    {
      if fails {
        return;
      }
      var related := Related(instances, rt, other);
      if related.Some? {
        var instance := instances[related.value];
        if instance.spec.Some? {
          var spec := instance.spec.value.(runtime := rt.spec.value.source);
          instances := instances[related.value := WithSpec(instance, spec)];
        }
        return;
      }
      if !EnoughRuntime(rt) {
        return;
      }
      var instance := FromRuntime(rt);
      instances := instances[InstanceKey(rt.mesh, rt.name) := instance];
      Send(Event(Added, None, Some(instance)));
    }

    method ProcessRuntimeDelete(rt: RuntimeInstance, other: Option<string>, fails: bool)
      modifies this
      ensures Did(old(sent), Emitted(old(instances), RuntimeDelete(rt, other, fails)))
    {
      if fails {
        return;
      }
      var related := Related(instances, rt, other);
      if related.None? {
        return;
      }
      var instance := WithoutRuntime(instances[related.value]);
      if HasRpcSource(instance) {
        instances := instances[related.value := instance];
        Send(Event(Updated, Some(instance), Some(instance)));
        return;
      }
      instances := instances - {related.value};
      Send(Event(Deleted, Some(instance), None));
    }
  }

  /** The two subscribers that store applications, and the instance count they store with each. */
  class ApplicationSubscriber {
    var applications: Store
    var instanceCount: map<string, nat>
    var sent: seq<Event>

    constructor (store: Store, counts: map<string, nat>)
      ensures applications == store && instanceCount == counts && sent == []
    {
      applications, instanceCount, sent := store, counts, [];
    }

    ghost predicate Did(sentBefore: seq<Event>, e: Emission)
      reads this
    {
      applications == e.store && sent == (if e.event.Some? then sentBefore + [e.event.value] else sentBefore)
    }

    /** For provider metadata: an application that is known already is left alone. */
    method EnsureApplication(mesh: string, name: string, fails: bool)
      modifies this
      ensures name == "" ==> unchanged(this)
      ensures name != "" ==> Did(old(sent), Announced(old(applications), mesh, name, fails))
      ensures var key := AppKey(mesh, name);
              instanceCount == if name == "" || fails || key in old(applications) then old(instanceCount)
                               else old(instanceCount)[key := 0]
    {
      if name == "" || fails || AppKey(mesh, name) in applications {
        return;
      }
      Store(mesh, name, 0);
    }

    /** For an instance event, with the number of instances listed for the application: a known
        application gets the new number, and nobody is told. */
    method ProcessInstance(mesh: string, name: string, listed: nat, fails: bool)
      modifies this
      ensures Did(old(sent), Announced(old(applications), mesh, name, fails))
      ensures instanceCount == if fails then old(instanceCount) else old(instanceCount)[AppKey(mesh, name) := listed]
    {
      if fails {
        return;
      }
      if AppKey(mesh, name) in applications {
        instanceCount := instanceCount[AppKey(mesh, name) := listed];
        return;
      }
      Store(mesh, name, listed);
    }

    method Store(mesh: string, name: string, count: nat)
      requires AppKey(mesh, name) !in applications
      modifies this
      ensures Did(old(sent), Announced(old(applications), mesh, name, false))
      ensures instanceCount == old(instanceCount)[AppKey(mesh, name) := count]
    {
      var app := Resource(Application, mesh, name, None);
      applications := applications[Key(app) := app];
      instanceCount := instanceCount[Key(app) := count];
      sent := sent + [Event(Added, None, Some(app))];
    }
  }

  // -------------------------------------------------------- what the handlers keep

  /** A stored instance with its own key, a spec and a named mesh. */
  predicate Located(k: string, r: Resource)
  {
    Key(r) == k && r.kind.Instance? && r.spec.Some? && r.mesh != ""
  }

  ghost predicate AllLocated(store: Store)
  {
    forall k :: k in store ==> Located(k, store[k])
  }

  /** A created instance is new; a rewritten or removed one is stored and keeps its mesh. */
  ghost predicate Proper(store: Store, e: Effect)
  {
    match e
    case Nothing => true
    case Create(r) => Located(Key(r), r) && Key(r) !in store
    case Rewrite(k, r, _) => k in store && Located(k, r) && r.mesh == store[k].mesh
    case Remove(k, r) => k in store && r.kind.Instance? && r.mesh == store[k].mesh
  }

  lemma HandlersAreProper(store: Store, h: Handling)
    requires AllLocated(store)
    ensures Proper(store, EffectOf(store, h))
  {
  }

  lemma ProperKeepsLocated(store: Store, e: Effect)
    requires AllLocated(store) && Proper(store, e)
    ensures AllLocated(Carried(store, e).store)
  {
  }

  // -------------------------------------------------------------- who gets stored

  /** A registration names its application, address and port, and a mesh of its own. */
  predicate Registers(rpc: RpcInstance)
  {
    && rpc.spec.Some? && !Text.Blank(rpc.spec.value.appName) && !Text.Blank(rpc.spec.value.ip)
    && rpc.spec.value.port > 0 && !Text.Blank(rpc.mesh) && rpc.mesh != "default"
  }

  /** Such a registration is stored with what it announces, and one that is new is announced too;
      any other is passed over. */
  lemma RegistrationIsStored(store: Store, rpc: RpcInstance, found: Option<RuntimeInstance>)
    requires AllLocated(store)
    ensures var key, e := rpc.mesh + "/" + rpc.name, Emitted(store, RpcUpsert(rpc, found, false));
            if !Registers(rpc) then e == Emission(store, None)
            else && key in e.store && e.store[key].spec.Some?
                 && e.store[key].mesh == (if key in store then store[key].mesh else rpc.mesh)
                 && e.store[key].spec.value.protocol == rpc.spec.value.protocol
                 && e.store[key].spec.value.release == rpc.spec.value.release
                 && e.store[key].spec.value.registerTime == rpc.spec.value.registerTime
                 && (forall k :: k != key ==> (k in e.store <==> k in store) && (k in store ==> e.store[k] == store[k]))
                 && e.event == (if key in store then None else Some(Event(Added, None, Some(e.store[key]))))
  {
  }

  predicate Deploys(rt: RuntimeInstance)
  {
    && rt.spec.Some? && !Text.Blank(rt.spec.value.appName) && !Text.Blank(rt.spec.value.ip)
    && rt.spec.value.port > 0 && !Text.Blank(rt.mesh) && rt.mesh != "default"
  }

  /** A runtime report that leads to no stored instance becomes one of its own when it identifies
      itself, and is passed over otherwise. */
  lemma DeploymentIsStored(store: Store, rt: RuntimeInstance)
    requires rt.mesh + "/" + rt.name !in store
    ensures var key, e := rt.mesh + "/" + rt.name, Emitted(store, RuntimeUpsert(rt, None, false));
            if !Deploys(rt) then e == Emission(store, None)
            else && e.store == store[key := Resource(Instance, rt.mesh, rt.name,
                                                     Some(Spec("", "", "", rt.spec.value.source)))]
                 && e.event == Some(Event(Added, None, Some(e.store[key])))
  {
  }

  /** The instance a runtime report belongs to: the one of its own key when it identifies itself and
      that is stored, else the one the indexes lead to. */
  lemma RelatedIs(store: Store, rt: RuntimeInstance, other: Option<string>, k: string)
    ensures Related(store, rt, other) == Some(k)
       <==> && k in store && rt.spec.Some?
            && (if Deploys(rt) && rt.mesh + "/" + rt.name in store then k == rt.mesh + "/" + rt.name
                else other == Some(k))
  {
  }

  /** A runtime report is merged into the instance it belongs to, unannounced, and touches nothing
      but the platform's fields. */
  lemma DeploymentIsMerged(store: Store, rt: RuntimeInstance, other: Option<string>, k: string)
    requires AllLocated(store) && Related(store, rt, other) == Some(k)
    ensures var e := Emitted(store, RuntimeUpsert(rt, other, false));
            && e.event.None?
            && e.store == store[k := store[k].(spec := Some(store[k].spec.value.(runtime := rt.spec.value.source)))]
  {
    assert Located(k, store[k]);
  }

  /** What the end of a source does to the instance: the source's fields are cleared; the instance
      stays, announced as updated, when the other source left its mark, and goes, announced as
      deleted, when it did not. */
  ghost predicate SourceEnds(store: Store, e: Emission, k: string, cleared: Resource, stays: bool)
  {
    if stays then e == Emission(store[k := cleared], Some(Event(Updated, Some(cleared), Some(cleared))))
    else e == Emission(store - {k}, Some(Event(Deleted, Some(cleared), None)))
  }

  lemma RegistrationEnds(store: Store, rpc: RpcInstance)
    requires AllLocated(store)
    ensures var k, e := rpc.mesh + "/" + rpc.name, Emitted(store, RpcDelete(rpc, false));
            if k !in store then e == Emission(store, None)
            else
              var spec := store[k].spec.value;
              SourceEnds(store, e, k, store[k].(spec := Some(Spec("", "", "", spec.runtime))), spec.runtime)
  {
    var k := rpc.mesh + "/" + rpc.name;
    if k in store {
      assert Located(k, store[k]);
    }
  }

  lemma DeploymentEnds(store: Store, rt: RuntimeInstance, other: Option<string>, k: string)
    requires AllLocated(store) && Related(store, rt, other) == Some(k)
    ensures var spec := store[k].spec.value;
            SourceEnds(store, Emitted(store, RuntimeDelete(rt, other, false)), k,
                       store[k].(spec := Some(spec.(runtime := false))), spec.registerTime != "")
  {
    assert Located(k, store[k]);
  }

  /** A handling that fails changes nothing and announces nothing. */
  lemma FailureDoesNothing(store: Store, h: Handling)
    requires h.fails
    ensures Emitted(store, h) == Emission(store, None)
  {
  }
}
