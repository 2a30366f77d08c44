/** Resources as the stores hold them, the events about them, and counting a store afresh. */
module Resources {
  import opened Wrappers

  datatype Kind = Application | ServiceProviderMetadata | Instance

  /** The part of an instance's spec that is counted, and what tells whether the registry and the
      runtime platform still know the instance. */
  datatype Spec = Spec(protocol: string, release: string, registerTime: string, runtime: bool)

  datatype Resource = Resource(kind: Kind, mesh: string, name: string, spec: Option<Spec>)

  type Store = map<string, Resource>

  /** BuildResourceKey. */
  function Key(r: Resource): string
  {
    r.mesh + "/" + r.name
  }

  ghost predicate WellKeyed(store: Store)
  {
    forall k :: k in store ==> Key(store[k]) == k
  }

  /** Mesh names without the separator are recovered from the key. */
  lemma KeyFixesMesh(a: Resource, b: Resource)
    requires Key(a) == Key(b) && '/' !in a.mesh && '/' !in b.mesh
    ensures a.mesh == b.mesh && a.name == b.name
  {
    var k := Key(a);
    assert forall i :: 0 <= i < |a.mesh| ==> k[i] != '/';
    assert forall i :: 0 <= i < |b.mesh| ==> k[i] != '/';
    assert k[|a.mesh|] == '/' && k[|b.mesh|] == '/';
    assert k[..|a.mesh|] == a.mesh && k[..|b.mesh|] == b.mesh;
    assert k[|a.mesh| + 1..] == a.name && k[|b.mesh| + 1..] == b.name;
  }

  // ---------------------------------------------------------------------- events

  datatype DeltaType = Sync | Replaced | Added | Updated | Deleted

  datatype Event = Event(typ: DeltaType, oldObj: Option<Resource>, newObj: Option<Resource>)

  /** What an event says happened to the store. */
  function Replay(store: Store, e: Event): Store
  {
    if e.newObj.Some? then store[Key(e.newObj.value) := e.newObj.value]
    else if e.oldObj.Some? then store - {Key(e.oldObj.value)}
    else store
  }

  function ReplayAll(store: Store, es: seq<Event>): Store
    decreases |es|
  {
    if es == [] then store else ReplayAll(Replay(store, es[0]), es[1..])
  }

  /** The event tells the truth about the store it happens to: additions are of absent keys, and
      old objects are exactly the stored ones. */
  predicate Faithful(store: Store, e: Event)
  {
    match e.typ
    case Added => e.oldObj.None? && e.newObj.Some? && Key(e.newObj.value) !in store
    case Deleted =>
      && e.newObj.None? && e.oldObj.Some?
      && Key(e.oldObj.value) in store && store[Key(e.oldObj.value)] == e.oldObj.value
    case Updated => FaithfulChange(store, e)
    case _ => if e.oldObj.None? then e.newObj.Some? && Key(e.newObj.value) !in store else FaithfulChange(store, e)
  }

  predicate FaithfulChange(store: Store, e: Event)
  {
    && e.newObj.Some? && e.oldObj.Some?
    && Key(e.newObj.value) in store && store[Key(e.newObj.value)] == e.oldObj.value
  }

  // -------------------------------------------------------------------- recounting

  /** How many resources of the store fall into class c. */
  ghost function Recount<T>(store: Store, classify: Resource -> T, c: T): nat
  {
    |Members(store, classify, c)|
  }

  ghost function Members<T>(store: Store, classify: Resource -> T, c: T): set<string>
  {
    set k | k in store && classify(store[k]) == c
  }

  lemma RecountAdd<T>(store: Store, classify: Resource -> T, k: string, r: Resource, c: T)
    requires k !in store
    ensures Recount(store[k := r], classify, c) == Recount(store, classify, c) + if classify(r) == c then 1 else 0
  {
    var after := Members(store[k := r], classify, c);
    if classify(r) == c {
      assert after == Members(store, classify, c) + {k};
    } else {
      assert after == Members(store, classify, c);
    }
  }

  lemma RecountRemove<T>(store: Store, classify: Resource -> T, k: string, c: T)
    requires k in store
    ensures Recount(store - {k}, classify, c)
         == Recount(store, classify, c) - if classify(store[k]) == c then 1 else 0
  {
    var after := Members(store - {k}, classify, c);
    if classify(store[k]) == c {
      assert k in Members(store, classify, c);
      assert after == Members(store, classify, c) - {k};
    } else {
      assert after == Members(store, classify, c);
    }
  }

  lemma RecountReplace<T>(store: Store, classify: Resource -> T, k: string, r: Resource, c: T)
    requires k in store
    ensures Recount(store[k := r], classify, c)
         == Recount(store, classify, c)
            - (if classify(store[k]) == c then 1 else 0) + (if classify(r) == c then 1 else 0)
  {
    RecountRemove(store, classify, k, c);
    RecountAdd(store - {k}, classify, k, r, c);
    assert (store - {k})[k := r] == store[k := r];
  }
}
