/** The informer's delta handling: one batch of deltas against the indexer, with an event for each. */
module Informer {
  import opened Wrappers
  import opened Resources

  /** What the list-watcher hands over: a resource, something the transform turns into one, or
      something that is neither. */
  datatype Object = Ready(resource: Resource) | Convertible(resource: Resource) | Foreign

  datatype Payload = Direct(obj: Object) | Tombstone(obj: Object)

  datatype Delta = Delta(typ: DeltaType, payload: Payload)

  /** How the indexer behaves for one delta: whether Get and the write that follows fail. */
  datatype Indexing = Indexing(getFails: bool, writeFails: bool)

  function ToResource(p: Payload): Option<Resource>
  {
    match p.obj
    case Ready(r) => Some(r)
    case Convertible(r) => Some(r)
    case Foreign => None
  }

  /** A failed Get is treated like an absent key. */
  predicate SeenInStore(store: Store, r: Resource, x: Indexing)
  {
    !x.getFails && Key(r) in store
  }

  /** One delta: the new store and the event, or nothing when it fails. After a failed Get the
      resource is added, and a store that holds the key already refuses that. */
  function Handle(store: Store, d: Delta, x: Indexing): Option<(Store, Event)>
  {
    var r := ToResource(d.payload);
    if r.None? || x.writeFails then None
    else if d.typ.Deleted? then Some((store - {Key(r.value)}, Event(Deleted, r, None)))
    else if SeenInStore(store, r.value, x) then
      Some((store[Key(r.value) := r.value], Event(Updated, Some(store[Key(r.value)]), r)))
    else if Key(r.value) in store then None
    else Some((store[Key(r.value) := r.value], Event(Added, None, r)))
  }

  /** A batch of deltas, all of which succeed. */
  ghost predicate Handles(store: Store, ds: seq<Delta>, xs: seq<Indexing>)
    requires |xs| == |ds|
    decreases |ds|
  {
    ds == [] || (Handle(store, ds[0], xs[0]).Some?
                 && Handles(Handle(store, ds[0], xs[0]).value.0, ds[1..], xs[1..]))
  }

  /** The store and the events after a batch, up to the first delta that fails. */
  function HandleAll(store: Store, ds: seq<Delta>, xs: seq<Indexing>): (r: (Store, seq<Event>))
    requires |xs| == |ds|
    ensures |r.1| <= |ds|
    decreases |ds|
  {
    if ds == [] then (store, [])
    else
      var first := Handle(store, ds[0], xs[0]);
      if first.None? then (store, [])
      else
        var rest := HandleAll(first.value.0, ds[1..], xs[1..]);
        (rest.0, [first.value.1] + rest.1)
  }

  class Informer {
    var indexer: Store
    var emitted: seq<Event>

    constructor (store: Store)
      ensures indexer == store && emitted == []
    {
      indexer, emitted := store, [];
    }

    method EmitEvent(typ: DeltaType, oldObj: Option<Resource>, newObj: Option<Resource>)
      modifies this`emitted
      ensures emitted == old(emitted) + [Event(typ, oldObj, newObj)]
    {
      emitted := emitted + [Event(typ, oldObj, newObj)];
    }

    method HandleDelta(d: Delta, x: Indexing) returns (ok: bool)
      modifies this
      ensures ok <==> Handle(old(indexer), d, x).Some?
      ensures ok ==> indexer == Handle(old(indexer), d, x).value.0
      ensures ok ==> emitted == old(emitted) + [Handle(old(indexer), d, x).value.1]
      ensures !ok ==> unchanged(this)
    {
      var resource := ToResource(d.payload);
      if resource.None? || x.writeFails {
        return false;
      }
      var key := Key(resource.value);
      if d.typ.Deleted? {
        indexer := indexer - {key};
        EmitEvent(Deleted, resource, None);
      } else if SeenInStore(indexer, resource.value, x) {
        var stored := indexer[key];
        indexer := indexer[key := resource.value];
        EmitEvent(Updated, Some(stored), resource);
      } else if key in indexer {
        return false;
      } else {
        indexer := indexer[key := resource.value];
        EmitEvent(Added, None, resource);
      }
      return true;
    }

    method HandleDeltas(ds: seq<Delta>, xs: seq<Indexing>) returns (ok: bool)
      requires |xs| == |ds|
      modifies this
      ensures indexer == HandleAll(old(indexer), ds, xs).0
      ensures emitted == old(emitted) + HandleAll(old(indexer), ds, xs).1
      ensures ok <==> Handles(old(indexer), ds, xs)
    {
      var k := 0;
      while k < |ds|
        invariant 0 <= k <= |ds|
        invariant HandleAll(indexer, ds[k..], xs[k..]).0 == HandleAll(old(indexer), ds, xs).0
        invariant emitted + HandleAll(indexer, ds[k..], xs[k..]).1 == old(emitted) + HandleAll(old(indexer), ds, xs).1
        invariant Handles(indexer, ds[k..], xs[k..]) == Handles(old(indexer), ds, xs)
      {
        assert ds[k..][0] == ds[k] && xs[k..][0] == xs[k];
        assert ds[k..][1..] == ds[k + 1..] && xs[k..][1..] == xs[k + 1..];
        ok := HandleDelta(ds[k], xs[k]);
        if !ok {
          return;
        }
        k := k + 1;
      }
      return true;
    }
  }

  /** A batch applies and reports exactly the deltas before the first one that fails. */
  lemma {:induction false} ErrorKeepsPrefix(store: Store, ds: seq<Delta>, xs: seq<Indexing>)
    requires |xs| == |ds|
    ensures var n := |HandleAll(store, ds, xs).1|;
            && Handles(store, ds[..n], xs[..n])
            && HandleAll(store, ds, xs) == HandleAll(store, ds[..n], xs[..n])
            && (n < |ds| ==> Handle(HandleAll(store, ds, xs).0, ds[n], xs[n]).None?)
    decreases |ds|
  {
    var n := |HandleAll(store, ds, xs).1|;
    if n > 0 {
      var next := Handle(store, ds[0], xs[0]).value.0;
      ErrorKeepsPrefix(next, ds[1..], xs[1..]);
      assert ds[..n][1..] == ds[1..][..n - 1] && xs[..n][1..] == xs[1..][..n - 1];
    }
  }

  // --------------------------------------------------------- what a batch amounts to

  /** The delta is about a resource, or about something the transform makes one. */
  predicate Usable(d: Delta)
  {
    d.payload.obj.Ready? || d.payload.obj.Convertible?
  }

  predicate Names(d: Delta, k: string)
  {
    Usable(d) && Key(d.payload.obj.resource) == k
  }

  /** Exactly when a delta is carried out, and what it then does to the store and reports: nothing
      else changes, and an upsert of a stored resource reports what it replaced. */
  lemma DeltaDoes(store: Store, d: Delta, x: Indexing)
    ensures var h := Handle(store, d, x);
            && (h.Some? <==> && Usable(d) && !x.writeFails
                             && (d.typ.Deleted? || !x.getFails || Key(d.payload.obj.resource) !in store))
            && (h.Some? ==>
                  var r := d.payload.obj.resource;
                  && (forall k :: k != Key(r) ==> Holds(h.value.0, k) == Holds(store, k))
                  && Holds(h.value.0, Key(r)) == (if d.typ.Deleted? then None else Some(r))
                  && h.value.1 == (if d.typ.Deleted? then Event(Deleted, Some(r), None)
                                   else if Key(r) in store then Event(Updated, Some(store[Key(r)]), Some(r))
                                   else Event(Added, None, Some(r))))
  {
  }

  function Holds(store: Store, k: string): Option<Resource>
  {
    if k in store then Some(store[k]) else None
  }

  /** The last delta about the key. */
  ghost predicate LastAbout(ds: seq<Delta>, k: string, i: nat)
  {
    i < |ds| && Names(ds[i], k) && forall j :: i < j < |ds| ==> !Names(ds[j], k)
  }

  /** When every delta is about a resource and the indexer never fails, the whole batch is carried
      out with one event each, and every key ends as the last delta about it says: with its resource,
      with none after a deletion, and as before when no delta is about it. */
  lemma {:induction false} BatchApplies(store: Store, ds: seq<Delta>, xs: seq<Indexing>)
    requires |xs| == |ds| && forall i :: 0 <= i < |ds| ==> Usable(ds[i])
    requires forall i :: 0 <= i < |xs| ==> !xs[i].getFails && !xs[i].writeFails
    ensures Handles(store, ds, xs) && |HandleAll(store, ds, xs).1| == |ds|
    ensures forall k, i: nat :: LastAbout(ds, k, i) ==>
      Holds(HandleAll(store, ds, xs).0, k) == if ds[i].typ.Deleted? then None else Some(ds[i].payload.obj.resource)
    ensures forall k :: (forall i :: 0 <= i < |ds| ==> !Names(ds[i], k)) ==>
      Holds(HandleAll(store, ds, xs).0, k) == Holds(store, k)
    decreases |ds|
  {
    if ds != [] {
      var r, later := ds[0].payload.obj.resource, ds[1..];
      DeltaDoes(store, ds[0], xs[0]);
      var next := Handle(store, ds[0], xs[0]).value.0;
      BatchApplies(next, later, xs[1..]);
      var end := HandleAll(next, later, xs[1..]).0;
      assert HandleAll(store, ds, xs).0 == end;
      forall k, i: nat | LastAbout(ds, k, i)
        ensures Holds(end, k) == if ds[i].typ.Deleted? then None else Some(ds[i].payload.obj.resource)
      {
        if i > 0 {
          assert LastAbout(later, k, i - 1);
        } else {
          assert forall j :: 0 <= j < |later| ==> later[j] == ds[j + 1];
          assert Holds(end, k) == Holds(next, k);
        }
      }
      forall k | forall i :: 0 <= i < |ds| ==> !Names(ds[i], k) ensures Holds(end, k) == Holds(store, k) {
        assert !Names(ds[0], k);
        assert forall j :: 0 <= j < |later| ==> later[j] == ds[j + 1];
      }
    }
  }

  // --------------------------------------------------------------- faithfulness

  /** For every batch, failing or not: replaying the events rebuilds the store. */
  lemma {:induction false} EventsRebuildStore(store: Store, ds: seq<Delta>, xs: seq<Indexing>)
    requires |xs| == |ds|
    ensures ReplayAll(store, HandleAll(store, ds, xs).1) == HandleAll(store, ds, xs).0
    decreases |ds|
  {
    if ds != [] {
      var first := Handle(store, ds[0], xs[0]);
      if first.Some? {
        EventsRebuildStore(first.value.0, ds[1..], xs[1..]);
        assert Replay(store, first.value.1) == first.value.0;
        var rest := HandleAll(first.value.0, ds[1..], xs[1..]).1;
        assert ([first.value.1] + rest)[1..] == rest;
      }
    }
  }

  /** When a delta yields a truthful event: a deletion must carry exactly the stored object. */
  predicate Truthful(store: Store, d: Delta)
  {
    var r := ToResource(d.payload);
    r.Some? && d.typ.Deleted? ==> Key(r.value) in store && store[Key(r.value)] == r.value
  }

  lemma FaithfulIffTruthful(store: Store, d: Delta, x: Indexing)
    requires Handle(store, d, x).Some?
    ensures Faithful(store, Handle(store, d, x).value.1) <==> Truthful(store, d)
  {
  }

  /** Every delta of the batch that is reached is truthful in its turn. */
  ghost predicate AllTruthful(store: Store, ds: seq<Delta>, xs: seq<Indexing>)
    requires |xs| == |ds|
    decreases |ds|
  {
    ds == [] || Handle(store, ds[0], xs[0]).None?
    || (Truthful(store, ds[0]) && AllTruthful(Handle(store, ds[0], xs[0]).value.0, ds[1..], xs[1..]))
  }

  ghost predicate AllFaithful(store: Store, es: seq<Event>)
    decreases |es|
  {
    es == [] || (Faithful(store, es[0]) && AllFaithful(Replay(store, es[0]), es[1..]))
  }

  /** The emitted events are faithful to the store exactly when the deltas are truthful. */
  lemma {:induction false} BatchFaithfulIff(store: Store, ds: seq<Delta>, xs: seq<Indexing>)
    requires |xs| == |ds|
    ensures AllFaithful(store, HandleAll(store, ds, xs).1) <==> AllTruthful(store, ds, xs)
    decreases |ds|
  {
    if ds != [] {
      var first := Handle(store, ds[0], xs[0]);
      if first.Some? {
        BatchFaithfulIff(first.value.0, ds[1..], xs[1..]);
        FaithfulIffTruthful(store, ds[0], xs[0]);
        assert Replay(store, first.value.1) == first.value.0;
        var rest := HandleAll(first.value.0, ds[1..], xs[1..]).1;
        assert ([first.value.1] + rest)[1..] == rest;
      }
    }
  }

  /** A batch keeps every resource under its own key. */
  lemma {:induction false} BatchKeepsKeys(store: Store, ds: seq<Delta>, xs: seq<Indexing>)
    requires |xs| == |ds| && WellKeyed(store)
    ensures WellKeyed(HandleAll(store, ds, xs).0)
    decreases |ds|
  {
    if ds != [] && Handle(store, ds[0], xs[0]).Some? {
      BatchKeepsKeys(Handle(store, ds[0], xs[0]).value.0, ds[1..], xs[1..]);
    }
  }
}
