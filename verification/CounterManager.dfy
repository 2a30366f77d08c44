/** The counter manager: counters driven by resource events, against a recount of the store. */
module CounterManager {
  import opened Wrappers
  import opened Resources
  import opened Counters

  datatype Metric = Protocol | Release | Discovery

  /** The value the registered extractor takes from a resource. */
  function Extract(m: Metric, r: Resource): string
  {
    if !r.kind.Instance? then ""
    else match m
      case Protocol => if r.spec.Some? then r.spec.value.protocol else ""
      case Release => if r.spec.Some? then r.spec.value.release else ""
      case Discovery => r.mesh
  }

  function MeshOf(r: Resource): string
  {
    Group(r.mesh)
  }

  function KeyIn(m: Metric, r: Resource): string
  {
    KeyName(Extract(m, r))
  }

  function CellIn(m: Metric, r: Resource): (string, string)
  {
    (MeshOf(r), KeyIn(m, r))
  }

  function KeyOf(m: Metric): Resource -> string
  {
    r => KeyIn(m, r)
  }

  function CellOf(m: Metric): Resource -> (string, string)
  {
    r => CellIn(m, r)
  }

  // -------------------------------------------------------------- event processing

  /** extractMeshName of the new object, or of the old one when there is no new one. */
  function EventMesh(e: Event): string
  {
    if e.newObj.Some? then MeshOf(e.newObj.value)
    else if e.oldObj.Some? then MeshOf(e.oldObj.value)
    else "default"
  }

  function EventKey(m: Metric, obj: Option<Resource>): string
  {
    if obj.Some? then KeyIn(m, obj.value) else "unknown"
  }

  function ObjectMesh(obj: Option<Resource>): string
  {
    if obj.Some? then MeshOf(obj.value) else "default"
  }

  function ProcessSimple(data: Tally, e: Event): Tally
  {
    match e.typ
    case Added => Plus(data, EventMesh(e))
    case Deleted => Minus(data, EventMesh(e))
    case Updated => data
    case _ => if e.oldObj.None? then Plus(data, EventMesh(e)) else data
  }

  /** Move one resource from its old cell to its new one. */
  function Move(data: Distribution, m: Metric, oldObj: Option<Resource>, newObj: Option<Resource>): Distribution
  {
    var g, k := ObjectMesh(oldObj), EventKey(m, oldObj);
    var h, j := ObjectMesh(newObj), EventKey(m, newObj);
    if k == j && g == h then data
    else
      var taken := if oldObj.Some? then MinusCell(data, g, k) else data;
      if newObj.Some? then PlusCell(taken, h, j) else taken
  }

  function ProcessDistribution(data: Distribution, m: Metric, e: Event): Distribution
  {
    match e.typ
    case Added => PlusCell(data, EventMesh(e), EventKey(m, e.newObj))
    case Deleted => MinusCell(data, EventMesh(e), EventKey(m, e.oldObj))
    case Updated => Move(data, m, e.oldObj, e.newObj)
    case _ =>
      if e.oldObj.None? then PlusCell(data, EventMesh(e), EventKey(m, e.newObj))
      else Move(data, m, e.oldObj, e.newObj)
  }

  // ------------------------------------------------------------- agreement with a store

  ghost predicate SimpleAgrees(data: Tally, store: Store)
  {
    Positive(data) && forall g :: At(data, g) == Recount(store, MeshOf, g)
  }

  ghost predicate DistributionAgrees(data: Distribution, store: Store, m: Metric)
  {
    Compact(data) && forall g, k :: Cell(data, g, k) == Recount(store, CellOf(m), (g, k))
  }

  lemma MemberCounts<T>(store: Store, classify: Resource -> T, k: string)
    requires k in store
    ensures Recount(store, classify, classify(store[k])) > 0
  {
    assert k in Members(store, classify, classify(store[k]));
  }

  // --------------------------------------------------------- what an event moves

  /** The class an event takes one from, and the class it adds one to. */
  datatype Shift<T> = Shift(minus: Option<T>, plus: Option<T>)

  function SimpleShift(e: Event): Shift<string>
  {
    match e.typ
    case Added => Shift(None, Some(EventMesh(e)))
    case Deleted => Shift(Some(EventMesh(e)), None)
    case Updated => Shift(None, None)
    case _ => Shift(None, if e.oldObj.None? then Some(EventMesh(e)) else None)
  }

  function MoveShift(m: Metric, oldObj: Option<Resource>, newObj: Option<Resource>): Shift<(string, string)>
  {
    var c, d := (ObjectMesh(oldObj), EventKey(m, oldObj)), (ObjectMesh(newObj), EventKey(m, newObj));
    if c == d then Shift(None, None)
    else Shift(if oldObj.Some? then Some(c) else None, if newObj.Some? then Some(d) else None)
  }

  function DistributionShift(m: Metric, e: Event): Shift<(string, string)>
  {
    match e.typ
    case Added => Shift(None, Some((EventMesh(e), EventKey(m, e.newObj))))
    case Deleted => Shift(Some((EventMesh(e), EventKey(m, e.oldObj))), None)
    case Updated => MoveShift(m, e.oldObj, e.newObj)
    case _ =>
      if e.oldObj.None? then Shift(None, Some((EventMesh(e), EventKey(m, e.newObj))))
      else MoveShift(m, e.oldObj, e.newObj)
  }

  /** A count n of class c after the shift; a decrement stops at zero. */
  function Shifted<T(==)>(shift: Shift<T>, c: T, n: int): int
  {
    n - (if shift.minus == Some(c) && n > 0 then 1 else 0) + (if shift.plus == Some(c) then 1 else 0)
  }

  /** The store changed by exactly what the shift says, class by class. */
  ghost predicate Follows<T(!new)>(store: Store, store': Store, classify: Resource -> T, shift: Shift<T>)
  {
    forall c :: Recount(store', classify, c) == Shifted(shift, c, Recount(store, classify, c))
  }

  lemma SimpleShifts(data: Tally, e: Event, g: string)
    requires Positive(data)
    ensures Positive(ProcessSimple(data, e))
    ensures At(ProcessSimple(data, e), g) == Shifted(SimpleShift(e), g, At(data, g))
  {
    PlusCounts(data, EventMesh(e), g);
    MinusCounts(data, EventMesh(e), g);
  }

  lemma MoveShifts(data: Distribution, m: Metric, o: Option<Resource>, n: Option<Resource>, g: string, k: string)
    requires Compact(data)
    ensures Compact(Move(data, m, o, n))
    ensures Cell(Move(data, m, o, n), g, k) == Shifted(MoveShift(m, o, n), (g, k), Cell(data, g, k))
  {
    var c, d := (ObjectMesh(o), EventKey(m, o)), (ObjectMesh(n), EventKey(m, n));
    MinusCellCounts(data, c.0, c.1, g, k);
    PlusCellCounts(data, d.0, d.1, g, k);
    PlusCellCounts(MinusCell(data, c.0, c.1), d.0, d.1, g, k);
  }

  lemma DistributionShifts(data: Distribution, m: Metric, e: Event, g: string, k: string)
    requires Compact(data)
    ensures Compact(ProcessDistribution(data, m, e))
    ensures Cell(ProcessDistribution(data, m, e), g, k)
         == Shifted(DistributionShift(m, e), (g, k), Cell(data, g, k))
  {
    match e.typ
    case Added => PlusCellCounts(data, EventMesh(e), EventKey(m, e.newObj), g, k);
    case Deleted => MinusCellCounts(data, EventMesh(e), EventKey(m, e.oldObj), g, k);
    case Updated => MoveShifts(data, m, e.oldObj, e.newObj, g, k);
    case _ =>
      if e.oldObj.None? {
        PlusCellCounts(data, EventMesh(e), EventKey(m, e.newObj), g, k);
      } else {
        MoveShifts(data, m, e.oldObj, e.newObj, g, k);
      }
  }

  /** For any event and any change of the store: the per-mesh count stays right exactly when the
      store changed as the event says. */
  lemma SimpleStepIff(data: Tally, store: Store, store': Store, e: Event)
    requires SimpleAgrees(data, store)
    ensures SimpleAgrees(ProcessSimple(data, e), store') <==> Follows(store, store', MeshOf, SimpleShift(e))
  {
    var after := ProcessSimple(data, e);
    forall g ensures Positive(after) && At(after, g) == Shifted(SimpleShift(e), g, Recount(store, MeshOf, g)) {
      SimpleShifts(data, e, g);
    }
  }

  /** A change nobody is told about keeps a count right exactly when no class changes. */
  lemma SimpleSilentIff(data: Tally, store: Store, store': Store)
    requires SimpleAgrees(data, store)
    ensures SimpleAgrees(data, store') <==> Follows(store, store', MeshOf, Shift(None, None))
  {
  }

  /** The same for a distribution. */
  lemma DistributionStepIff(data: Distribution, store: Store, store': Store, m: Metric, e: Event)
    requires DistributionAgrees(data, store, m)
    ensures DistributionAgrees(ProcessDistribution(data, m, e), store', m)
       <==> Follows(store, store', CellOf(m), DistributionShift(m, e))
  {
    var after := ProcessDistribution(data, m, e);
    var shift := DistributionShift(m, e);
    forall g, k
      ensures Compact(after)
      ensures Cell(after, g, k) == Shifted(shift, (g, k), Recount(store, CellOf(m), (g, k)))
    {
      DistributionShifts(data, m, e, g, k);
    }
    if DistributionAgrees(after, store', m) {
      forall c ensures Recount(store', CellOf(m), c) == Shifted(shift, c, Recount(store, CellOf(m), c)) {
        assert Cell(after, c.0, c.1) == Recount(store', CellOf(m), (c.0, c.1));
      }
    }
  }

  /** Without an event, for a distribution. */
  lemma DistributionSilentIff(data: Distribution, store: Store, store': Store, m: Metric)
    requires DistributionAgrees(data, store, m)
    ensures DistributionAgrees(data, store', m) <==> Follows(store, store', CellOf(m), Shift(None, None))
  {
    if DistributionAgrees(data, store', m) {
      forall c ensures Recount(store', CellOf(m), c) == Recount(store, CellOf(m), c) {
        assert Cell(data, c.0, c.1) == Recount(store', CellOf(m), (c.0, c.1));
      }
    }
  }

  // -------------------------------------------- when the store follows, by kind of change

  lemma FollowsAdd<T(!new)>(store: Store, classify: Resource -> T, k: string, r: Resource, c: T)
    requires k !in store
    ensures Follows(store, store[k := r], classify, Shift(None, Some(c))) <==> classify(r) == c
  {
    forall d
      ensures Recount(store[k := r], classify, d) == Recount(store, classify, d) + if classify(r) == d then 1 else 0
    {
      RecountAdd(store, classify, k, r, d);
    }
    if classify(r) != c {
      assert Recount(store[k := r], classify, c) != Shifted(Shift(None, Some(c)), c, Recount(store, classify, c));
    }
  }

  lemma FollowsReplace<T(!new)>(store: Store, classify: Resource -> T, k: string, r: Resource)
    requires k in store
    ensures Follows(store, store[k := r], classify, Shift(None, None)) <==> classify(store[k]) == classify(r)
  {
    forall d
      ensures Recount(store[k := r], classify, d)
           == Recount(store, classify, d) - (if classify(store[k]) == d then 1 else 0)
              + (if classify(r) == d then 1 else 0)
    {
      RecountReplace(store, classify, k, r, d);
    }
    var c, none := classify(r), Shift<T>.Shift(None, None);
    if classify(store[k]) != c {
      assert Recount(store[k := r], classify, c) != Shifted(none, c, Recount(store, classify, c));
    }
  }

  /** A move from the stored resource's class to the new one's always follows. */
  lemma FollowsMove<T(!new)>(store: Store, classify: Resource -> T, k: string, r: Resource)
    requires k in store && classify(store[k]) != classify(r)
    ensures Follows(store, store[k := r], classify, Shift(Some(classify(store[k])), Some(classify(r))))
  {
    MemberCounts(store, classify, k);
    forall d
      ensures Recount(store[k := r], classify, d)
           == Shifted(Shift(Some(classify(store[k])), Some(classify(r))), d, Recount(store, classify, d))
    {
      RecountReplace(store, classify, k, r, d);
    }
  }

  lemma FollowsRemove<T(!new)>(store: Store, classify: Resource -> T, k: string, c: T)
    requires k in store
    ensures Follows(store, store - {k}, classify, Shift(Some(c), None)) <==> classify(store[k]) == c
  {
    MemberCounts(store, classify, k);
    forall d
      ensures Recount(store - {k}, classify, d)
           == Recount(store, classify, d) - if classify(store[k]) == d then 1 else 0
    {
      RecountRemove(store, classify, k, d);
    }
    var d := classify(store[k]);
    if d != c {
      assert Recount(store - {k}, classify, d) != Shifted(Shift(Some(c), None), d, Recount(store, classify, d));
    }
  }

  /** A deletion of nothing is right only when there is nothing of its class to take away. */
  lemma FollowsNothing<T(!new)>(store: Store, classify: Resource -> T, c: T)
    ensures Follows(store, store, classify, Shift(Some(c), None)) <==> Recount(store, classify, c) == 0
  {
    if Recount(store, classify, c) > 0 {
      assert Recount(store, classify, c) != Shifted(Shift(Some(c), None), c, Recount(store, classify, c));
    }
  }

  /** What enters or leaves a store unannounced always changes a class. */
  lemma SilenceLosesChanges<T(!new)>(store: Store, classify: Resource -> T, k: string, r: Resource)
    ensures k !in store ==> !Follows(store, store[k := r], classify, Shift(None, None))
    ensures k in store ==> !Follows(store, store - {k}, classify, Shift(None, None))
  {
    if k in store {
      RecountRemove(store, classify, k, classify(store[k]));
    } else {
      RecountAdd(store, classify, k, r, classify(r));
    }
  }

  lemma EmptyAgreesIff(store: Store, m: Metric)
    ensures SimpleAgrees(map[], store) <==> store == map[]
    ensures DistributionAgrees(map[], store, m) <==> store == map[]
  {
    if k :| k in store {
      MemberCounts(store, MeshOf, k);
      MemberCounts(store, CellOf(m), k);
      assert Recount(store, CellOf(m), (MeshOf(store[k]), KeyIn(m, store[k]))) > 0;
    } else {
      NothingAgrees(m);
    }
  }

  // ------------------------------------------------------------------------ totals

  ghost function Restrict<T>(store: Store, classify: Resource -> T, c: T): Store
  {
    map k | k in store && classify(store[k]) == c :: store[k]
  }

  ghost function Recounts(store: Store, classify: Resource -> string): string -> int
  {
    g => Recount(store, classify, g)
  }

  ghost function Within(store: Store, classify: Resource -> string, groups: set<string>): set<string>
  {
    set k | k in store && classify(store[k]) in groups
  }

  lemma WithinSplits(store: Store, classify: Resource -> string, groups: set<string>, g: string)
    requires g in groups
    ensures |Within(store, classify, groups)|
         == |Within(store, classify, groups - {g})| + Recount(store, classify, g)
  {
    var rest, here := Within(store, classify, groups - {g}), Members(store, classify, g);
    assert Within(store, classify, groups) == rest + here;
    assert rest !! here;
  }

  /** Counting class by class counts every resource of those classes once. */
  lemma {:induction false} SumOfRecounts(store: Store, classify: Resource -> string, groups: set<string>)
    ensures Sum(groups, Recounts(store, classify)) == |Within(store, classify, groups)|
  {
    if groups == {} {
      assert Within(store, classify, groups) == {};
    } else {
      var g :| g in groups;
      SumWithout(groups, Recounts(store, classify), g);
      SumOfRecounts(store, classify, groups - {g});
      WithinSplits(store, classify, groups, g);
    }
  }

  /** Any numbers that agree with a recount, over keys that miss no resource, add up to the store. */
  lemma SumIsSize(store: Store, classify: Resource -> string, groups: set<string>, f: string -> int)
    requires forall g :: g in groups ==> f(g) == Recount(store, classify, g)
    requires forall k :: k in store ==> classify(store[k]) in groups
    ensures Sum(groups, f) == |store|
  {
    SumSame(groups, f, Recounts(store, classify));
    SumOfRecounts(store, classify, groups);
    assert Within(store, classify, groups) == store.Keys;
  }

  /** The total of a counter is the number of resources. */
  lemma TotalIsStoreSize(data: Tally, store: Store)
    requires SimpleAgrees(data, store)
    ensures Total(data) == |store|
  {
    forall k | k in store ensures MeshOf(store[k]) in data.Keys {
      MemberCounts(store, MeshOf, k);
      assert At(data, MeshOf(store[k])) > 0;
    }
    SumIsSize(store, MeshOf, data.Keys, Counters.Counts(data));
  }

  /** A distribution summed over the meshes counts each key's resources. */
  lemma KeyTotalIsRecount(data: Distribution, store: Store, m: Metric, k: string)
    requires DistributionAgrees(data, store, m)
    ensures KeyTotal(data, k) == Recount(store, KeyOf(m), k)
  {
    var sub := Restrict(store, KeyOf(m), k);
    assert sub.Keys == Members(store, KeyOf(m), k);
    forall g ensures CountsOfKey(data, k)(g) == Recount(sub, MeshOf, g) {
      assert Members(sub, MeshOf, g) == Members(store, CellOf(m), (g, k));
      assert Cell(data, g, k) == Recount(store, CellOf(m), (g, k));
    }
    forall x | x in sub ensures MeshOf(sub[x]) in data.Keys {
      MemberCounts(sub, MeshOf, x);
      assert CountsOfKey(data, k)(MeshOf(sub[x])) > 0;
    }
    SumIsSize(sub, MeshOf, data.Keys, CountsOfKey(data, k));
  }

  /** What GetAll reports adds up to the number of resources. */
  lemma DistributionTotalIsSize(data: Distribution, store: Store, m: Metric, all: Tally)
    requires DistributionAgrees(data, store, m) && forall k :: At(all, k) == KeyTotal(data, k)
    ensures Total(all) == |store|
  {
    forall k ensures At(all, k) == Recount(store, KeyOf(m), k) {
      KeyTotalIsRecount(data, store, m, k);
    }
    forall x | x in store ensures KeyOf(m)(store[x]) in all.Keys {
      MemberCounts(store, KeyOf(m), x);
      assert At(all, KeyOf(m)(store[x])) > 0;
    }
    SumIsSize(store, KeyOf(m), all.Keys, Counters.Counts(all));
  }

  /** Within one mesh, every distribution adds up to that mesh's resource count. */
  lemma MeshTotalIsCount(data: Distribution, simple: Tally, store: Store, m: Metric, g: string)
    requires DistributionAgrees(data, store, m) && SimpleAgrees(simple, store)
    ensures Total(if g in data then data[g] else map[]) == At(simple, g)
  {
    var row := if g in data then data[g] else map[];
    var sub := Restrict(store, MeshOf, g);
    assert sub.Keys == Members(store, MeshOf, g);
    forall k ensures At(row, k) == Recount(sub, KeyOf(m), k) {
      assert Members(sub, KeyOf(m), k) == Members(store, CellOf(m), (g, k));
      assert Cell(data, g, k) == Recount(store, CellOf(m), (g, k));
    }
    forall x | x in sub ensures KeyOf(m)(sub[x]) in row.Keys {
      MemberCounts(sub, KeyOf(m), x);
      assert At(row, KeyOf(m)(sub[x])) > 0;
    }
    SumIsSize(sub, KeyOf(m), row.Keys, Counters.Counts(row));
  }

  // ------------------------------------------------------ what a count says of the store

  /** The resource belongs to the mesh; no mesh is the default one. */
  predicate InMesh(r: Resource, mesh: string)
  {
    r.mesh == mesh || (r.mesh == "" && mesh == "default")
  }

  /** The instance speaks the protocol (runs the release, is in the mesh); none is unknown. */
  predicate HasKey(m: Metric, r: Resource, key: string)
    requires r.kind.Instance? && r.spec.Some?
  {
    var value := match m case Protocol => r.spec.value.protocol case Release => r.spec.value.release
                         case Discovery => r.mesh;
    key == if value == "" then "unknown" else value
  }

  /** An agreeing count by mesh is the number of stored resources of the mesh. */
  lemma MeshCountMeans(data: Tally, store: Store, mesh: string)
    requires SimpleAgrees(data, store) && mesh != ""
    ensures At(data, mesh) == |set k | k in store && InMesh(store[k], mesh)|
  {
    assert Members(store, MeshOf, mesh) == set k | k in store && InMesh(store[k], mesh);
  }

  /** A cell of an agreeing distribution is the number of stored instances of the mesh with that key. */
  lemma CellMeans(data: Distribution, store: Store, m: Metric, mesh: string, key: string)
    requires DistributionAgrees(data, store, m) && mesh != ""
    requires forall k :: k in store ==> store[k].kind.Instance? && store[k].spec.Some?
    ensures Cell(data, mesh, key) == |set k | k in store && InMesh(store[k], mesh) && HasKey(m, store[k], key)|
  {
    assert Members(store, CellOf(m), (mesh, key))
        == set k | k in store && InMesh(store[k], mesh) && HasKey(m, store[k], key);
  }

  // ----------------------------------------------------------------- initial counts

  /** The cell the initial load counts a resource in, if it counts it at all. */
  function LoadedIn(m: Metric, r: Resource): Option<(string, string)>
  {
    if !r.kind.Instance? || r.spec.None? then None
    else match m
      case Protocol => if r.spec.value.protocol == "" then None else Some((MeshOf(r), r.spec.value.protocol))
      case Release => if r.spec.value.release == "" then None else Some((MeshOf(r), r.spec.value.release))
      case Discovery => Some((MeshOf(r), MeshOf(r)))
  }

  function LoadCell(m: Metric): Resource -> Option<(string, string)>
  {
    r => LoadedIn(m, r)
  }

  ghost predicate Loaded(data: Distribution, store: Store, m: Metric)
  {
    Compact(data) && forall g, k :: Cell(data, g, k) == Recount(store, LoadCell(m), Some((g, k)))
  }

  function Load(data: Distribution, m: Metric, r: Resource): Distribution
  {
    match LoadedIn(m, r)
    case None => data
    case Some(c) => PlusCell(data, c.0, c.1)
  }

  lemma SimpleLoadStep(data: Tally, store: Store, key: string, r: Resource)
    requires SimpleAgrees(data, store) && key !in store
    ensures SimpleAgrees(Plus(data, MeshOf(r)), store[key := r])
  {
    forall g ensures At(Plus(data, MeshOf(r)), g) == Recount(store[key := r], MeshOf, g) {
      RecountAdd(store, MeshOf, key, r, g);
    }
  }

  lemma LoadStep(data: Distribution, store: Store, m: Metric, key: string, r: Resource)
    requires Loaded(data, store, m) && key !in store
    ensures Loaded(Load(data, m, r), store[key := r], m)
  {
    var after := Load(data, m, r);
    forall g, k
      ensures Compact(after)
      ensures Cell(after, g, k) == Recount(store[key := r], LoadCell(m), Some((g, k)))
    {
      RecountAdd(store, LoadCell(m), key, r, Some((g, k)));
      if LoadedIn(m, r).Some? {
        var c := LoadedIn(m, r).value;
        PlusCellCounts(data, c.0, c.1, g, k);
      }
    }
  }

  /** The load and the events count this resource alike. */
  predicate Complete(m: Metric, r: Resource)
  {
    && r.kind.Instance? && r.spec.Some?
    && match m
       case Protocol => r.spec.value.protocol != ""
       case Release => r.spec.value.release != ""
       case Discovery => r.mesh != ""
  }

  lemma CompleteIsAlike(m: Metric, r: Resource)
    ensures Complete(m, r) <==> LoadedIn(m, r) == Some(CellIn(m, r))
    ensures LoadedIn(m, r).Some? && !(m.Discovery? && r.mesh == "") ==> Complete(m, r)
    ensures m.Discovery? ==> LoadedIn(m, r) != Some(("default", "unknown"))
  {
    assert "default"[0] != "unknown"[0];
  }

  /** An incomplete resource is short in its own cell. */
  lemma IncompleteIsShort(store: Store, m: Metric, key: string)
    requires key in store && !Complete(m, store[key])
    requires m.Discovery? ==> store[key].mesh == "" || forall k :: k in store ==> store[k].mesh != ""
    ensures var c := CellIn(m, store[key]);
            Recount(store, LoadCell(m), Some(c)) < Recount(store, CellOf(m), c)
  {
    var c := CellIn(m, store[key]);
    var short, full := Members(store, LoadCell(m), Some(c)), Members(store, CellOf(m), c);
    forall k | k in short ensures k in full {
      CompleteIsAlike(m, store[k]);
    }
    CompleteIsAlike(m, store[key]);
    assert key in full && key !in short;
    SmallerSet(short, full);
  }

  lemma SmallerSet(a: set<string>, b: set<string>)
    requires a < b
    ensures |a| < |b|
  {
    assert b == a + (b - a);
    assert |b| == |a| + |b - a|;
  }

  /** The initial load agrees with the store exactly when every instance is complete. */
  lemma LoadAgreesIff(data: Distribution, store: Store, m: Metric)
    requires Loaded(data, store, m)
    ensures DistributionAgrees(data, store, m) <==> forall k :: k in store ==> Complete(m, store[k])
  {
    if forall k :: k in store ==> Complete(m, store[k]) {
      forall k | k in store ensures LoadedIn(m, store[k]) == Some(CellIn(m, store[k])) {
        CompleteIsAlike(m, store[k]);
      }
      forall g, k ensures Cell(data, g, k) == Recount(store, CellOf(m), (g, k)) {
        assert Members(store, LoadCell(m), Some((g, k))) == Members(store, CellOf(m), (g, k));
      }
    } else {
      var k :| k in store && !Complete(m, store[k]);
      if m.Discovery? && exists x :: x in store && store[x].mesh == "" {
        k :| k in store && store[k].mesh == "";
      }
      IncompleteIsShort(store, m, k);
      var c := CellIn(m, store[k]);
      assert Cell(data, c.0, c.1) != Recount(store, CellOf(m), (c.0, c.1));
    }
  }

  // -------------------------------------------------------------- a load that miscounts

  lemma NothingAgrees(m: Metric)
    ensures DistributionAgrees(map[], map[], m) && Loaded(map[], map[], m)
  {
    forall g, k
      ensures Recount(map[], CellOf(m), (g, k)) == 0 == Recount(map[], LoadCell(m), Some((g, k)))
    {
      assert Members(map[], CellOf(m), (g, k)) == {} == Members(map[], LoadCell(m), Some((g, k)));
    }
  }

  const UNNAMED := Resource(Instance, "m", "i", Some(Spec("", "3.3", "", false)))

  /** The load skips an instance without a protocol; the events would count it as unknown. */
  lemma UnnamedProtocolMiscounts()
    ensures var key := Key(UNNAMED);
            var data := Load(map[], Protocol, UNNAMED);
            Loaded(data, map[key := UNNAMED], Protocol) && !DistributionAgrees(data, map[key := UNNAMED], Protocol)
  {
    var key, none := Key(UNNAMED), map[];
    NothingAgrees(Protocol);
    LoadStep(map[], none, Protocol, key, UNNAMED);
    LoadAgreesIff(Load(map[], Protocol, UNNAMED), none[key := UNNAMED], Protocol);
    assert key in none[key := UNNAMED];
  }
}
