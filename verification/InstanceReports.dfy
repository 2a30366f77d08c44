/**
 What the instance handlers are for: an instance is stored exactly while a registry or the runtime
 platform reports it. Over every sequence of handlings, and exactly when the code keeps that.
 */
module InstanceReports {
  import opened Wrappers
  import opened Resources
  import opened InstanceLifecycle

  /** The reports that stand: the instances registered, with the register time announced; for each
      runtime report, by the platform's id, the instance it stands for; and the instances whose last
      runtime report filled a field that marks them. */
  datatype Reports = Reports(registered: map<string, string>, deployed: map<string, string>, marked: set<string>)

  datatype World = World(store: Store, reports: Reports)

  const NOTHING := World(map[], Reports(map[], map[], {}))

  /** The instance a runtime report is merged into or creates. */
  function Target(store: Store, rt: RuntimeInstance, other: Option<string>): Option<string>
  {
    var related := Related(store, rt, other);
    if related.Some? then related
    else if EnoughRuntime(rt) then Some(InstanceKey(rt.mesh, rt.name))
    else None
  }

  function Mark(marked: set<string>, k: string, source: bool): set<string>
  {
    if source then marked + {k} else marked - {k}
  }

  /** The reports that stand after one more; a handling that fails is as if it had not come. */
  function Standing(store: Store, r: Reports, h: Handling): Reports
  {
    if h.fails then r
    else match h
      case RpcUpsert(rpc, found, _) =>
        var key := InstanceKey(rpc.mesh, rpc.name);
        if !EnoughRpc(rpc) then r
        else
          var known := r.(registered := r.registered[key := rpc.spec.value.registerTime]);
          if key in store then known
          else if found.None? then known.(marked := r.marked - {key})
          else known.(deployed := r.deployed[found.value.id := key],
                      marked := Mark(r.marked, key, found.value.spec.Some? && found.value.spec.value.source))
      case RpcDelete(rpc, _) => r.(registered := r.registered - {InstanceKey(rpc.mesh, rpc.name)})
      case RuntimeUpsert(rt, other, _) =>
        var target := Target(store, rt, other);
        if target.None? then r.(deployed := r.deployed - {rt.id})
        else r.(deployed := r.deployed[rt.id := target.value],
                marked := Mark(r.marked, target.value, rt.spec.Some? && rt.spec.value.source))
      case RuntimeDelete(rt, other, _) =>
        var related := Related(store, rt, other);
        r.(deployed := r.deployed - {rt.id}, marked := if related.Some? then r.marked - {related.value} else r.marked)
  }

  function After(w: World, h: Handling): World
  {
    World(Emitted(w.store, h).store, Standing(w.store, w.reports, h))
  }

  ghost predicate Deployed(r: Reports, k: string)
  {
    exists id :: id in r.deployed && r.deployed[id] == k
  }

  ghost predicate DeployedBesides(r: Reports, id: string, k: string)
  {
    exists i :: i in r.deployed && i != id && r.deployed[i] == k
  }

  ghost predicate Reported(r: Reports, k: string)
  {
    k in r.registered || Deployed(r, k)
  }

  /** Whatever is reported is stored. */
  ghost predicate Kept(w: World)
  {
    forall k :: Reported(w.reports, k) ==> k in w.store
  }

  /** Whatever is stored is reported. */
  ghost predicate Clean(w: World)
  {
    forall k :: k in w.store ==> Reported(w.reports, k)
  }

  // ------------------------------------------------------------ when a handling fails it

  /** Before the call: the instance is removed though somebody still reports it. A registry is not
      asked whether it reports an instance: an empty register time is taken for no. Nor is the
      platform: no marking field, or the end of another runtime report, is taken for no. */
  ghost predicate Forgets(w: World, h: Handling)
  {
    !h.fails &&
    match h
    case RpcDelete(rpc, _) =>
      var k := InstanceKey(rpc.mesh, rpc.name);
      k in w.store && k !in w.reports.marked && Deployed(w.reports, k)
    case RuntimeDelete(rt, other, _) =>
      var related := Related(w.store, rt, other);
      related.Some? &&
      (if related.value in w.reports.registered then w.reports.registered[related.value] == ""
       else DeployedBesides(w.reports, rt.id, related.value))
    case _ => false
  }

  /** The runtime report stood for a stored instance that nobody else reports, and now stands for
      another one or for none. */
  ghost predicate Abandons(w: World, id: string, now: Option<string>)
  {
    id in w.reports.deployed &&
    var k := w.reports.deployed[id];
    k in w.store && now != Some(k) && k !in w.reports.registered && !DeployedBesides(w.reports, id, k)
  }

  /** Before the call: an instance stays though nobody reports it any more. */
  ghost predicate Strands(w: World, h: Handling)
  {
    !h.fails &&
    match h
    case RpcUpsert(rpc, found, _) =>
      var k := InstanceKey(rpc.mesh, rpc.name);
      EnoughRpc(rpc) && k !in w.store && found.Some? && Abandons(w, found.value.id, Some(k))
    case RpcDelete(rpc, _) =>
      var k := InstanceKey(rpc.mesh, rpc.name);
      k in w.store && k in w.reports.marked && !Deployed(w.reports, k)
    case RuntimeUpsert(rt, other, _) => Abandons(w, rt.id, Target(w.store, rt, other))
    case RuntimeDelete(rt, other, _) => Abandons(w, rt.id, Related(w.store, rt, other))
  }

  // --------------------------------------------------------------- what every step keeps

  /** The register time stored with an instance is the one announced, or empty, and its platform
      fields are those of its last runtime report. */
  ghost predicate Timed(w: World)
  {
    forall k :: k in w.store ==> TimedAt(w, k)
  }

  ghost predicate TimedAt(w: World, k: string)
    requires k in w.store
  {
    w.store[k].spec.Some? &&
    w.store[k].spec.value.registerTime == (if k in w.reports.registered then w.reports.registered[k] else "")
    && (w.store[k].spec.value.runtime <==> k in w.reports.marked)
  }

  ghost predicate Inv(w: World)
  {
    AllLocated(w.store) && Timed(w)
  }

  lemma StepKeepsInvariant(w: World, h: Handling)
    requires Inv(w) && Kept(w)
    ensures Inv(After(w, h))
  {
    HandlersAreProper(w.store, h);
    ProperKeepsLocated(w.store, EffectOf(w.store, h));
    forall k | k in After(w, h).store ensures TimedAt(After(w, h), k) {
      if h.RpcUpsert? || h.RpcDelete? {
        RpcKeepsTime(w, h, k);
      } else {
        RuntimeKeepsTime(w, h, k);
      }
    }
  }

  lemma RpcKeepsTime(w: World, h: Handling, k: string)
    requires Inv(w) && Kept(w) && k in After(w, h).store && (h.RpcUpsert? || h.RpcDelete?)
    ensures TimedAt(After(w, h), k)
  {
    if k in w.store {
      assert TimedAt(w, k);
    } else {
      assert !Reported(w.reports, k);
    }
  }

  lemma RuntimeKeepsTime(w: World, h: Handling, k: string)
    requires Inv(w) && Kept(w) && k in After(w, h).store && (h.RuntimeUpsert? || h.RuntimeDelete?)
    ensures TimedAt(After(w, h), k)
  {
    if k in w.store {
      assert TimedAt(w, k);
    } else {
      assert !Reported(w.reports, k);
    }
  }

  // ------------------------------------------------------------------------ one handling

  /** One runtime report moves: who else is deployed does not change. */
  lemma DeployedMoves(r: Reports, id: string, now: Option<string>, k: string)
    ensures var r' := r.(deployed := if now.Some? then r.deployed[id := now.value] else r.deployed - {id});
            Deployed(r', k) <==> now == Some(k) || DeployedBesides(r, id, k)
  {
    var r' := r.(deployed := if now.Some? then r.deployed[id := now.value] else r.deployed - {id});
    if now == Some(k) {
      assert id in r'.deployed && r'.deployed[id] == k;
    }
    if DeployedBesides(r, id, k) {
      var i :| i in r.deployed && i != id && r.deployed[i] == k;
      assert i in r'.deployed && r'.deployed[i] == k;
    }
  }

  lemma DeployedSplits(r: Reports, id: string, k: string)
    ensures Deployed(r, k) <==> DeployedBesides(r, id, k) || (id in r.deployed && r.deployed[id] == k)
  {
  }

  function Moved(r: Reports, id: string, now: Option<string>): Reports
  {
    r.(deployed := if now.Some? then r.deployed[id := now.value] else r.deployed - {id})
  }

  /** The stored instances are still reported after the move, exactly when none is abandoned. */
  lemma MoveStrandsIff(w: World, id: string, now: Option<string>)
    requires Clean(w)
    ensures (forall k :: k in w.store ==> Reported(Moved(w.reports, id, now), k)) <==> !Abandons(w, id, now)
  {
    forall k | k in w.store
      ensures Reported(Moved(w.reports, id, now), k)
         <==> now == Some(k) || k in w.reports.registered || DeployedBesides(w.reports, id, k)
    {
      DeployedMoves(w.reports, id, now, k);
    }
    forall k | k in w.store
      ensures k in w.reports.registered || DeployedBesides(w.reports, id, k)
           || (id in w.reports.deployed && w.reports.deployed[id] == k)
    {
      DeployedSplits(w.reports, id, k);
    }
  }

  lemma RpcUpsertKeeps(w: World, h: Handling)
    requires Inv(w) && Kept(w) && h.RpcUpsert?
    ensures Kept(After(w, h))
    ensures Clean(w) ==> (Clean(After(w, h)) <==> !Strands(w, h))
  {
    var w', k := After(w, h), InstanceKey(h.rpc.mesh, h.rpc.name);
    if !h.fails && EnoughRpc(h.rpc) && Clean(w) {
      if k !in w.store && h.found.Some? {
        var r' := Moved(w.reports, h.found.value.id, Some(k));
        MoveStrandsIff(w, h.found.value.id, Some(k));
        assert forall x :: Deployed(w'.reports, x) <==> Deployed(r', x);
        assert forall x :: (x in w'.store ==> Reported(w'.reports, x)) <==> (x in w.store ==> Reported(r', x));
      } else {
        assert forall x :: Deployed(w'.reports, x) <==> Deployed(w.reports, x);
      }
    }
  }

  lemma RpcDeleteTracks(w: World, h: Handling)
    requires Inv(w) && Kept(w) && h.RpcDelete?
    ensures Kept(After(w, h)) <==> !Forgets(w, h)
    ensures Clean(w) ==> (Clean(After(w, h)) <==> !Strands(w, h))
  {
    var w', k := After(w, h), InstanceKey(h.rpc.mesh, h.rpc.name);
    assert forall x :: Deployed(w'.reports, x) <==> Deployed(w.reports, x);
    assert forall x :: x != k ==> (Reported(w'.reports, x) <==> Reported(w.reports, x));
    assert Reported(w'.reports, k) ==> h.fails || Deployed(w.reports, k);
  }

  lemma RuntimeUpsertKeeps(w: World, h: Handling)
    requires Inv(w) && Kept(w) && h.RuntimeUpsert?
    ensures Kept(After(w, h))
    ensures Clean(w) ==> (Clean(After(w, h)) <==> !Strands(w, h))
  {
    if !h.fails {
      var w', now := After(w, h), Target(w.store, h.rt, h.other);
      assert w'.reports.deployed == Moved(w.reports, h.rt.id, now).deployed;
      assert w'.store.Keys == if now.Some? then w.store.Keys + {now.value} else w.store.Keys;
      forall k ensures Deployed(w'.reports, k) <==> now == Some(k) || DeployedBesides(w.reports, h.rt.id, k) {
        DeployedMoves(w.reports, h.rt.id, now, k);
      }
      if Clean(w) {
        MoveStrandsIff(w, h.rt.id, now);
      }
    }
  }

  lemma RuntimeDeleteKeptIff(w: World, h: Handling)
    requires Inv(w) && Kept(w) && h.RuntimeDelete?
    ensures Kept(After(w, h)) <==> !Forgets(w, h)
  {
    if !h.fails {
      var w', related := After(w, h), Related(w.store, h.rt, h.other);
      assert w'.reports.deployed == Moved(w.reports, h.rt.id, None).deployed;
      forall k ensures Deployed(w'.reports, k) <==> DeployedBesides(w.reports, h.rt.id, k) {
        DeployedMoves(w.reports, h.rt.id, None, k);
      }
      if related.Some? {
        assert TimedAt(w, related.value);
      }
    }
  }

  /** The instance a runtime deletion is about is removed, or it is registered. */
  lemma RuntimeDeleteCleanIff(w: World, h: Handling)
    requires Inv(w) && Clean(w) && h.RuntimeDelete?
    ensures Clean(After(w, h)) <==> !Strands(w, h)
  {
    if !h.fails {
      var w', related := After(w, h), Related(w.store, h.rt, h.other);
      var r' := Moved(w.reports, h.rt.id, related);
      if related.Some? {
        assert TimedAt(w, related.value);
      }
      MoveStrandsIff(w, h.rt.id, related);
      forall x ensures (x in w'.store ==> Reported(w'.reports, x)) <==> (x in w.store ==> Reported(r', x)) {
        DeployedMoves(w.reports, h.rt.id, None, x);
        DeployedMoves(w.reports, h.rt.id, related, x);
      }
    }
  }

  /** Exactly which handlings lose an instance that is reported, and which leave one behind that is
      not, judged before the call. */
  lemma StepTracksIff(w: World, h: Handling)
    requires Inv(w) && Kept(w)
    ensures Kept(After(w, h)) <==> !Forgets(w, h)
    ensures Clean(w) ==> (Clean(After(w, h)) <==> !Strands(w, h))
  {
    match h
    case RpcUpsert(_, _, _) => RpcUpsertKeeps(w, h);
    case RpcDelete(_, _) => RpcDeleteTracks(w, h);
    case RuntimeUpsert(_, _, _) => RuntimeUpsertKeeps(w, h);
    case RuntimeDelete(_, _, _) =>
      RuntimeDeleteKeptIff(w, h);
      if Clean(w) {
        RuntimeDeleteCleanIff(w, h);
      }
  }

  // --------------------------------------------------------------------------- whole runs

  /** The world after the handlings, from nothing stored and nothing reported. */
  function Run(hs: seq<Handling>): World
  {
    if hs == [] then NOTHING else After(Run(hs[..|hs| - 1]), hs[|hs| - 1])
  }

  ghost predicate KeptThroughout(hs: seq<Handling>)
  {
    forall n :: 0 <= n <= |hs| ==> Kept(Run(hs[..n]))
  }

  ghost predicate CleanThroughout(hs: seq<Handling>)
  {
    forall n :: 0 <= n <= |hs| ==> Clean(Run(hs[..n]))
  }

  ghost predicate ForgetsAt(hs: seq<Handling>, n: nat)
  {
    n < |hs| && Forgets(Run(hs[..n]), hs[n])
  }

  ghost predicate StrandsAt(hs: seq<Handling>, n: nat)
  {
    n < |hs| && Strands(Run(hs[..n]), hs[n])
  }

  lemma RunStep(hs: seq<Handling>, n: nat)
    requires n < |hs|
    ensures Run(hs[..n + 1]) == After(Run(hs[..n]), hs[n])
  {
    assert hs[..n + 1][..n] == hs[..n];
  }

  lemma {:induction false} RunKeepsInvariant(hs: seq<Handling>, n: nat)
    requires n <= |hs| && forall i :: 0 <= i < n ==> Kept(Run(hs[..i]))
    ensures Inv(Run(hs[..n]))
  {
    if n > 0 {
      RunKeepsInvariant(hs, n - 1);
      RunStep(hs, n - 1);
      StepKeepsInvariant(Run(hs[..n - 1]), hs[n - 1]);
    }
  }

  lemma {:induction false} NotForgottenIsKept(hs: seq<Handling>, n: nat)
    requires n <= |hs| && forall i: nat :: i < n ==> !ForgetsAt(hs, i)
    ensures forall i :: 0 <= i <= n ==> Kept(Run(hs[..i]))
  {
    if n == 0 {
      assert Run(hs[..0]) == NOTHING;
    } else {
      NotForgottenIsKept(hs, n - 1);
      RunKeepsInvariant(hs, n - 1);
      RunStep(hs, n - 1);
      assert !ForgetsAt(hs, n - 1);
      StepTracksIff(Run(hs[..n - 1]), hs[n - 1]);
    }
  }

  /** Over every sequence of handlings: whatever a registry or the platform reports stays stored
      throughout, exactly when no handling forgets an instance. */
  lemma ReportedStaysStoredIff(hs: seq<Handling>)
    ensures KeptThroughout(hs) <==> forall n: nat :: !ForgetsAt(hs, n)
  {
    if forall n: nat :: !ForgetsAt(hs, n) {
      NotForgottenIsKept(hs, |hs|);
    }
    if KeptThroughout(hs) {
      forall n: nat ensures !ForgetsAt(hs, n) {
        if n < |hs| {
          RunKeepsInvariant(hs, n);
          RunStep(hs, n);
          StepTracksIff(Run(hs[..n]), hs[n]);
        }
      }
    }
  }

  lemma {:induction false} NotStrandedIsClean(hs: seq<Handling>, n: nat)
    requires n <= |hs| && KeptThroughout(hs) && forall i: nat :: i < n ==> !StrandsAt(hs, i)
    ensures forall i :: 0 <= i <= n ==> Clean(Run(hs[..i]))
  {
    if n == 0 {
      assert Run(hs[..0]) == NOTHING;
    } else {
      NotStrandedIsClean(hs, n - 1);
      RunKeepsInvariant(hs, n - 1);
      RunStep(hs, n - 1);
      assert !StrandsAt(hs, n - 1);
      StepTracksIff(Run(hs[..n - 1]), hs[n - 1]);
    }
  }

  /** Over every sequence of handlings: an instance is stored exactly while it is reported, throughout,
      exactly when no handling forgets one and none strands one. */
  lemma StoredIffReportedIff(hs: seq<Handling>)
    ensures KeptThroughout(hs) && CleanThroughout(hs)
       <==> forall n: nat :: !ForgetsAt(hs, n) && !StrandsAt(hs, n)
  {
    ReportedStaysStoredIff(hs);
    if KeptThroughout(hs) {
      if forall n: nat :: !StrandsAt(hs, n) {
        NotStrandedIsClean(hs, |hs|);
      }
      if CleanThroughout(hs) {
        forall n: nat ensures !StrandsAt(hs, n) {
          if n < |hs| {
            RunKeepsInvariant(hs, n);
            RunStep(hs, n);
            StepTracksIff(Run(hs[..n]), hs[n]);
          }
        }
      }
    }
  }

  // --------------------------------------------------------------------------- witnesses

  const UNTIMED := RpcInstance("m", "i", Some(RpcSpec("app", "10.0.0.1", 20880, "dubbo", "3.3", "")))
  const POD := RuntimeInstance("pod", "m", "i", Some(RuntimeSpec("app", "10.0.0.1", 20880, true)))
  const BARE := RuntimeInstance("pod", "m", "i", Some(RuntimeSpec("app", "10.0.0.1", 20880, false)))

  const MOVED := RuntimeInstance("pod", "m", "j", Some(RuntimeSpec("app", "10.0.0.1", 20880, true)))

  lemma AllEnough()
    ensures EnoughRpc(UNTIMED) && EnoughRuntime(POD) && EnoughRuntime(BARE) && EnoughRuntime(MOVED)
  {
    assert "m"[0] == 'm' && "app"[0] == 'a' && "10.0.0.1"[0] == '1';
    assert |"m"| != |DEFAULT_MESH|;
  }

  /** An instance registered without a timestamp is gone once its pod is, though still registered. */
  lemma RegisteredIsForgotten()
    ensures var w := Run([RpcUpsert(UNTIMED, None, false), RuntimeUpsert(POD, None, false),
                          RuntimeDelete(POD, None, false)]);
            var k := InstanceKey("m", "i");
            k in w.reports.registered && k !in w.store
  {
    var a, b, c := RpcUpsert(UNTIMED, None, false), RuntimeUpsert(POD, None, false), RuntimeDelete(POD, None, false);
    AllEnough();
    assert [a, b, c][..2] == [a, b] && [a, b][..1] == [a] && [a][..0] == [];
    assert Run([a]) == After(NOTHING, a);
  }

  /** A pod whose report marks nothing is forgotten when its registration ends. */
  lemma DeployedIsForgotten()
    ensures var w := Run([RuntimeUpsert(BARE, None, false), RpcUpsert(UNTIMED, None, false),
                          RpcDelete(UNTIMED, false)]);
            var k := InstanceKey("m", "i");
            Deployed(w.reports, k) && k !in w.store
  {
    var a, b, c := RuntimeUpsert(BARE, None, false), RpcUpsert(UNTIMED, None, false), RpcDelete(UNTIMED, false);
    AllEnough();
    assert [a, b, c][..2] == [a, b] && [a, b][..1] == [a] && [a][..0] == [];
    assert Run([a]) == After(NOTHING, a);
    assert "pod" in Run([a, b, c]).reports.deployed;
  }

  /** A pod that comes back under another name leaves its first instance behind. */
  lemma MovedPodStrands()
    ensures var w := Run([RuntimeUpsert(POD, None, false), RuntimeUpsert(MOVED, None, false)]);
            var k := InstanceKey("m", "i");
            k in w.store && !Reported(w.reports, k)
  {
    var a, b := RuntimeUpsert(POD, None, false), RuntimeUpsert(MOVED, None, false);
    AllEnough();
    assert [a, b][..1] == [a] && [a][..0] == [];
    assert Run([a]) == After(NOTHING, a);
    var k, j := InstanceKey("m", "i"), InstanceKey("m", "j");
    assert k[|k| - 1] == 'i' && j[|j| - 1] == 'j';
  }
}
