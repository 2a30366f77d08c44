/**
 One LeaderElection object as the code runs it: the three calls as they change the
 object's fields, the election loop, and the discovery component's per-term stop
 channel that the loop's callbacks drive.
 */
module LeaderElection {
  import opened Wrappers
  import opened LeaseProtocol

  /** The select loop's wake-ups, with what the database answers to the call each makes. */
  datatype Wakeup =
    | AcquireTick(now: int, update: Reply, readBack: Option<int>, insert: bool)
    | RenewTick(now: int, renew: Reply)
    | Stop(now: int)

  datatype Callback = StartLeading | StopLeading

  // ----------------------------------------------- the calls as protocol steps

  /** TryAcquire as the protocol's client steps, in order. */
  function Acquired(r: Replica, now: int, update: Reply, readBack: Option<int>, insert: bool): Replica
  {
    var r1 := AfterUpdate(StartAcquire(r, now), update);
    if r1.phase.ReadingBack? then AfterReadBack(r1, readBack)
    else if r1.phase.Inserting? then AfterInsert(r1, insert)
    else r1
  }

  function RenewedBy(r: Replica, now: int, reply: Reply): Replica
  {
    var r1 := StartRenew(r, now);
    if r1.phase.Renewing? then AfterRenew(r1, reply) else r1
  }

  class LeaderElection {
    const leaseDuration: int
    var isLeader: bool
    var currentVersion: int

    constructor (leaseDuration: int)
      ensures this.leaseDuration == leaseDuration && !isLeader
    {
      this.leaseDuration := leaseDuration;
      isLeader, currentVersion := false, 0;
    }

    /** The object between calls, as the protocol sees it. */
    function View(): Replica
      reads this
    {
      Replica(leaseDuration, isLeader, currentVersion, Idle)
    }

    method TryAcquire(now: int, update: Reply, readBack: Option<int>, insert: bool) returns (ok: bool)
      modifies this
      ensures View() == Acquired(old(View()), now, update, readBack, insert)
      ensures ok == isLeader
    {
      if update.Error? {
        isLeader := false;
        return false;
      }
      if update.affected > 0 {
        if readBack.None? {
          isLeader := false;
          return false;
        }
        currentVersion := readBack.value;
        isLeader := true;
        return true;
      }
      if !insert {
        isLeader := false;
        return false;
      }
      currentVersion := 1;
      isLeader := true;
      return true;
    }

    method Renew(now: int, reply: Reply) returns (ok: bool)
      modifies this
      ensures View() == RenewedBy(old(View()), now, reply)
      ensures ok == isLeader
    {
      if !isLeader {
        return false;
      }
      if reply.Error? {
        isLeader := false;
        return false;
      }
      if reply.affected > 0 {
        currentVersion := currentVersion + 1;
        return true;
      }
      isLeader := false;
      return false;
    }

    method Release(now: int)
      modifies this
      ensures View() == AfterRelease(StartRelease(old(View()), now))
    {
      isLeader := false;
    }
  }

  // ------------------------------------------------------------- the callbacks

  /** Start and stop strictly alternate, beginning with start. */
  predicate Alternates(calls: seq<Callback>)
  {
    forall i :: 0 <= i < |calls| ==> calls[i] == if i % 2 == 0 then StartLeading else StopLeading
  }

  function CountOf(calls: seq<Callback>, c: Callback): nat
  {
    if calls == [] then 0
    else CountOf(calls[..|calls| - 1], c) + if calls[|calls| - 1] == c then 1 else 0
  }

  lemma {:induction false} AlternatingCounts(calls: seq<Callback>)
    requires Alternates(calls)
    ensures CountOf(calls, StartLeading) == (|calls| + 1) / 2
    ensures CountOf(calls, StopLeading) == |calls| / 2
  {
    if calls != [] {
      AlternatingCounts(calls[..|calls| - 1]);
    }
  }

  /** The variables captured by the discovery component's callbacks. Channels are numbered in
      the order they are made; `closed` records every close, in order. */
  class Terms {
    var leaderStopCh: Option<nat>
    var made: nat
    var closed: seq<nat>
    var calls: seq<Callback>

    constructor ()
      ensures Valid() && calls == []
    {
      leaderStopCh, made, closed, calls := None, 0, [], [];
    }

    /** Each channel but the current term's has been closed exactly once, in order. */
    ghost predicate Valid()
      reads this
    {
      && Alternates(calls)
      && made == (|calls| + 1) / 2
      && |closed| == |calls| / 2
      && (forall i :: 0 <= i < |closed| ==> closed[i] == i)
      && leaderStopCh == if |calls| % 2 == 1 then Some(made - 1) else None
    }

    method OnStartLeading()
      requires Valid() && |calls| % 2 == 0
      modifies this
      ensures Valid() && calls == old(calls) + [StartLeading]
      ensures leaderStopCh == Some(old(made)) && made == old(made) + 1 && closed == old(closed)
    {
      leaderStopCh := Some(made);
      made := made + 1;
      calls := calls + [StartLeading];
    }

    method OnStopLeading()
      requires Valid() && |calls| % 2 == 1
      modifies this
      ensures Valid() && calls == old(calls) + [StopLeading]
      ensures old(leaderStopCh).Some? && old(leaderStopCh).value !in old(closed)
      ensures closed == old(closed) + [old(leaderStopCh).value] && leaderStopCh.None?
      ensures made == old(made)
    {
      if leaderStopCh.Some? {
        closed := closed + [leaderStopCh.value];
        leaderStopCh := None;
      }
      calls := calls + [StopLeading];
    }
  }

  // ------------------------------------------------------------------- the loop

  /** The object, the callbacks made and whether the loop has returned. */
  datatype Loop = Loop(replica: Replica, calls: seq<Callback>, returned: bool)

  function Woken(l: Loop, w: Wakeup): Loop
  {
    if l.returned then l
    else match w
      case Stop(now) =>
        if !l.replica.isLeader then l.(returned := true)
        else Loop(AfterRelease(StartRelease(l.replica, now)), l.calls + [StopLeading], true)
      case AcquireTick(now, update, readBack, insert) =>
        if l.replica.isLeader then l
        else
          var r := Acquired(l.replica, now, update, readBack, insert);
          l.(replica := r, calls := if r.isLeader then l.calls + [StartLeading] else l.calls)
      case RenewTick(now, reply) =>
        if !l.replica.isLeader then l
        else
          var r := RenewedBy(l.replica, now, reply);
          l.(replica := r, calls := if r.isLeader then l.calls else l.calls + [StopLeading])
  }

  function WokenAll(l: Loop, ws: seq<Wakeup>): Loop
  {
    if ws == [] then l else Woken(WokenAll(l, ws[..|ws| - 1]), ws[|ws| - 1])
  }

  /** The database gave the lease: an expired row was updated and read back, or a first row was
      inserted. */
  predicate Granted(w: Wakeup)
    requires w.AcquireTick?
  {
    w.update.Rows? && if w.update.affected > 0 then w.readBack.Some? else w.insert
  }

  predicate Extended(w: Wakeup)
    requires w.RenewTick?
  {
    w.renew.Rows? && w.renew.affected > 0
  }

  /** What one wake-up does to a running loop: a granted acquire starts a term, an extended renewal
      keeps it one version on, a refused one ends it, and so does a stop; wake-ups of the other
      timer do nothing. */
  lemma WakeupDoes(l: Loop, w: Wakeup)
    requires !l.returned && l.replica.phase.Idle?
    ensures var l' := Woken(l, w);
            var r, r' := l.replica, l'.replica;
            && r' == r.(isLeader := r'.isLeader, currentVersion := r'.currentVersion)
            && (l'.returned <==> w.Stop?)
            && (r'.isLeader <==> if r.isLeader then !w.Stop? && (w.RenewTick? ==> Extended(w))
                                 else w.AcquireTick? && Granted(w))
            && l'.calls == (if r'.isLeader == r.isLeader then l.calls
                            else l.calls + [if r'.isLeader then StartLeading else StopLeading])
            && (r.isLeader && w.RenewTick? && Extended(w) ==> r'.currentVersion == r.currentVersion + 1)
            && (!r.isLeader && w.AcquireTick? && Granted(w) ==>
                  r'.currentVersion == if w.update.affected > 0 then w.readBack.value else 1)
  {
  }

  /** A leader whose renewals are all extended stays in its term, however often it renews and
      whatever acquire ticks come in between. */
  lemma {:induction false} RenewalsKeepTerm(l: Loop, ws: seq<Wakeup>)
    requires !l.returned && l.replica.phase.Idle? && l.replica.isLeader
    requires forall i :: 0 <= i < |ws| ==> !ws[i].Stop? && (ws[i].RenewTick? ==> Extended(ws[i]))
    ensures var l' := WokenAll(l, ws);
            && !l'.returned && l'.replica.phase.Idle? && l'.replica.isLeader && l'.calls == l.calls
            && l'.replica.currentVersion == l.replica.currentVersion + Renewals(ws)
  {
    if ws != [] {
      var n := |ws| - 1;
      RenewalsKeepTerm(l, ws[..n]);
      WakeupDoes(WokenAll(l, ws[..n]), ws[n]);
    }
  }

  lemma {:induction false} ReturnedStays(l: Loop, ws: seq<Wakeup>, k: nat)
    requires k <= |ws| && (WokenAll(l, ws[..k]).returned || k == |ws|)
    ensures WokenAll(l, ws) == WokenAll(l, ws[..k])
  {
    if k == |ws| {
      assert ws[..k] == ws;
    } else {
      var n := |ws| - 1;
      assert ws[..n][..k] == ws[..k];
      ReturnedStays(l, ws[..n], k);
    }
  }

  function Renewals(ws: seq<Wakeup>): nat
  {
    if ws == [] then 0 else Renewals(ws[..|ws| - 1]) + if ws[|ws| - 1].RenewTick? then 1 else 0
  }

  /** The election loop over any sequence of wake-ups. `leading` is the loop's own variable at the
      head of the loop after them; `returned` says that a stop ended the loop. */
  method RunLeaderElection(le: LeaderElection, terms: Terms, wakeups: seq<Wakeup>)
    returns (leading: bool, returned: bool)
    requires !le.isLeader && terms.Valid() && terms.calls == []
    modifies le, terms
    ensures Loop(le.View(), terms.calls, returned) == WokenAll(Loop(old(le.View()), [], false), wakeups)
    ensures leading == le.isLeader == (|terms.calls| % 2 == 1)
    ensures Alternates(terms.calls)
    ensures CountOf(terms.calls, StartLeading)
         == CountOf(terms.calls, StopLeading) + if leading then 1 else 0
    ensures terms.made == CountOf(terms.calls, StartLeading)
    ensures |terms.closed| == CountOf(terms.calls, StopLeading)
    ensures forall i :: 0 <= i < |terms.closed| ==> terms.closed[i] == i
    ensures returned <==> exists i :: 0 <= i < |wakeups| && wakeups[i].Stop?
    ensures returned ==> !leading && |terms.closed| == terms.made
  {
    leading, returned := false, false;
    var k := 0;
    ghost var start := Loop(le.View(), [], false);
    while k < |wakeups| && !returned
      invariant 0 <= k <= |wakeups|
      invariant Loop(le.View(), terms.calls, returned) == WokenAll(start, wakeups[..k])
      invariant terms.Valid()
      invariant leading == le.isLeader == (|terms.calls| % 2 == 1)
      invariant returned ==> !leading
      invariant returned <==> exists i :: 0 <= i < k && wakeups[i].Stop?
      decreases |wakeups| - k
    {
      assert wakeups[..k + 1][..k] == wakeups[..k];
      match wakeups[k] {
        case Stop(now) =>
          if leading {
            le.Release(now);
            terms.OnStopLeading();
            leading := false;
          }
          returned := true;
        case AcquireTick(now, update, readBack, insert) =>
          if !leading {
            var ok := le.TryAcquire(now, update, readBack, insert);
            if ok {
              leading := true;
              terms.OnStartLeading();
            }
          }
        case RenewTick(now, reply) =>
          if leading {
            var ok := le.Renew(now, reply);
            if !ok {
              leading := false;
              terms.OnStopLeading();
            }
          }
      }
      k := k + 1;
    }
    ReturnedStays(start, wakeups, k);
    AlternatingCounts(terms.calls);
  }
}
