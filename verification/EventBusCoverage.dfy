/** Every listed asynchronous subscriber gets its drainer while the bus runs. */
module EventBusCoverage {
  import opened EventBus
  import opened Wrappers

  // ------------------------------------------------------------- drainers start

  /** A call in progress that will launch the drainer unless the bus stops first. */
  predicate WillLaunch(c: Call, x: SubId)
  {
    match c
    case StartLocking => true
    case Starting(todo) => x in todo
    case StartSpawning(todo, y) => x == y || x in todo
    case SubscribeAdded(y) => x == y
    case SubscribeLaunching(y) => x == y
    case SubscribeSpawning(y) => x == y
    case _ => false
  }

  predicate NeedsDrainer(subs: seq<Sub>, x: SubId)
  {
    x < |subs| && subs[x].async && subs[x].listed && subs[x].drainer.NotStarted?
  }

  ghost predicate CoveredAt(s: State, x: SubId)
  {
    s.started && !s.stopped && NeedsDrainer(s.subs, x) ==> exists c :: c in s.calls && WillLaunch(s.calls[c], x)
  }

  ghost predicate Covered(s: State)
  {
    forall x: nat :: CoveredAt(s, x)
  }

  lemma InvokeKeepsCover(s: State, a: Action, x: SubId)
    requires Enabled(s, a) && !a.Advance? && CoveredAt(s, x)
    ensures CoveredAt(Next(s, a), x)
  {
    if exists c :: c in s.calls && WillLaunch(s.calls[c], x) {
      var c :| c in s.calls && WillLaunch(s.calls[c], x);
      assert c in Next(s, a).calls && WillLaunch(Next(s, a).calls[c], x);
    }
  }

  /** A call's step leaves a covering call in place. */
  lemma CoverCarries(s: State, t: State, id: CallId, c: Call, x: SubId)
    requires CoveredAt(s, x) && id in s.calls
    requires t.calls == s.calls && t.started == s.started && (s.stopped ==> t.stopped)
    requires NeedsDrainer(t.subs, x) ==> NeedsDrainer(s.subs, x)
    requires t.started && !t.stopped && NeedsDrainer(t.subs, x) && WillLaunch(s.calls[id], x) ==> WillLaunch(c, x)
    ensures CoveredAt(Goto(t, id, c), x)
  {
    var s' := Goto(t, id, c);
    if s'.started && !s'.stopped && NeedsDrainer(s'.subs, x) {
      var w :| w in s.calls && WillLaunch(s.calls[w], x);
      assert w in s'.calls && WillLaunch(s'.calls[w], x);
    }
  }

  lemma StartKeepsCover(s: State, id: CallId, pick: SubId, x: SubId)
    requires id in s.calls && CoveredAt(s, x) && InStart(s.calls[id])
    requires s.calls[id].StartSpawning? ==> s.calls[id].sub < |s.subs|
    ensures CoveredAt(AdvanceStart(s, id, pick), x)
  {
    match s.calls[id]
    case StartBegun =>
      if s.started {
        CoverCarries(s, s, id, Ended, x);
      } else {
        var s' := AdvanceStart(s, id, pick);
        assert id in s'.calls && WillLaunch(s'.calls[id], x);
      }
    case StartLocking => CoverCarries(s, s, id, Starting(AsyncRegistered(s)), x);
    case Starting(todo) =>
      if todo == {} {
        CoverCarries(s, s, id, Ended, x);
      } else if s.stopped {
        CoverCarries(s, s, id, Starting(todo - {pick}), x);
      } else {
        CoverCarries(s, s, id, StartSpawning(todo - {pick}, pick), x);
      }
    case StartSpawning(todo, y) => CoverCarries(s, Spawn(s, y), id, Starting(todo), x);
  }

  lemma AddKeepsCover(s: State, id: CallId, kind: Kind, name: string, wantsAsync: bool, x: SubId)
    requires CoveredAt(s, x) && id in s.calls && s.calls[id].SubscribeLocked?
    ensures CoveredAt(Add(s, id, kind, name, wantsAsync), x)
  {
    var s' := Add(s, id, kind, name, wantsAsync);
    if |s'.subs| == |s.subs| {
      CoverCarries(s, s.(writer := None), id, Ended, x);
    } else if x == |s.subs| {
      assert id in s'.calls && WillLaunch(s'.calls[id], x);
    } else {
      CoverCarries(s, s.(subs := s'.subs, dir := s'.dir), id, SubscribeAdded(|s.subs|), x);
    }
  }

  lemma SubscribeKeepsCover(s: State, id: CallId, x: SubId)
    requires CoveredAt(s, x)
    requires id in s.calls && InSubscribe(s.calls[id])
    requires s.calls[id].SubscribeAdded? || s.calls[id].SubscribeSpawning? ==> s.calls[id].sub < |s.subs|
    ensures CoveredAt(AdvanceSubscribe(s, id), x)
  {
    match s.calls[id]
    case SubscribeBegun(k, n, w) => CoverCarries(s, s.(writer := Some(id)), id, SubscribeLocked(k, n, w), x);
    case SubscribeLocked(k, n, w) => AddKeepsCover(s, id, k, n, w, x);
    case SubscribeAdded(y) => AddedKeepsCover(s, id, x);
    case SubscribeLaunching(y) => LaunchingKeepsCover(s, id, x);
    case SubscribeSpawning(y) => CoverCarries(s, Spawn(s, y).(writer := None), id, Ended, x);
  }

  lemma AddedKeepsCover(s: State, id: CallId, x: SubId)
    requires CoveredAt(s, x) && id in s.calls && s.calls[id].SubscribeAdded? && s.calls[id].sub < |s.subs|
    ensures CoveredAt(AdvanceSubscribe(s, id), x)
  {
    var y := s.calls[id].sub;
    if s.subs[y].async && s.started {
      CoverCarries(s, s, id, SubscribeLaunching(y), x);
    } else {
      CoverCarries(s, s.(writer := None), id, Ended, x);
    }
  }

  lemma LaunchingKeepsCover(s: State, id: CallId, x: SubId)
    requires CoveredAt(s, x) && id in s.calls && s.calls[id].SubscribeLaunching?
    ensures CoveredAt(AdvanceSubscribe(s, id), x)
  {
    if s.stopped {
      CoverCarries(s, s.(writer := None), id, Ended, x);
    } else {
      CoverCarries(s, s, id, SubscribeSpawning(s.calls[id].sub), x);
    }
  }

  /** Send's loop changes neither who needs a drainer nor who will launch one. */
  lemma OfferKeepsCover(s: State, id: CallId, y: SubId, sub: Sub, c: Call, x: SubId)
    requires CoveredAt(s, x) && id in s.calls && InSend(s.calls[id]) && y < |s.subs|
    requires Benign(s.subs[y], sub) && sub.drainer == s.subs[y].drainer
    ensures CoveredAt(Goto(SetSub(s, y, sub), id, c), x)
  {
    CoverCarries(s, SetSub(s, y, sub), id, c, x);
  }

  lemma SendOneKeepsCover(s: State, id: CallId, event: Event, targets: seq<SubId>, next: nat, x: SubId)
    requires CoveredAt(s, x) && id in s.calls && InSend(s.calls[id])
    requires next < |targets| && targets[next] < |s.subs|
    ensures CoveredAt(SendOne(s, id, event, targets, next), x)
  {
    var sub := s.subs[targets[next]];
    if sub.async && !sub.closed {
      CoverCarries(s, s, id, Pushing(event, targets, next), x);
    } else {
      var sub' := if sub.async then Offered(sub, id, event, SkippedClosed) else HandleNow(sub, id, event);
      OfferKeepsCover(s, id, targets[next], sub', Sending(event, targets, next + 1), x);
    }
  }

  lemma PushOneKeepsCover(s: State, id: CallId, event: Event, targets: seq<SubId>, next: nat, x: SubId)
    requires CoveredAt(s, x) && id in s.calls && InSend(s.calls[id])
    requires next < |targets| && targets[next] < |s.subs|
    ensures CoveredAt(PushOne(s, id, event, targets, next), x)
  {
    var sub := s.subs[targets[next]];
    if !sub.closed {
      OfferKeepsCover(s, id, targets[next], Push(sub, id, event, s.bufferSize), Sending(event, targets, next + 1), x);
    }
  }

  lemma SendKeepsCover(s: State, id: CallId, x: SubId)
    requires CoveredAt(s, x) && id in s.calls && InSend(s.calls[id])
    requires s.calls[id].Sending? ==> s.calls[id].next <= |s.calls[id].targets|
    requires s.calls[id].Pushing? ==> s.calls[id].next < |s.calls[id].targets|
    requires (s.calls[id].Sending? || s.calls[id].Pushing?) && s.calls[id].next < |s.calls[id].targets|
             ==> s.calls[id].targets[s.calls[id].next] < |s.subs|
    ensures CoveredAt(AdvanceSend(s, id), x)
  {
    match s.calls[id]
    case SendBegun(e) => CoverCarries(s, s, id, if s.stopped then SendRefused else SendLocking(e), x);
    case SendLocking(e) => CoverCarries(s, s, id, Sending(e, Listed(s.dir, e.kind), 0), x);
    case Pushing(e, targets, next) => PushOneKeepsCover(s, id, e, targets, next, x);
    case Sending(e, targets, next) =>
      if next == |targets| {
        CoverCarries(s, s, id, SendReturned(e, targets), x);
      } else {
        SendOneKeepsCover(s, id, e, targets, next, x);
      }
  }

  lemma UnsubscribeKeepsCover(s: State, id: CallId, x: SubId)
    requires CoveredAt(s, x) && id in s.calls && InUnsubscribe(s.calls[id])
    ensures CoveredAt(AdvanceUnsubscribe(s, id), x)
  {
    match s.calls[id]
    case UnsubscribeDraining(y) => CoverCarries(s, s, id, UnsubscribeReturned(y), x);
    case UnsubscribeBegun(k, n) =>
      var found := Find(s.subs, Listed(s.dir, k), n);
      if found.None? {
        CoverCarries(s, s, id, Ended, x);
      } else {
        CoverCarries(s, RemoveAt(s, k, found.value), id, Ended, x);
        CoverCarries(s, RemoveAt(s, k, found.value), id, UnsubscribeDraining(Listed(s.dir, k)[found.value]), x);
        assert CoveredAt(s.(panicked := true), x);
      }
  }

  lemma WaitKeepsCover(s: State, id: CallId, x: SubId)
    requires CoveredAt(s, x) && id in s.calls
    requires s.calls[id].WaitBegun? || s.calls[id].WaitLocking? || s.calls[id].WaitDraining?
    ensures CoveredAt(AdvanceWait(s, id), x)
  {
    match s.calls[id]
    case WaitBegun => CoverCarries(s, s.(stopped := true), id, WaitLocking, x);
    case WaitLocking => CoverCarries(s, Sweep(s), id, WaitDraining, x);
    case WaitDraining => CoverCarries(s, s.(waited := true), id, WaitReturned, x);
  }

  lemma AdvanceKeepsCover(s: State, id: CallId, pick: SubId, x: SubId)
    requires AdvanceEnabled(s, id, pick) && CoveredAt(s, x)
    ensures CoveredAt(AdvanceCall(s, id, pick), x)
  {
    var c := s.calls[id];
    if InSend(c) {
      SendKeepsCover(s, id, x);
    } else if InStart(c) {
      StartKeepsCover(s, id, pick, x);
    } else if InSubscribe(c) {
      SubscribeKeepsCover(s, id, x);
    } else if InUnsubscribe(c) {
      UnsubscribeKeepsCover(s, id, x);
    } else {
      WaitKeepsCover(s, id, x);
    }
  }

  lemma {:induction false} RunKeepsCover(s: State, actions: seq<Action>)
    requires Initial(s)
    ensures Covered(Run(s, actions))
  {
    if actions == [] {
      forall x: nat ensures CoveredAt(s, x) {
      }
    } else {
      var before := Run(s, actions[..|actions| - 1]);
      var a := actions[|actions| - 1];
      RunKeepsCover(s, actions[..|actions| - 1]);
      if Enabled(before, a) {
        forall x: nat ensures CoveredAt(Next(before, a), x) {
          assert CoveredAt(before, x);
          if a.Advance? {
            AdvanceKeepsCover(before, a.id, a.pick, x);
          } else {
            InvokeKeepsCover(before, a, x);
          }
        }
      }
    }
  }

  /** While the bus is started and not stopped, every listed asynchronous subscriber has exactly
      one drainer and it runs, as soon as no Start or Subscribe is still at work on it. */
  lemma DrainerStarted(s: State, actions: seq<Action>, x: SubId)
    requires Initial(s)
    requires Run(s, actions).started && !Run(s, actions).stopped
    requires x < |Run(s, actions).subs|
    requires Run(s, actions).subs[x].async && Run(s, actions).subs[x].listed
    requires forall c :: c in Run(s, actions).calls ==> !WillLaunch(Run(s, actions).calls[c], x)
    ensures Run(s, actions).subs[x].launches == 1 && Running(Run(s, actions).subs[x])
  {
    RunKeepsCover(s, actions);
    RunKeepsInvariant(s, actions);
    var t := Run(s, actions);
    assert CoveredAt(t, x);
    assert SubOkAt(t.subs, x, t.bufferSize, t.swept);
  }
}
