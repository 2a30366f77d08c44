/** What the event bus guarantees in every run: conservation, draining and channel safety. */
module EventBusSafety {
  import opened EventBus
  import opened Wrappers

  // ------------------------------------------------ conservation, order and draining

  /** In every run, whatever a subscriber took is processed, being processed or queued, in the
      order it was offered; the queue stays within the buffer and one drainer at most starts. */
  lemma EventConservation(s: State, actions: seq<Action>, x: SubId)
    requires Initial(s) && x < |Run(s, actions).subs|
    ensures var sub := Run(s, actions).subs[x];
            && sub.processed + InFlight(sub.drainer) + sub.queue == Taken(sub.offers)
            && |sub.queue| <= Run(s, actions).bufferSize
            && sub.launches <= 1
            && OffersOk(sub, Run(s, actions).bufferSize)
  {
    RunKeepsInvariant(s, actions);
    var t := Run(s, actions);
    assert SubOkAt(t.subs, x, t.bufferSize, t.swept);
  }

  /** Once a WaitForDone has returned, every event taken by a subscriber whose drainer was started
      has been processed, now and in every later state. */
  lemma DrainOnShutdown(s: State, actions: seq<Action>, id: CallId, x: SubId)
    requires Initial(s)
    requires id in Run(s, actions).calls && Run(s, actions).calls[id].WaitReturned?
    requires x < |Run(s, actions).subs| && Run(s, actions).subs[x].launches > 0
    ensures var sub := Run(s, actions).subs[x];
            sub.drainer.Exited? && sub.queue == [] && sub.processed == Taken(sub.offers)
  {
    RunKeepsInvariant(s, actions);
    var t := Run(s, actions);
    assert CallOkAt(t.calls, t.writer, ViewOf(t), id);
    assert SubOkAt(t.subs, x, t.bufferSize, t.swept);
    CountRunningZero(t.subs, x);
  }

  /** An Unsubscribe that waited for a drainer returns after everything taken was processed. */
  lemma UnsubscribeDrains(s: State, actions: seq<Action>, id: CallId)
    requires Initial(s)
    requires id in Run(s, actions).calls && Run(s, actions).calls[id].UnsubscribeReturned?
    ensures var t := Run(s, actions);
            var x := t.calls[id].sub;
            && x < |t.subs| && t.subs[x].drainer.Exited?
            && t.subs[x].processed == Taken(t.subs[x].offers)
  {
    RunKeepsInvariant(s, actions);
    var t := Run(s, actions);
    assert CallOkAt(t.calls, t.writer, ViewOf(t), id);
    assert SubOkAt(t.subs, t.calls[id].sub, t.bufferSize, t.swept);
  }

  // --------------------------------------------------------------- channel safety

  /** Unsubscribe reaches an asynchronous subscriber after WaitForDone's sweep. */
  predicate LateUnsubscribe(s: State, a: Action)
  {
    a.Advance? && a.id in s.calls && s.calls[a.id].UnsubscribeBegun? && s.swept &&
    var c := s.calls[a.id];
    var ids := Listed(s.dir, c.kind);
    var found := Find(s.subs, ids, c.name);
    found.Some? && s.subs[ids[found.value]].async
  }

  lemma UnsubscribePanicsIff(s: State, id: CallId, pick: SubId)
    requires Invariant(s) && !s.panicked && id in s.calls && s.calls[id].UnsubscribeBegun?
    ensures AdvanceUnsubscribe(s, id).panicked <==> LateUnsubscribe(s, Advance(id, pick))
  {
    var c := s.calls[id];
    var ids := Listed(s.dir, c.kind);
    var found := Find(s.subs, ids, c.name);
    if found.Some? {
      assert KindOk(s.dir, s.subs, c.kind);
      assert IsListed(s.subs, ids[found.value], c.kind);
      assert SubOkAt(s.subs, ids[found.value], s.bufferSize, s.swept);
    }
  }

  /** A step sends on a closed channel or closes one twice exactly when it is a late Unsubscribe. */
  lemma PanicsIff(s: State, a: Action)
    requires Invariant(s) && Enabled(s, a)
    ensures Next(s, a).panicked <==> LateUnsubscribe(s, a)
  {
    if a.Advance? {
      if s.calls[a.id].Pushing? {
        PushKeepsInvariant(s, a.id, a.pick);
      } else if s.calls[a.id].UnsubscribeBegun? {
        UnsubscribePanicsIff(s, a.id, a.pick);
      } else {
        OthersNeverPanic(s, a.id, a.pick);
      }
    }
  }

  lemma OthersNeverPanic(s: State, id: CallId, pick: SubId)
    requires AdvanceEnabled(s, id, pick) && !s.panicked
    requires !s.calls[id].Pushing? && !s.calls[id].UnsubscribeBegun?
    ensures !AdvanceCall(s, id, pick).panicked
  {
    if InSend(s.calls[id]) {
      assert !AdvanceSend(s, id).panicked;
    }
  }

  lemma LastStepPanics(s: State, actions: seq<Action>)
    requires Initial(s) && actions != []
    ensures Run(s, actions).panicked
       <==> Run(s, actions[..|actions| - 1]).panicked || TakesLateUnsubscribe(s, actions, |actions| - 1)
  {
    var n := |actions| - 1;
    RunKeepsInvariant(s, actions[..n]);
    if Enabled(Run(s, actions[..n]), actions[n]) {
      PanicsIff(Run(s, actions[..n]), actions[n]);
    }
  }

  /** Over every run: no send hits a closed channel and no channel is closed twice, unless an
      Unsubscribe reaches an asynchronous subscriber after the shutdown sweep; then one is. */
  lemma {:induction false} ChannelSafety(s: State, actions: seq<Action>)
    requires Initial(s)
    ensures Run(s, actions).panicked
       <==> exists k :: 0 <= k < |actions| && TakesLateUnsubscribe(s, actions, k)
  {
    if actions != [] {
      var n := |actions| - 1;
      var before := actions[..n];
      ChannelSafety(s, before);
      LastStepPanics(s, actions);
      forall k | 0 <= k < n ensures TakesLateUnsubscribe(s, before, k) == TakesLateUnsubscribe(s, actions, k) {
        assert before[..k] == actions[..k];
      }
    }
  }

  ghost predicate TakesLateUnsubscribe(s: State, actions: seq<Action>, k: nat)
    requires k < |actions|
  {
    var before := Run(s, actions[..k]);
    Enabled(before, actions[k]) && LateUnsubscribe(before, actions[k])
  }

  lemma RunStep(s: State, actions: seq<Action>, t: State, a: Action)
    requires Run(s, actions) == t && Enabled(t, a)
    ensures Run(s, actions + [a]) == Next(t, a)
  {
    assert (actions + [a])[..|actions|] == actions;
  }

  lemma InvokeRuns(s: State, actions: seq<Action>, t: State, id: CallId, c: Call)
    requires Run(s, actions) == t && !t.panicked && id !in t.calls && Begins(c)
    ensures Run(s, actions + [Invoke(id, c)]) == Goto(t, id, c)
  {
    RunStep(s, actions, t, Invoke(id, c));
  }

  lemma SubscribeRuns(s: State, actions: seq<Action>, t: State, id: CallId)
    requires Run(s, actions) == t && !t.panicked && id in t.calls && InSubscribe(t.calls[id])
    requires t.calls[id].SubscribeBegun? ==> WriteLockFree(t)
    requires t.calls[id].SubscribeAdded? || t.calls[id].SubscribeSpawning? ==> t.calls[id].sub < |t.subs|
    ensures Run(s, actions + [Advance(id, 0)]) == AdvanceSubscribe(t, id)
  {
    RunStep(s, actions, t, Advance(id, 0));
  }

  lemma WaitRuns(s: State, actions: seq<Action>, t: State, id: CallId)
    requires Run(s, actions) == t && !t.panicked && id in t.calls
    requires t.calls[id].WaitBegun? || (t.calls[id].WaitLocking? && WriteLockFree(t))
    ensures Run(s, actions + [Advance(id, 0)]) == AdvanceWait(t, id)
  {
    RunStep(s, actions, t, Advance(id, 0));
  }

  /** A subscriber added before the bus was ever started. */
  lemma AddedState() returns (s: State, actions: seq<Action>, t: State)
    ensures Initial(s) && Run(s, actions) == t && !t.panicked && WriteLockFree(t)
    ensures t.calls.Keys == {0} && Listed(t.dir, "k") == [0]
    ensures |t.subs| == 1 && t.subs[0].async && t.subs[0].name == "n"
  {
    s := State(1, None, false, false, false, false, 0, [], map[], map[], false);
    var begun := SubscribeBegun("k", "n", true);
    InvokeRuns(s, [], s, 0, begun);
    t := Goto(s, 0, begun);
    actions := [] + [Invoke(0, begun)];
    SubscribeRuns(s, actions, t, 0);
    t, actions := AdvanceSubscribe(t, 0), actions + [Advance(0, 0)];
    SubscribeRuns(s, actions, t, 0);
    t, actions := AdvanceSubscribe(t, 0), actions + [Advance(0, 0)];
    SubscribeRuns(s, actions, t, 0);
    t, actions := AdvanceSubscribe(t, 0), actions + [Advance(0, 0)];
  }

  /** The same bus after a WaitForDone has swept it. */
  lemma SweptState() returns (s: State, actions: seq<Action>, t: State)
    ensures Initial(s) && Run(s, actions) == t && !t.panicked && WriteLockFree(t) && t.swept
    ensures 2 !in t.calls && Listed(t.dir, "k") == [0]
    ensures |t.subs| == 1 && t.subs[0].async && t.subs[0].name == "n"
  {
    s, actions, t := AddedState();
    var begun := Goto(t, 1, WaitBegun);
    InvokeRuns(s, actions, t, 1, WaitBegun);
    actions := actions + [Invoke(1, WaitBegun)];
    WaitRuns(s, actions, begun, 1);
    actions := actions + [Advance(1, 0)];
    var locking := Goto(begun.(stopped := true), 1, WaitLocking);
    assert WriteLockFree(locking);
    WaitRuns(s, actions, locking, 1);
    actions := actions + [Advance(1, 0)];
    t := Goto(Sweep(locking), 1, WaitDraining);
  }

  /** A late Unsubscribe is possible, and closes the channel a second time. */
  lemma DoubleCloseIsReachable() returns (s: State, actions: seq<Action>)
    ensures Initial(s) && Run(s, actions).panicked
  {
    var t;
    s, actions, t := SweptState();
    var c := UnsubscribeBegun("k", "n");
    InvokeRuns(s, actions, t, 2, c);
    var u := Goto(t, 2, c);
    RunKeepsInvariant(s, actions + [Invoke(2, c)]);
    UnsubscribePanicsIff(u, 2, 0);
    RunStep(s, actions + [Invoke(2, c)], u, Advance(2, 0));
    actions := actions + [Invoke(2, c)] + [Advance(2, 0)];
  }
}
