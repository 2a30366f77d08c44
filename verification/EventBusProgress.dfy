/**
 What the calls of the event bus get done when nothing holds them up: each call's own steps, from any
 reachable state in which it can have the lock, and the drainers' steps where a call waits for them.
 */
module EventBusProgress {
  import opened EventBus
  import opened EventBusSafety
  import opened Ordering
  import opened Wrappers

  // ------------------------------------------------------------------------- refusals

  /** A Send is refused only by a stopped bus. */
  ghost predicate RefusedAt(s: State, id: CallId)
  {
    id in s.calls && s.calls[id].SendRefused? ==> s.stopped
  }

  lemma GotoRefuses(s: State, t: State, id: CallId, c: Call, i: CallId)
    requires RefusedAt(s, i) && t.calls == s.calls && (s.stopped ==> t.stopped)
    requires c.SendRefused? ==> t.stopped
    ensures RefusedAt(Goto(t, id, c), i)
  {
  }

  lemma PassRefuses(s: State, id: CallId, e: Event, targets: seq<SubId>, next: nat, i: CallId)
    requires next < |targets| && targets[next] < |s.subs| && RefusedAt(s, i)
    ensures RefusedAt(SendOne(s, id, e, targets, next), i)
  {
  }

  lemma PushRefuses(s: State, id: CallId, e: Event, targets: seq<SubId>, next: nat, i: CallId)
    requires next < |targets| && targets[next] < |s.subs| && RefusedAt(s, i)
    ensures RefusedAt(PushOne(s, id, e, targets, next), i)
  {
  }

  lemma SendRefuses(s: State, id: CallId, pick: SubId, i: CallId)
    requires AdvanceEnabled(s, id, pick) && InSend(s.calls[id]) && RefusedAt(s, i)
    ensures RefusedAt(AdvanceSend(s, id), i)
  {
    match s.calls[id]
    case SendBegun(e) =>
    case SendLocking(e) =>
    case Sending(e, targets, next) =>
      if next < |targets| {
        PassRefuses(s, id, e, targets, next, i);
      }
    case Pushing(e, targets, next) => PushRefuses(s, id, e, targets, next, i);
  }

  lemma StartRefuses(s: State, id: CallId, pick: SubId, i: CallId)
    requires AdvanceEnabled(s, id, pick) && InStart(s.calls[id]) && RefusedAt(s, i)
    ensures RefusedAt(AdvanceStart(s, id, pick), i)
  {
  }

  lemma AddRefuses(s: State, id: CallId, kind: Kind, name: string, wantsAsync: bool, i: CallId)
    requires RefusedAt(s, i)
    ensures RefusedAt(Add(s, id, kind, name, wantsAsync), i)
  {
  }

  lemma SubscribeRefuses(s: State, id: CallId, i: CallId)
    requires id in s.calls && InSubscribe(s.calls[id]) && RefusedAt(s, i)
    requires s.calls[id].SubscribeAdded? || s.calls[id].SubscribeSpawning? ==> s.calls[id].sub < |s.subs|
    ensures RefusedAt(AdvanceSubscribe(s, id), i)
  {
    var c := s.calls[id];
    if c.SubscribeLocked? {
      AddRefuses(s, id, c.kind, c.name, c.wantsAsync, i);
    } else if c.SubscribeSpawning? {
      GotoRefuses(s, Spawn(s, c.sub).(writer := None), id, Ended, i);
    }
  }

  lemma UnsubscribeRefuses(s: State, id: CallId, i: CallId)
    requires id in s.calls && InUnsubscribe(s.calls[id]) && RefusedAt(s, i)
    ensures RefusedAt(AdvanceUnsubscribe(s, id), i)
  {
    match s.calls[id]
    case UnsubscribeBegun(k, n) =>
      var found := Find(s.subs, Listed(s.dir, k), n);
      if found.Some? {
        var s' := RemoveAt(s, k, found.value);
        GotoRefuses(s, s', id, Ended, i);
        GotoRefuses(s, s', id, UnsubscribeDraining(Listed(s.dir, k)[found.value]), i);
      }
    case UnsubscribeDraining(x) => GotoRefuses(s, s, id, UnsubscribeReturned(x), i);
  }

  lemma CallRefuses(s: State, id: CallId, pick: SubId, i: CallId)
    requires AdvanceEnabled(s, id, pick) && RefusedAt(s, i)
    ensures RefusedAt(AdvanceCall(s, id, pick), i)
  {
    var c := s.calls[id];
    if InSend(c) {
      SendRefuses(s, id, pick, i);
    } else if InStart(c) {
      StartRefuses(s, id, pick, i);
    } else if InSubscribe(c) {
      SubscribeRefuses(s, id, i);
    } else if InUnsubscribe(c) {
      UnsubscribeRefuses(s, id, i);
    }
  }

  /** In every run: a Send that was refused met a stopped bus. */
  lemma {:induction false} RefusedOnlyWhenStopped(s: State, actions: seq<Action>, id: CallId)
    requires Initial(s)
    ensures RefusedAt(Run(s, actions), id)
  {
    if actions != [] {
      var before, a := actions[..|actions| - 1], actions[|actions| - 1];
      RefusedOnlyWhenStopped(s, before, id);
      if Enabled(Run(s, before), a) && a.Advance? {
        CallRefuses(Run(s, before), a.id, a.pick, id);
      }
    }
  }

  // -------------------------------------------------------------------- runs of one call

  /** Every action is a step of the call. */
  predicate OwnSteps(actions: seq<Action>, id: CallId)
  {
    forall i :: 0 <= i < |actions| ==> actions[i].Advance? && actions[i].id == id
  }

  lemma RunOne(t: State, a: Action)
    requires Enabled(t, a)
    ensures Run(t, [a]) == Next(t, a)
  {
    assert [a][..0] == [];
    assert Run(t, []) == t;
  }

  lemma {:induction false} RunConcat(t: State, first: seq<Action>, rest: seq<Action>)
    ensures Run(t, first + rest) == Run(Run(t, first), rest)
  {
    if rest == [] {
      assert first + rest == first;
    } else {
      var n := |rest| - 1;
      RunConcat(t, first, rest[..n]);
      assert (first + rest)[..|first + rest| - 1] == first + rest[..n];
    }
  }

  /** A step, then the rest. */
  lemma RunFirst(t: State, a: Action, rest: seq<Action>)
    requires Enabled(t, a)
    ensures Run(t, [a] + rest) == Run(Next(t, a), rest)
  {
    RunOne(t, a);
    RunConcat(t, [a], rest);
  }

  // ----------------------------------------------------------------------------- Send

  /** What one subscriber has after being sent the event: handled at once, queued, dropped for want
      of room, or passed over because its channel is closed. */
  predicate GotEvent(sub: Sub, sub': Sub, id: CallId, e: Event, bufferSize: nat)
  {
    if !sub.async then
      sub' == sub.(processed := sub.processed + [e], offers := sub.offers + [Offer(id, e, Handled)])
    else if sub.closed then
      sub' == sub.(offers := sub.offers + [Offer(id, e, SkippedClosed)])
    else if |sub.queue| < bufferSize then
      sub' == sub.(queue := sub.queue + [e], offers := sub.offers + [Offer(id, e, Accepted)])
    else
      sub' == sub.(offers := sub.offers + [Offer(id, e, Dropped(|sub.queue|))])
  }

  /** The event went to these subscribers, and nothing else happened but in the call itself. */
  ghost predicate SentTo(t: State, t': State, id: CallId, e: Event, ids: seq<SubId>)
  {
    && id in t'.calls && |t'.subs| == |t.subs|
    && t' == t.(subs := t'.subs, calls := t.calls[id := t'.calls[id]])
    && forall x: nat :: x < |t.subs| ==>
         if x in ids then GotEvent(t.subs[x], t'.subs[x], id, e, t.bufferSize) else t'.subs[x] == t.subs[x]
  }

  predicate IsOpen(sub: Sub)
  {
    sub.async && !sub.closed
  }

  ghost predicate AtTurn(t: State, id: CallId)
  {
    && Invariant(t) && !t.panicked && id in t.calls && t.calls[id].Sending?
    && t.calls[id].next < |t.calls[id].targets| && t.calls[id].targets[t.calls[id].next] < |t.subs|
  }

  /** One turn of Send's loop: to whom, and where the call stands then. */
  ghost predicate TurnDone(t: State, t': State, id: CallId)
    requires AtTurn(t, id)
  {
    var c := t.calls[id];
    && !t'.panicked && SentTo(t, t', id, c.event, [c.targets[c.next]])
    && t'.calls[id] == Sending(c.event, c.targets, c.next + 1)
  }

  /** A subscriber without an open channel takes one step of Send's loop, one with a channel two. */
  lemma PassTurn(t: State, id: CallId)
    requires AtTurn(t, id) && !IsOpen(t.subs[t.calls[id].targets[t.calls[id].next]])
    ensures TurnDone(t, Next(t, Advance(id, 0)), id)
  {
    var c := t.calls[id];
    assert Next(t, Advance(id, 0)) == SendOne(t, id, c.event, c.targets, c.next);
  }

  lemma PushTurn(t: State, id: CallId)
    requires AtTurn(t, id) && IsOpen(t.subs[t.calls[id].targets[t.calls[id].next]])
    ensures Enabled(Next(t, Advance(id, 0)), Advance(id, 0))
    ensures TurnDone(t, Next(Next(t, Advance(id, 0)), Advance(id, 0)), id)
  {
    var c := t.calls[id];
    var mid := Goto(t, id, Pushing(c.event, c.targets, c.next));
    assert Next(t, Advance(id, 0)) == mid;
    assert Next(mid, Advance(id, 0)) == PushOne(mid, id, c.event, c.targets, c.next);
  }

  lemma SendTurn(t: State, id: CallId) returns (actions: seq<Action>)
    requires AtTurn(t, id)
    ensures OwnSteps(actions, id) && Invariant(Run(t, actions)) && TurnDone(t, Run(t, actions), id)
  {
    var a := Advance(id, 0);
    StepKeepsInvariant(t, a);
    RunOne(t, a);
    actions := [a];
    if IsOpen(t.subs[t.calls[id].targets[t.calls[id].next]]) {
      PushTurn(t, id);
      StepKeepsInvariant(Next(t, a), a);
      RunOne(Next(t, a), a);
      RunFirst(t, a, [a]);
      actions := [a] + [a];
    } else {
      PassTurn(t, id);
    }
  }

  lemma {:induction false} SendLoop(t: State, id: CallId) returns (actions: seq<Action>)
    requires Invariant(t) && !t.panicked && id in t.calls && t.calls[id].Sending?
    ensures OwnSteps(actions, id)
    ensures var c, t' := t.calls[id], Run(t, actions);
            && c.next <= |c.targets| && SentTo(t, t', id, c.event, c.targets[c.next..])
            && t'.calls[id] == SendReturned(c.event, c.targets)
    decreases |t.calls[id].targets| - t.calls[id].next
  {
    var c := t.calls[id];
    assert CallOkAt(t.calls, t.writer, ViewOf(t), id);
    if c.next == |c.targets| {
      RunOne(t, Advance(id, 0));
      actions := [Advance(id, 0)];
    } else {
      TargetFacts(t, id);
      var first := SendTurn(t, id);
      var mid := Run(t, first);
      var rest := SendLoop(mid, id);
      actions := first + rest;
      RunConcat(t, first, rest);
      assert KindOk(t.dir, t.subs, c.event.kind);
      TurnThenRest(t, mid, Run(mid, rest), id, c.event, c.targets, c.next);
    }
  }

  lemma TurnThenRest(t: State, mid: State, t': State, id: CallId, e: Event, ids: seq<SubId>, n: nat)
    requires n < |ids| && Distinct(ids)
    requires SentTo(t, mid, id, e, [ids[n]]) && SentTo(mid, t', id, e, ids[n + 1..])
    ensures SentTo(t, t', id, e, ids[n..])
  {
    assert ids[n..] == [ids[n]] + ids[n + 1..];
    assert ids[n] !in ids[n + 1..];
  }

  lemma SendStarts(t: State, id: CallId)
    requires !t.panicked && id in t.calls && t.calls[id].SendBegun? && ReadLockFree(t) && !t.stopped
    ensures var e, a := t.calls[id].event, Advance(id, 0);
            && Next(t, a) == Goto(t, id, SendLocking(e)) && Enabled(Next(t, a), a)
            && Next(Next(t, a), a) == Goto(t, id, Sending(e, Listed(t.dir, e.kind), 0))
  {
    var e := t.calls[id].event;
    var mid := Goto(t, id, SendLocking(e));
    assert AdvanceCall(t, id, 0) == mid;
    assert AdvanceCall(mid, id, 0) == Goto(mid, id, Sending(e, Listed(t.dir, e.kind), 0));
    assert mid.calls[id := Sending(e, Listed(t.dir, e.kind), 0)] == t.calls[id := Sending(e, Listed(t.dir, e.kind), 0)];
  }

  /** A Send on a bus that is not stopped returns after its own steps, having sent the event to
      exactly the subscribers listed for its kind. */
  lemma SendDelivers(t: State, id: CallId) returns (actions: seq<Action>)
    requires Invariant(t) && !t.panicked && id in t.calls && t.calls[id].SendBegun? && ReadLockFree(t) && !t.stopped
    ensures OwnSteps(actions, id)
    ensures var e, ids := t.calls[id].event, Listed(t.dir, t.calls[id].event.kind);
            && SentTo(t, Run(t, actions), id, e, ids)
            && Run(t, actions).calls[id] == SendReturned(e, ids)
  {
    var e, a := t.calls[id].event, Advance(id, 0);
    SendStarts(t, id);
    StepKeepsInvariant(t, a);
    StepKeepsInvariant(Next(t, a), a);
    var start := Next(Next(t, a), a);
    var rest := SendLoop(start, id);
    RunFirst(Next(t, a), a, rest);
    RunFirst(t, a, [a] + rest);
    actions := [a] + ([a] + rest);
    assert start.calls[id].targets[0..] == Listed(t.dir, e.kind);
    SendFromStart(t, start, Run(start, rest), id, e, Listed(t.dir, e.kind));
  }

  lemma SendFromStart(t: State, start: State, t': State, id: CallId, e: Event, ids: seq<SubId>)
    requires start == Goto(t, id, Sending(e, ids, 0)) && SentTo(start, t', id, e, ids)
    ensures SentTo(t, t', id, e, ids)
  {
    assert t.calls[id := Sending(e, ids, 0)][id := t'.calls[id]] == t.calls[id := t'.calls[id]];
  }

  /** On a stopped bus a Send ends at once and sends nothing. */
  lemma StoppedSendsNothing(t: State, id: CallId)
    requires !t.panicked && id in t.calls && t.calls[id].SendBegun? && t.stopped
    ensures Next(t, Advance(id, 0)) == t.(calls := t.calls[id := SendRefused])
  {
  }
}
