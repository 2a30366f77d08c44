/** What Subscribe, Unsubscribe, Start and WaitForDone get done, each from any reachable state. */
module EventBusCalls {
  import opened EventBus
  import opened EventBusSafety
  import opened EventBusProgress
  import opened Ordering
  import opened Wrappers

  // ------------------------------------------------------------------------ names

  /** Some listed subscriber of the kind has the name. */
  ghost predicate NameTaken(s: State, k: Kind, name: string)
  {
    exists i :: 0 <= i < |Listed(s.dir, k)| && Named(s.subs, Listed(s.dir, k)[i], name)
  }

  predicate Named(subs: seq<Sub>, x: SubId, name: string)
  {
    x < |subs| && subs[x].name == name
  }

  lemma {:induction false} FindIff(subs: seq<Sub>, ids: seq<SubId>, name: string)
    ensures Find(subs, ids, name).Some? <==> exists i :: 0 <= i < |ids| && Named(subs, ids[i], name)
    ensures Find(subs, ids, name).Some? ==>
      forall j :: 0 <= j < Find(subs, ids, name).value ==> !Named(subs, ids[j], name)
  {
    if ids != [] {
      var rest := ids[1..];
      FindIff(subs, rest, name);
      if exists i :: 0 <= i < |ids| && Named(subs, ids[i], name) {
        var i :| 0 <= i < |ids| && Named(subs, ids[i], name);
        if i > 0 {
          assert Named(subs, rest[i - 1], name);
        }
      }
      if Find(subs, rest, name).Some? {
        assert forall j :: 0 < j < |ids| ==> ids[j] == rest[j - 1];
      }
    }
  }

  // -------------------------------------------------------------------- Subscribe

  /** The subscriber as it is stored: asynchronous only when asked for on a bus with buffers, and
      draining at once when the bus has been started. */
  function NewSub(t: State, k: Kind, name: string, wantsAsync: bool): Sub
  {
    var async := t.bufferSize > 0 && wantsAsync;
    var drained := async && t.started;
    Sub(k, name, async, true, false, [], if drained then Waiting else NotStarted, if drained then 1 else 0, [], [])
  }

  /** The bus after an undisturbed Subscribe. */
  ghost function Subscribed(t: State, id: CallId, k: Kind, name: string, wantsAsync: bool): State
  {
    var sub := NewSub(t, k, name, wantsAsync);
    if t.stopped || NameTaken(t, k, name) then t.(calls := t.calls[id := Ended])
    else t.(subs := t.subs + [sub], dir := t.dir[k := Listed(t.dir, k) + [|t.subs|]],
            wg := t.wg + (if sub.launches == 1 then 1 else 0), calls := t.calls[id := Ended])
  }

  lemma CallsCollapse(calls: map<CallId, Call>, id: CallId, c: Call, d: Call)
    ensures calls[id := c][id := d] == calls[id := d]
  {
  }

  /** The bus with the lock taken and the new subscriber added. */
  function WithNew(t: State, id: CallId, sub: Sub): State
  {
    t.(writer := Some(id), subs := t.subs + [sub], dir := t.dir[sub.kind := Listed(t.dir, sub.kind) + [|t.subs|]],
       calls := t.calls[id := SubscribeAdded(|t.subs|)])
  }

  lemma SubscribeAdds(t: State, id: CallId)
    requires !t.panicked && id in t.calls && t.calls[id].SubscribeBegun? && WriteLockFree(t)
    ensures var c, a := t.calls[id], Advance(id, 0);
            && Enabled(t, a) && Enabled(Next(t, a), a)
            && var t' := Next(Next(t, a), a);
            if t.stopped || NameTaken(t, c.kind, c.name) then t' == t.(calls := t.calls[id := Ended])
            else t' == WithNew(t, id, NewSub(t.(started := false), c.kind, c.name, c.wantsAsync))
  {
    var c := t.calls[id];
    var locked := Goto(t.(writer := Some(id)), id, SubscribeLocked(c.kind, c.name, c.wantsAsync));
    assert AdvanceCall(t, id, 0) == locked;
    assert AdvanceCall(locked, id, 0) == Add(locked, id, c.kind, c.name, c.wantsAsync);
    FindIff(t.subs, Listed(t.dir, c.kind), c.name);
    CallsCollapse(t.calls, id, locked.calls[id], Ended);
    CallsCollapse(t.calls, id, locked.calls[id], SubscribeAdded(|t.subs|));
  }

  /** The bus with the lock released. */
  function WithSub(t: State, id: CallId, sub: Sub, launched: nat): State
  {
    t.(subs := t.subs + [sub], dir := t.dir[sub.kind := Listed(t.dir, sub.kind) + [|t.subs|]],
       wg := t.wg + launched, calls := t.calls[id := Ended])
  }

  /** What is left of Subscribe once the subscriber is added, without and with a drainer. */
  lemma SubscribeUnlocks(t: State, id: CallId, sub: Sub)
    requires !t.panicked && t.writer.None? && !(sub.async && t.started)
    ensures var s0, a := WithNew(t, id, sub), Advance(id, 0);
            Enabled(s0, a) && Next(s0, a) == WithSub(t, id, sub, 0)
  {
    var s0 := WithNew(t, id, sub);
    assert s0.subs[|t.subs|] == sub;
    assert AdvanceCall(s0, id, 0) == Unlock(s0, id);
    CallsCollapse(t.calls, id, SubscribeAdded(|t.subs|), Ended);
  }

  lemma SubscribeLaunches(t: State, id: CallId, sub: Sub)
    requires !t.panicked && !t.stopped && t.writer.None? && sub.async && t.started
    ensures var s0, a, x := WithNew(t, id, sub), Advance(id, 0), |t.subs|;
            && Enabled(s0, a) && Next(s0, a) == s0.(calls := t.calls[id := SubscribeLaunching(x)])
            && Enabled(Next(s0, a), a)
            && Next(Next(s0, a), a) == s0.(calls := t.calls[id := SubscribeSpawning(x)])
  {
    var s0, x := WithNew(t, id, sub), |t.subs|;
    assert s0.subs[x] == sub;
    var s1 := Goto(s0, id, SubscribeLaunching(x));
    assert AdvanceCall(s0, id, 0) == s1;
    assert AdvanceCall(s1, id, 0) == Goto(s1, id, SubscribeSpawning(x));
    CallsCollapse(t.calls, id, SubscribeAdded(x), SubscribeLaunching(x));
    CallsCollapse(t.calls, id, SubscribeLaunching(x), SubscribeSpawning(x));
  }

  lemma SubscribeSpawns(t: State, id: CallId, sub: Sub)
    requires !t.panicked && t.writer.None? && sub.drainer.NotStarted? && sub.launches == 0
    ensures var s2, a := WithNew(t, id, sub).(calls := t.calls[id := SubscribeSpawning(|t.subs|)]), Advance(id, 0);
            Enabled(s2, a) && Next(s2, a) == WithSub(t, id, sub.(drainer := Waiting, launches := 1), 1)
  {
    var x, sub' := |t.subs|, sub.(drainer := Waiting, launches := 1);
    var s2 := WithNew(t, id, sub).(calls := t.calls[id := SubscribeSpawning(x)]);
    assert s2.subs[x] == sub && s2.subs[x := sub'] == t.subs + [sub'];
    assert AdvanceCall(s2, id, 0) == Unlock(Spawn(s2, x), id);
    CallsCollapse(t.calls, id, SubscribeSpawning(x), Ended);
  }

  lemma SubscribeEnds(t: State, id: CallId, sub: Sub) returns (actions: seq<Action>)
    requires !t.panicked && !t.stopped && t.writer.None? && sub.drainer.NotStarted? && sub.launches == 0
    ensures OwnSteps(actions, id)
    ensures Run(WithNew(t, id, sub), actions)
         == if sub.async && t.started then WithSub(t, id, sub.(drainer := Waiting, launches := 1), 1)
            else WithSub(t, id, sub, 0)
  {
    var s0, a := WithNew(t, id, sub), Advance(id, 0);
    if !(sub.async && t.started) {
      SubscribeUnlocks(t, id, sub);
      RunOne(s0, a);
      actions := [a];
    } else {
      SubscribeLaunches(t, id, sub);
      SubscribeSpawns(t, id, sub);
      RunOne(Next(Next(s0, a), a), a);
      RunFirst(Next(s0, a), a, [a]);
      RunFirst(s0, a, [a] + [a]);
      actions := [a] + ([a] + [a]);
    }
  }

  /** Subscribe returns after its own steps: refused, with nothing changed, exactly when the bus is
      stopped or the name is taken for the kind; otherwise the one new subscriber is listed last. */
  lemma SubscribeSubscribes(t: State, id: CallId) returns (actions: seq<Action>)
    requires !t.panicked && id in t.calls && t.calls[id].SubscribeBegun? && WriteLockFree(t)
    ensures OwnSteps(actions, id)
    ensures var c := t.calls[id]; Run(t, actions) == Subscribed(t, id, c.kind, c.name, c.wantsAsync)
  {
    var c, a := t.calls[id], Advance(id, 0);
    SubscribeAdds(t, id);
    var t2 := Next(Next(t, a), a);
    if t.stopped || NameTaken(t, c.kind, c.name) {
      RunOne(Next(t, a), a);
      RunFirst(t, a, [a]);
      actions := [a] + [a];
    } else {
      var rest := SubscribeEnds(t, id, NewSub(t.(started := false), c.kind, c.name, c.wantsAsync));
      RunFirst(Next(t, a), a, rest);
      RunFirst(t, a, [a] + rest);
      actions := [a] + ([a] + rest);
    }
  }

  // ------------------------------------------------------------------ Unsubscribe

  /** The bus after the locked part of an Unsubscribe of the i-th listed subscriber of the kind: it
      is off the list, its channel is closed, and the call waits for a drainer that was started. */
  function Unsubscribed(t: State, id: CallId, k: Kind, i: nat): State
    requires i < |Listed(t.dir, k)| && Listed(t.dir, k)[i] < |t.subs|
  {
    var ids := Listed(t.dir, k);
    var x := ids[i];
    var sub := t.subs[x];
    t.(subs := t.subs[x := sub.(listed := false, closed := sub.closed || sub.async)],
       dir := t.dir[k := ids[..i] + ids[i + 1..]],
       calls := t.calls[id := if sub.async && !sub.drainer.NotStarted? then UnsubscribeDraining(x) else Ended])
  }

  /** Unsubscribe takes off exactly the subscriber of that name, if there is one; otherwise nothing
      changes. */
  lemma UnsubscribeRemoves(t: State, id: CallId) returns (i: nat)
    requires !t.panicked && id in t.calls && t.calls[id].UnsubscribeBegun? && WriteLockFree(t)
    requires !LateUnsubscribe(t, Advance(id, 0)) && Invariant(t)
    ensures var c, t' := t.calls[id], Next(t, Advance(id, 0));
            if !NameTaken(t, c.kind, c.name) then t' == t.(calls := t.calls[id := Ended])
            else && i < |Listed(t.dir, c.kind)| && Named(t.subs, Listed(t.dir, c.kind)[i], c.name)
                 && t' == Unsubscribed(t, id, c.kind, i)
  {
    var c := t.calls[id];
    var ids := Listed(t.dir, c.kind);
    var found := Find(t.subs, ids, c.name);
    FindIff(t.subs, ids, c.name);
    assert AdvanceCall(t, id, 0) == Remove(t, id, c.kind, c.name);
    i := 0;
    if found.Some? {
      i := found.value;
      assert KindOk(t.dir, t.subs, c.kind) && SubOkAt(t.subs, ids[i], t.bufferSize, t.swept);
      assert IsListed(t.subs, ids[i], c.kind);
    }
  }

  // ---------------------------------------------------------------------- draining

  predicate DrainSteps(actions: seq<Action>)
  {
    forall i :: 0 <= i < |actions| ==> actions[i].Receive? || actions[i].Finish? || actions[i].Exit?
  }

  /** The subscriber once its closed channel is drained. */
  function Drained(sub: Sub): Sub
  {
    sub.(drainer := Exited, queue := [], processed := Taken(sub.offers))
  }

  /** The drainer's next step, before the last. */
  function DrainStep(sub: Sub, x: SubId): Action
  {
    if sub.drainer.Working? then Finish(x) else Receive(x)
  }

  function AfterDrainStep(sub: Sub): Sub
    requires sub.drainer.Working? || sub.queue != []
  {
    if sub.drainer.Working? then sub.(drainer := Waiting, processed := sub.processed + [sub.drainer.event])
    else sub.(drainer := Working(sub.queue[0]), queue := sub.queue[1..])
  }

  /** How many steps the drainer has left before it exits. */
  function StepsLeft(sub: Sub): nat
  {
    |sub.queue| + |sub.queue| + if sub.drainer.Working? then 1 else 0
  }

  ghost predicate Draining(t: State, x: SubId)
  {
    Invariant(t) && !t.panicked && x < |t.subs| && Running(t.subs[x]) && t.subs[x].closed
  }

  lemma DrainGoesOn(t: State, x: SubId)
    requires Draining(t, x) && StepsLeft(t.subs[x]) > 0
    ensures var sub, a := t.subs[x], DrainStep(t.subs[x], x);
            && Enabled(t, a) && Draining(Next(t, a), x)
            && Next(t, a) == t.(subs := t.subs[x := AfterDrainStep(sub)])
            && Drained(AfterDrainStep(sub)) == Drained(sub)
            && StepsLeft(AfterDrainStep(sub)) < StepsLeft(sub)
  {
    StepKeepsInvariant(t, DrainStep(t.subs[x], x));
  }

  lemma DrainEnds(t: State, x: SubId)
    requires Draining(t, x) && StepsLeft(t.subs[x]) == 0
    ensures Enabled(t, Exit(x)) && Next(t, Exit(x)) == t.(subs := t.subs[x := Drained(t.subs[x])], wg := t.wg - 1)
  {
    var sub := t.subs[x];
    assert SubOkAt(t.subs, x, t.bufferSize, t.swept);
    assert sub.processed == sub.processed + [] + [] == Taken(sub.offers);
  }

  /** The drainer of a closed channel processes everything that was taken and exits. */
  lemma {:induction false} DrainOne(t: State, x: SubId) returns (actions: seq<Action>)
    requires Draining(t, x)
    ensures DrainSteps(actions)
    ensures Run(t, actions) == t.(subs := t.subs[x := Drained(t.subs[x])], wg := t.wg - 1)
    decreases StepsLeft(t.subs[x])
  {
    if StepsLeft(t.subs[x]) == 0 {
      DrainEnds(t, x);
      RunOne(t, Exit(x));
      actions := [Exit(x)];
    } else {
      var sub, a := t.subs[x], DrainStep(t.subs[x], x);
      DrainGoesOn(t, x);
      var t1 := t.(subs := t.subs[x := AfterDrainStep(sub)]);
      var rest := DrainOne(t1, x);
      RunFirst(t, a, rest);
      actions := [a] + rest;
      assert t.subs[x := AfterDrainStep(sub)][x := Drained(sub)] == t.subs[x := Drained(sub)];
    }
  }

  lemma {:induction false} SomeRunning(subs: seq<Sub>) returns (x: SubId)
    requires CountRunning(subs) > 0
    ensures x < |subs| && Running(subs[x])
  {
    var n := |subs| - 1;
    if Running(subs[n]) {
      x := n;
    } else {
      x := SomeRunning(subs[..n]);
    }
  }

  /** All running drainers have drained their channels and exited; nothing else changed. */
  ghost predicate AllDrained(t: State, t': State)
  {
    && |t'.subs| == |t.subs| && t' == t.(subs := t'.subs, wg := 0)
    && forall x: nat :: x < |t.subs| ==> t'.subs[x] == if Running(t.subs[x]) then Drained(t.subs[x]) else t.subs[x]
  }

  lemma {:induction false} DrainAll(t: State) returns (actions: seq<Action>)
    requires Invariant(t) && !t.panicked && t.swept
    ensures DrainSteps(actions) && AllDrained(t, Run(t, actions)) && Invariant(Run(t, actions))
    decreases CountRunning(t.subs)
  {
    if t.wg == 0 {
      actions := [];
      forall x: nat | x < |t.subs| ensures !Running(t.subs[x]) {
        CountRunningZero(t.subs, x);
      }
    } else {
      var x := SomeRunning(t.subs);
      assert SubOkAt(t.subs, x, t.bufferSize, t.swept);
      var first := DrainOne(t, x);
      RunFromInvariant(t, first);
      CountRunningUpdate(t.subs, x, Drained(t.subs[x]));
      var rest := DrainAll(Run(t, first));
      RunConcat(t, first, rest);
      actions := first + rest;
    }
  }

  lemma {:induction false} RunFromInvariant(t: State, actions: seq<Action>)
    requires Invariant(t)
    ensures Invariant(Run(t, actions))
  {
    if actions != [] {
      var before, a := actions[..|actions| - 1], actions[|actions| - 1];
      RunFromInvariant(t, before);
      if Enabled(Run(t, before), a) {
        StepKeepsInvariant(Run(t, before), a);
      }
    }
  }

  /** An Unsubscribe that waits for a drainer returns once the drainer has done its work. */
  lemma UnsubscribeReturns(t: State, id: CallId) returns (actions: seq<Action>)
    requires Invariant(t) && !t.panicked && id in t.calls && t.calls[id].UnsubscribeDraining?
    requires Draining(t, t.calls[id].sub)
    ensures var x := t.calls[id].sub;
            Run(t, actions) == t.(subs := t.subs[x := Drained(t.subs[x])], wg := t.wg - 1,
                                  calls := t.calls[id := UnsubscribeReturned(x)])
  {
    var x := t.calls[id].sub;
    var first := DrainOne(t, x);
    var mid := Run(t, first);
    assert mid.subs[x].drainer.Exited?;
    RunOne(mid, Advance(id, 0));
    RunConcat(t, first, [Advance(id, 0)]);
    actions := first + [Advance(id, 0)];
  }

  // ------------------------------------------------------------------- WaitForDone

  /** Every listed channel is closed. */
  ghost predicate AllClosed(t: State, t': State)
  {
    |t'.subs| == |t.subs| && forall x: nat :: x < |t.subs| ==>
      t'.subs[x] == if t.subs[x].async && t.subs[x].listed then t.subs[x].(closed := true) else t.subs[x]
  }

  lemma WaitStops(t: State, id: CallId)
    requires Invariant(t) && !t.panicked && id in t.calls && t.calls[id].WaitBegun? && WriteLockFree(t)
    ensures var a := Advance(id, 0);
            && Enabled(Next(t, a), a)
            && var t' := Next(Next(t, a), a);
            && AllClosed(t, t')
            && t' == t.(stopped := true, swept := true, subs := t'.subs, calls := t.calls[id := WaitDraining])
  {
    var mid := Goto(t.(stopped := true), id, WaitLocking);
    assert AdvanceCall(t, id, 0) == mid;
    assert AdvanceCall(mid, id, 0) == Goto(Sweep(mid), id, WaitDraining);
    CallsCollapse(t.calls, id, WaitLocking, WaitDraining);
    forall x: nat | x < |t.subs|
      ensures Sweep(mid).subs[x]
           == if t.subs[x].async && t.subs[x].listed then t.subs[x].(closed := true) else t.subs[x]
    {
    }
  }

  lemma WaitEnds(t: State, id: CallId) returns (actions: seq<Action>)
    requires Invariant(t) && !t.panicked && t.swept && id in t.calls && t.calls[id].WaitDraining?
    ensures AllDrained(t, Run(t, actions).(calls := t.calls, waited := t.waited))
    ensures Run(t, actions).waited && Run(t, actions).calls == t.calls[id := WaitReturned]
  {
    var a := Advance(id, 0);
    var drain := DrainAll(t);
    var done := Run(t, drain);
    assert AdvanceCall(done, id, 0) == Goto(done.(waited := true), id, WaitReturned);
    RunOne(done, a);
    RunConcat(t, drain, [a]);
    actions := drain + [a];
  }

  /** WaitForDone stops the bus, closes every listed channel and, once the drainers have done their
      work, returns: with every drainer exited and everything that was taken processed. */
  lemma WaitCompletes(t: State, id: CallId) returns (actions: seq<Action>)
    requires Invariant(t) && !t.panicked && id in t.calls && t.calls[id].WaitBegun? && WriteLockFree(t)
    ensures var t' := Run(t, actions);
            && t'.stopped && t'.swept && t'.waited && t'.wg == 0 && !t'.panicked && t'.dir == t.dir
            && t'.calls == t.calls[id := WaitReturned] && |t'.subs| == |t.subs|
            && forall x: nat :: x < |t.subs| ==>
                 var sub := t.subs[x];
                 var closed := if sub.async && sub.listed then sub.(closed := true) else sub;
                 t'.subs[x] == if Running(sub) then Drained(closed) else closed
  {
    var a := Advance(id, 0);
    WaitStops(t, id);
    StepKeepsInvariant(t, a);
    StepKeepsInvariant(Next(t, a), a);
    var rest := WaitEnds(Next(Next(t, a), a), id);
    RunFirst(Next(t, a), a, rest);
    RunFirst(t, a, [a] + rest);
    actions := [a] + ([a] + rest);
    CallsCollapse(t.calls, id, WaitDraining, WaitReturned);
  }

  // ------------------------------------------------------------------------- Start

  function Launched(sub: Sub, now: bool): Sub
  {
    if now && sub.drainer.NotStarted? then sub.(drainer := Waiting, launches := sub.launches + 1) else sub
  }

  /** The drainers of these subscribers run; nothing else changed but in the call and the wait group. */
  ghost predicate AllLaunched(t: State, t': State, id: CallId, todo: set<SubId>)
  {
    && id in t'.calls && |t'.subs| == |t.subs|
    && t' == t.(subs := t'.subs, wg := t'.wg, calls := t.calls[id := t'.calls[id]])
    && forall x: nat :: x < |t.subs| ==> t'.subs[x] == Launched(t.subs[x], x in todo && !t.stopped)
  }

  lemma StartTurn(t: State, id: CallId, x: SubId) returns (actions: seq<Action>)
    requires Invariant(t) && !t.panicked && id in t.calls && t.calls[id].Starting? && x in t.calls[id].todo
    ensures Invariant(Run(t, actions)) && !Run(t, actions).panicked && AllLaunched(t, Run(t, actions), id, {x})
    ensures Run(t, actions).calls[id] == Starting(t.calls[id].todo - {x})
  {
    var todo, a := t.calls[id].todo - {x}, Advance(id, x);
    assert CallOkAt(t.calls, t.writer, ViewOf(t), id);
    RunOne(t, a);
    actions := [a];
    if !t.stopped {
      var mid := Goto(t, id, StartSpawning(todo, x));
      assert Next(t, a) == mid;
      RunOne(mid, a);
      RunFirst(t, a, [a]);
      actions := [a] + [a];
      assert AdvanceCall(mid, id, x) == Goto(Spawn(mid, x), id, Starting(todo));
      CallsCollapse(t.calls, id, StartSpawning(todo, x), Starting(todo));
    }
    RunFromInvariant(t, actions);
  }

  lemma {:induction false} StartLoop(t: State, id: CallId) returns (actions: seq<Action>)
    requires Invariant(t) && !t.panicked && id in t.calls && t.calls[id].Starting?
    ensures AllLaunched(t, Run(t, actions), id, t.calls[id].todo) && Run(t, actions).calls[id] == Ended
    decreases |t.calls[id].todo|
  {
    var todo := t.calls[id].todo;
    if todo == {} {
      RunOne(t, Advance(id, 0));
      actions := [Advance(id, 0)];
    } else {
      var x :| x in todo;
      var first := StartTurn(t, id, x);
      var mid := Run(t, first);
      var rest := StartLoop(mid, id);
      RunConcat(t, first, rest);
      actions := first + rest;
      LaunchedTogether(t, mid, Run(mid, rest), id, x, todo);
    }
  }

  lemma LaunchedTogether(t: State, mid: State, t': State, id: CallId, x: SubId, todo: set<SubId>)
    requires x in todo && AllLaunched(t, mid, id, {x}) && AllLaunched(mid, t', id, todo - {x})
    ensures AllLaunched(t, t', id, todo)
  {
    CallsCollapse(t.calls, id, mid.calls[id], t'.calls[id]);
  }

  /** The first Start sets the flag and, unless the bus is stopped, launches the drainer of every
      listed asynchronous subscriber; a second one does nothing. */
  lemma StartLaunches(t: State, id: CallId) returns (actions: seq<Action>)
    requires Invariant(t) && !t.panicked && id in t.calls && t.calls[id].StartBegun? && ReadLockFree(t)
    ensures var t' := Run(t, actions);
            && t'.calls == t.calls[id := Ended] && t'.started && t'.dir == t.dir && |t'.subs| == |t.subs|
            && forall x: nat :: x < |t.subs| ==>
                 var sub := t.subs[x];
                 t'.subs[x] == Launched(sub, !t.started && !t.stopped && sub.listed && sub.async)
  {
    var a := Advance(id, 0);
    if t.started {
      RunOne(t, a);
      actions := [a];
    } else {
      var s1 := Goto(t.(started := true), id, StartLocking);
      var s2 := Goto(s1, id, Starting(AsyncRegistered(s1)));
      assert AdvanceCall(t, id, 0) == s1 && AdvanceCall(s1, id, 0) == s2;
      StepKeepsInvariant(t, a);
      StepKeepsInvariant(s1, a);
      var rest := StartLoop(s2, id);
      RunFirst(s1, a, rest);
      RunFirst(t, a, [a] + rest);
      actions := [a] + ([a] + rest);
      CallsCollapse(t.calls, id, StartLocking, s2.calls[id]);
      CallsCollapse(t.calls, id, s2.calls[id], Ended);
    }
  }

  // ------------------------------------------------------------------ unique names

  /** The listed subscribers of a kind have different names. */
  ghost predicate NamesDiffer(s: State, k: Kind)
  {
    forall i, j :: 0 <= i < j < |Listed(s.dir, k)| ==> Differ(s.subs, Listed(s.dir, k)[i], Listed(s.dir, k)[j])
  }

  predicate Differ(subs: seq<Sub>, x: SubId, y: SubId)
  {
    x < |subs| && y < |subs| && subs[x].name != subs[y].name
  }

  /** No subscriber is renamed or listed anew. */
  ghost predicate SameNames(s: State, s': State)
  {
    s'.dir == s.dir && |s.subs| == |s'.subs| && forall x: nat :: x < |s.subs| ==> SameName(s.subs, s'.subs, x)
  }

  predicate SameName(subs: seq<Sub>, subs': seq<Sub>, x: SubId)
  {
    x < |subs| && x < |subs'| && subs[x].name == subs'[x].name
  }

  lemma SameNamesDiffer(s: State, s': State, k: Kind)
    requires SameNames(s, s') && NamesDiffer(s, k)
    ensures NamesDiffer(s', k)
  {
    var ids := Listed(s.dir, k);
    forall i, j | 0 <= i < j < |ids| ensures Differ(s'.subs, ids[i], ids[j]) {
      assert Differ(s.subs, ids[i], ids[j]);
      assert SameName(s.subs, s'.subs, ids[i]) && SameName(s.subs, s'.subs, ids[j]);
    }
  }

  lemma NoSubChanges(s: State, t: State)
    requires t.dir == s.dir && t.subs == s.subs
    ensures SameNames(s, t)
  {
  }

  lemma OneSubChanges(s: State, t: State, x: SubId, sub: Sub)
    requires x < |s.subs| && t.dir == s.dir && t.subs == s.subs[x := sub] && sub.name == s.subs[x].name
    ensures SameNames(s, t)
  {
  }

  lemma SetAndGoto(s: State, x: SubId, sub: Sub, id: CallId, c: Call)
    requires x < |s.subs| && sub.name == s.subs[x].name
    ensures SameNames(s, Goto(SetSub(s, x, sub), id, c))
  {
    OneSubChanges(s, Goto(SetSub(s, x, sub), id, c), x, sub);
  }

  lemma SendOneKeepsNames(s: State, id: CallId, e: Event, targets: seq<SubId>, next: nat)
    requires next < |targets| && targets[next] < |s.subs|
    ensures SameNames(s, SendOne(s, id, e, targets, next))
  {
    var x := targets[next];
    if IsOpen(s.subs[x]) {
      NoSubChanges(s, Goto(s, id, Pushing(e, targets, next)));
    } else if s.subs[x].async {
      SetAndGoto(s, x, Offered(s.subs[x], id, e, SkippedClosed), id, Sending(e, targets, next + 1));
    } else {
      SetAndGoto(s, x, HandleNow(s.subs[x], id, e), id, Sending(e, targets, next + 1));
    }
  }

  lemma PushOneKeepsNames(s: State, id: CallId, e: Event, targets: seq<SubId>, next: nat)
    requires next < |targets| && targets[next] < |s.subs|
    ensures SameNames(s, PushOne(s, id, e, targets, next))
  {
    var x := targets[next];
    if s.subs[x].closed {
      NoSubChanges(s, PushOne(s, id, e, targets, next));
    } else {
      SetAndGoto(s, x, Push(s.subs[x], id, e, s.bufferSize), id, Sending(e, targets, next + 1));
    }
  }

  lemma SendKeepsNames(s: State, id: CallId, pick: SubId)
    requires AdvanceEnabled(s, id, pick) && InSend(s.calls[id])
    ensures SameNames(s, AdvanceSend(s, id))
  {
    var c := s.calls[id];
    if c.Sending? && c.next < |c.targets| {
      SendOneKeepsNames(s, id, c.event, c.targets, c.next);
    } else if c.Pushing? {
      PushOneKeepsNames(s, id, c.event, c.targets, c.next);
    } else {
      NoSubChanges(s, AdvanceSend(s, id));
    }
  }

  lemma StartKeepsNames(s: State, id: CallId, pick: SubId)
    requires AdvanceEnabled(s, id, pick) && InStart(s.calls[id])
    ensures SameNames(s, AdvanceStart(s, id, pick))
  {
    if s.calls[id].StartSpawning? {
      var x := s.calls[id].sub;
      OneSubChanges(s, AdvanceStart(s, id, pick), x, Launch(s.subs[x]));
    } else {
      NoSubChanges(s, AdvanceStart(s, id, pick));
    }
  }

  lemma AddKeepsNames(s: State, id: CallId, kind: Kind, name: string, wantsAsync: bool, k: Kind)
    requires NamesDiffer(s, k) && DirOk(s.dir, s.subs)
    ensures NamesDiffer(Add(s, id, kind, name, wantsAsync), k)
  {
    var s', ids := Add(s, id, kind, name, wantsAsync), Listed(s.dir, k);
    FindIff(s.subs, Listed(s.dir, kind), name);
    assert KindOk(s.dir, s.subs, k);
    forall i, j | 0 <= i < j < |Listed(s'.dir, k)|
      ensures Differ(s'.subs, Listed(s'.dir, k)[i], Listed(s'.dir, k)[j])
    {
      assert IsListed(s.subs, ids[i], k);
      if j < |ids| {
        assert Differ(s.subs, ids[i], ids[j]);
      } else {
        assert !Named(s.subs, ids[i], name);
      }
    }
  }

  lemma SubscribeKeepsNames(s: State, id: CallId, pick: SubId, k: Kind)
    requires Invariant(s) && AdvanceEnabled(s, id, pick) && InSubscribe(s.calls[id]) && NamesDiffer(s, k)
    ensures NamesDiffer(AdvanceSubscribe(s, id), k)
  {
    var c, s' := s.calls[id], AdvanceSubscribe(s, id);
    if c.SubscribeLocked? {
      AddKeepsNames(s, id, c.kind, c.name, c.wantsAsync, k);
    } else if c.SubscribeSpawning? {
      OneSubChanges(s, s', c.sub, Launch(s.subs[c.sub]));
      SameNamesDiffer(s, s', k);
    } else {
      NoSubChanges(s, s');
      SameNamesDiffer(s, s', k);
    }
  }

  lemma RemoveAtKeepsNames(s: State, kind: Kind, n: nat, k: Kind)
    requires n < |Listed(s.dir, kind)| && Listed(s.dir, kind)[n] < |s.subs| && NamesDiffer(s, k)
    ensures NamesDiffer(RemoveAt(s, kind, n), k)
  {
    var s' := RemoveAt(s, kind, n);
    var ids, ids' := Listed(s.dir, k), Listed(s'.dir, k);
    assert k == kind ==> ids' == ids[..n] + ids[n + 1..];
    forall i, j | 0 <= i < j < |ids'| ensures Differ(s'.subs, ids'[i], ids'[j]) {
      if k == kind {
        assert Differ(s.subs, ids[if i < n then i else i + 1], ids[if j < n then j else j + 1]);
      } else {
        assert Differ(s.subs, ids[i], ids[j]);
      }
    }
  }

  lemma GotoKeepsNames(s: State, id: CallId, c: Call, k: Kind)
    requires NamesDiffer(s, k)
    ensures NamesDiffer(Goto(s, id, c), k)
  {
    SameNamesDiffer(s, Goto(s, id, c), k);
  }

  lemma RemoveKeepsNames(s: State, id: CallId, kind: Kind, name: string, k: Kind)
    requires NamesDiffer(s, k)
    ensures NamesDiffer(Remove(s, id, kind, name), k)
  {
    var ids := Listed(s.dir, kind);
    var found := Find(s.subs, ids, name);
    if found.None? {
      GotoKeepsNames(s, id, Ended, k);
    } else {
      var sub, s' := s.subs[ids[found.value]], RemoveAt(s, kind, found.value);
      if sub.async && sub.closed {
        SameNamesDiffer(s, s.(panicked := true), k);
      } else {
        RemoveAtKeepsNames(s, kind, found.value, k);
        GotoKeepsNames(s', id, Ended, k);
        GotoKeepsNames(s', id, UnsubscribeDraining(ids[found.value]), k);
      }
    }
  }

  lemma UnsubscribeKeepsNames(s: State, id: CallId, k: Kind)
    requires id in s.calls && InUnsubscribe(s.calls[id]) && NamesDiffer(s, k)
    ensures NamesDiffer(AdvanceUnsubscribe(s, id), k)
  {
    match s.calls[id]
    case UnsubscribeDraining(x) => GotoKeepsNames(s, id, UnsubscribeReturned(x), k);
    case UnsubscribeBegun(kind, name) => RemoveKeepsNames(s, id, kind, name, k);
  }

  lemma StepKeepsNames(s: State, a: Action, k: Kind)
    requires Invariant(s) && Enabled(s, a) && NamesDiffer(s, k)
    ensures NamesDiffer(Next(s, a), k)
  {
    if !a.Advance? {
      SameNamesDiffer(s, Next(s, a), k);
    } else if InSend(s.calls[a.id]) {
      SendKeepsNames(s, a.id, a.pick);
      SameNamesDiffer(s, AdvanceSend(s, a.id), k);
    } else if InStart(s.calls[a.id]) {
      StartKeepsNames(s, a.id, a.pick);
      SameNamesDiffer(s, AdvanceStart(s, a.id, a.pick), k);
    } else if InSubscribe(s.calls[a.id]) {
      SubscribeKeepsNames(s, a.id, a.pick, k);
    } else if InUnsubscribe(s.calls[a.id]) {
      UnsubscribeKeepsNames(s, a.id, k);
    } else {
      SameNamesDiffer(s, AdvanceWait(s, a.id), k);
    }
  }

  /** In every run: the listed subscribers of a kind have different names. */
  lemma {:induction false} NamesAreUnique(s: State, actions: seq<Action>, k: Kind)
    requires Initial(s)
    ensures NamesDiffer(Run(s, actions), k)
  {
    if actions != [] {
      var before, a := actions[..|actions| - 1], actions[|actions| - 1];
      NamesAreUnique(s, before, k);
      RunKeepsInvariant(s, before);
      if Enabled(Run(s, before), a) {
        StepKeepsNames(Run(s, before), a, k);
      }
    }
  }
}
