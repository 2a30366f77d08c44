/** Every Send offers its event exactly once to every subscriber it found listed. */
module EventBusLedger {
  import opened EventBus
  import opened Wrappers

  // ------------------------------------------------- every send is counted once

  /** How often a call offered an event to a subscriber. */
  function OfferCount(offers: seq<Offer>, call: CallId, event: Event): nat
  {
    if offers == [] then 0
    else
      var last := offers[|offers| - 1];
      OfferCount(offers[..|offers| - 1], call, event)
      + if last.call == call && last.event == event then 1 else 0
  }

  function OffersOf(subs: seq<Sub>, x: SubId): seq<Offer>
  {
    if x < |subs| then subs[x].offers else []
  }

  /** The event of a call and the subscribers it has offered it to so far, if any. */
  function Dealing(c: Call): (Event, seq<SubId>)
  {
    match c
    case Sending(e, targets, next) => (e, Prefix(targets, next))
    case Pushing(e, targets, next) => (e, Prefix(targets, next))
    case SendReturned(e, targets) => (e, targets)
    case _ => (Event("", 0), [])
  }

  function Prefix(ids: seq<SubId>, n: nat): seq<SubId>
  {
    if n <= |ids| then ids[..n] else ids
  }

  /** The call has dealt with the subscriber, for that event. */
  predicate Dealt(calls: map<CallId, Call>, id: CallId, event: Event, x: SubId)
  {
    id in calls && Dealing(calls[id]).0 == event && x in Dealing(calls[id]).1
  }

  predicate LedgerAt(subs: seq<Sub>, calls: map<CallId, Call>, x: SubId, id: CallId, event: Event)
  {
    OfferCount(OffersOf(subs, x), id, event) == if Dealt(calls, id, event, x) then 1 else 0
  }

  ghost predicate Ledger(subs: seq<Sub>, calls: map<CallId, Call>)
  {
    forall x: nat, id: nat, event :: LedgerAt(subs, calls, x, id, event)
  }

  /** A step that offers nothing and completes nobody's delivery. */
  lemma QuietStep(s: State, s': State)
    requires Ledger(s.subs, s.calls)
    requires SameOffers(s.subs, s'.subs)
    requires forall id: nat, event, x: nat :: Dealt(s'.calls, id, event, x) == Dealt(s.calls, id, event, x)
    ensures Ledger(s'.subs, s'.calls)
  {
    forall x: nat, id: nat, event ensures LedgerAt(s'.subs, s'.calls, x, id, event) {
      assert LedgerAt(s.subs, s.calls, x, id, event);
      assert OffersOf(s'.subs, x) == OffersOf(s.subs, x);
      assert Dealt(s'.calls, id, event, x) == Dealt(s.calls, id, event, x);
    }
  }

  lemma DealtStep(calls: map<CallId, Call>, id: CallId, i: CallId, event: Event, x: SubId)
    requires id in calls && (calls[id].Sending? || calls[id].Pushing?) && calls[id].next < |calls[id].targets|
    ensures var c := calls[id];
            Dealt(calls[id := Sending(c.event, c.targets, c.next + 1)], i, event, x)
            <==> Dealt(calls, i, event, x) || (i == id && event == c.event && x == c.targets[c.next])
  {
    var c := calls[id];
    assert c.targets[..c.next + 1] == c.targets[..c.next] + [c.targets[c.next]];
  }

  lemma OneMoreOffer(offers: seq<Offer>, o: Offer, call: CallId, event: Event)
    ensures OfferCount(offers + [o], call, event)
         == OfferCount(offers, call, event) + if o.call == call && o.event == event then 1 else 0
  {
    assert (offers + [o])[..|offers|] == offers;
  }

  /** Send's loop deals with one more subscriber and offers it the event, once. */
  lemma OfferStep(s: State, id: CallId, sub: Sub, outcome: Outcome)
    requires Invariant(s) && Ledger(s.subs, s.calls) && id in s.calls
    requires s.calls[id].Sending? || s.calls[id].Pushing?
    requires s.calls[id].next < |s.calls[id].targets| && s.calls[id].targets[s.calls[id].next] < |s.subs|
    requires sub.offers == s.subs[s.calls[id].targets[s.calls[id].next]].offers
                        + [Offer(id, s.calls[id].event, outcome)]
    ensures var c := s.calls[id];
            var s' := Goto(SetSub(s, c.targets[c.next], sub), id, Sending(c.event, c.targets, c.next + 1));
            Ledger(s'.subs, s'.calls)
  {
    var c := s.calls[id];
    var x0 := c.targets[c.next];
    var s' := Goto(SetSub(s, x0, sub), id, Sending(c.event, c.targets, c.next + 1));
    assert CallOkAt(s.calls, s.writer, ViewOf(s), id);
    assert KindOk(s.dir, s.subs, c.event.kind);
    assert x0 !in c.targets[..c.next];
    forall x: nat, i: nat, event ensures LedgerAt(s'.subs, s'.calls, x, i, event) {
      assert LedgerAt(s.subs, s.calls, x, i, event);
      DealtStep(s.calls, id, i, event, x);
      if x == x0 {
        OneMoreOffer(s.subs[x0].offers, Offer(id, c.event, outcome), i, event);
      }
    }
  }

  predicate SendsOne(s: State, id: CallId)
  {
    id in s.calls && (s.calls[id].Sending? || s.calls[id].Pushing?)
  }

  lemma PushKeepsLedger(s: State, id: CallId, pick: SubId)
    requires Invariant(s) && Ledger(s.subs, s.calls)
    requires AdvanceEnabled(s, id, pick) && s.calls[id].Pushing?
    ensures Ledger(AdvanceCall(s, id, pick).subs, AdvanceCall(s, id, pick).calls)
  {
    var c := s.calls[id];
    TargetFacts(s, id);
    var sub := s.subs[c.targets[c.next]];
    var outcome := if |sub.queue| < s.bufferSize then Accepted else Dropped(|sub.queue|);
    OfferStep(s, id, Push(sub, id, c.event, s.bufferSize), outcome);
  }

  lemma PassKeepsLedger(s: State, id: CallId, pick: SubId)
    requires Invariant(s) && Ledger(s.subs, s.calls)
    requires AdvanceEnabled(s, id, pick) && s.calls[id].Sending? && s.calls[id].next < |s.calls[id].targets|
    ensures Ledger(AdvanceCall(s, id, pick).subs, AdvanceCall(s, id, pick).calls)
  {
    var c := s.calls[id];
    var sub := s.subs[c.targets[c.next]];
    if sub.async && !sub.closed {
      CallQuiet(s.calls, id, Pushing(c.event, c.targets, c.next));
      QuietStep(s, AdvanceCall(s, id, pick));
    } else if sub.async {
      OfferStep(s, id, Offered(sub, id, c.event, SkippedClosed), SkippedClosed);
    } else {
      OfferStep(s, id, HandleNow(sub, id, c.event), Handled);
    }
  }

  lemma SendKeepsLedger(s: State, id: CallId, pick: SubId)
    requires Invariant(s) && Ledger(s.subs, s.calls)
    requires AdvanceEnabled(s, id, pick) && SendsOne(s, id)
    ensures Ledger(AdvanceCall(s, id, pick).subs, AdvanceCall(s, id, pick).calls)
  {
    var c := s.calls[id];
    if c.Pushing? {
      PushKeepsLedger(s, id, pick);
    } else if c.next < |c.targets| {
      PassKeepsLedger(s, id, pick);
    } else {
      assert c.targets[..c.next] == c.targets;
      CallQuiet(s.calls, id, SendReturned(c.event, c.targets));
      QuietStep(s, AdvanceCall(s, id, pick));
    }
  }

  /** The subscribers a call has dealt with do not change. */
  predicate SameReach(c: Call, d: Call)
  {
    Dealing(c) == Dealing(d) || (Dealing(c).1 == [] && Dealing(d).1 == [])
  }

  lemma CallQuiet(calls: map<CallId, Call>, id: CallId, d: Call)
    requires id in calls && SameReach(calls[id], d)
    ensures forall i: nat, event, x: nat :: Dealt(calls[id := d], i, event, x) == Dealt(calls, i, event, x)
  {
  }

  /** A step of one call that offers nothing: it changes that call, and what it has dealt with stays. */
  ghost predicate Quiet(s: State, s': State, id: CallId)
  {
    && id in s.calls && id in s'.calls
    && s'.calls == s.calls[id := s'.calls[id]]
    && SameReach(s.calls[id], s'.calls[id])
    && SameOffers(s.subs, s'.subs)
  }

  ghost predicate SameOffers(subs: seq<Sub>, subs': seq<Sub>)
  {
    forall x: nat :: OffersOf(subs', x) == OffersOf(subs, x)
  }

  lemma GotoIsQuiet(s: State, t: State, id: CallId, c: Call)
    requires id in s.calls && SameReach(s.calls[id], c)
    requires t.calls == s.calls && SameOffers(s.subs, t.subs)
    ensures Quiet(s, Goto(t, id, c), id)
  {
  }

  lemma SpawnOffersNothing(s: State, x: SubId)
    requires x < |s.subs|
    ensures SameOffers(s.subs, Spawn(s, x).subs)
  {
  }

  lemma StartIsQuiet(s: State, id: CallId, pick: SubId)
    requires AdvanceEnabled(s, id, pick) && InStart(s.calls[id])
    ensures Quiet(s, AdvanceStart(s, id, pick), id)
  {
    match s.calls[id]
    case StartBegun =>
      GotoIsQuiet(s, s, id, Ended);
      GotoIsQuiet(s, s.(started := true), id, StartLocking);
    case StartLocking => GotoIsQuiet(s, s, id, Starting(AsyncRegistered(s)));
    case Starting(todo) =>
      GotoIsQuiet(s, s, id, Ended);
      GotoIsQuiet(s, s, id, Starting(todo - {pick}));
      GotoIsQuiet(s, s, id, StartSpawning(todo - {pick}, pick));
    case StartSpawning(todo, x) =>
      SpawnOffersNothing(s, x);
      GotoIsQuiet(s, Spawn(s, x), id, Starting(todo));
  }

  lemma AddIsQuiet(s: State, id: CallId, kind: Kind, name: string, wantsAsync: bool)
    requires id in s.calls && s.calls[id].SubscribeLocked?
    ensures Quiet(s, Add(s, id, kind, name, wantsAsync), id)
  {
    var s' := Add(s, id, kind, name, wantsAsync);
    assert SameOffers(s.subs, s'.subs);
    if |s'.subs| == |s.subs| {
      GotoIsQuiet(s, s.(writer := None), id, Ended);
    } else {
      GotoIsQuiet(s, s.(subs := s'.subs, dir := s'.dir), id, SubscribeAdded(|s.subs|));
    }
  }

  lemma SubscribeIsQuiet(s: State, id: CallId)
    requires id in s.calls && InSubscribe(s.calls[id])
    requires s.calls[id].SubscribeAdded? || s.calls[id].SubscribeSpawning? ==> s.calls[id].sub < |s.subs|
    ensures Quiet(s, AdvanceSubscribe(s, id), id)
  {
    match s.calls[id]
    case SubscribeBegun(k, n, w) => GotoIsQuiet(s, s.(writer := Some(id)), id, SubscribeLocked(k, n, w));
    case SubscribeLocked(k, n, w) => AddIsQuiet(s, id, k, n, w);
    case SubscribeAdded(x) =>
      GotoIsQuiet(s, s, id, SubscribeLaunching(x));
      GotoIsQuiet(s, s.(writer := None), id, Ended);
    case SubscribeLaunching(x) =>
      GotoIsQuiet(s, s, id, SubscribeSpawning(x));
      GotoIsQuiet(s, s.(writer := None), id, Ended);
    case SubscribeSpawning(x) =>
      SpawnOffersNothing(s, x);
      GotoIsQuiet(s, Spawn(s, x).(writer := None), id, Ended);
  }

  lemma RemoveAtOffersNothing(s: State, kind: Kind, i: nat)
    requires i < |Listed(s.dir, kind)| && Listed(s.dir, kind)[i] < |s.subs|
    ensures SameOffers(s.subs, RemoveAt(s, kind, i).subs)
  {
  }

  lemma UnsubscribeIsQuiet(s: State, id: CallId)
    requires id in s.calls && InUnsubscribe(s.calls[id])
    ensures Quiet(s, AdvanceUnsubscribe(s, id), id)
  {
    match s.calls[id]
    case UnsubscribeDraining(x) => GotoIsQuiet(s, s, id, UnsubscribeReturned(x));
    case UnsubscribeBegun(k, n) =>
      var found := Find(s.subs, Listed(s.dir, k), n);
      if found.None? {
        GotoIsQuiet(s, s, id, Ended);
      } else {
        var x := Listed(s.dir, k)[found.value];
        RemoveAtOffersNothing(s, k, found.value);
        GotoIsQuiet(s, RemoveAt(s, k, found.value), id, Ended);
        GotoIsQuiet(s, RemoveAt(s, k, found.value), id, UnsubscribeDraining(x));
        assert s.calls == s.calls[id := s.calls[id]];
      }
  }

  lemma AdvanceIsQuiet(s: State, id: CallId, pick: SubId)
    requires AdvanceEnabled(s, id, pick) && !SendsOne(s, id)
    ensures Quiet(s, AdvanceCall(s, id, pick), id)
  {
    var c := s.calls[id];
    if InSend(c) {
      GotoIsQuiet(s, s, id, AdvanceSend(s, id).calls[id]);
    } else if InStart(c) {
      StartIsQuiet(s, id, pick);
    } else if InSubscribe(c) {
      SubscribeIsQuiet(s, id);
    } else if InUnsubscribe(c) {
      UnsubscribeIsQuiet(s, id);
    } else {
      WaitIsQuiet(s, id, pick);
    }
  }

  lemma WaitIsQuiet(s: State, id: CallId, pick: SubId)
    requires AdvanceEnabled(s, id, pick)
    requires s.calls[id].WaitBegun? || s.calls[id].WaitLocking? || s.calls[id].WaitDraining?
    ensures Quiet(s, AdvanceWait(s, id), id)
  {
    assert SameOffers(s.subs, Sweep(s).subs);
    var s' := AdvanceWait(s, id);
    GotoIsQuiet(s, s'.(calls := s.calls), id, s'.calls[id]);
  }

  lemma OtherStepsKeepLedger(s: State, a: Action)
    requires Ledger(s.subs, s.calls)
    requires Enabled(s, a) && !(a.Advance? && SendsOne(s, a.id))
    ensures Ledger(Next(s, a).subs, Next(s, a).calls)
  {
    if a.Advance? {
      AdvanceIsQuiet(s, a.id, a.pick);
      CallQuiet(s.calls, a.id, Next(s, a).calls[a.id]);
    }
    QuietStep(s, Next(s, a));
  }

  lemma {:induction false} RunKeepsLedger(s: State, actions: seq<Action>)
    requires Initial(s)
    ensures Ledger(Run(s, actions).subs, Run(s, actions).calls)
  {
    if actions == [] {
      forall x: nat, id: nat, event ensures LedgerAt(s.subs, s.calls, x, id, event) {
      }
    } else {
      var before := Run(s, actions[..|actions| - 1]);
      var a := actions[|actions| - 1];
      RunKeepsLedger(s, actions[..|actions| - 1]);
      RunKeepsInvariant(s, actions[..|actions| - 1]);
      if Enabled(before, a) {
        if a.Advance? && SendsOne(before, a.id) {
          SendKeepsLedger(before, a.id, a.pick);
        } else {
          OtherStepsKeepLedger(before, a);
        }
      }
    }
  }

  /** A Send that has returned offered its event exactly once to every subscriber listed when it
      took the lock, and nothing to anybody else. */
  lemma SendOffersOnce(s: State, actions: seq<Action>, id: CallId, x: SubId, event: Event)
    requires Initial(s)
    requires id in Run(s, actions).calls && Run(s, actions).calls[id].SendReturned?
    requires x < |Run(s, actions).subs|
    ensures var c := Run(s, actions).calls[id];
            OfferCount(Run(s, actions).subs[x].offers, id, event)
            == if x in c.targets && event == c.event then 1 else 0
  {
    RunKeepsLedger(s, actions);
    assert LedgerAt(Run(s, actions).subs, Run(s, actions).calls, x, id, event);
  }
}
