/**
 The event bus: a directory of synchronous subscribers and of asynchronous ones with a
 buffered channel and a drainer goroutine, under a read/write lock. Calls of Start,
 Subscribe, Unsubscribe, Send and WaitForDone interleave at every point where another
 goroutine can see a difference.
 */
module EventBus {
  import opened Ordering
  import opened Wrappers

  type Kind = string
  type SubId = nat
  type CallId = nat

  /** An event, with the resource kind its objects carry. */
  datatype Event = Event(kind: Kind, payload: int)

  /** What became of one event offered to one subscriber; a drop records how many were waiting. */
  datatype Outcome = Handled | Accepted | Dropped(waiting: nat) | SkippedClosed

  datatype Offer = Offer(call: CallId, event: Event, outcome: Outcome)

  datatype Drainer = NotStarted | Waiting | Working(event: Event) | Exited

  /** subscriberState. `closed` stands for the flag and the channel, which change together under
      the write lock; `listed` records that the directory still holds it, and `launches`,
      `processed` and `offers` what happened to it. */
  datatype Sub = Sub(kind: Kind, name: string, async: bool, listed: bool, closed: bool, queue: seq<Event>,
                     drainer: Drainer, launches: nat, processed: seq<Event>, offers: seq<Offer>)

  /** Where a call stands. Calls holding the lock are the Readers and Writers below. */
  datatype Call =
    | SendBegun(event: Event)
    | SendLocking(event: Event)
    | Sending(event: Event, targets: seq<SubId>, next: nat)
    | Pushing(event: Event, targets: seq<SubId>, next: nat)
    | SendReturned(event: Event, targets: seq<SubId>)
    | SendRefused
    | StartBegun
    | StartLocking
    | Starting(todo: set<SubId>)
    | StartSpawning(todo: set<SubId>, sub: SubId)
    | SubscribeBegun(kind: Kind, name: string, wantsAsync: bool)
    | SubscribeLocked(kind: Kind, name: string, wantsAsync: bool)
    | SubscribeAdded(sub: SubId)
    | SubscribeLaunching(sub: SubId)
    | SubscribeSpawning(sub: SubId)
    | UnsubscribeBegun(kind: Kind, name: string)
    | UnsubscribeDraining(sub: SubId)
    | UnsubscribeReturned(sub: SubId)
    | WaitBegun
    | WaitLocking
    | WaitDraining
    | WaitReturned
    | Ended

  predicate Begins(c: Call)
  {
    c.SendBegun? || c.StartBegun? || c.SubscribeBegun? || c.UnsubscribeBegun? || c.WaitBegun?
  }

  predicate Reads(c: Call)
  {
    c.Sending? || c.Pushing? || c.Starting? || c.StartSpawning?
  }

  predicate Writes(c: Call)
  {
    c.SubscribeLocked? || c.SubscribeAdded? || c.SubscribeLaunching? || c.SubscribeSpawning?
  }

  /** `writer` is the call holding the write lock; `wg` is the wait group; `swept` and `waited`
      record that WaitForDone's sweep ran and that a WaitForDone returned. */
  datatype State = State(bufferSize: nat, writer: Option<CallId>, started: bool, stopped: bool, swept: bool,
                         waited: bool, wg: int, subs: seq<Sub>, dir: map<Kind, seq<SubId>>,
                         calls: map<CallId, Call>, panicked: bool)

  datatype Action =
    | Invoke(id: CallId, call: Call)
    | Advance(id: CallId, pick: SubId)
    | Receive(sub: SubId)
    | Finish(sub: SubId)
    | Exit(sub: SubId)

  // -------------------------------------------------------------------- the lock

  predicate ReadLockFree(s: State)
  {
    s.writer.None?
  }

  ghost predicate WriteLockFree(s: State)
  {
    s.writer.None? && forall c :: c in s.calls ==> !Reads(s.calls[c])
  }

  // --------------------------------------------------------------- the directory

  function Listed(dir: map<Kind, seq<SubId>>, k: Kind): seq<SubId>
  {
    if k in dir then dir[k] else []
  }

  /** The first subscriber of that name in a list of the directory. */
  function Find(subs: seq<Sub>, ids: seq<SubId>, name: string): (i: Option<nat>)
    ensures i.Some? ==> i.value < |ids| && ids[i.value] < |subs| && subs[ids[i.value]].name == name
  {
    if ids == [] then None
    else if ids[0] < |subs| && subs[ids[0]].name == name then Some(0)
    else
      var i := Find(subs, ids[1..], name);
      if i.Some? then Some(i.value + 1) else None
  }

  function Without(ids: seq<SubId>, i: nat): seq<SubId>
    requires i < |ids|
  {
    ids[..i] + ids[i + 1..]
  }

  // -------------------------------------------------------------- the subscribers

  function Offered(sub: Sub, call: CallId, event: Event, outcome: Outcome): Sub
  {
    sub.(offers := sub.offers + [Offer(call, event, outcome)])
  }

  /** ProcessEvent inside Send. */
  function HandleNow(sub: Sub, call: CallId, event: Event): Sub
  {
    Offered(sub, call, event, Handled).(processed := sub.processed + [event])
  }

  /** The non-blocking channel send. */
  function Push(sub: Sub, call: CallId, event: Event, bufferSize: nat): Sub
  {
    if |sub.queue| < bufferSize
    then Offered(sub, call, event, Accepted).(queue := sub.queue + [event])
    else Offered(sub, call, event, Dropped(|sub.queue|))
  }

  /** The compare-and-swap of launchDrainer and the goroutine it starts. */
  function Launch(sub: Sub): Sub
  {
    if sub.drainer.NotStarted? then sub.(drainer := Waiting, launches := sub.launches + 1) else sub
  }

  predicate Running(sub: Sub)
  {
    sub.drainer.Waiting? || sub.drainer.Working?
  }

  function SweepOne(sub: Sub): Sub
  {
    if sub.async && !sub.closed then sub.(closed := true) else sub
  }

  // ------------------------------------------------------------------------ steps

  function Goto(s: State, id: CallId, c: Call): State
  {
    s.(calls := s.calls[id := c])
  }

  /** Subscribe releases the write lock and returns. */
  function Unlock(s: State, id: CallId): State
  {
    Goto(s.(writer := None), id, Ended)
  }

  function SetSub(s: State, x: SubId, sub: Sub): State
    requires x < |s.subs|
  {
    s.(subs := s.subs[x := sub])
  }

  ghost predicate AdvanceEnabled(s: State, id: CallId, pick: SubId)
  {
    id in s.calls &&
    match s.calls[id]
    case SendBegun(_) => true
    case SendLocking(_) => ReadLockFree(s)
    case Sending(_, targets, next) => next <= |targets| && (next < |targets| ==> targets[next] < |s.subs|)
    case Pushing(_, targets, next) => next < |targets| && targets[next] < |s.subs|
    case StartBegun => true
    case StartLocking => ReadLockFree(s)
    case Starting(todo) => todo != {} ==> pick in todo
    case StartSpawning(_, x) => x < |s.subs|
    case SubscribeBegun(_, _, _) => WriteLockFree(s)
    case SubscribeLocked(_, _, _) => true
    case SubscribeAdded(x) => x < |s.subs|
    case SubscribeLaunching(_) => true
    case SubscribeSpawning(x) => x < |s.subs|
    case UnsubscribeBegun(_, _) => WriteLockFree(s)
    case UnsubscribeDraining(x) => x < |s.subs| && s.subs[x].drainer.Exited?
    case WaitBegun => true
    case WaitLocking => WriteLockFree(s)
    case WaitDraining => s.wg == 0
    case _ => false
  }

  ghost predicate Enabled(s: State, a: Action)
  {
    !s.panicked &&
    match a
    case Invoke(id, call) => id !in s.calls && Begins(call)
    case Advance(id, pick) => AdvanceEnabled(s, id, pick)
    case Receive(x) => x < |s.subs| && s.subs[x].drainer.Waiting? && s.subs[x].queue != []
    case Finish(x) => x < |s.subs| && s.subs[x].drainer.Working?
    case Exit(x) => x < |s.subs| && s.subs[x].drainer.Waiting? && s.subs[x].queue == [] && s.subs[x].closed
  }

  /** One subscriber of Send's loop; an open asynchronous one is pushed to in a second step. */
  function SendOne(s: State, id: CallId, event: Event, targets: seq<SubId>, next: nat): State
    requires next < |targets| && targets[next] < |s.subs|
  {
    var x := targets[next];
    var sub := s.subs[x];
    if sub.async && !sub.closed then Goto(s, id, Pushing(event, targets, next))
    else
      var sub' := if sub.async then Offered(sub, id, event, SkippedClosed) else HandleNow(sub, id, event);
      Goto(SetSub(s, x, sub'), id, Sending(event, targets, next + 1))
  }

  /** A send on a closed channel panics. */
  function PushOne(s: State, id: CallId, event: Event, targets: seq<SubId>, next: nat): State
    requires next < |targets| && targets[next] < |s.subs|
  {
    var x := targets[next];
    if s.subs[x].closed then s.(panicked := true)
    else Goto(SetSub(s, x, Push(s.subs[x], id, event, s.bufferSize)), id, Sending(event, targets, next + 1))
  }

  function AsyncRegistered(s: State): set<SubId>
  {
    set x: nat | x < |s.subs| && s.subs[x].listed && s.subs[x].async
  }

  function Spawn(s: State, x: SubId): State
    requires x < |s.subs|
  {
    SetSub(s, x, Launch(s.subs[x])).(wg := s.wg + if s.subs[x].drainer.NotStarted? then 1 else 0)
  }

  function Add(s: State, id: CallId, kind: Kind, name: string, wantsAsync: bool): State
  {
    var ids := Listed(s.dir, kind);
    if s.stopped || Find(s.subs, ids, name).Some? then Unlock(s, id)
    else
      var x := |s.subs|;
      var sub := Sub(kind, name, s.bufferSize > 0 && wantsAsync, true, false, [], NotStarted, 0, [], []);
      Goto(s.(subs := s.subs + [sub], dir := s.dir[kind := ids + [x]]), id, SubscribeAdded(x))
  }

  /** Removes the subscriber and closes its channel, without asking whether it is closed already. */
  function Remove(s: State, id: CallId, kind: Kind, name: string): State
  {
    var ids := Listed(s.dir, kind);
    var found := Find(s.subs, ids, name);
    if found.None? then Goto(s, id, Ended)
    else
      var x := ids[found.value];
      var sub := s.subs[x];
      if sub.async && sub.closed then s.(panicked := true)
      else
        Goto(RemoveAt(s, kind, found.value), id,
             if !sub.async || sub.drainer.NotStarted? then Ended else UnsubscribeDraining(x))
  }

  function RemoveAt(s: State, kind: Kind, i: nat): State
    requires i < |Listed(s.dir, kind)| && Listed(s.dir, kind)[i] < |s.subs|
  {
    var ids := Listed(s.dir, kind);
    SetSub(s.(dir := s.dir[kind := Without(ids, i)]), ids[i], SweepOne(s.subs[ids[i]]).(listed := false))
  }

  /** WaitForDone's sweep over the directory. */
  function Sweep(s: State): State
  {
    s.(swept := true,
       subs := seq(|s.subs|, x requires 0 <= x < |s.subs| =>
                   if s.subs[x].listed then SweepOne(s.subs[x]) else s.subs[x]))
  }

  predicate InSend(c: Call)
  {
    c.SendBegun? || c.SendLocking? || c.Sending? || c.Pushing?
  }

  predicate InStart(c: Call)
  {
    c.StartBegun? || c.StartLocking? || c.Starting? || c.StartSpawning?
  }

  predicate InSubscribe(c: Call)
  {
    c.SubscribeBegun? || Writes(c)
  }

  predicate InUnsubscribe(c: Call)
  {
    c.UnsubscribeBegun? || c.UnsubscribeDraining?
  }

  function AdvanceSend(s: State, id: CallId): State
    requires id in s.calls && InSend(s.calls[id])
    requires s.calls[id].Sending? ==> s.calls[id].next <= |s.calls[id].targets|
    requires s.calls[id].Pushing? ==> s.calls[id].next < |s.calls[id].targets|
    requires (s.calls[id].Sending? || s.calls[id].Pushing?) && s.calls[id].next < |s.calls[id].targets|
             ==> s.calls[id].targets[s.calls[id].next] < |s.subs|
  {
    match s.calls[id]
    case SendBegun(e) => Goto(s, id, if s.stopped then SendRefused else SendLocking(e))
    case SendLocking(e) => Goto(s, id, Sending(e, Listed(s.dir, e.kind), 0))
    case Sending(e, targets, next) =>
      if next == |targets| then Goto(s, id, SendReturned(e, targets)) else SendOne(s, id, e, targets, next)
    case Pushing(e, targets, next) => PushOne(s, id, e, targets, next)
  }

  function AdvanceStart(s: State, id: CallId, pick: SubId): (r: State)
    requires id in s.calls && InStart(s.calls[id])
    requires s.calls[id].StartSpawning? ==> s.calls[id].sub < |s.subs|
    ensures r.panicked == s.panicked
  {
    match s.calls[id]
    case StartBegun => if s.started then Goto(s, id, Ended) else Goto(s.(started := true), id, StartLocking)
    case StartLocking => Goto(s, id, Starting(AsyncRegistered(s)))
    case Starting(todo) =>
      if todo == {} then Goto(s, id, Ended)
      else if s.stopped then Goto(s, id, Starting(todo - {pick}))
      else Goto(s, id, StartSpawning(todo - {pick}, pick))
    case StartSpawning(todo, x) => Goto(Spawn(s, x), id, Starting(todo))
  }

  function AdvanceSubscribe(s: State, id: CallId): (r: State)
    requires id in s.calls && InSubscribe(s.calls[id])
    requires s.calls[id].SubscribeAdded? || s.calls[id].SubscribeSpawning? ==> s.calls[id].sub < |s.subs|
    ensures r.panicked == s.panicked
  {
    match s.calls[id]
    case SubscribeBegun(k, n, w) => Goto(s.(writer := Some(id)), id, SubscribeLocked(k, n, w))
    case SubscribeLocked(k, n, w) => Add(s, id, k, n, w)
    case SubscribeAdded(x) =>
      if s.subs[x].async && s.started then Goto(s, id, SubscribeLaunching(x)) else Unlock(s, id)
    case SubscribeLaunching(x) => if s.stopped then Unlock(s, id) else Goto(s, id, SubscribeSpawning(x))
    case SubscribeSpawning(x) => Unlock(Spawn(s, x), id)
  }

  function AdvanceUnsubscribe(s: State, id: CallId): State
    requires id in s.calls && InUnsubscribe(s.calls[id])
  {
    match s.calls[id]
    case UnsubscribeBegun(k, n) => Remove(s, id, k, n)
    case UnsubscribeDraining(x) => Goto(s, id, UnsubscribeReturned(x))
  }

  function AdvanceWait(s: State, id: CallId): (r: State)
    requires id in s.calls
    ensures r.panicked == s.panicked
  {
    match s.calls[id]
    case WaitBegun => Goto(s.(stopped := true), id, WaitLocking)
    case WaitLocking => Goto(Sweep(s), id, WaitDraining)
    case WaitDraining => Goto(s.(waited := true), id, WaitReturned)
    case _ => s
  }

  function AdvanceCall(s: State, id: CallId, pick: SubId): State
    requires AdvanceEnabled(s, id, pick)
  {
    var c := s.calls[id];
    if InSend(c) then AdvanceSend(s, id)
    else if InStart(c) then AdvanceStart(s, id, pick)
    else if InSubscribe(c) then AdvanceSubscribe(s, id)
    else if InUnsubscribe(c) then AdvanceUnsubscribe(s, id)
    else AdvanceWait(s, id)
  }

  function Next(s: State, a: Action): State
    requires Enabled(s, a)
  {
    match a
    case Invoke(id, call) => Goto(s, id, call)
    case Advance(id, pick) => AdvanceCall(s, id, pick)
    case Receive(x) =>
      var sub := s.subs[x];
      SetSub(s, x, sub.(drainer := Working(sub.queue[0]), queue := sub.queue[1..]))
    case Finish(x) =>
      var sub := s.subs[x];
      SetSub(s, x, sub.(drainer := Waiting, processed := sub.processed + [sub.drainer.event]))
    case Exit(x) =>
      SetSub(s, x, s.subs[x].(drainer := Exited)).(wg := s.wg - 1)
  }

  ghost function Run(s: State, actions: seq<Action>): State
  {
    if actions == [] then s
    else
      var before := Run(s, actions[..|actions| - 1]);
      var a := actions[|actions| - 1];
      if Enabled(before, a) then Next(before, a) else before
  }

  predicate Initial(s: State)
  {
    && s.writer.None? && !s.started && !s.stopped && !s.swept && !s.waited && s.wg == 0
    && s.subs == [] && s.dir == map[] && s.calls == map[] && !s.panicked
  }

  // ---------------------------------------------------------------- the invariant

  /** The events that were taken, in the order they were offered. */
  function Taken(offers: seq<Offer>): seq<Event>
  {
    if offers == [] then []
    else
      var last := offers[|offers| - 1];
      Taken(offers[..|offers| - 1])
      + if last.outcome.Accepted? || last.outcome.Handled? then [last.event] else []
  }

  function InFlight(d: Drainer): seq<Event>
  {
    if d.Working? then [d.event] else []
  }

  /** One subscriber, whatever the rest of the bus does. Channels are closed by the sweep or on
      removal, and only then. */
  ghost predicate SubOk(sub: Sub, bufferSize: nat, swept: bool)
  {
    && sub.processed + InFlight(sub.drainer) + sub.queue == Taken(sub.offers)
    && |sub.queue| <= bufferSize
    && sub.launches == (if sub.drainer.NotStarted? then 0 else 1)
    && (sub.drainer.Exited? ==> sub.closed && sub.queue == [])
    && (!sub.async ==> sub.queue == [] && sub.drainer.NotStarted? && !sub.closed)
    && (sub.async ==> (sub.closed <==> swept || !sub.listed))
    && OffersOk(sub, bufferSize)
  }

  /** Offers are of the subscriber's kind; synchronous subscribers handle all of them; only a closed
      one skips, and an event is dropped only while a whole buffer of events is waiting. */
  ghost predicate OffersOk(sub: Sub, bufferSize: nat)
  {
    forall i :: 0 <= i < |sub.offers| ==>
      && sub.offers[i].event.kind == sub.kind
      && (sub.offers[i].outcome.Handled? <==> !sub.async)
      && (sub.offers[i].outcome.SkippedClosed? ==> sub.closed)
      && (sub.offers[i].outcome.Dropped? ==> DropIsFull(sub.offers, i, bufferSize))
  }

  /** A whole buffer was waiting at the drop, and so had been taken before it. */
  ghost predicate DropIsFull(offers: seq<Offer>, i: nat, bufferSize: nat)
  {
    && i < |offers| && offers[i].outcome.Dropped?
    && offers[i].outcome.waiting == bufferSize <= |Taken(offers[..i])|
  }

  lemma DropStaysFull(offers: seq<Offer>, o: Offer, bufferSize: nat)
    ensures forall i: nat :: DropIsFull(offers, i, bufferSize) ==> DropIsFull(offers + [o], i, bufferSize)
  {
    forall i: nat | DropIsFull(offers, i, bufferSize) ensures DropIsFull(offers + [o], i, bufferSize) {
      assert (offers + [o])[..i] == offers[..i];
    }
  }

  ghost predicate SubsOk(subs: seq<Sub>, bufferSize: nat, swept: bool)
  {
    forall x: nat :: SubOkAt(subs, x, bufferSize, swept)
  }

  ghost predicate SubOkAt(subs: seq<Sub>, x: SubId, bufferSize: nat, swept: bool)
  {
    x < |subs| ==> SubOk(subs[x], bufferSize, swept)
  }

  predicate IsAsync(subs: seq<Sub>, x: SubId)
  {
    x < |subs| && subs[x].async
  }

  predicate IsListed(subs: seq<Sub>, x: SubId, k: Kind)
  {
    x < |subs| && subs[x].kind == k && subs[x].listed
  }

  /** A list of the directory holds the listed subscribers of its kind, each once. */
  ghost predicate KindOk(dir: map<Kind, seq<SubId>>, subs: seq<Sub>, k: Kind)
  {
    && Distinct(Listed(dir, k))
    && forall x: nat :: x in Listed(dir, k) <==> IsListed(subs, x, k)
  }

  ghost predicate DirOk(dir: map<Kind, seq<SubId>>, subs: seq<Sub>)
  {
    forall k :: KindOk(dir, subs, k)
  }

  /** The part of the state that calls rely on. */
  datatype View = View(subs: seq<Sub>, dir: map<Kind, seq<SubId>>, stopped: bool, swept: bool, waited: bool)

  function ViewOf(s: State): View
  {
    View(s.subs, s.dir, s.stopped, s.swept, s.waited)
  }

  ghost predicate PhaseOk(v: View, c: Call)
  {
    match c
    case Sending(e, targets, next) => targets == Listed(v.dir, e.kind) && next <= |targets|
    case Pushing(e, targets, next) =>
      targets == Listed(v.dir, e.kind) && next < |targets| && IsAsync(v.subs, targets[next])
      && !v.subs[targets[next]].closed
    case Starting(todo) => forall x :: x in todo ==> IsAsync(v.subs, x)
    case StartSpawning(todo, x) =>
      (forall y :: y in todo ==> IsAsync(v.subs, y)) && IsAsync(v.subs, x) && !v.swept
    case SubscribeAdded(x) => x < |v.subs|
    case SubscribeLaunching(x) => IsAsync(v.subs, x)
    case SubscribeSpawning(x) => IsAsync(v.subs, x) && !v.swept
    case UnsubscribeReturned(x) => x < |v.subs| && v.subs[x].drainer.Exited?
    case WaitLocking => v.stopped
    case WaitDraining => v.swept
    case WaitReturned => v.waited
    case _ => true
  }

  ghost predicate CallOk(writer: Option<CallId>, v: View, id: CallId, c: Call)
  {
    && (Writes(c) ==> writer == Some(id))
    && (Reads(c) ==> writer.None?)
    && PhaseOk(v, c)
  }

  ghost predicate CallsOk(calls: map<CallId, Call>, writer: Option<CallId>, v: View)
  {
    forall c: nat :: CallOkAt(calls, writer, v, c)
  }

  ghost predicate CallOkAt(calls: map<CallId, Call>, writer: Option<CallId>, v: View, c: CallId)
  {
    c in calls ==> CallOk(writer, v, c, calls[c])
  }

  function CountRunning(subs: seq<Sub>): nat
  {
    if subs == [] then 0
    else CountRunning(subs[..|subs| - 1]) + if Running(subs[|subs| - 1]) then 1 else 0
  }

  predicate FlagsOk(v: View, wg: int)
  {
    && (v.swept ==> v.stopped)
    && (v.waited ==> v.swept && wg == 0)
    && wg == CountRunning(v.subs)
  }

  ghost predicate Invariant(s: State)
  {
    && SubsOk(s.subs, s.bufferSize, s.swept)
    && DirOk(s.dir, s.subs)
    && CallsOk(s.calls, s.writer, ViewOf(s))
    && FlagsOk(ViewOf(s), s.wg)
  }

  // ---------------------------------------------- the invariant is kept, by kind of step

  /** A call moves on without touching subscribers or the directory. */
  lemma CallMoves(s: State, id: CallId, c: Call)
    requires Invariant(s) && CallOk(s.writer, ViewOf(s), id, c)
    ensures Invariant(Goto(s, id, c))
  {
    var calls' := s.calls[id := c];
    forall d: nat ensures CallOkAt(calls', s.writer, ViewOf(s), d) {
      assert CallOkAt(s.calls, s.writer, ViewOf(s), d);
    }
  }

  /** Subscribers keep what calls not holding the lock rely on. */
  ghost predicate Grows(v: View, v': View)
  {
    && |v.subs| <= |v'.subs|
    && (forall x :: 0 <= x < |v.subs| && v.subs[x].drainer.Exited? ==> v'.subs[x].drainer.Exited?)
    && (v.stopped ==> v'.stopped) && (v.swept ==> v'.swept) && (v.waited ==> v'.waited)
  }

  lemma FreePhaseCarries(v: View, v': View, c: Call)
    requires PhaseOk(v, c) && !Reads(c) && !Writes(c) && Grows(v, v')
    ensures PhaseOk(v', c)
  {
  }

  /** Calls that hold the lock also rely on the directory and on channels not being closed. */
  ghost predicate Steady(v: View, v': View)
  {
    && Grows(v, v') && v'.dir == v.dir && |v.subs| == |v'.subs| && v'.swept == v.swept
    && forall x :: 0 <= x < |v.subs| ==>
         v'.subs[x].async == v.subs[x].async && v'.subs[x].closed == v.subs[x].closed
  }

  lemma PhaseCarries(v: View, v': View, c: Call)
    requires PhaseOk(v, c) && Steady(v, v')
    ensures PhaseOk(v', c)
  {
    if !Reads(c) && !Writes(c) {
      FreePhaseCarries(v, v', c);
    }
  }

  lemma CallsCarry(calls: map<CallId, Call>, writer: Option<CallId>, v: View, v': View)
    requires CallsOk(calls, writer, v) && Steady(v, v')
    ensures CallsOk(calls, writer, v')
  {
    forall d: nat ensures CallOkAt(calls, writer, v', d) {
      assert CallOkAt(calls, writer, v, d);
      if d in calls {
        PhaseCarries(v, v', calls[d]);
      }
    }
  }

  /** Started, stopped and waited are only ever set. */
  lemma FlagsMove(s: State, s': State)
    requires Invariant(s)
    requires s' == s.(started := s'.started, stopped := s'.stopped, waited := s'.waited)
    requires s.stopped ==> s'.stopped
    requires s.waited ==> s'.waited
    requires s'.waited ==> s.swept && s.wg == 0
    ensures Invariant(s')
  {
    CallsCarry(s.calls, s.writer, ViewOf(s), ViewOf(s'));
  }

  /** The write lock changes hands while nobody holds it. */
  lemma WriterMoves(s: State, writer: Option<CallId>)
    requires Invariant(s)
    requires forall c :: c in s.calls ==> !Reads(s.calls[c]) && !Writes(s.calls[c])
    ensures Invariant(s.(writer := writer))
  {
    forall d: nat ensures CallOkAt(s.calls, writer, ViewOf(s), d) {
      assert CallOkAt(s.calls, s.writer, ViewOf(s), d);
    }
  }

  function Delta(before: Sub, after: Sub): int
  {
    (if Running(after) then 1 else 0) - (if Running(before) then 1 else 0)
  }

  lemma {:induction false} CountRunningUpdate(subs: seq<Sub>, x: SubId, sub: Sub)
    requires x < |subs|
    ensures CountRunning(subs[x := sub]) == CountRunning(subs) + Delta(subs[x], sub)
  {
    var n := |subs| - 1;
    if x < n {
      CountRunningUpdate(subs[..n], x, sub);
      assert subs[x := sub][..n] == subs[..n][x := sub];
    } else {
      assert subs[x := sub][..n] == subs[..n];
    }
  }

  lemma {:induction false} CountRunningZero(subs: seq<Sub>, x: SubId)
    requires CountRunning(subs) == 0 && x < |subs|
    ensures !Running(subs[x])
  {
    if x < |subs| - 1 {
      CountRunningZero(subs[..|subs| - 1], x);
    }
  }

  /** A change of one subscriber the rest of the bus cannot tell apart: its channel is not closed
      and its drainer does not come back. */
  predicate Benign(before: Sub, after: Sub)
  {
    && after.kind == before.kind && after.async == before.async
    && after.listed == before.listed && after.closed == before.closed
    && (before.drainer.Exited? ==> after.drainer.Exited?)
  }

  lemma BenignKeepsDirectory(dir: map<Kind, seq<SubId>>, subs: seq<Sub>, x: SubId, sub: Sub)
    requires DirOk(dir, subs) && x < |subs| && Benign(subs[x], sub)
    ensures DirOk(dir, subs[x := sub])
  {
    var subs' := subs[x := sub];
    forall k ensures KindOk(dir, subs', k) {
      assert KindOk(dir, subs, k);
      forall y: nat ensures IsListed(subs', y, k) == IsListed(subs, y, k) {
      }
    }
  }

  lemma SubReplaced(subs: seq<Sub>, x: SubId, sub: Sub, bufferSize: nat, swept: bool)
    requires SubsOk(subs, bufferSize, swept) && x < |subs| && SubOk(sub, bufferSize, swept)
    ensures SubsOk(subs[x := sub], bufferSize, swept)
  {
    var subs' := subs[x := sub];
    forall y: nat ensures SubOkAt(subs', y, bufferSize, swept) {
      assert SubOkAt(subs, y, bufferSize, swept);
    }
  }

  lemma SubAppended(subs: seq<Sub>, sub: Sub, bufferSize: nat, swept: bool)
    requires SubsOk(subs, bufferSize, swept) && SubOk(sub, bufferSize, swept)
    ensures SubsOk(subs + [sub], bufferSize, swept)
  {
    var subs' := subs + [sub];
    forall y: nat ensures SubOkAt(subs', y, bufferSize, swept) {
      assert SubOkAt(subs, y, bufferSize, swept);
    }
  }

  lemma SubChanges(s: State, x: SubId, sub: Sub)
    requires Invariant(s) && x < |s.subs|
    requires SubOk(sub, s.bufferSize, s.swept) && Benign(s.subs[x], sub)
    requires s.waited ==> Delta(s.subs[x], sub) == 0
    ensures Invariant(SetSub(s, x, sub).(wg := s.wg + Delta(s.subs[x], sub)))
  {
    var s' := SetSub(s, x, sub).(wg := s.wg + Delta(s.subs[x], sub));
    SubReplaced(s.subs, x, sub, s.bufferSize, s.swept);
    CountRunningUpdate(s.subs, x, sub);
    BenignKeepsDirectory(s.dir, s.subs, x, sub);
    CallsCarry(s.calls, s.writer, ViewOf(s), ViewOf(s'));
  }

  lemma AddKeepsDirectory(dir: map<Kind, seq<SubId>>, subs: seq<Sub>, sub: Sub)
    requires DirOk(dir, subs) && sub.listed
    ensures DirOk(dir[sub.kind := Listed(dir, sub.kind) + [|subs|]], subs + [sub])
  {
    var dir' := dir[sub.kind := Listed(dir, sub.kind) + [|subs|]];
    forall k ensures KindOk(dir', subs + [sub], k) {
      assert KindOk(dir, subs, k);
      forall y: nat ensures IsListed(subs + [sub], y, k) <==> IsListed(subs, y, k) || (y == |subs| && k == sub.kind) {
      }
      assert !IsListed(subs, |subs|, k);
      assert Distinct(Listed(dir', k));
    }
  }

  /** The calls that hold no lock, and one more, after a step under the write lock. */
  lemma FreeCallsCarry(s: State, s': State, id: CallId)
    requires CallsOk(s.calls, s.writer, ViewOf(s)) && Grows(ViewOf(s), ViewOf(s'))
    requires forall d :: d in s.calls && d != id ==> !Reads(s.calls[d]) && !Writes(s.calls[d])
    requires id in s'.calls && s'.calls == s.calls[id := s'.calls[id]]
    requires CallOk(s'.writer, ViewOf(s'), id, s'.calls[id])
    ensures CallsOk(s'.calls, s'.writer, ViewOf(s'))
  {
    forall d: nat ensures CallOkAt(s'.calls, s'.writer, ViewOf(s'), d) {
      if d != id && d in s.calls {
        assert CallOkAt(s.calls, s.writer, ViewOf(s), d);
        FreePhaseCarries(ViewOf(s), ViewOf(s'), s.calls[d]);
      }
    }
  }

  lemma AllFreeCallsCarry(s: State, s': State)
    requires CallsOk(s.calls, s.writer, ViewOf(s)) && Grows(ViewOf(s), ViewOf(s'))
    requires forall d :: d in s.calls ==> !Reads(s.calls[d]) && !Writes(s.calls[d])
    requires s'.calls == s.calls
    ensures CallsOk(s'.calls, s'.writer, ViewOf(s'))
  {
    forall d: nat ensures CallOkAt(s'.calls, s'.writer, ViewOf(s'), d) {
      assert CallOkAt(s.calls, s.writer, ViewOf(s), d);
      if d in s.calls {
        FreePhaseCarries(ViewOf(s), ViewOf(s'), s.calls[d]);
      }
    }
  }

  lemma WriterAlone(s: State, id: CallId)
    requires CallsOk(s.calls, s.writer, ViewOf(s)) && id in s.calls && Writes(s.calls[id])
    ensures s.writer == Some(id)
    ensures forall d :: d in s.calls && d != id ==> !Reads(s.calls[d]) && !Writes(s.calls[d])
  {
    assert CallOkAt(s.calls, s.writer, ViewOf(s), id);
    forall d | d in s.calls && d != id ensures !Reads(s.calls[d]) && !Writes(s.calls[d]) {
      assert CallOkAt(s.calls, s.writer, ViewOf(s), d);
    }
  }

  lemma NewSubOk(sub: Sub, bufferSize: nat)
    requires sub.queue == [] && sub.processed == [] && sub.offers == []
    requires sub.drainer.NotStarted? && sub.launches == 0 && sub.listed && !sub.closed
    ensures SubOk(sub, bufferSize, false)
  {
  }

  /** A new subscriber joins the list and the directory. */
  function Joined(s: State, sub: Sub): State
  {
    s.(subs := s.subs + [sub], dir := s.dir[sub.kind := Listed(s.dir, sub.kind) + [|s.subs|]])
  }

  lemma JoinKeeps(s: State, sub: Sub)
    requires SubsOk(s.subs, s.bufferSize, s.swept) && DirOk(s.dir, s.subs) && FlagsOk(ViewOf(s), s.wg)
    requires SubOk(sub, s.bufferSize, s.swept) && sub.listed && sub.drainer.NotStarted?
    ensures var s' := Joined(s, sub);
            && SubsOk(s'.subs, s.bufferSize, s.swept) && DirOk(s'.dir, s'.subs)
            && FlagsOk(ViewOf(s'), s.wg) && Grows(ViewOf(s), ViewOf(s'))
  {
    var subs' := s.subs + [sub];
    assert subs'[..|s.subs|] == s.subs;
    SubAppended(s.subs, sub, s.bufferSize, s.swept);
    AddKeepsDirectory(s.dir, s.subs, sub);
  }

  lemma AddKeepsInvariant(s: State, id: CallId, kind: Kind, name: string, wantsAsync: bool)
    requires Invariant(s) && id in s.calls && Writes(s.calls[id])
    requires !s.stopped && Find(s.subs, Listed(s.dir, kind), name).None?
    ensures Invariant(Add(s, id, kind, name, wantsAsync))
  {
    var sub := Sub(kind, name, s.bufferSize > 0 && wantsAsync, true, false, [], NotStarted, 0, [], []);
    var s' := Goto(Joined(s, sub), id, SubscribeAdded(|s.subs|));
    NewSubOk(sub, s.bufferSize);
    JoinKeeps(s, sub);
    WriterAlone(s, id);
    FreeCallsCarry(s, s', id);
  }

  lemma WithoutDistinct(ids: seq<SubId>, i: nat)
    requires Distinct(ids) && i < |ids|
    ensures Distinct(Without(ids, i))
    ensures forall y :: y in Without(ids, i) <==> y in ids && y != ids[i]
  {
    assert ids == ids[..i] + [ids[i]] + ids[i + 1..];
  }

  lemma RemoveKeepsDirectory(dir: map<Kind, seq<SubId>>, subs: seq<Sub>, kind: Kind, i: nat, sub: Sub)
    requires DirOk(dir, subs) && i < |Listed(dir, kind)| && !sub.listed
    requires Listed(dir, kind)[i] < |subs|
    ensures DirOk(dir[kind := Without(Listed(dir, kind), i)], subs[Listed(dir, kind)[i] := sub])
  {
    var x := Listed(dir, kind)[i];
    var dir' := dir[kind := Without(Listed(dir, kind), i)];
    assert KindOk(dir, subs, kind);
    WithoutDistinct(Listed(dir, kind), i);
    assert IsListed(subs, x, kind);
    var subs' := subs[x := sub];
    forall k ensures KindOk(dir', subs', k) {
      assert KindOk(dir, subs, k);
      forall y: nat ensures IsListed(subs', y, k) <==> IsListed(subs, y, k) && y != x {
      }
    }
  }

  /** No reader and no writer: the step that follows has the bus to itself. */
  lemma LockFreeFacts(s: State)
    requires CallsOk(s.calls, s.writer, ViewOf(s)) && WriteLockFree(s)
    ensures forall d :: d in s.calls ==> !Reads(s.calls[d]) && !Writes(s.calls[d])
  {
    forall d | d in s.calls ensures !Writes(s.calls[d]) {
      assert CallOkAt(s.calls, s.writer, ViewOf(s), d);
    }
  }

  lemma RemovedOk(sub: Sub, bufferSize: nat, swept: bool)
    requires SubOk(sub, bufferSize, swept)
    ensures SubOk(SweepOne(sub).(listed := false), bufferSize, swept)
  {
  }

  lemma RemoveAtKeepsInvariant(s: State, kind: Kind, i: nat)
    requires Invariant(s) && WriteLockFree(s)
    requires i < |Listed(s.dir, kind)| && Listed(s.dir, kind)[i] < |s.subs|
    ensures Invariant(RemoveAt(s, kind, i))
  {
    var x := Listed(s.dir, kind)[i];
    var s' := RemoveAt(s, kind, i);
    assert SubOkAt(s.subs, x, s.bufferSize, s.swept);
    RemovedOk(s.subs[x], s.bufferSize, s.swept);
    SubReplaced(s.subs, x, s'.subs[x], s.bufferSize, s.swept);
    RemoveKeepsDirectory(s.dir, s.subs, kind, i, s'.subs[x]);
    CountRunningUpdate(s.subs, x, s'.subs[x]);
    LockFreeFacts(s);
    AllFreeCallsCarry(s, s');
  }

  lemma {:induction false} CountRunningSame(a: seq<Sub>, b: seq<Sub>)
    requires |a| == |b| && forall x :: 0 <= x < |a| ==> Running(a[x]) == Running(b[x])
    ensures CountRunning(a) == CountRunning(b)
  {
    if a != [] {
      CountRunningSame(a[..|a| - 1], b[..|b| - 1]);
    }
  }

  lemma SweepKeepsSubs(s: State)
    requires SubsOk(s.subs, s.bufferSize, s.swept) && DirOk(s.dir, s.subs)
    ensures SubsOk(Sweep(s).subs, s.bufferSize, true) && DirOk(s.dir, Sweep(s).subs)
  {
    var subs' := Sweep(s).subs;
    forall x: nat ensures SubOkAt(subs', x, s.bufferSize, true) {
      assert SubOkAt(s.subs, x, s.bufferSize, s.swept);
    }
    forall k ensures KindOk(s.dir, subs', k) {
      assert KindOk(s.dir, s.subs, k);
      forall y: nat ensures IsListed(subs', y, k) == IsListed(s.subs, y, k) {
      }
    }
  }

  lemma SweepKeepsInvariant(s: State, id: CallId)
    requires Invariant(s) && id in s.calls && WriteLockFree(s) && s.stopped
    ensures Invariant(Goto(Sweep(s), id, WaitDraining))
  {
    var s' := Goto(Sweep(s), id, WaitDraining);
    SweepKeepsSubs(s);
    CountRunningSame(s.subs, s'.subs);
    LockFreeFacts(s);
    FreeCallsCarry(s, s', id);
  }

  lemma TakenStep(offers: seq<Offer>, o: Offer)
    ensures Taken(offers + [o])
         == Taken(offers) + if o.outcome.Accepted? || o.outcome.Handled? then [o.event] else []
  {
    assert (offers + [o])[..|offers|] == offers;
  }

  lemma AcceptOk(sub: Sub, call: CallId, event: Event, bufferSize: nat, swept: bool)
    requires SubOk(sub, bufferSize, swept) && sub.async && event.kind == sub.kind
    requires !sub.closed && |sub.queue| < bufferSize
    ensures SubOk(Offered(sub, call, event, Accepted).(queue := sub.queue + [event]), bufferSize, swept)
  {
    var before := sub.processed + InFlight(sub.drainer);
    TakenStep(sub.offers, Offer(call, event, Accepted));
    DropStaysFull(sub.offers, Offer(call, event, Accepted), bufferSize);
    assert before + (sub.queue + [event]) == before + sub.queue + [event];
  }

  lemma DropOk(sub: Sub, call: CallId, event: Event, bufferSize: nat, swept: bool)
    requires SubOk(sub, bufferSize, swept) && sub.async && event.kind == sub.kind && |sub.queue| >= bufferSize
    ensures SubOk(Offered(sub, call, event, Dropped(|sub.queue|)), bufferSize, swept)
  {
    var o := Offer(call, event, Dropped(|sub.queue|));
    TakenStep(sub.offers, o);
    DropStaysFull(sub.offers, o, bufferSize);
    assert (sub.offers + [o])[..|sub.offers|] == sub.offers;
    assert DropIsFull(sub.offers + [o], |sub.offers|, bufferSize);
  }

  lemma PushOk(sub: Sub, call: CallId, event: Event, bufferSize: nat, swept: bool)
    requires SubOk(sub, bufferSize, swept) && sub.async && !sub.closed && event.kind == sub.kind
    ensures SubOk(Push(sub, call, event, bufferSize), bufferSize, swept)
  {
    if |sub.queue| < bufferSize {
      AcceptOk(sub, call, event, bufferSize, swept);
    } else {
      DropOk(sub, call, event, bufferSize, swept);
    }
  }

  lemma SkipOk(sub: Sub, call: CallId, event: Event, bufferSize: nat, swept: bool)
    requires SubOk(sub, bufferSize, swept) && event.kind == sub.kind && sub.async && sub.closed
    ensures SubOk(Offered(sub, call, event, SkippedClosed), bufferSize, swept)
  {
    TakenStep(sub.offers, Offer(call, event, SkippedClosed));
    DropStaysFull(sub.offers, Offer(call, event, SkippedClosed), bufferSize);
  }

  lemma HandleOk(sub: Sub, call: CallId, event: Event, bufferSize: nat, swept: bool)
    requires SubOk(sub, bufferSize, swept) && event.kind == sub.kind && !sub.async
    ensures SubOk(HandleNow(sub, call, event), bufferSize, swept)
  {
    TakenStep(sub.offers, Offer(call, event, Handled));
    DropStaysFull(sub.offers, Offer(call, event, Handled), bufferSize);
    assert sub.processed + [event] + InFlight(sub.drainer) + sub.queue == sub.processed + [event];
  }

  /** Send's loop changes one subscriber and advances. */
  lemma SendStepKeepsInvariant(s: State, id: CallId, c: Call, sub: Sub)
    requires Invariant(s) && id in s.calls && s.calls[id] == c
    requires c.Sending? || c.Pushing?
    requires c.next < |c.targets| && c.targets[c.next] < |s.subs|
    requires SubOk(sub, s.bufferSize, s.swept)
    requires Benign(s.subs[c.targets[c.next]], sub) && sub.drainer == s.subs[c.targets[c.next]].drainer
    ensures Invariant(Goto(SetSub(s, c.targets[c.next], sub), id, Sending(c.event, c.targets, c.next + 1)))
  {
    assert CallOkAt(s.calls, s.writer, ViewOf(s), id);
    SubChanges(s, c.targets[c.next], sub);
    CallMoves(SetSub(s, c.targets[c.next], sub), id, Sending(c.event, c.targets, c.next + 1));
  }

  lemma TargetFacts(s: State, id: CallId)
    requires Invariant(s) && id in s.calls
    requires s.calls[id].Sending? || s.calls[id].Pushing?
    requires s.calls[id].next < |s.calls[id].targets|
    ensures var c := s.calls[id];
            var x := c.targets[c.next];
            && x < |s.subs| && s.subs[x].kind == c.event.kind && s.subs[x].listed
            && SubOk(s.subs[x], s.bufferSize, s.swept)
            && (c.Pushing? ==> s.subs[x].async && !s.subs[x].closed)
  {
    var c := s.calls[id];
    assert CallOkAt(s.calls, s.writer, ViewOf(s), id);
    assert KindOk(s.dir, s.subs, c.event.kind);
    assert IsListed(s.subs, c.targets[c.next], c.event.kind);
    assert SubOkAt(s.subs, c.targets[c.next], s.bufferSize, s.swept);
  }

  lemma PushKeepsInvariant(s: State, id: CallId, pick: SubId)
    requires Invariant(s) && AdvanceEnabled(s, id, pick) && s.calls[id].Pushing?
    ensures Invariant(AdvanceCall(s, id, pick))
    ensures AdvanceCall(s, id, pick).panicked == s.panicked
  {
    var c := s.calls[id];
    TargetFacts(s, id);
    var sub := s.subs[c.targets[c.next]];
    PushOk(sub, id, c.event, s.bufferSize, s.swept);
    SendStepKeepsInvariant(s, id, c, Push(sub, id, c.event, s.bufferSize));
  }

  lemma SendKeepsInvariant(s: State, id: CallId, pick: SubId)
    requires Invariant(s) && AdvanceEnabled(s, id, pick) && s.calls[id].Sending?
    ensures Invariant(AdvanceCall(s, id, pick))
  {
    var c := s.calls[id];
    assert CallOkAt(s.calls, s.writer, ViewOf(s), id);
    if c.next == |c.targets| {
      CallMoves(s, id, SendReturned(c.event, c.targets));
    } else {
      TargetFacts(s, id);
      var sub := s.subs[c.targets[c.next]];
      if sub.async && !sub.closed {
        CallMoves(s, id, Pushing(c.event, c.targets, c.next));
      } else if sub.async {
        SkipOk(sub, id, c.event, s.bufferSize, s.swept);
        SendStepKeepsInvariant(s, id, c, Offered(sub, id, c.event, SkippedClosed));
      } else {
        HandleOk(sub, id, c.event, s.bufferSize, s.swept);
        SendStepKeepsInvariant(s, id, c, HandleNow(sub, id, c.event));
      }
    }
  }

  lemma SpawnKeepsInvariant(s: State, x: SubId)
    requires Invariant(s) && IsAsync(s.subs, x) && !s.swept
    ensures Invariant(Spawn(s, x))
  {
    assert SubOkAt(s.subs, x, s.bufferSize, s.swept);
    SubChanges(s, x, Launch(s.subs[x]));
  }

  lemma StartKeepsInvariant(s: State, id: CallId, pick: SubId)
    requires Invariant(s) && AdvanceEnabled(s, id, pick)
    requires s.calls[id].StartBegun? || s.calls[id].StartLocking? || s.calls[id].Starting?
    ensures Invariant(AdvanceCall(s, id, pick))
  {
    var c := s.calls[id];
    assert CallOkAt(s.calls, s.writer, ViewOf(s), id);
    if c.StartBegun? && !s.started {
      FirstStartKeepsInvariant(s, id, pick);
    } else {
      CallMoves(s, id, AdvanceCall(s, id, pick).calls[id]);
    }
  }

  lemma FirstStartKeepsInvariant(s: State, id: CallId, pick: SubId)
    requires Invariant(s) && AdvanceEnabled(s, id, pick) && s.calls[id].StartBegun? && !s.started
    ensures Invariant(AdvanceCall(s, id, pick))
  {
    assert CallOkAt(s.calls, s.writer, ViewOf(s), id);
    FlagsMove(s, s.(started := true));
    CallMoves(s.(started := true), id, StartLocking);
  }

  lemma StartSpawnKeepsInvariant(s: State, id: CallId, pick: SubId)
    requires Invariant(s) && AdvanceEnabled(s, id, pick) && s.calls[id].StartSpawning?
    ensures Invariant(AdvanceCall(s, id, pick))
  {
    var c := s.calls[id];
    assert CallOkAt(s.calls, s.writer, ViewOf(s), id);
    SpawnKeepsInvariant(s, c.sub);
    assert CallOkAt(s.calls, s.writer, ViewOf(Spawn(s, c.sub)), id);
    CallMoves(Spawn(s, c.sub), id, Starting(c.todo));
  }

  lemma UnlockKeepsInvariant(s: State, id: CallId)
    requires Invariant(s) && id in s.calls && Writes(s.calls[id])
    ensures Invariant(Unlock(s, id))
  {
    WriterAlone(s, id);
    CallMoves(s, id, Ended);
    WriterMoves(Goto(s, id, Ended), None);
  }

  lemma SubscribeBegunKeepsInvariant(s: State, id: CallId, pick: SubId)
    requires Invariant(s) && AdvanceEnabled(s, id, pick) && s.calls[id].SubscribeBegun?
    ensures Invariant(AdvanceCall(s, id, pick))
  {
    LockFreeFacts(s);
    WriterMoves(s, Some(id));
    CallMoves(s.(writer := Some(id)), id, AdvanceCall(s, id, pick).calls[id]);
  }

  lemma SubscribeKeepsInvariant(s: State, id: CallId, pick: SubId)
    requires Invariant(s) && AdvanceEnabled(s, id, pick) && Writes(s.calls[id])
    ensures Invariant(AdvanceCall(s, id, pick))
  {
    var c := s.calls[id];
    assert CallOkAt(s.calls, s.writer, ViewOf(s), id);
    match c
    case SubscribeLocked(k, n, w) =>
      if s.stopped || Find(s.subs, Listed(s.dir, k), n).Some? {
        UnlockKeepsInvariant(s, id);
      } else {
        AddKeepsInvariant(s, id, k, n, w);
      }
    case SubscribeSpawning(x) =>
      SpawnKeepsInvariant(s, x);
      UnlockKeepsInvariant(Spawn(s, x), id);
    case SubscribeAdded(x) =>
      if s.subs[x].async && s.started {
        CallMoves(s, id, SubscribeLaunching(x));
      } else {
        UnlockKeepsInvariant(s, id);
      }
    case SubscribeLaunching(x) =>
      if s.stopped {
        UnlockKeepsInvariant(s, id);
      } else {
        CallMoves(s, id, SubscribeSpawning(x));
      }
  }

  lemma RemoveKeepsInvariant(s: State, id: CallId, pick: SubId)
    requires Invariant(s) && AdvanceEnabled(s, id, pick) && !s.panicked && s.calls[id].UnsubscribeBegun?
    requires Find(s.subs, Listed(s.dir, s.calls[id].kind), s.calls[id].name).Some?
    ensures Invariant(AdvanceCall(s, id, pick))
  {
    var k, n := s.calls[id].kind, s.calls[id].name;
    var i := Find(s.subs, Listed(s.dir, k), n).value;
    var x := Listed(s.dir, k)[i];
    var s' := RemoveAt(s, k, i);
    RemoveAtKeepsInvariant(s, k, i);
    if !s.subs[x].async || s.subs[x].drainer.NotStarted? {
      CallMoves(s', id, Ended);
    } else {
      CallMoves(s', id, UnsubscribeDraining(x));
    }
  }

  lemma UnsubscribeKeepsInvariant(s: State, id: CallId, pick: SubId)
    requires Invariant(s) && AdvanceEnabled(s, id, pick) && !s.panicked
    requires s.calls[id].UnsubscribeBegun? || s.calls[id].UnsubscribeDraining?
    ensures Invariant(AdvanceCall(s, id, pick))
  {
    match s.calls[id]
    case UnsubscribeBegun(k, n) =>
      if Find(s.subs, Listed(s.dir, k), n).None? {
        CallMoves(s, id, Ended);
      } else {
        RemoveKeepsInvariant(s, id, pick);
      }
    case UnsubscribeDraining(x) => CallMoves(s, id, UnsubscribeReturned(x));
  }

  lemma WaitKeepsInvariant(s: State, id: CallId, pick: SubId)
    requires Invariant(s) && AdvanceEnabled(s, id, pick)
    requires s.calls[id].WaitBegun? || s.calls[id].WaitLocking? || s.calls[id].WaitDraining?
    ensures Invariant(AdvanceCall(s, id, pick))
  {
    assert CallOkAt(s.calls, s.writer, ViewOf(s), id);
    match s.calls[id]
    case WaitBegun =>
      FlagsMove(s, s.(stopped := true));
      CallMoves(s.(stopped := true), id, WaitLocking);
    case WaitLocking => SweepKeepsInvariant(s, id);
    case WaitDraining =>
      FlagsMove(s, s.(waited := true));
      CallMoves(s.(waited := true), id, WaitReturned);
  }

  lemma AdvanceKeepsInvariant(s: State, id: CallId, pick: SubId)
    requires Invariant(s) && AdvanceEnabled(s, id, pick) && !s.panicked
    ensures Invariant(AdvanceCall(s, id, pick))
  {
    match s.calls[id]
    case Sending(_, _, _) => SendKeepsInvariant(s, id, pick);
    case Pushing(_, _, _) => PushKeepsInvariant(s, id, pick);
    case SendBegun(e) => CallMoves(s, id, if s.stopped then SendRefused else SendLocking(e));
    case SendLocking(e) => CallMoves(s, id, Sending(e, Listed(s.dir, e.kind), 0));
    case StartSpawning(_, _) => StartSpawnKeepsInvariant(s, id, pick);
    case StartBegun => StartKeepsInvariant(s, id, pick);
    case StartLocking => StartKeepsInvariant(s, id, pick);
    case Starting(_) => StartKeepsInvariant(s, id, pick);
    case SubscribeBegun(_, _, _) => SubscribeBegunKeepsInvariant(s, id, pick);
    case UnsubscribeBegun(_, _) => UnsubscribeKeepsInvariant(s, id, pick);
    case UnsubscribeDraining(_) => UnsubscribeKeepsInvariant(s, id, pick);
    case WaitBegun => WaitKeepsInvariant(s, id, pick);
    case WaitLocking => WaitKeepsInvariant(s, id, pick);
    case WaitDraining => WaitKeepsInvariant(s, id, pick);
    case _ => SubscribeKeepsInvariant(s, id, pick);
  }

  lemma DrainedOk(sub: Sub, bufferSize: nat, swept: bool)
    requires SubOk(sub, bufferSize, swept)
    ensures sub.drainer.Waiting? && sub.queue != [] ==>
      SubOk(sub.(drainer := Working(sub.queue[0]), queue := sub.queue[1..]), bufferSize, swept)
    ensures sub.drainer.Working? ==>
      SubOk(sub.(drainer := Waiting, processed := sub.processed + [sub.drainer.event]), bufferSize, swept)
    ensures sub.drainer.Waiting? && sub.queue == [] && sub.closed ==>
      SubOk(sub.(drainer := Exited), bufferSize, swept)
  {
    if sub.queue != [] {
      assert sub.queue == [sub.queue[0]] + sub.queue[1..];
    }
  }

  lemma DrainKeepsInvariant(s: State, a: Action)
    requires Invariant(s) && Enabled(s, a)
    requires a.Receive? || a.Finish? || a.Exit?
    ensures Invariant(Next(s, a))
  {
    var x := a.sub;
    var sub := s.subs[x];
    assert SubOkAt(s.subs, x, s.bufferSize, s.swept);
    DrainedOk(sub, s.bufferSize, s.swept);
    if s.waited {
      CountRunningZero(s.subs, x);
    }
    match a
    case Receive(_) => SubChanges(s, x, sub.(drainer := Working(sub.queue[0]), queue := sub.queue[1..]));
    case Finish(_) => SubChanges(s, x, sub.(drainer := Waiting, processed := sub.processed + [sub.drainer.event]));
    case Exit(_) => SubChanges(s, x, sub.(drainer := Exited));
  }

  lemma StepKeepsInvariant(s: State, a: Action)
    requires Invariant(s) && Enabled(s, a)
    ensures Invariant(Next(s, a))
  {
    match a
    case Invoke(id, call) => CallMoves(s, id, call);
    case Advance(id, pick) => AdvanceKeepsInvariant(s, id, pick);
    case _ => DrainKeepsInvariant(s, a);
  }

  lemma {:induction false} RunKeepsInvariant(s: State, actions: seq<Action>)
    requires Initial(s)
    ensures Invariant(Run(s, actions))
  {
    if actions == [] {
      forall k ensures KindOk(s.dir, s.subs, k) {
      }
      forall x: nat ensures SubOkAt(s.subs, x, s.bufferSize, s.swept) {
      }
      forall c: nat ensures CallOkAt(s.calls, s.writer, ViewOf(s), c) {
      }
    } else {
      var before := actions[..|actions| - 1];
      RunKeepsInvariant(s, before);
      if Enabled(Run(s, before), actions[|actions| - 1]) {
        StepKeepsInvariant(Run(s, before), actions[|actions| - 1]);
      }
    }
  }
}
