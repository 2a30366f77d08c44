/**
 Leader election over one database row per component: any number of replicas, each
 running TryAcquire, Renew and Release as separate SQL statements that interleave
 freely, may not be executed, may be executed with their reply lost, or may be executed
 long after the replica gave up on them.
 */
module LeaseProtocol {
  import opened Wrappers

  type HolderId = string

  /** The leader_leases row of the component; the unique index allows at most one. */
  datatype Lease = Lease(holder: HolderId, acquiredAt: int, expiresAt: int, version: int)

  /** Where a replica stands inside TryAcquire, Renew or Release. `now` is the clock reading
      the call took before its first statement. */
  datatype Phase =
    | Idle
    | Updating(now: int)
    | ReadingBack
    | Inserting(now: int)
    | Renewing(now: int)
    | Releasing(now: int)

  /** One LeaderElection object. */
  datatype Replica = Replica(leaseDuration: int, isLeader: bool, currentVersion: int, phase: Phase)

  /** What the client learns from an UPDATE: an error, or the number of rows affected. */
  datatype Reply = Error | Rows(affected: nat)

  // --------------------------------------- the client's side, statement by statement

  function StartAcquire(r: Replica, now: int): Replica
  {
    r.(phase := Updating(now))
  }

  function AfterUpdate(r: Replica, reply: Reply): Replica
    requires r.phase.Updating?
  {
    match reply
    case Error => r.(isLeader := false, phase := Idle)
    case Rows(n) => if n > 0 then r.(phase := ReadingBack) else r.(phase := Inserting(r.phase.now))
  }

  function AfterReadBack(r: Replica, version: Option<int>): Replica
  {
    match version
    case None => r.(isLeader := false, phase := Idle)
    case Some(v) => r.(isLeader := true, currentVersion := v, phase := Idle)
  }

  function AfterInsert(r: Replica, ok: bool): Replica
  {
    if ok then r.(isLeader := true, currentVersion := 1, phase := Idle)
    else r.(isLeader := false, phase := Idle)
  }

  /** Renew gives up at once unless the flag is set. */
  function StartRenew(r: Replica, now: int): Replica
  {
    if r.isLeader then r.(phase := Renewing(now)) else r
  }

  function AfterRenew(r: Replica, reply: Reply): Replica
  {
    if reply.Rows? && reply.affected > 0 then r.(currentVersion := r.currentVersion + 1, phase := Idle)
    else r.(isLeader := false, phase := Idle)
  }

  function StartRelease(r: Replica, now: int): Replica
  {
    r.(isLeader := false, phase := Releasing(now))
  }

  function AfterRelease(r: Replica): Replica
  {
    r.(phase := Idle)
  }

  // ------------------------------------------------- the database's side, one statement each

  predicate Expired(lease: Option<Lease>, now: int)
  {
    lease.Some? && lease.value.expiresAt < now
  }

  predicate HeldAt(lease: Option<Lease>, id: HolderId, version: int)
  {
    lease.Some? && lease.value.holder == id && lease.value.version == version
  }

  predicate HeldBy(lease: Option<Lease>, id: HolderId)
  {
    lease.Some? && lease.value.holder == id
  }

  /** Release dates the lease back by this much. */
  const RELEASE_BACKDATE := 1

  /** A statement with the values it was sent with. */
  datatype Statement =
    | Update(id: HolderId, now: int, duration: int)
    | Insert(id: HolderId, now: int, duration: int)
    | Renew(id: HolderId, now: int, duration: int, version: int)
    | Release(id: HolderId, now: int)

  /** The row the statement applies to is there; for Insert, no row is. */
  predicate Matches(lease: Option<Lease>, st: Statement)
  {
    match st
    case Update(_, now, _) => Expired(lease, now)
    case Insert(_, _, _) => lease.None?
    case Renew(id, _, _, version) => HeldAt(lease, id, version)
    case Release(id, _) => HeldBy(lease, id)
  }

  // ------------------------------------------------------------ the whole system

  datatype WriteKind = Created | TakenOver | Renewed | Released

  /** One write to the row, as the database executed it. */
  datatype Write = Write(kind: WriteKind, holder: HolderId, now: int, expiresAt: int, version: int)

  /** `late` holds statements a replica gave up on that the database may still execute. */
  datatype State = State(clock: int, lease: Option<Lease>, replicas: map<HolderId, Replica>, log: seq<Write>,
                         late: set<Statement>)

  /** What becomes of a statement that is sent. */
  datatype Delivery = NotExecuted | Late | ReplyLost | Answered

  datatype Action =
    | Tick(elapsed: nat)
    | BeginAcquire(id: HolderId)
    | ExecUpdate(id: HolderId, delivery: Delivery)
    | ExecReadBack(id: HolderId, delivery: Delivery)
    | ExecInsert(id: HolderId, delivery: Delivery)
    | BeginRenew(id: HolderId)
    | ExecRenew(id: HolderId, delivery: Delivery)
    | BeginRelease(id: HolderId)
    | ExecRelease(id: HolderId, delivery: Delivery)
    | ExecLate(statement: Statement)

  predicate Enabled(s: State, a: Action)
  {
    match a
    case Tick(_) => true
    case BeginAcquire(id) => id in s.replicas && s.replicas[id].phase.Idle?
    case ExecUpdate(id, _) => id in s.replicas && s.replicas[id].phase.Updating?
    case ExecReadBack(id, _) => id in s.replicas && s.replicas[id].phase.ReadingBack?
    case ExecInsert(id, _) => id in s.replicas && s.replicas[id].phase.Inserting?
    case BeginRenew(id) => id in s.replicas && s.replicas[id].phase.Idle?
    case ExecRenew(id, _) => id in s.replicas && s.replicas[id].phase.Renewing?
    case BeginRelease(id) => id in s.replicas && s.replicas[id].phase.Idle?
    case ExecRelease(id, _) => id in s.replicas && s.replicas[id].phase.Releasing?
    case ExecLate(st) => st in s.late
  }

  function SetReplica(s: State, id: HolderId, r: Replica): State
  {
    s.(replicas := s.replicas[id := r])
  }

  /** The row and its history after a write. */
  function Record(s: State, w: Write, acquiredAt: int): State
  {
    s.(lease := Some(Lease(w.holder, acquiredAt, w.expiresAt, w.version)), log := s.log + [w])
  }

  function WriteOf(lease: Option<Lease>, st: Statement): Write
    requires Matches(lease, st)
  {
    match st
    case Update(id, now, d) => Write(TakenOver, id, now, now + d, lease.value.version + 1)
    case Insert(id, now, d) => Write(Created, id, now, now + d, 1)
    case Renew(id, now, d, v) => Write(Renewed, id, now, now + d, v + 1)
    case Release(id, now) => Write(Released, id, now, now - RELEASE_BACKDATE, lease.value.version)
  }

  /** The database executes a statement. Release leaves the time of acquisition alone. */
  function Executed(s: State, st: Statement): State
  {
    if !Matches(s.lease, st) then s
    else Record(s, WriteOf(s.lease, st), if st.Release? then s.lease.value.acquiredAt else st.now)
  }

  /** The database's side of a statement that is sent. */
  function Sent(s: State, st: Statement, delivery: Delivery): State
  {
    match delivery
    case NotExecuted => s
    case Late => s.(late := s.late + {st})
    case _ => Executed(s, st)
  }

  function UpdateReply(delivery: Delivery, affected: bool): Reply
  {
    if delivery.Answered? then Rows(if affected then 1 else 0) else Error
  }

  /** The statement the replica's phase is about to send. */
  function StatementOf(id: HolderId, r: Replica): Statement
    requires r.phase.Updating? || r.phase.Inserting? || r.phase.Renewing? || r.phase.Releasing?
  {
    match r.phase
    case Updating(now) => Update(id, now, r.leaseDuration)
    case Inserting(now) => Insert(id, now, r.leaseDuration)
    case Renewing(now) => Renew(id, now, r.leaseDuration, r.currentVersion)
    case Releasing(now) => Release(id, now)
  }

  function Next(s: State, a: Action): State
    requires Enabled(s, a)
  {
    match a
    case Tick(elapsed) => s.(clock := s.clock + elapsed)
    case BeginAcquire(id) => SetReplica(s, id, StartAcquire(s.replicas[id], s.clock))
    case ExecUpdate(id, d) =>
      var st := StatementOf(id, s.replicas[id]);
      SetReplica(Sent(s, st, d), id, AfterUpdate(s.replicas[id], UpdateReply(d, Matches(s.lease, st))))
    case ExecReadBack(id, d) =>
      var version := if d.Answered? && s.lease.Some? then Some(s.lease.value.version) else None;
      SetReplica(s, id, AfterReadBack(s.replicas[id], version))
    case ExecInsert(id, d) =>
      var st := StatementOf(id, s.replicas[id]);
      SetReplica(Sent(s, st, d), id, AfterInsert(s.replicas[id], d.Answered? && Matches(s.lease, st)))
    case BeginRenew(id) => SetReplica(s, id, StartRenew(s.replicas[id], s.clock))
    case ExecRenew(id, d) =>
      var st := StatementOf(id, s.replicas[id]);
      SetReplica(Sent(s, st, d), id, AfterRenew(s.replicas[id], UpdateReply(d, Matches(s.lease, st))))
    case BeginRelease(id) => SetReplica(s, id, StartRelease(s.replicas[id], s.clock))
    case ExecRelease(id, d) =>
      SetReplica(Sent(s, StatementOf(id, s.replicas[id]), d), id, AfterRelease(s.replicas[id]))
    case ExecLate(st) => Executed(s.(late := s.late - {st}), st)
  }

  /** A run: actions that cannot happen when their turn comes are skipped. */
  function Run(s: State, actions: seq<Action>): State
  {
    if actions == [] then s
    else
      var before := Run(s, actions[..|actions| - 1]);
      var a := actions[|actions| - 1];
      if Enabled(before, a) then Next(before, a) else before
  }

  /** An empty table, and replicas that have just been created. */
  ghost predicate Initial(s: State)
  {
    && s.lease.None? && s.log == [] && s.late == {}
    && forall id :: id in s.replicas ==> s.replicas[id].phase.Idle? && !s.replicas[id].isLeader
  }

  // ---------------------------------------------------------------- what the log says

  /** The last write of a holder. */
  function LastWrite(log: seq<Write>, id: HolderId): Option<Write>
  {
    if log == [] then None
    else if log[|log| - 1].holder == id then Some(log[|log| - 1])
    else LastWrite(log[..|log| - 1], id)
  }

  /** How one write may follow another. */
  predicate Follows(w: Write, next: Write)
  {
    match next.kind
    case Created => false
    case TakenOver => next.version == w.version + 1 && w.expiresAt < next.now
    case Renewed => next.version == w.version + 1 && next.holder == w.holder
    case Released => next.version == w.version && next.holder == w.holder
  }

  predicate FollowsAt(log: seq<Write>, i: nat)
  {
    0 < i < |log| ==> Follows(log[i - 1], log[i])
  }

  ghost predicate WellFormedLog(log: seq<Write>)
  {
    && (log != [] ==> log[0].kind.Created? && log[0].version == 1)
    && forall i: nat :: FollowsAt(log, i)
  }

  /** Within the expiry it last wrote, by the shared clock. */
  predicate WithinLastExpiry(s: State, id: HolderId)
  {
    var w := LastWrite(s.log, id);
    w.Some? && s.clock <= w.value.expiresAt
  }

  predicate Captured(p: Phase, clock: int)
  {
    (p.Updating? || p.Inserting? || p.Renewing? || p.Releasing?) ==> p.now <= clock
  }

  /** What holds of one replica in every reachable state. */
  predicate ReplicaOk(s: State, id: HolderId)
    requires id in s.replicas
  {
    var r := s.replicas[id];
    && Captured(r.phase, s.clock)
    && (r.isLeader || r.phase.ReadingBack? ==> LastWrite(s.log, id).Some?)
    && (r.phase.Releasing? ==> !r.isLeader)
    && (WithinLastExpiry(s, id) ==> HeldBy(s.lease, id))
  }

  /** The row is what the last write left. */
  predicate RowMatchesLog(s: State)
  {
    if s.log == [] then s.lease.None?
    else
      var w := s.log[|s.log| - 1];
      s.lease.Some? && s.lease.value.holder == w.holder
      && s.lease.value.expiresAt == w.expiresAt && s.lease.value.version == w.version
  }

  ghost predicate Invariant(s: State)
  {
    && WellFormedLog(s.log)
    && RowMatchesLog(s)
    && (forall id :: id in s.replicas ==> ReplicaOk(s, id))
    && (forall st :: st in s.late ==> st.now <= s.clock)
  }

  // -------------------------------------------------------- the invariant is kept

  lemma LogExtends(log: seq<Write>, w: Write)
    requires WellFormedLog(log)
    requires if log == [] then w.kind.Created? && w.version == 1 else Follows(log[|log| - 1], w)
    ensures WellFormedLog(log + [w])
  {
    var log' := log + [w];
    forall i: nat ensures FollowsAt(log', i) {
      assert FollowsAt(log, i);
    }
  }

  /** What the database writes may follow what it wrote before. */
  lemma WriteFollows(s: State, st: Statement)
    requires WellFormedLog(s.log) && RowMatchesLog(s) && Matches(s.lease, st)
    ensures WellFormedLog(s.log + [WriteOf(s.lease, st)])
  {
    LogExtends(s.log, WriteOf(s.lease, st));
  }

  lemma LastWriteExtends(log: seq<Write>, w: Write, id: HolderId)
    ensures LastWrite(log + [w], id) == if w.holder == id then Some(w) else LastWrite(log, id)
  {
    assert (log + [w])[..|log|] == log;
  }

  /** A write leaves every replica consistent: it never overtakes an unexpired lease. */
  lemma WriteKeepsReplica(s: State, st: Statement, id: HolderId)
    requires RowMatchesLog(s) && id in s.replicas && ReplicaOk(s, id)
    requires st.now <= s.clock && Matches(s.lease, st)
    ensures ReplicaOk(Executed(s, st), id)
  {
    LastWriteExtends(s.log, WriteOf(s.lease, st), id);
  }

  lemma ExecutedKeepsInvariant(s: State, st: Statement)
    requires Invariant(s) && st.now <= s.clock
    ensures Invariant(Executed(s, st))
    ensures LastWrite(s.log, st.id).Some? || Matches(s.lease, st) ==> LastWrite(Executed(s, st).log, st.id).Some?
  {
    if Matches(s.lease, st) {
      WriteFollows(s, st);
      LastWriteExtends(s.log, WriteOf(s.lease, st), st.id);
      forall id | id in s.replicas ensures ReplicaOk(Executed(s, st), id) {
        WriteKeepsReplica(s, st, id);
      }
    }
  }

  lemma LateKeepsInvariant(s: State, late: set<Statement>)
    requires Invariant(s) && forall st :: st in late ==> st.now <= s.clock
    ensures Invariant(s.(late := late))
  {
    var s' := s.(late := late);
    forall id | id in s'.replicas ensures ReplicaOk(s', id) {
      assert ReplicaOk(s, id);
    }
  }

  lemma SentKeepsInvariant(s: State, st: Statement, delivery: Delivery)
    requires Invariant(s) && st.now <= s.clock
    ensures Invariant(Sent(s, st, delivery))
    ensures LastWrite(s.log, st.id).Some? || (delivery.Answered? && Matches(s.lease, st))
            ==> LastWrite(Sent(s, st, delivery).log, st.id).Some?
  {
    match delivery
    case NotExecuted =>
    case Late => LateKeepsInvariant(s, s.late + {st});
    case _ => ExecutedKeepsInvariant(s, st);
  }

  /** A step that only changes the local variables of one replica. */
  lemma LocalStep(s: State, id: HolderId, r: Replica)
    requires Invariant(s) && id in s.replicas
    requires Captured(r.phase, s.clock)
    requires r.isLeader || r.phase.ReadingBack? ==> LastWrite(s.log, id).Some?
    requires r.phase.Releasing? ==> !r.isLeader
    ensures Invariant(SetReplica(s, id, r))
  {
    var s' := SetReplica(s, id, r);
    forall o | o in s'.replicas ensures ReplicaOk(s', o) {
      assert ReplicaOk(s, o);
    }
  }

  lemma StatementKeepsInvariant(s: State, a: Action)
    requires Invariant(s) && Enabled(s, a)
    requires a.ExecUpdate? || a.ExecInsert? || a.ExecRenew? || a.ExecRelease?
    ensures Invariant(Next(s, a))
  {
    var st := StatementOf(a.id, s.replicas[a.id]);
    assert ReplicaOk(s, a.id);
    SentKeepsInvariant(s, st, a.delivery);
    LocalStep(Sent(s, st, a.delivery), a.id, Next(s, a).replicas[a.id]);
  }

  lemma TickKeepsInvariant(s: State, elapsed: nat)
    requires Invariant(s)
    ensures Invariant(Next(s, Tick(elapsed)))
  {
    var s' := Next(s, Tick(elapsed));
    forall o | o in s'.replicas ensures ReplicaOk(s', o) {
      assert ReplicaOk(s, o);
    }
  }

  lemma StepKeepsInvariant(s: State, a: Action)
    requires Invariant(s) && Enabled(s, a)
    ensures Invariant(Next(s, a))
  {
    match a
    case Tick(elapsed) => TickKeepsInvariant(s, elapsed);
    case ExecUpdate(_, _) => StatementKeepsInvariant(s, a);
    case ExecInsert(_, _) => StatementKeepsInvariant(s, a);
    case ExecRenew(_, _) => StatementKeepsInvariant(s, a);
    case ExecRelease(_, _) => StatementKeepsInvariant(s, a);
    case ExecLate(st) =>
      LateKeepsInvariant(s, s.late - {st});
      ExecutedKeepsInvariant(s.(late := s.late - {st}), st);
    case _ =>
      assert ReplicaOk(s, a.id);
      LocalStep(s, a.id, Next(s, a).replicas[a.id]);
  }

  lemma {:induction false} RunKeepsInvariant(s: State, actions: seq<Action>)
    requires Initial(s)
    ensures Invariant(Run(s, actions))
  {
    if actions != [] {
      var before := actions[..|actions| - 1];
      RunKeepsInvariant(s, before);
      if Enabled(Run(s, before), actions[|actions| - 1]) {
        StepKeepsInvariant(Run(s, before), actions[|actions| - 1]);
      }
    }
  }

  // ---------------------------------------------------------------- version fencing

  lemma {:induction false} VersionsGrow(log: seq<Write>, i: nat, j: nat)
    requires WellFormedLog(log) && i <= j < |log|
    ensures log[i].version <= log[j].version
    ensures log[i].version == log[j].version ==> log[i].holder == log[j].holder
    ensures i < j && log[j].kind != Released ==> log[i].version < log[j].version
  {
    if i < j {
      VersionsGrow(log, i, j - 1);
      assert FollowsAt(log, j);
    }
  }

  /** Over every run: versions never shrink, one version belongs to one holder, and the row
      is created once, by the first write. */
  lemma VersionFencing(s: State, actions: seq<Action>, i: nat, j: nat)
    requires Initial(s)
    requires i < j < |Run(s, actions).log|
    ensures var log := Run(s, actions).log;
            && log[i].version <= log[j].version
            && (log[i].version == log[j].version ==> log[i].holder == log[j].holder)
            && (log[j].kind != Released ==> log[i].version < log[j].version)
            && log[j].kind != Created
            && (log[i].holder != log[i + 1].holder ==> log[i].expiresAt < log[i + 1].now)
  {
    RunKeepsInvariant(s, actions);
    var log := Run(s, actions).log;
    VersionsGrow(log, i, j);
    assert FollowsAt(log, j) && FollowsAt(log, i + 1);
  }

  /** The database accepts a Renew exactly when the last write to the row is this replica's own
      and carries the version the replica believes in. */
  lemma RenewAcceptedIff(s: State, actions: seq<Action>, id: HolderId)
    requires Initial(s) && id in Run(s, actions).replicas
    ensures var t := Run(s, actions);
            HeldAt(t.lease, id, t.replicas[id].currentVersion)
            <==> t.log != [] && t.log[|t.log| - 1].holder == id
                 && LastWrite(t.log, id).Some?
                 && LastWrite(t.log, id).value.version == t.replicas[id].currentVersion
  {
    RunKeepsInvariant(s, actions);
  }

  /** A replica whose read-back returned a version another holder wrote can never renew on it. */
  lemma ForeignVersionNeverRenews(s: State, actions: seq<Action>, id: HolderId, j: nat)
    requires Initial(s) && id in Run(s, actions).replicas && j < |Run(s, actions).log|
    requires Run(s, actions).log[j].version == Run(s, actions).replicas[id].currentVersion
    requires Run(s, actions).log[j].holder != id
    ensures !HeldAt(Run(s, actions).lease, id, Run(s, actions).replicas[id].currentVersion)
  {
    RunKeepsInvariant(s, actions);
    ForeignVersionRejected(Run(s, actions), id, j, Run(s, actions).replicas[id].currentVersion);
  }

  lemma ForeignVersionRejected(s: State, id: HolderId, j: nat, version: int)
    requires WellFormedLog(s.log) && RowMatchesLog(s)
    requires j < |s.log| && s.log[j].version == version && s.log[j].holder != id
    ensures !HeldAt(s.lease, id, version)
  {
    VersionsGrow(s.log, j, |s.log| - 1);
  }

  /** Not the holder, not in the middle of TryAcquire, and with no update or insert still out. */
  ghost predicate Fenced(s: State, id: HolderId)
  {
    && id in s.replicas
    && !HeldBy(s.lease, id)
    && !s.replicas[id].phase.Updating? && !s.replicas[id].phase.Inserting?
    && forall st :: st in s.late && st.id == id ==> st.Renew? || st.Release?
  }

  lemma FencedStep(s: State, a: Action, id: HolderId)
    requires Fenced(s, id) && Enabled(s, a) && a != BeginAcquire(id)
    ensures Fenced(Next(s, a), id)
    ensures s.log <= Next(s, a).log
    ensures forall k :: |s.log| <= k < |Next(s, a).log| ==> Next(s, a).log[k].holder != id
  {
  }

  /** Once another replica has taken the row, a replica that still believes to lead writes
      nothing at all, however it renews or releases, until it calls TryAcquire again. */
  lemma {:induction false} FencedWritesNothing(s: State, actions: seq<Action>, id: HolderId)
    requires Fenced(s, id) && BeginAcquire(id) !in actions
    ensures Fenced(Run(s, actions), id)
    ensures s.log <= Run(s, actions).log
    ensures forall k :: |s.log| <= k < |Run(s, actions).log| ==> Run(s, actions).log[k].holder != id
  {
    if actions != [] {
      var before := actions[..|actions| - 1];
      FencedWritesNothing(s, before, id);
      var a := actions[|actions| - 1];
      if Enabled(Run(s, before), a) {
        FencedStep(Run(s, before), a, id);
      }
    }
  }

  // ------------------------------------------------------------------- exclusion

  /** The flag is set and the replica is still within the expiry it last wrote. */
  predicate Claims(s: State, id: HolderId)
  {
    id in s.replicas && s.replicas[id].isLeader && WithinLastExpiry(s, id)
  }

  /** At most one replica claims the lease at any moment, and the row names it with its expiry. */
  lemma Exclusion(s: State, actions: seq<Action>, a: HolderId, b: HolderId)
    requires Initial(s)
    requires Claims(Run(s, actions), a)
    ensures HeldBy(Run(s, actions).lease, a)
    ensures Run(s, actions).lease.value.expiresAt == LastWrite(Run(s, actions).log, a).value.expiresAt
    ensures Claims(Run(s, actions), b) ==> a == b
  {
    RunKeepsInvariant(s, actions);
    assert ReplicaOk(Run(s, actions), a);
    if Claims(Run(s, actions), b) {
      assert ReplicaOk(Run(s, actions), b);
    }
  }

  predicate BothLead(s: State, a: HolderId, b: HolderId)
  {
    && a != b && a in s.replicas && b in s.replicas
    && s.replicas[a].isLeader && s.replicas[b].isLeader
  }

  /** Of two replicas whose flags are both set, one is past the expiry it last wrote. */
  lemma OverlapIsStale(s: State, actions: seq<Action>, a: HolderId, b: HolderId)
    requires Initial(s) && BothLead(Run(s, actions), a, b)
    ensures !WithinLastExpiry(Run(s, actions), a) || !WithinLastExpiry(Run(s, actions), b)
    ensures LastWrite(Run(s, actions).log, a).Some? && LastWrite(Run(s, actions).log, b).Some?
  {
    RunKeepsInvariant(s, actions);
    assert ReplicaOk(Run(s, actions), a) && ReplicaOk(Run(s, actions), b);
  }

  // -------------------------------------------------------------------- fail-over

  /** The statements of one TryAcquire, each answered and with nothing in between. */
  function AcquireAlone(s: State, id: HolderId): State
    requires id in s.replicas && s.replicas[id].phase.Idle?
  {
    var s1 := Next(s, BeginAcquire(id));
    var s2 := Next(s1, ExecUpdate(id, Answered));
    if s2.replicas[id].phase.ReadingBack? then Next(s2, ExecReadBack(id, Answered))
    else Next(s2, ExecInsert(id, Answered))
  }

  /** Undisturbed, TryAcquire succeeds exactly when there is no row or the row has expired; it
      then holds the row at the version it believes in, so its next Renew is accepted.
      Otherwise it leaves the row alone. */
  lemma AcquireAloneSucceedsIff(s: State, actions: seq<Action>, id: HolderId)
    requires Initial(s)
    requires id in Run(s, actions).replicas && Run(s, actions).replicas[id].phase.Idle?
    ensures var before, after := Run(s, actions), AcquireAlone(Run(s, actions), id);
            && (after.replicas[id].isLeader <==> before.lease.None? || Expired(before.lease, before.clock))
            && (after.replicas[id].isLeader ==>
                  HeldAt(after.lease, id, after.replicas[id].currentVersion))
            && (after.replicas[id].isLeader && before.replicas[id].leaseDuration >= 0 ==> Claims(after, id))
            && (!after.replicas[id].isLeader ==> after.lease == before.lease && after.log == before.log)
  {
    var before, after := Run(s, actions), AcquireAlone(Run(s, actions), id);
    RunKeepsInvariant(s, actions);
    if after.replicas[id].isLeader {
      assert LastWrite(after.log, id) == Some(after.log[|after.log| - 1]);
    }
  }

  /** The step that sets the second flag: a read-back that is answered while the other replica
      leads. */
  predicate SetsSecondFlag(s: State, act: Action, a: HolderId, b: HolderId)
  {
    || (act == ExecReadBack(a, Answered) && b in s.replicas && s.replicas[b].isLeader)
    || (act == ExecReadBack(b, Answered) && a in s.replicas && s.replicas[a].isLeader)
  }

  /** In any reachable state, exactly those steps bring two flags together. An insert cannot: it
      succeeds only on an empty table, when nobody has led yet. */
  lemma OverlapStepIff(s: State, act: Action, a: HolderId, b: HolderId)
    requires Invariant(s) && Enabled(s, act) && !BothLead(s, a, b)
    requires a != b && a in s.replicas && b in s.replicas
    ensures BothLead(Next(s, act), a, b) <==> SetsSecondFlag(s, act, a, b)
  {
    assert ReplicaOk(s, a) && ReplicaOk(s, b);
  }

  /** Action k of the run is taken and sets the second flag. */
  predicate SecondFlagAt(s: State, actions: seq<Action>, k: nat, a: HolderId, b: HolderId)
  {
    && k < |actions|
    && var before := Run(s, actions[..k]);
    && Enabled(before, actions[k]) && !BothLead(before, a, b) && SetsSecondFlag(before, actions[k], a, b)
  }

  lemma {:induction false} ReplicasStay(s: State, actions: seq<Action>)
    ensures Run(s, actions).replicas.Keys == s.replicas.Keys
  {
    if actions != [] {
      ReplicasStay(s, actions[..|actions| - 1]);
    }
  }

  lemma SecondFlagStays(s: State, actions: seq<Action>, n: nat, k: nat, a: HolderId, b: HolderId)
    requires n <= |actions| && k < n
    ensures SecondFlagAt(s, actions[..n], k, a, b) <==> SecondFlagAt(s, actions, k, a, b)
  {
    assert actions[..n][..k] == actions[..k];
  }

  /** Over every run: two flags are set at once in some state exactly when some read-back is
      answered to one replica while the other leads. */
  lemma {:induction false} FlagsOverlapIff(s: State, actions: seq<Action>, a: HolderId, b: HolderId)
    requires Initial(s) && a != b && a in s.replicas && b in s.replicas
    ensures (exists n :: 0 <= n <= |actions| && BothLead(Run(s, actions[..n]), a, b))
       <==> (exists k :: 0 <= k < |actions| && SecondFlagAt(s, actions, k, a, b))
    decreases |actions|
  {
    if exists n :: 0 <= n <= |actions| && BothLead(Run(s, actions[..n]), a, b) {
      var n :| 0 <= n <= |actions| && BothLead(Run(s, actions[..n]), a, b);
      var k := OverlapHasCause(s, actions[..n], a, b);
      SecondFlagStays(s, actions, n, k, a, b);
    }
    if exists k :: 0 <= k < |actions| && SecondFlagAt(s, actions, k, a, b) {
      var k :| 0 <= k < |actions| && SecondFlagAt(s, actions, k, a, b);
      CauseOverlaps(s, actions, k, a, b);
    }
  }

  lemma {:induction false} OverlapHasCause(s: State, actions: seq<Action>, a: HolderId, b: HolderId) returns (k: nat)
    requires Initial(s) && a != b && a in s.replicas && b in s.replicas && BothLead(Run(s, actions), a, b)
    ensures SecondFlagAt(s, actions, k, a, b)
    decreases |actions|
  {
    var n := |actions| - 1;
    var before := Run(s, actions[..n]);
    if BothLead(before, a, b) {
      k := OverlapHasCause(s, actions[..n], a, b);
      SecondFlagStays(s, actions, n, k, a, b);
    } else {
      k := n;
      RunKeepsInvariant(s, actions[..n]);
      ReplicasStay(s, actions[..n]);
      OverlapStepIff(before, actions[n], a, b);
    }
  }

  lemma CauseOverlaps(s: State, actions: seq<Action>, k: nat, a: HolderId, b: HolderId)
    requires Initial(s) && a != b && a in s.replicas && b in s.replicas && SecondFlagAt(s, actions, k, a, b)
    ensures k + 1 <= |actions| && BothLead(Run(s, actions[..k + 1]), a, b)
  {
    var before := Run(s, actions[..k]);
    assert actions[..k + 1][..k] == actions[..k];
    RunKeepsInvariant(s, actions[..k]);
    ReplicasStay(s, actions[..k]);
    OverlapStepIff(before, actions[k], a, b);
  }

  /** The flag alone excludes nobody: an undisturbed TryAcquire leaves another replica's flag and
      its own set exactly when the other had let its lease run out without renewing. */
  lemma TakeoverOverlapsIff(s: State, actions: seq<Action>, a: HolderId, b: HolderId)
    requires Initial(s) && a != b
    requires a in Run(s, actions).replicas && b in Run(s, actions).replicas
    requires Run(s, actions).replicas[b].phase.Idle?
    ensures var before := Run(s, actions);
            BothLead(AcquireAlone(before, b), a, b)
            <==> before.replicas[a].isLeader && Expired(before.lease, before.clock)
  {
    RunKeepsInvariant(s, actions);
    assert ReplicaOk(Run(s, actions), a);
  }

  lemma {:induction false} RunConcat(s: State, first: seq<Action>, then_: seq<Action>)
    ensures Run(s, first + then_) == Run(Run(s, first), then_)
  {
    if then_ == [] {
      assert first + then_ == first;
    } else {
      var k := |then_| - 1;
      RunConcat(s, first, then_[..k]);
      assert (first + then_)[..|first + then_| - 1] == first + then_[..k];
    }
  }

  lemma RunOne(s: State, a: Action)
    requires Enabled(s, a)
    ensures Run(s, [a]) == Next(s, a)
  {
    assert [a][..0] == [];
    assert Run(s, []) == s;
  }

  /** The undisturbed TryAcquire is a run like any other. */
  lemma AcquireAloneIsRun(s: State, id: HolderId) returns (actions: seq<Action>)
    requires id in s.replicas && s.replicas[id].phase.Idle?
    ensures Run(s, actions) == AcquireAlone(s, id)
  {
    var s1 := Next(s, BeginAcquire(id));
    var s2 := Next(s1, ExecUpdate(id, Answered));
    var last := if s2.replicas[id].phase.ReadingBack? then ExecReadBack(id, Answered) else ExecInsert(id, Answered);
    RunOne(s, BeginAcquire(id));
    RunOne(s1, ExecUpdate(id, Answered));
    RunOne(s2, last);
    RunConcat(s, [BeginAcquire(id)], [ExecUpdate(id, Answered)]);
    RunConcat(s, [BeginAcquire(id)] + [ExecUpdate(id, Answered)], [last]);
    actions := [BeginAcquire(id)] + [ExecUpdate(id, Answered)] + [last];
  }

  /** So the overlap of flags is reachable. */
  lemma FlagsCanOverlap() returns (s: State, actions: seq<Action>)
    ensures Initial(s) && BothLead(Run(s, actions), "a", "b")
  {
    var idle := Replica(30, false, 0, Idle);
    s := State(0, None, map["a" := idle, "b" := idle], [], {});
    var first := AcquireAloneIsRun(s, "a");
    var t := AcquireAlone(s, "a");
    RunOne(t, Tick(31));
    RunConcat(s, first, [Tick(31)]);
    var u := Next(t, Tick(31));
    var second := AcquireAloneIsRun(u, "b");
    TakeoverOverlapsIff(s, first + [Tick(31)], "a", "b");
    RunConcat(s, first + [Tick(31)], second);
    actions := first + [Tick(31)] + second;
  }

  lemma RunThen(s: State, actions: seq<Action>, a: Action)
    requires Enabled(Run(s, actions), a)
    ensures Run(s, actions + [a]) == Next(Run(s, actions), a)
  {
    RunOne(Run(s, actions), a);
    RunConcat(s, actions, [a]);
  }

  /** The row belongs to c and has run out; a takes it over, and has not read it back yet. */
  lemma SlowTakeover() returns (s: State, actions: seq<Action>)
    ensures Initial(s) && s.replicas.Keys == {"a", "b", "c"}
    ensures var t := Run(s, actions);
            && "a" in t.replicas && t.replicas["a"] == Replica(30, false, 0, ReadingBack)
            && "b" in t.replicas && t.replicas["b"] == Replica(30, false, 0, Idle)
            && t.clock == 31 && t.lease == Some(Lease("a", 31, 61, 2))
  {
    var idle := Replica(30, false, 0, Idle);
    s := State(0, None, map["a" := idle, "b" := idle, "c" := idle], [], {});
    var first := AcquireAloneIsRun(s, "c");
    RunThen(s, first, Tick(31));
    RunThen(s, first + [Tick(31)], BeginAcquire("a"));
    RunThen(s, first + [Tick(31)] + [BeginAcquire("a")], ExecUpdate("a", Answered));
    actions := first + [Tick(31)] + [BeginAcquire("a")] + [ExecUpdate("a", Answered)];
  }

  /** Flags also overlap while a lease is valid: a's read-back is answered only after b has taken
      over, and b still claims the lease. */
  lemma DelayedReadBackOverlaps() returns (s: State, actions: seq<Action>)
    ensures Initial(s) && BothLead(Run(s, actions), "a", "b") && Claims(Run(s, actions), "b")
  {
    var slow: seq<Action>;
    s, slow := SlowTakeover();
    RunThen(s, slow, Tick(31));
    var late := Run(s, slow + [Tick(31)]);
    var second := AcquireAloneIsRun(late, "b");
    RunConcat(s, slow + [Tick(31)], second);
    AcquireAloneSucceedsIff(s, slow + [Tick(31)], "b");
    RunThen(s, slow + [Tick(31)] + second, ExecReadBack("a", Answered));
    actions := slow + [Tick(31)] + second + [ExecReadBack("a", Answered)];
  }
}
