/**
 What a replica can count on while it runs for the lease: a leader that renews in time keeps leading,
 a released lease can be taken at once, and the flag follows the database's answers.
 */
module LeaseProgress {
  import opened Wrappers
  import opened LeaseProtocol

  // ---------------------------------------------------------------------- renewing

  /** Leads, between calls or in a renewal, at the version the row is at, with nothing still out. */
  ghost predicate Leads(s: State, id: HolderId)
  {
    && id in s.replicas && s.replicas[id].isLeader
    && HeldAt(s.lease, id, s.replicas[id].currentVersion)
    && (s.replicas[id].phase.Idle? || s.replicas[id].phase.Renewing?)
    && forall st :: st in s.late ==> st.id != id
  }

  /** An answered renewal of the row's own version keeps the flag, follows the row to its next version
      and extends the lease from the time the call began. */
  lemma RenewalKeepsLease(s: State, id: HolderId)
    requires id in s.replicas && s.replicas[id].phase.Renewing? && s.replicas[id].isLeader
    requires HeldAt(s.lease, id, s.replicas[id].currentVersion)
    ensures var s' := Next(s, ExecRenew(id, Answered));
            var r := s'.replicas[id];
            && r.isLeader && r.phase.Idle? && HeldAt(s'.lease, id, r.currentVersion)
            && s'.lease.value.version == s.lease.value.version + 1
            && s'.lease.value.acquiredAt == s.replicas[id].phase.now
            && s'.lease.value.expiresAt == s.replicas[id].phase.now + s.replicas[id].leaseDuration
  {
  }

  /** The replica itself only renews, and its renewals are answered; the others do what they like. */
  predicate OnlyRenews(a: Action, id: HolderId)
  {
    && a != BeginAcquire(id) && a != BeginRelease(id)
    && (a.ExecRenew? && a.id == id ==> a.delivery.Answered?)
  }

  predicate InTime(s: State)
  {
    s.lease.Some? && s.clock <= s.lease.value.expiresAt
  }

  /** Nobody else's statement, sent by now, applies to a row that is held and in time. */
  lemma OthersMatchNothing(s: State, st: Statement, id: HolderId)
    requires HeldBy(s.lease, id) && InTime(s) && st.id != id && st.now <= s.clock
    ensures !Matches(s.lease, st)
  {
  }

  lemma OtherStep(s: State, a: Action, id: HolderId)
    requires Invariant(s) && Leads(s, id) && InTime(s) && Enabled(s, a)
    requires (a.ExecUpdate? || a.ExecInsert? || a.ExecRenew? || a.ExecRelease?) && a.id != id
    ensures Leads(Next(s, a), id)
  {
    assert ReplicaOk(s, a.id);
    OthersMatchNothing(s, StatementOf(a.id, s.replicas[a.id]), id);
  }

  lemma LeaderStep(s: State, a: Action, id: HolderId)
    requires Invariant(s) && Leads(s, id) && InTime(s) && Enabled(s, a) && OnlyRenews(a, id)
    ensures Leads(Next(s, a), id)
  {
    if (a.ExecUpdate? || a.ExecInsert? || a.ExecRenew? || a.ExecRelease?) && a.id != id {
      OtherStep(s, a, id);
    } else if a.ExecRenew? {
      RenewalKeepsLease(s, id);
    } else if a.ExecLate? {
      OthersMatchNothing(s, a.statement, id);
    }
  }

  /** While the clock never passes the row's expiry, a leader whose renewals are answered keeps its
      flag and the row, at the version it believes in, whatever the other replicas and their late
      statements do. */
  lemma {:induction false} LeaderKeepsLease(s: State, actions: seq<Action>, id: HolderId)
    requires Invariant(s) && Leads(s, id)
    requires forall k :: 0 <= k <= |actions| ==> InTime(Run(s, actions[..k]))
    requires forall k :: 0 <= k < |actions| ==> OnlyRenews(actions[k], id)
    ensures Invariant(Run(s, actions)) && Leads(Run(s, actions), id)
    decreases |actions|
  {
    if actions != [] {
      var n := |actions| - 1;
      var before := actions[..n];
      forall k | 0 <= k <= n ensures InTime(Run(s, before[..k])) {
        assert before[..k] == actions[..k];
      }
      LeaderKeepsLease(s, before, id);
      assert before[..n] == before;
      if Enabled(Run(s, before), actions[n]) {
        StepKeepsInvariant(Run(s, before), actions[n]);
        LeaderStep(Run(s, before), actions[n], id);
      }
    }
  }

  // -------------------------------------------------------- taking and giving the row

  /** What an undisturbed TryAcquire that succeeds leaves: the row, from now for the lease duration. */
  lemma AcquireAloneTakes(s: State, id: HolderId)
    requires Invariant(s) && id in s.replicas && s.replicas[id].phase.Idle?
    requires s.lease.None? || Expired(s.lease, s.clock)
    ensures var s' := AcquireAlone(s, id);
            var version := if s.lease.Some? then s.lease.value.version + 1 else 1;
            && s'.lease == Some(Lease(id, s.clock, s.clock + s.replicas[id].leaseDuration, version))
            && s'.replicas[id] == s.replicas[id].(isLeader := true, currentVersion := version)
            && s'.replicas == s.replicas[id := s'.replicas[id]]
  {
  }

  /** An answered Release clears the flag at once and leaves a row that the next TryAcquire of any
      replica takes over, without waiting. */
  lemma ReleaseHandsOver(s: State, id: HolderId, next: HolderId)
    requires Invariant(s) && id in s.replicas && next in s.replicas && id != next
    requires s.replicas[id].phase.Idle? && s.replicas[next].phase.Idle? && HeldBy(s.lease, id)
    ensures var s1 := Next(s, BeginRelease(id));
            var s2 := Next(s1, ExecRelease(id, Answered));
            var s3 := AcquireAlone(s2, next);
            && !s1.replicas[id].isLeader && s2.replicas[id].phase.Idle?
            && s2.lease == Some(s.lease.value.(expiresAt := s.clock - 1))
            && s3.replicas[next].isLeader && !s3.replicas[id].isLeader
            && HeldAt(s3.lease, next, s3.replicas[next].currentVersion)
  {
    var s1 := Next(s, BeginRelease(id));
    var s2 := Next(s1, ExecRelease(id, Answered));
    StepKeepsInvariant(s, BeginRelease(id));
    StepKeepsInvariant(s1, ExecRelease(id, Answered));
    AcquireAloneTakes(s2, next);
  }

  // ----------------------------------------------------------------------- the flag

  /** A step that answers the replica that it has the lease. */
  predicate Grants(s: State, a: Action, id: HolderId)
  {
    a == ExecReadBack(id, Answered) || (a == ExecInsert(id, Answered) && s.lease.None?)
  }

  /** A step after which the replica must not think that it leads: a call of its own that got no
      answer or was refused, or the start of a release. */
  predicate Denies(s: State, a: Action, id: HolderId)
  {
    match a
    case ExecUpdate(i, d) => i == id && !d.Answered?
    case ExecReadBack(i, d) => i == id && !d.Answered?
    case ExecInsert(i, d) => i == id && !(d.Answered? && s.lease.None?)
    case ExecRenew(i, d) =>
      i == id && !(d.Answered? && id in s.replicas && HeldAt(s.lease, id, s.replicas[id].currentVersion))
    case BeginRelease(i) => i == id
    case _ => false
  }

  /** In every reachable state: the flag rises only when the lease is granted, falls whenever it is
      denied, and stays otherwise; nobody else's steps touch it. */
  lemma FlagFollowsAnswers(s: State, a: Action, id: HolderId)
    requires Invariant(s) && Enabled(s, a) && id in s.replicas
    ensures Next(s, a).replicas[id].isLeader
       <==> Grants(s, a, id) || (s.replicas[id].isLeader && !Denies(s, a, id))
  {
    assert ReplicaOk(s, id);
  }

  /** A call of TryAcquire, Renew or Release is over when its last statement is; a Renew without the
      flag sends nothing. */
  lemma CallsEnd(s: State, a: Action, id: HolderId)
    requires Invariant(s) && Enabled(s, a) && id in s.replicas
    ensures a == BeginRenew(id) && !s.replicas[id].isLeader ==> Next(s, a) == s
    ensures a.ExecReadBack? || a.ExecInsert? || a.ExecRenew? || a.ExecRelease? ==> Next(s, a).replicas[a.id].phase.Idle?
    ensures a.ExecUpdate? ==>
      var p := Next(s, a).replicas[a.id].phase;
      if !a.delivery.Answered? then p.Idle?
      else if Expired(s.lease, s.replicas[a.id].phase.now) then p.ReadingBack?
      else p == Inserting(s.replicas[a.id].phase.now)
  {
  }
}
