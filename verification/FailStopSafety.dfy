/**
  What holds when a worker that loses its lease is not in the middle of a cycle, or takes no further step of it, which
  is how `core/import_worker.py` means the lease to work: one worker on a job at a time, no job lost, and a lifecycle
  that only moves forward. A worker that idles may lose the lease, and see that at its next acquire or not. That a
  worker takes no further step is a crash here; SilentWorkers.dfy shows that this stands for one that stays silent.
 */
module FailStopSafety {
  import opened Wrappers
  import opened ImportJobs
  import opened StoreSpec
  import opened ImportProtocol
  import opened ProtocolInvariant
  import opened LeaseIntervals
  import opened Leadership

  /** The step takes the lease from a worker that is in the middle of a cycle: the guard of `acquire_lock`. */
  predicate Displaces(s: State, e: Step)
    requires Enabled(s, e)
  {
    && Asks(e)
    && s.db.lock.Some?
    && var lock := s.db.lock.value;
       && lock.holder.Some? && lock.holder.value != e.w && Busy(s, lock.holder.value)
       && lock.expiresAt.Some? && lock.expiresAt.value < Reading(e)
  }

  /** A worker loses the lease between cycles, or dead, but not while it goes on. */
  predicate FailStop(s: State, e: Step)
    requires Enabled(s, e)
  {
    !Displaces(s, e)
  }

  /** A lease holder in the middle of a cycle read the clock for its last acquire at most a lease ago. */
  ghost predicate Timely(s: State) {
    forall w :: Busy(s, w) && Holds(s, w) ==> s.clock <= s.workers[w].lastReading + LEASE
  }

  /** The lock row records the expiry of its holder's last acquire; no reading is ahead of the clock. */
  predicate LeaseOkFor(s: State, w: WorkerId) {
    && (Holds(s, w) ==> w in s.workers && s.db.lock.value.expiresAt == Some(s.workers[w].lastReading + LEASE))
    && (w in s.workers ==> s.workers[w].lastReading <= s.clock)
  }

  ghost predicate LeaseOk(s: State) {
    forall w :: LeaseOkFor(s, w)
  }

  ghost predicate IsFailStopRun(states: seq<State>, steps: seq<Step>) {
    IsRun(states, steps) && forall i :: 0 <= i < |steps| ==> FailStop(states[i], steps[i])
  }

  ghost predicate IsTimelyRun(states: seq<State>, steps: seq<Step>) {
    IsRun(states, steps) && forall i :: 0 <= i < |states| ==> Timely(states[i])
  }

  /** Every worker in the middle of a cycle holds the lease. */
  ghost predicate SoleWorker(s: State) {
    forall w :: Busy(s, w) ==> Holds(s, w)
  }

  predicate Carries(s: State, w: WorkerId, id: JobId) {
    Live(s, w) && s.workers[w].pc.OnJob? && s.workers[w].pc.job == id
  }

  ghost predicate ClaimantOk(s: State, id: JobId)
    requires id in s.db.jobs
  {
    var row := s.db.jobs[id];
    row.claimedBy.Some? && row.status.Active() && Live(s, row.claimedBy.value) ==>
      Carries(s, row.claimedBy.value, id) || id in s.abandoned
  }

  ghost predicate CarrierOk(s: State, w: WorkerId) {
    Live(s, w) ==>
      var pc := s.workers[w].pc;
      pc.OnJob? ==> pc.job in s.db.jobs && s.db.jobs[pc.job].status.Active() && pc.job !in s.abandoned
  }

  ghost predicate AbandonedOk(s: State) {
    forall id :: id in s.abandoned ==> id in s.db.jobs && s.db.jobs[id].claimedBy.Some?
  }

  ghost predicate FailStopInv(s: State) {
    && SoleWorker(s)
    && (forall id :: id in s.db.jobs ==> ClaimantOk(s, id))
    && (forall w :: CarrierOk(s, w))
    && AbandonedOk(s)
  }

  lemma StepKeepsLease(s: State, e: Step, w: WorkerId)
    requires LeaseOkFor(s, w) && Enabled(s, e)
    ensures LeaseOkFor(After(s, e), w)
  {
  }

  lemma {:induction false} LeaseHolds(states: seq<State>, steps: seq<Step>, i: nat)
    requires IsRun(states, steps) && i < |states|
    ensures LeaseOk(states[i])
  {
    if i == 0 {
    } else {
      LeaseHolds(states, steps, i - 1);
      forall w ensures LeaseOkFor(states[i], w) {
        StepKeepsLease(states[i - 1], steps[i - 1], w);
      }
    }
  }

  lemma TimelyStepIsFailStop(s: State, e: Step)
    requires LeaseOk(s) && Timely(s) && Enabled(s, e)
    ensures FailStop(s, e)
  {
    if s.db.lock.Some? && s.db.lock.value.holder.Some? {
      assert LeaseOkFor(s, s.db.lock.value.holder.value);
    }
  }

  /** Acquires at most a lease apart, while a cycle lasts, are enough for a run to be fail-stop. */
  lemma TimelyRunsAreFailStop(states: seq<State>, steps: seq<Step>)
    requires IsTimelyRun(states, steps)
    ensures IsFailStopRun(states, steps)
  {
    forall i | 0 <= i < |steps| ensures FailStop(states[i], steps[i]) {
      LeaseHolds(states, steps, i);
      TimelyStepIsFailStop(states[i], steps[i]);
    }
  }

  /**
    The bound is sharp: while another worker stands by, the holder is in time exactly if no step of anybody's can
    displace it.
   */
  lemma LeaseBoundIsSharp(states: seq<State>, steps: seq<Step>, i: nat, v: WorkerId)
    requires IsRun(states, steps) && i < |states|
    requires Live(states[i], v) && states[i].workers[v].pc.Idle? && !Holds(states[i], v)
    ensures Timely(states[i]) <==> forall e :: Enabled(states[i], e) ==> FailStop(states[i], e)
  {
    var s := states[i];
    LeaseHolds(states, steps, i);
    if Timely(s) {
      forall e | Enabled(s, e) ensures FailStop(s, e) {
        TimelyStepIsFailStop(s, e);
      }
    } else {
      var w :| Busy(s, w) && Holds(s, w) && s.clock > s.workers[w].lastReading + LEASE;
      assert LeaseOkFor(s, w) && LeaseOkFor(s, v);
      var e := CycleStep(v, Acquire(s.clock));
      assert Enabled(s, e) && Displaces(s, e);
    }
  }

  /** The hypothesis is exact: from a state where all who are busy hold the lease, a step keeps it so just when met. */
  lemma FailStopIsExact(s: State, e: Step)
    requires Inv(s) && SoleWorker(s) && Enabled(s, e)
    ensures SoleWorker(After(s, e)) <==> FailStop(s, e)
  {
    if Displaces(s, e) {
      var w := s.db.lock.value.holder.value;
      assert Busy(After(s, e), w) && !Holds(After(s, e), w);
    } else {
      forall w | Busy(After(s, e), w) ensures Holds(After(s, e), w) {
        KeepsLease(s, e, w);
      }
    }
  }

  lemma KeepsLease(s: State, e: Step, w: WorkerId)
    requires Inv(s) && Enabled(s, e) && FailStop(s, e) && (Busy(s, w) ==> Holds(s, w)) && Busy(After(s, e), w)
    ensures Holds(After(s, e), w)
  {
  }

  ghost predicate StopsInTime(states: seq<State>, steps: seq<Step>, n: nat)
    requires IsRun(states, steps) && n <= |steps|
  {
    forall i :: 0 <= i < n ==> FailStop(states[i], steps[i])
  }

  /** Over a whole run, all who are busy hold the lease exactly if the run is fail-stop. */
  lemma {:induction false} SoleWorkersExactly(states: seq<State>, steps: seq<Step>, n: nat)
    requires IsRun(states, steps) && n <= |steps|
    ensures (forall i :: 0 <= i <= n ==> SoleWorker(states[i])) <==> StopsInTime(states, steps, n)
  {
    if n == 0 {
    } else {
      var s, e := states[n - 1], steps[n - 1];
      SoleWorkersExactly(states, steps, n - 1);
      Reachable(states, steps, n - 1);
      assert states[n] == After(s, e);
      if SoleWorker(s) {
        FailStopIsExact(s, e);
      }
      assert StopsInTime(states, steps, n) <==> StopsInTime(states, steps, n - 1) && FailStop(s, e);
    }
  }

  lemma JobKeepsCarrier(s: State, e: Step, w: WorkerId)
    requires Inv(s) && FailStopInv(s) && Enabled(s, e) && e.JobStep?
    ensures CarrierOk(After(s, e), w)
  {
    assert CarrierOk(s, w) && CarrierOk(s, e.w) && PcOk(s, e.w);
    JobStepFrame(s, e);
    assert w in s.workers ==> PcOk(s, w);
  }

  lemma CycleKeepsCarrier(s: State, e: Step, w: WorkerId)
    requires Inv(s) && FailStopInv(s) && Enabled(s, e) && e.CycleStep?
    ensures CarrierOk(After(s, e), w)
  {
    assert CarrierOk(s, w) && CarrierOk(s, e.w) && PcOk(s, e.w);
    assert w in s.workers ==> PcOk(s, w);
    assert Busy(s, w) ==> Holds(s, w);
    assert Busy(s, e.w) ==> Holds(s, e.w);
  }

  lemma StepKeepsCarrier(s: State, e: Step, w: WorkerId)
    requires Inv(s) && FailStopInv(s) && Enabled(s, e)
    ensures CarrierOk(After(s, e), w)
  {
    match e
    case JobStep(_, _) => JobKeepsCarrier(s, e, w);
    case CycleStep(_, _) => CycleKeepsCarrier(s, e, w);
    case _ => assert CarrierOk(s, w) && (w in s.workers ==> PcOk(s, w));
  }

  lemma JobKeepsClaimant(s: State, e: Step, id: JobId)
    requires Inv(s) && FailStopInv(s) && Enabled(s, e) && e.JobStep? && id in After(s, e).db.jobs
    ensures ClaimantOk(After(s, e), id)
  {
    JobStepFrame(s, e);
    assert ClaimantOk(s, id) && CarrierOk(s, e.w) && PcOk(s, e.w);
  }

  lemma CycleKeepsClaimant(s: State, e: Step, id: JobId)
    requires Inv(s) && FailStopInv(s) && Enabled(s, e) && e.CycleStep? && id in After(s, e).db.jobs
    ensures ClaimantOk(After(s, e), id)
  {
    assert ClaimantOk(s, id) && CarrierOk(s, e.w) && PcOk(s, e.w);
    assert Busy(s, e.w) ==> Holds(s, e.w);
  }

  lemma StepKeepsClaimant(s: State, e: Step, id: JobId)
    requires Inv(s) && FailStopInv(s) && Enabled(s, e) && id in After(s, e).db.jobs
    ensures ClaimantOk(After(s, e), id)
  {
    match e
    case JobStep(_, _) => JobKeepsClaimant(s, e, id);
    case CycleStep(_, _) => CycleKeepsClaimant(s, e, id);
    case _ => assert id in s.db.jobs ==> ClaimantOk(s, id) && RowOk(id, s.db.jobs[id]);
  }

  lemma StepKeepsAbandoned(s: State, e: Step)
    requires Inv(s) && FailStopInv(s) && Enabled(s, e)
    ensures AbandonedOk(After(s, e))
  {
    if e.JobStep? {
      JobStepFrame(s, e);
      assert PcOk(s, e.w) && CarrierOk(s, e.w);
    }
  }

  lemma {:induction false} FailStopHolds(states: seq<State>, steps: seq<Step>, i: nat)
    requires IsFailStopRun(states, steps) && i < |states|
    ensures FailStopInv(states[i])
  {
    if i == 0 {
    } else {
      var s, e := states[i - 1], steps[i - 1];
      FailStopHolds(states, steps, i - 1);
      Reachable(states, steps, i - 1);
      FailStopIsExact(s, e);
      forall w ensures CarrierOk(states[i], w) {
        StepKeepsCarrier(s, e, w);
      }
      forall id | id in states[i].db.jobs ensures ClaimantOk(states[i], id) {
        StepKeepsClaimant(s, e, id);
      }
      StepKeepsAbandoned(s, e);
    }
  }

  /** At most one worker is between claiming a job and its terminal write, and it holds the lease. */
  lemma OneWorkerOnAJob(states: seq<State>, steps: seq<Step>, i: nat, v: WorkerId, w: WorkerId, a: JobId, b: JobId)
    requires IsFailStopRun(states, steps) || IsTimelyRun(states, steps)
    requires i < |states| && Carries(states[i], v, a) && Carries(states[i], w, b)
    ensures v == w && a == b && Holds(states[i], w)
  {
    if IsTimelyRun(states, steps) {
      TimelyRunsAreFailStop(states, steps);
    }
    FailStopHolds(states, steps, i);
    assert Busy(states[i], v) && Busy(states[i], w);
  }

  // No job is lost

  /** What can have become of a created job. */
  datatype Fate = Waiting | Ended | Underway | Orphaned | Stuck

  /** `Stuck`: the live claimant errored after the claim UPDATE, or used up its finalize attempts. */
  predicate HasFate(s: State, id: JobId, fate: Fate)
    requires id in s.db.jobs
  {
    var row := s.db.jobs[id];
    match fate
    case Waiting => row.status.Pending?
    case Ended => row.status.Terminal()
    case Underway => row.status.Active() && row.claimedBy.Some? && Carries(s, row.claimedBy.value, id)
    case Orphaned => IsOrphan(s, id)
    case Stuck => row.status.Active() && row.claimedBy.Some? && Live(s, row.claimedBy.value) && id in s.abandoned
  }

  /** In every fail-stop run each created job is in exactly one of the five situations. */
  lemma NoJobIsLost(states: seq<State>, steps: seq<Step>, i: nat, id: JobId)
    requires IsFailStopRun(states, steps) && i < |states| && id in states[i].db.jobs
    ensures exists fate ::
      HasFate(states[i], id, fate) && forall other :: HasFate(states[i], id, other) ==> other == fate
  {
    var s := states[i];
    FailStopHolds(states, steps, i);
    Reachable(states, steps, i);
    var row := s.db.jobs[id];
    assert RowOk(id, row) && ClaimantOk(s, id);
    var fate :=
      if row.status.Pending? then Waiting
      else if row.status.Terminal() then Ended
      else if !Live(s, row.claimedBy.value) then Orphaned
      else if Carries(s, row.claimedBy.value, id) then Underway
      else Stuck;
    assert HasFate(s, id, fate);
    if row.claimedBy.Some? {
      assert CarrierOk(s, row.claimedBy.value);
    }
  }

  /**
    A newly elected leader's recovery leaves no orphan and leaves no active job to anyone but itself. It fails the
    orphans and the jobs stuck under other workers, and no others: its own jobs, waiting and ended jobs keep their rows.
   */
  lemma RecoveryEmptiesOrphans(states: seq<State>, steps: seq<Step>, i: nat, id: JobId)
    requires IsFailStopRun(states, steps) && i < |steps| && steps[i].CycleStep? && steps[i].cycle.Recover?
    requires id in states[i].db.jobs
    ensures id in states[i + 1].db.jobs
    ensures !HasFate(states[i + 1], id, Orphaned)
    ensures states[i + 1].db.jobs[id].status.Active() ==> states[i + 1].db.jobs[id].claimedBy == Some(steps[i].w)
    ensures var row := states[i].db.jobs[id];
      states[i + 1].db.jobs[id] ==
      if HasFate(states[i], id, Orphaned) || (HasFate(states[i], id, Stuck) && row.claimedBy != Some(steps[i].w))
      then row.(status := Failed, error := Some(ORPHAN_ERROR), pending := None)
      else row
  {
    var s, w := states[i], steps[i].w;
    FailStopHolds(states, steps, i);
    Reachable(states, steps, i);
    assert RowFits(s, id) && ClaimantOk(s, id);
    assert Busy(s, w) && Holds(s, w);
    if s.db.jobs[id].claimedBy.Some? {
      var claimant := s.db.jobs[id].claimedBy.value;
      assert Carries(s, claimant, id) ==> Busy(s, claimant) && Holds(s, claimant);
      assert CarrierOk(s, claimant) && PcOk(s, w);
    }
  }

  lemma NobodyIntrudes(s: State, e: Step)
    requires SoleWorker(s) && Enabled(s, e)
    ensures !Intrudes(s, e)
  {
    if Activates(s, e) {
      assert Busy(s, e.w) && Holds(s, e.w);
    }
  }

  ghost predicate RecoversAlways(states: seq<State>, steps: seq<Step>, n: nat)
    requires IsRun(states, steps) && n <= |steps|
  {
    forall i :: 0 <= i < n ==> !SkipsRecovery(states[i], steps[i])
  }

  /** In fail-stop runs the leader owns every active job exactly if no lease is regained over somebody else's. */
  lemma LeadersOwnExactly(states: seq<State>, steps: seq<Step>, n: nat)
    requires IsFailStopRun(states, steps) && n <= |steps|
    ensures (forall i :: 0 <= i <= n ==> LeaderOwns(states[i])) <==> RecoversAlways(states, steps, n)
  {
    LeadersOwn(states, steps, n);
    forall i | 0 <= i < n ensures !Intrudes(states[i], steps[i]) {
      FailStopHolds(states, steps, i);
      NobodyIntrudes(states[i], steps[i]);
    }
  }

  /** There is no orphan under a leader that has been through recovery, and so none when it claims. */
  lemma LeadersLeaveNoOrphans(states: seq<State>, steps: seq<Step>, i: nat, w: WorkerId, id: JobId)
    requires IsFailStopRun(states, steps) && i < |states| && RecoversAlways(states, steps, i)
    requires Settled(states[i], w) && id in states[i].db.jobs
    ensures !HasFate(states[i], id, Orphaned)
    ensures states[i].db.jobs[id].status.Active() ==> HasFate(states[i], id, Underway) || HasFate(states[i], id, Stuck)
  {
    LeadersOwnExactly(states, steps, i);
    FailStopHolds(states, steps, i);
    assert LeaderOwns(states[i]) && ClaimantOk(states[i], id);
    assert !IsActiveOfOther(states[i], id, w);
  }

  // Leaders that renew in time between cycles too

  /** The worker believes it is the leader: it is inside a cycle, or `_was_leader` is set. */
  predicate Leads(s: State, w: WorkerId) {
    Live(s, w) && (s.workers[w].wasLeader || !s.workers[w].pc.Idle?)
  }

  ghost predicate Punctual(s: State) {
    forall w :: Leads(s, w) && Holds(s, w) ==> s.clock <= s.workers[w].lastReading + LEASE
  }

  ghost predicate IsPunctualRun(states: seq<State>, steps: seq<Step>) {
    IsRun(states, steps) && forall i :: 0 <= i < |states| ==> Punctual(states[i])
  }

  lemma StepKeepsSoleLeader(s: State, e: Step)
    requires Inv(s) && LeaseOk(s) && Punctual(s) && Enabled(s, e)
    requires forall w :: Leads(s, w) ==> Holds(s, w)
    ensures forall w :: Leads(After(s, e), w) ==> Holds(After(s, e), w)
  {
    forall w | Leads(After(s, e), w) ensures Holds(After(s, e), w) {
      LeaderKeepsLease(s, e, w);
    }
  }

  lemma LeaderKeepsLease(s: State, e: Step, w: WorkerId)
    requires Inv(s) && LeaseOk(s) && Punctual(s) && Enabled(s, e)
    requires (Leads(s, w) ==> Holds(s, w)) && Leads(After(s, e), w)
    ensures Holds(After(s, e), w)
  {
    assert LeaseOkFor(s, w);
  }

  lemma LeadersNeverRegain(s: State, e: Step)
    requires Enabled(s, e) && forall w :: Leads(s, w) ==> Holds(s, w)
    ensures !Regains(s, e)
  {
    assert Grants(s, e) && s.workers[e.w].wasLeader ==> Leads(s, e.w);
  }

  lemma {:induction false} LeadersHold(states: seq<State>, steps: seq<Step>, i: nat)
    requires IsPunctualRun(states, steps) && i < |states|
    ensures forall w :: Leads(states[i], w) ==> Holds(states[i], w)
  {
    if i == 0 {
    } else {
      LeadersHold(states, steps, i - 1);
      LeaseHolds(states, steps, i - 1);
      Reachable(states, steps, i - 1);
      StepKeepsSoleLeader(states[i - 1], steps[i - 1]);
    }
  }

  /** Leaders whose acquires are never more than a lease apart run fail-stop and always recover. */
  lemma PunctualRunsRecover(states: seq<State>, steps: seq<Step>)
    requires IsPunctualRun(states, steps)
    ensures IsFailStopRun(states, steps) && RecoversAlways(states, steps, |steps|)
  {
    forall i | 0 <= i < |states| ensures Timely(states[i]) {
      assert forall w :: Busy(states[i], w) ==> Leads(states[i], w);
    }
    TimelyRunsAreFailStop(states, steps);
    forall i | 0 <= i < |steps| ensures !SkipsRecovery(states[i], steps[i]) {
      LeadersHold(states, steps, i);
      LeadersNeverRegain(states[i], steps[i]);
    }
  }

  // The lifecycle

  predicate LifecycleEdge(a: Status, b: Status) {
    || a == b
    || (a == Status.Pending && b == Running)
    || (a == Running && b == AwaitingDecision)
    || (a == AwaitingDecision && b == Running)
    || (a.Active() && b.Terminal())
  }

  lemma StepFollowsLifecycle(s: State, e: Step, id: JobId)
    requires Inv(s) && FailStopInv(s) && Enabled(s, e) && id in s.db.jobs
    ensures id in After(s, e).db.jobs && LifecycleEdge(s.db.jobs[id].status, After(s, e).db.jobs[id].status)
  {
    if e.JobStep? {
      JobStepFrame(s, e);
      assert CarrierOk(s, e.w) && PcOk(s, e.w) && RowOk(id, s.db.jobs[id]);
    }
  }

  /** In every fail-stop run a status moves along lifecycle edges only, and a terminal status is never left. */
  lemma {:induction false} TerminalIsFinal(states: seq<State>, steps: seq<Step>, i: nat, k: nat, id: JobId)
    requires IsFailStopRun(states, steps) && i <= k < |states| && id in states[i].db.jobs
    ensures id in states[k].db.jobs
    ensures states[i].db.jobs[id].status.Terminal() ==> states[k].db.jobs[id].status == states[i].db.jobs[id].status
    ensures i < k ==>
      id in states[k - 1].db.jobs && LifecycleEdge(states[k - 1].db.jobs[id].status, states[k].db.jobs[id].status)
    decreases k
  {
    if i == k {
    } else {
      TerminalIsFinal(states, steps, i, k - 1, id);
      FailStopHolds(states, steps, k - 1);
      Reachable(states, steps, k - 1);
      StepFollowsLifecycle(states[k - 1], steps[k - 1], id);
    }
  }
}
