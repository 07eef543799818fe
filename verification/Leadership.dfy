/**
  What a leader may rely on about other workers' jobs, in every interleaving. A worker recovers orphans only when
  `_was_leader` is not set, and only an acquire it sees fail clears it; so what recovery has established can be lost.
  Each property here comes with the exact steps that lose it, as guards on the state before the step.
 */
module Leadership {
  import opened Wrappers
  import opened ImportJobs
  import opened StoreSpec
  import opened ImportProtocol
  import opened ProtocolInvariant
  import opened LeaseIntervals

  predicate Holds(s: State, w: WorkerId) {
    s.db.lock.Some? && s.db.lock.value.holder == Some(w)
  }

  /** The worker is inside a leader cycle: past an acquire that succeeded, and not through with what follows it. */
  predicate Busy(s: State, w: WorkerId) {
    Live(s, w) && !s.workers[w].pc.Idle?
  }

  /** The worker holds the lease and takes itself to have been through recovery. */
  predicate Settled(s: State, w: WorkerId) {
    Live(s, w) && Holds(s, w) && s.workers[w].wasLeader
  }

  predicate IsActiveOf(s: State, id: JobId, w: WorkerId) {
    id in s.db.jobs && s.db.jobs[id].status.Active() && s.db.jobs[id].claimedBy == Some(w)
  }

  predicate IsActiveOfOther(s: State, id: JobId, w: WorkerId) {
    id in s.db.jobs && s.db.jobs[id].status.Active() && s.db.jobs[id].claimedBy != Some(w)
  }

  /** The job is active and its claimant is dead. */
  predicate IsOrphan(s: State, id: JobId) {
    && id in s.db.jobs && s.db.jobs[id].status.Active() && s.db.jobs[id].claimedBy.Some?
    && s.db.jobs[id].claimedBy.value in s.workers && !Live(s, s.db.jobs[id].claimedBy.value)
  }

  /** The lease goes to a worker that has lost it, and whose `_was_leader` is still set: recovery is skipped. */
  predicate Regains(s: State, e: Step)
    requires Enabled(s, e)
  {
    Grants(s, e) && !Holds(s, e.w) && s.workers[e.w].wasLeader
  }

  // No orphan under a leader

  ghost predicate OrphansAreRecovered(s: State) {
    forall w, id :: Settled(s, w) ==> !IsOrphan(s, id)
  }

  /** The lease is regained over an orphan, or a worker dies on its job while another one leads. */
  ghost predicate LeavesOrphan(s: State, e: Step)
    requires Enabled(s, e)
  {
    || (Regains(s, e) && exists id :: IsOrphan(s, id))
    || (e.Crash? && exists v, id :: v != e.w && Settled(s, v) && IsActiveOf(s, id, e.w))
  }

  lemma JobKeepsOrphans(s: State, e: Step, id: JobId)
    requires Inv(s) && Enabled(s, e) && e.JobStep?
    ensures IsOrphan(After(s, e), id) <==> IsOrphan(s, id)
  {
    JobStepFrame(s, e);
    assert PcOk(s, e.w);
    assert id in s.db.jobs ==> RowFits(s, id);
  }

  lemma CycleOrphans(s: State, e: Step, id: JobId)
    requires Inv(s) && Enabled(s, e) && e.CycleStep?
    ensures IsOrphan(After(s, e), id) <==> IsOrphan(s, id) && !e.cycle.Recover?
  {
    assert id in s.db.jobs ==> RowFits(s, id);
  }

  lemma OtherOrphans(s: State, e: Step, id: JobId)
    requires Inv(s) && Enabled(s, e) && !e.JobStep? && !e.CycleStep?
    ensures IsOrphan(After(s, e), id) <==> IsOrphan(s, id) || (e.Crash? && IsActiveOf(s, id, e.w))
  {
    assert id in s.db.jobs ==> RowFits(s, id);
  }

  /** Who is settled after a step: whoever was and keeps the lease, the worker that recovers, or that regains it. */
  lemma SettledAfter(s: State, e: Step, w: WorkerId)
    requires Inv(s) && Enabled(s, e)
    ensures Settled(After(s, e), w) ==>
      || Settled(s, w)
      || (e.CycleStep? && e.cycle.Recover? && e.w == w)
      || (Regains(s, e) && e.w == w)
    ensures Regains(s, e) ==> Settled(After(s, e), e.w)
    ensures !Asks(e) && !(e.Crash? && e.w == w) && Settled(s, w) ==> Settled(After(s, e), w)
  {
  }

  /** Exactly which steps of any interleaving leave an orphan under a leader that will not recover it. */
  lemma OrphansAreRecoveredExactly(s: State, e: Step)
    requires Inv(s) && OrphansAreRecovered(s) && Enabled(s, e)
    ensures OrphansAreRecovered(After(s, e)) <==> !LeavesOrphan(s, e)
  {
    var s' := After(s, e);
    forall id ensures IsOrphan(s', id) <==>
      (IsOrphan(s, id) && !(e.CycleStep? && e.cycle.Recover?)) || (e.Crash? && IsActiveOf(s, id, e.w))
    {
      match e
      case JobStep(_, _) => JobKeepsOrphans(s, e, id);
      case CycleStep(_, _) => CycleOrphans(s, e, id);
      case _ => OtherOrphans(s, e, id);
    }
    forall w ensures Settled(s', w) ==>
      Settled(s, w) || (e.CycleStep? && e.cycle.Recover? && e.w == w) || (Regains(s, e) && e.w == w)
    {
      SettledAfter(s, e, w);
    }
    if Regains(s, e) && exists id :: IsOrphan(s, id) {
      var id :| IsOrphan(s, id);
      SettledAfter(s, e, e.w);
      assert IsOrphan(s', id) && Settled(s', e.w);
    } else if e.Crash? && exists v, id :: v != e.w && Settled(s, v) && IsActiveOf(s, id, e.w) {
      var v, id :| v != e.w && Settled(s, v) && IsActiveOf(s, id, e.w);
      SettledAfter(s, e, v);
      assert IsOrphan(s', id) && Settled(s', v);
    } else if e.Crash? {
      assert !Settled(s', e.w);
    }
  }

  ghost predicate LeavesNoOrphan(states: seq<State>, steps: seq<Step>, n: nat)
    requires IsRun(states, steps) && n <= |steps|
  {
    forall i :: 0 <= i < n ==> !LeavesOrphan(states[i], steps[i])
  }

  /** A whole run leaves no orphan under a leader exactly if none of its steps does. */
  lemma {:induction false} NoOrphanUnderLeaders(states: seq<State>, steps: seq<Step>, n: nat)
    requires IsRun(states, steps) && n <= |steps|
    ensures (forall i :: 0 <= i <= n ==> OrphansAreRecovered(states[i])) <==> LeavesNoOrphan(states, steps, n)
  {
    if n == 0 {
    } else {
      var s, e := states[n - 1], steps[n - 1];
      NoOrphanUnderLeaders(states, steps, n - 1);
      Reachable(states, steps, n - 1);
      assert states[n] == After(s, e);
      if OrphansAreRecovered(s) {
        OrphansAreRecoveredExactly(s, e);
      }
      assert LeavesNoOrphan(states, steps, n) <==> LeavesNoOrphan(states, steps, n - 1) && !LeavesOrphan(s, e);
    }
  }

  /** A worker looking for work, or on a job, takes itself to have been through recovery. */
  ghost predicate PastRecovery(s: State) {
    forall w :: Busy(s, w) && !s.workers[w].pc.Recovering? ==> s.workers[w].wasLeader
  }

  lemma {:induction false} WorkersArePastRecovery(states: seq<State>, steps: seq<Step>, i: nat)
    requires IsRun(states, steps) && i < |states|
    ensures PastRecovery(states[i])
  {
    if i == 0 {
    } else {
      WorkersArePastRecovery(states, steps, i - 1);
      StepKeepsPastRecovery(states[i - 1], steps[i - 1]);
    }
  }

  lemma StepKeepsPastRecovery(s: State, e: Step)
    requires PastRecovery(s) && Enabled(s, e)
    ensures PastRecovery(After(s, e))
  {
  }

  /** In such a run a lease holder that goes on to claim a job finds no orphan, whether or not it recovered any. */
  lemma ClaimersFindNoOrphan(states: seq<State>, steps: seq<Step>, i: nat, w: WorkerId, id: JobId)
    requires IsRun(states, steps) && i <= |steps| && LeavesNoOrphan(states, steps, i)
    requires Live(states[i], w) && Holds(states[i], w)
    requires states[i].workers[w].pc.Selecting? || states[i].workers[w].pc.Claiming?
    ensures !IsOrphan(states[i], id)
  {
    NoOrphanUnderLeaders(states, steps, i);
    WorkersArePastRecovery(states, steps, i);
    assert Busy(states[i], w);
    assert Settled(states[i], w);
  }

  // Every active job the leader's own

  ghost predicate LeaderOwns(s: State) {
    forall w, id :: Settled(s, w) ==> !IsActiveOfOther(s, id, w)
  }

  /** The step makes a job active: a claim, or a worker parking or resuming a job that was ended under it. */
  predicate Activates(s: State, e: Step)
    requires Enabled(s, e)
  {
    match e
    case CycleStep(w, move) => move.ClaimSelected? && HasStatus(s.db, s.workers[w].pc.job, Status.Pending)
    case JobStep(w, move) =>
      var id := s.workers[w].pc.job;
      && id in s.db.jobs && s.db.jobs[id].status.Terminal()
      && (move.Park? || (move.PollTake? && s.db.jobs[id].submitted.Some?))
    case _ => false
  }

  /** The lease is regained while somebody else's job is active. */
  ghost predicate SkipsRecovery(s: State, e: Step)
    requires Enabled(s, e)
  {
    Regains(s, e) && exists id :: IsActiveOfOther(s, id, e.w)
  }

  /** A worker that has lost the lease makes a job active under the one that has it. */
  ghost predicate Intrudes(s: State, e: Step)
    requires Enabled(s, e)
  {
    Activates(s, e) && exists v :: v != e.w && Settled(s, v)
  }

  lemma JobActivates(s: State, e: Step, id: JobId, w: WorkerId)
    requires Inv(s) && Enabled(s, e) && e.JobStep?
    ensures IsActiveOfOther(After(s, e), id, w) ==>
      IsActiveOfOther(s, id, w) || (Activates(s, e) && s.workers[e.w].pc.job == id && e.w != w)
    ensures Activates(s, e) && e.w != w ==> IsActiveOfOther(After(s, e), s.workers[e.w].pc.job, w)
  {
    JobStepFrame(s, e);
    assert PcOk(s, e.w);
    assert id in s.db.jobs ==> RowFits(s, id);
  }

  lemma OtherActivates(s: State, e: Step, id: JobId, w: WorkerId)
    requires Inv(s) && Enabled(s, e) && !e.JobStep?
    ensures IsActiveOfOther(After(s, e), id, w) ==>
      IsActiveOfOther(s, id, w) || (Activates(s, e) && s.workers[e.w].pc.job == id && e.w != w)
    ensures Activates(s, e) && e.w != w ==> IsActiveOfOther(After(s, e), s.workers[e.w].pc.job, w)
    ensures e.CycleStep? && e.cycle.Recover? && IsActiveOfOther(After(s, e), id, w) ==>
      w != e.w && IsActiveOf(s, id, e.w)
    ensures Asks(e) && IsActiveOfOther(s, id, w) ==> IsActiveOfOther(After(s, e), id, w)
  {
    assert id in s.db.jobs ==> RowFits(s, id);
  }

  /** Exactly which steps of any interleaving make an active job of another worker's face the leader. */
  lemma LeaderOwnsExactly(s: State, e: Step)
    requires Inv(s) && LeaderOwns(s) && Enabled(s, e)
    ensures LeaderOwns(After(s, e)) <==> !(SkipsRecovery(s, e) || Intrudes(s, e))
  {
    var s' := After(s, e);
    if SkipsRecovery(s, e) {
      var id :| IsActiveOfOther(s, id, e.w);
      SettledAfter(s, e, e.w);
      RegainKeepsJobs(s, e);
      assert Settled(s', e.w) && IsActiveOfOther(s', id, e.w);
    } else if Intrudes(s, e) {
      var v :| v != e.w && Settled(s, v);
      var id := s.workers[e.w].pc.job;
      SettledAfter(s, e, v);
      if e.JobStep? {
        JobActivates(s, e, id, v);
      } else {
        OtherActivates(s, e, id, v);
      }
      assert Settled(s', v) && IsActiveOfOther(s', id, v);
    } else {
      forall w, id | Settled(s', w) ensures !IsActiveOfOther(s', id, w) {
        StepKeepsOwning(s, e, w, id);
      }
    }
  }

  lemma RegainKeepsJobs(s: State, e: Step)
    requires Enabled(s, e) && Regains(s, e)
    ensures After(s, e).db.jobs == s.db.jobs
  {
  }

  lemma StepKeepsOwning(s: State, e: Step, w: WorkerId, id: JobId)
    requires Inv(s) && LeaderOwns(s) && Enabled(s, e) && !SkipsRecovery(s, e) && !Intrudes(s, e)
    requires Settled(After(s, e), w)
    ensures !IsActiveOfOther(After(s, e), id, w)
  {
    SettledAfter(s, e, w);
    if e.JobStep? {
      JobActivates(s, e, id, w);
    } else {
      OtherActivates(s, e, id, w);
    }
  }

  ghost predicate KeepsOwning(states: seq<State>, steps: seq<Step>, n: nat)
    requires IsRun(states, steps) && n <= |steps|
  {
    forall i :: 0 <= i < n ==> !SkipsRecovery(states[i], steps[i]) && !Intrudes(states[i], steps[i])
  }

  /** Over a whole run, the leader owns every active job exactly if no step skips recovery or intrudes. */
  lemma {:induction false} LeadersOwn(states: seq<State>, steps: seq<Step>, n: nat)
    requires IsRun(states, steps) && n <= |steps|
    ensures (forall i :: 0 <= i <= n ==> LeaderOwns(states[i])) <==> KeepsOwning(states, steps, n)
  {
    if n == 0 {
    } else {
      var s, e := states[n - 1], steps[n - 1];
      LeadersOwn(states, steps, n - 1);
      Reachable(states, steps, n - 1);
      assert states[n] == After(s, e);
      if LeaderOwns(s) {
        LeaderOwnsExactly(s, e);
      }
      assert KeepsOwning(states, steps, n) <==>
        KeepsOwning(states, steps, n - 1) && !SkipsRecovery(s, e) && !Intrudes(s, e);
    }
  }
}
