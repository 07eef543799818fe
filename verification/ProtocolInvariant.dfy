/**
  What holds in every interleaving of the protocol, whether or not stale workers keep running.
 */
module ProtocolInvariant {
  import opened Wrappers
  import opened ImportJobs
  import opened StoreSpec
  import opened ImportProtocol

  /** What the columns of one row say about each other. */
  predicate RowOk(id: JobId, row: Job) {
    && (row.pending.Some? <==> row.status.AwaitingDecision?)
    && (row.pending.Some? ==> row.pending.value.jobId == id)
    && (row.status.Pending? || row.status.Running? ==> row.submitted.None?)
    && (row.claimedBy.None? <==> row.status.Pending?)
  }

  ghost predicate RowsOk(s: State) {
    forall id :: id in s.db.jobs ==>
      RowFits(s, id)
  }

  /** A worker that is on a job is the job's claimant. */
  ghost predicate PcOk(s: State, w: WorkerId)
    requires w in s.workers
  {
    var pc := s.workers[w].pc;
    && (pc.Claiming? ==> pc.job in s.db.jobs)
    && (pc.OnJob? ==> pc.job in s.db.jobs && s.db.jobs[pc.job].claimedBy == Some(w))
    && (pc.OnJob? && pc.stage.Finalizing? ==> pc.stage.status.Terminal() && 1 <= pc.stage.attempt <= FINALIZE_ATTEMPTS)
  }

  ghost predicate WorkersOk(s: State) {
    && (forall w :: w in s.workers ==> PcOk(s, w))
    && (s.workers != map[] ==> s.db.lock.Some?)
  }

  ghost predicate Inv(s: State) {
    RowsOk(s) && WorkersOk(s)
  }

  /** Every successful claim is in the log, and a job has at most one. */
  ghost predicate ClaimsOk(s: State) {
    && (forall k :: 0 <= k < |s.log| && s.log[k].Claimed? ==>
          s.log[k].job in s.db.jobs && s.db.jobs[s.log[k].job].claimedBy == Some(s.log[k].worker))
    && (forall k, m :: 0 <= k < m < |s.log| && s.log[k].Claimed? && s.log[m].Claimed? ==> s.log[k].job != s.log[m].job)
    && (forall id :: id in s.db.jobs && s.db.jobs[id].claimedBy.Some? ==>
          Claimed(id, s.db.jobs[id].claimedBy.value) in s.log)
  }

  /** The step is a claim whose guarded UPDATE finds its row still PENDING. */
  predicate Claims(s: State, e: Step) {
    && e.CycleStep? && e.cycle.ClaimSelected?
    && Live(s, e.w) && s.workers[e.w].pc.Claiming?
    && HasStatus(s.db, s.workers[e.w].pc.job, Status.Pending)
  }

  /** A worker on a job touches that job's row only, and logs events of that job only. */
  lemma JobStepFrame(s: State, e: Step)
    requires Enabled(s, e) && e.JobStep?
    ensures var id, s' := s.workers[e.w].pc.job, After(s, e);
      && s'.db.jobs.Keys == s.db.jobs.Keys
      && (forall other :: other in s.db.jobs && other != id ==> s'.db.jobs[other] == s.db.jobs[other])
      && (EventOf(s, e).Some? ==> EventOf(s, e).value.job == id)
      && s'.workers == s.workers[e.w := s'.workers[e.w]]
      && s'.log == Extended(s.log, EventOf(s, e))
      && (s'.workers[e.w].pc.OnJob? ==> s'.workers[e.w].pc.job == id)
  {
  }

  ghost predicate RowFits(s: State, id: JobId)
    requires id in s.db.jobs
  {
    RowOk(id, s.db.jobs[id])
    && (s.db.jobs[id].claimedBy.Some? ==> s.db.jobs[id].claimedBy.value in s.workers)
  }

  lemma StepKeepsRow(s: State, e: Step, id: JobId)
    requires Inv(s) && Enabled(s, e) && id in After(s, e).db.jobs
    ensures RowFits(After(s, e), id)
  {
    assert id in s.db.jobs ==> RowFits(s, id);
    if e.JobStep? {
      JobStepFrame(s, e);
      assert PcOk(s, e.w);
    }
  }

  lemma StepKeepsRows(s: State, e: Step)
    requires Inv(s) && Enabled(s, e)
    ensures RowsOk(After(s, e))
  {
    forall id | id in After(s, e).db.jobs ensures RowFits(After(s, e), id) {
      StepKeepsRow(s, e, id);
    }
  }

  /** What a worker's own move leaves it at. */
  lemma OwnPc(s: State, e: Step)
    requires Enabled(s, e) && e.JobStep? && PcOk(s, e.w)
    ensures e.w in After(s, e).workers
    ensures var pc, pc' := s.workers[e.w].pc, After(s, e).workers[e.w].pc;
      && !pc'.Claiming?
      && (pc'.OnJob? ==> pc'.job == pc.job)
      && (pc'.OnJob? && pc'.stage.Finalizing? ==>
            pc'.stage.status.Terminal() && 1 <= pc'.stage.attempt <= FINALIZE_ATTEMPTS)
  {
  }

  lemma JobKeepsPc(s: State, e: Step, w: WorkerId)
    requires Inv(s) && Enabled(s, e) && e.JobStep? && w in After(s, e).workers
    ensures PcOk(After(s, e), w)
  {
    JobStepFrame(s, e);
    assert PcOk(s, w) && PcOk(s, e.w);
    JobExtendsRow(s, e, s.workers[e.w].pc.job);
    OwnPc(s, e);
    if w != e.w {
      assert After(s, e).workers[w] == s.workers[w];
    }
  }

  lemma OtherKeepsPc(s: State, e: Step, w: WorkerId)
    requires Inv(s) && Enabled(s, e) && !e.JobStep? && w in After(s, e).workers
    ensures PcOk(After(s, e), w)
  {
    assert w in s.workers ==> PcOk(s, w);
  }

  lemma StepKeepsWorkers(s: State, e: Step)
    requires Inv(s) && Enabled(s, e)
    ensures WorkersOk(After(s, e))
  {
    forall w | w in After(s, e).workers ensures PcOk(After(s, e), w) {
      if e.JobStep? {
        JobKeepsPc(s, e, w);
      } else {
        OtherKeepsPc(s, e, w);
      }
    }
  }

  lemma StepKeepsClaims(s: State, e: Step)
    requires Inv(s) && ClaimsOk(s) && Enabled(s, e)
    ensures ClaimsOk(After(s, e))
  {
    if e.CycleStep? {
      CycleKeepsClaims(s, e);
    } else {
      OnlyCyclesClaim(s, e);
    }
  }

  /** Only the leader cycle writes a claimant or logs a claim. */
  lemma OnlyCyclesClaim(s: State, e: Step)
    requires Enabled(s, e) && !e.CycleStep?
    ensures s.log <= After(s, e).log
    ensures forall k :: |s.log| <= k < |After(s, e).log| ==> !After(s, e).log[k].Claimed?
    ensures s.db.jobs.Keys <= After(s, e).db.jobs.Keys
    ensures forall id :: id in After(s, e).db.jobs ==>
      After(s, e).db.jobs[id].claimedBy == if id in s.db.jobs then s.db.jobs[id].claimedBy else None
  {
  }

  lemma CycleKeepsClaims(s: State, e: Step)
    requires Inv(s) && ClaimsOk(s) && Enabled(s, e) && e.CycleStep?
    ensures ClaimsOk(After(s, e))
  {
    var s' := After(s, e);
    forall id | id in s'.db.jobs && s'.db.jobs[id].claimedBy.Some?
      ensures Claimed(id, s'.db.jobs[id].claimedBy.value) in s'.log
    {
      if s.db.jobs[id].claimedBy.Some? {
        assert Claimed(id, s.db.jobs[id].claimedBy.value) in s.log;
      } else {
        assert s'.log[|s.log|] == Claimed(id, s'.db.jobs[id].claimedBy.value);
      }
    }
  }

  /** What a row keeps of itself. */
  predicate RowExtends(row: Job, row': Job) {
    && row'.settings == row.settings
    && row'.createdAt == row.createdAt
    && (row.claimedBy.Some? ==> row'.claimedBy == row.claimedBy)
    && (row.abortRequested ==> row'.abortRequested)
    && (row'.status.Pending? ==> row.status.Pending?)
  }

  ghost predicate RowsExtend(s: State, s': State) {
    forall id :: id in s.db.jobs ==> id in s'.db.jobs && RowExtends(s.db.jobs[id], s'.db.jobs[id])
  }

  ghost predicate WorkersExtend(s: State, s': State) {
    forall w :: w in s.workers ==>
      && w in s'.workers
      && (s.workers[w].pc.Dead? ==> s'.workers[w].pc.Dead?)
      && s.workers[w].lastReading <= s'.workers[w].lastReading
  }

  /** What a later state keeps of an earlier one. */
  ghost predicate Extends(s: State, s': State) {
    s.log <= s'.log && s.clock <= s'.clock && RowsExtend(s, s') && WorkersExtend(s, s')
  }

  /** What a worker can have done to the row of its job. */
  predicate RowChanges(row: Job, row': Job) {
    || row' == row
    || row' == row.(status := AwaitingDecision, pending := row'.pending, submitted := None)
    || row' == row.(status := Running, pending := None, submitted := None)
    || (row'.status.Terminal() && row' == row.(status := row'.status, pending := None, error := row'.error))
  }

  lemma JobChangesRow(s: State, e: Step)
    requires Enabled(s, e) && e.JobStep? && PcOk(s, e.w) && s.workers[e.w].pc.job in s.db.jobs
    ensures var id := s.workers[e.w].pc.job;
      id in After(s, e).db.jobs && RowChanges(s.db.jobs[id], After(s, e).db.jobs[id])
  {
  }

  lemma ChangesExtend(row: Job, row': Job)
    requires RowChanges(row, row')
    ensures RowExtends(row, row')
  {
  }

  lemma JobExtendsRow(s: State, e: Step, id: JobId)
    requires Inv(s) && Enabled(s, e) && e.JobStep? && id in s.db.jobs
    ensures id in After(s, e).db.jobs && RowExtends(s.db.jobs[id], After(s, e).db.jobs[id])
  {
    assert PcOk(s, e.w);
    if id == s.workers[e.w].pc.job {
      JobChangesRow(s, e);
      ChangesExtend(s.db.jobs[id], After(s, e).db.jobs[id]);
    } else {
      JobStepFrame(s, e);
    }
  }

  lemma OtherExtendsRow(s: State, e: Step, id: JobId)
    requires Inv(s) && Enabled(s, e) && !e.JobStep? && id in s.db.jobs
    ensures id in After(s, e).db.jobs && RowExtends(s.db.jobs[id], After(s, e).db.jobs[id])
  {
    assert RowOk(id, s.db.jobs[id]);
  }

  lemma StepExtendsWorkers(s: State, e: Step)
    requires Enabled(s, e)
    ensures WorkersExtend(s, After(s, e))
  {
  }

  lemma StepExtends(s: State, e: Step)
    requires Inv(s) && Enabled(s, e)
    ensures Extends(s, After(s, e))
  {
    forall id | id in s.db.jobs
      ensures id in After(s, e).db.jobs && RowExtends(s.db.jobs[id], After(s, e).db.jobs[id])
    {
      if e.JobStep? {
        JobExtendsRow(s, e, id);
      } else {
        OtherExtendsRow(s, e, id);
      }
    }
    StepExtendsWorkers(s, e);
    assert After(s, e).log == Extended(s.log, EventOf(s, e));
  }

  lemma ExtendsTransitive(a: State, b: State, c: State)
    requires Extends(a, b) && Extends(b, c)
    ensures Extends(a, c)
  {
  }

  /** The invariants hold in every state of every run. */
  lemma {:induction false} Reachable(states: seq<State>, steps: seq<Step>, i: nat)
    requires IsRun(states, steps) && i < |states|
    ensures Inv(states[i]) && ClaimsOk(states[i])
  {
    if i == 0 {
    } else {
      Reachable(states, steps, i - 1);
      StepKeepsRows(states[i - 1], steps[i - 1]);
      StepKeepsWorkers(states[i - 1], steps[i - 1]);
      StepKeepsClaims(states[i - 1], steps[i - 1]);
    }
  }

  /**
    Over any stretch of any run, no job disappears, its claimant is written once, its abort flag is never cleared,
    it never returns to PENDING, and a dead worker stays dead.
   */
  lemma {:induction false} HistoryOnlyGrows(states: seq<State>, steps: seq<Step>, i: nat, k: nat)
    requires IsRun(states, steps) && i <= k < |states|
    ensures Extends(states[i], states[k])
    decreases k
  {
    if i == k {
    } else {
      HistoryOnlyGrows(states, steps, i, k - 1);
      Reachable(states, steps, k - 1);
      StepExtends(states[k - 1], steps[k - 1]);
      ExtendsTransitive(states[i], states[k - 1], states[k]);
    }
  }

  /**
    In every interleaving: a request is stored exactly while the job awaits a decision, waiting and running jobs hold
    no answer, and every job that has left the queue names the started worker that claimed it, which recovery's
    `claimed_by != worker` relies on.
   */
  lemma RowsStayConsistent(states: seq<State>, steps: seq<Step>, i: nat, id: JobId)
    requires IsRun(states, steps) && i < |states| && id in states[i].db.jobs
    ensures var row := states[i].db.jobs[id];
      && (row.pending.Some? <==> row.status == AwaitingDecision)
      && (row.status == Status.Pending || row.status == Running ==> row.submitted.None?)
      && (row.claimedBy.None? <==> row.status == Status.Pending)
      && (row.claimedBy.Some? ==>
            row.claimedBy.value in states[i].workers && Claimed(id, row.claimedBy.value) in states[i].log)
  {
    Reachable(states, steps, i);
    assert RowOk(id, states[i].db.jobs[id]);
  }

  /** No job is successfully claimed twice, in any interleaving. */
  lemma ClaimedAtMostOnce(states: seq<State>, steps: seq<Step>, k: nat, m: nat)
    requires IsRun(states, steps)
    requires k < |states[|steps|].log| && m < |states[|steps|].log|
    requires states[|steps|].log[k].Claimed? && states[|steps|].log[m].Claimed?
    requires states[|steps|].log[k].job == states[|steps|].log[m].job
    ensures k == m
  {
    Reachable(states, steps, |steps|);
  }
}
