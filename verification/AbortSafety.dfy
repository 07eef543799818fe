/**
  Cooperative abort, in every interleaving: the flag reaches the importer at its next read, so at most the one task
  that had already been let in can still be answered.
 */
module AbortSafety {
  import opened ImportJobs
  import opened StoreSpec
  import opened ImportProtocol
  import opened ProtocolInvariant

  /** The answer `_choose` gave to a task it had let in. */
  predicate IsReply(event: Event, id: JobId) {
    event.job == id && (event.Answered? || event.Taken?)
  }

  predicate IsTaskEvent(event: Event, id: JobId) {
    IsReply(event, id) || event == Admitted(id) || event == Refused(id)
  }

  /** At position `n`, `task` is the task of `id` in hand: let in before any abort, and not yet answered. */
  predicate InHand(log: seq<Event>, id: JobId, task: nat, n: nat)
    requires n <= |log|
  {
    && task < n
    && log[task] == Admitted(id)
    && (forall m :: 0 <= m < task ==> log[m] != AbortFlagged(id))
    && (forall m :: task < m < n ==> !IsTaskEvent(log[m], id))
  }

  predicate EventOk(log: seq<Event>, k: nat)
    requires k < |log|
  {
    var event := log[k];
    && (event.Answered? || event.Taken? ==> InHand(log, event.job, event.task, k))
    && (event.Admitted? ==> AbortFlagged(event.job) !in log[..k])
    && (event.Concluded? ==> event.status == if AbortFlagged(event.job) in log[..k] then Aborted else Completed)
  }

  ghost predicate TaskOk(s: State, w: WorkerId)
    requires w in s.workers
  {
    var pc := s.workers[w].pc;
    pc.OnJob? && pc.stage.InTask() ==> InHand(s.log, pc.job, pc.stage.task, |s.log|)
  }

  ghost predicate AbortOk(s: State) {
    && (forall id :: AbortRequested(s.db, id) <==> AbortFlagged(id) in s.log)
    && (forall w :: w in s.workers ==> TaskOk(s, w))
    && (forall k :: 0 <= k < |s.log| ==> EventOk(s.log, k))
  }

  lemma InHandExtends(log: seq<Event>, event: Event, id: JobId, task: nat)
    requires InHand(log, id, task, |log|) && !IsTaskEvent(event, id)
    ensures InHand(log + [event], id, task, |log| + 1)
  {
  }

  lemma StepKeepsFlags(s: State, e: Step)
    requires AbortOk(s) && Enabled(s, e)
    ensures forall id :: AbortRequested(After(s, e).db, id) <==> AbortFlagged(id) in After(s, e).log
  {
    assert After(s, e).log == Extended(s.log, EventOf(s, e));
  }

  lemma StepKeepsTask(s: State, e: Step, w: WorkerId)
    requires Inv(s) && AbortOk(s) && Enabled(s, e) && w in s.workers
    requires !(e.JobStep? && e.w == w)
    ensures TaskOk(After(s, e), w)
  {
    var pc := After(s, e).workers[w].pc;
    assert After(s, e).log == Extended(s.log, EventOf(s, e));
    if pc.OnJob? && pc.stage.InTask() {
      assert s.workers[w].pc == pc && TaskOk(s, w) && PcOk(s, w);
      if EventOf(s, e).Some? {
        if e.JobStep? {
          JobStepFrame(s, e);
          assert PcOk(s, e.w);
        }
        InHandExtends(s.log, EventOf(s, e).value, pc.job, pc.stage.task);
      }
    }
  }

  lemma OwnStepKeepsTask(s: State, e: Step)
    requires Inv(s) && AbortOk(s) && Enabled(s, e) && e.JobStep?
    ensures TaskOk(After(s, e), e.w)
  {
    var pc, pc' := s.workers[e.w].pc, After(s, e).workers[e.w].pc;
    assert TaskOk(s, e.w);
    assert After(s, e).log == Extended(s.log, EventOf(s, e));
    if pc'.OnJob? && pc'.stage.InTask() && EventOf(s, e).Some? && pc.stage.InTask() {
      InHandExtends(s.log, EventOf(s, e).value, pc.job, pc.stage.task);
    }
  }

  lemma StepLogsWell(s: State, e: Step)
    requires Inv(s) && AbortOk(s) && Enabled(s, e) && EventOf(s, e).Some?
    ensures EventOk(s.log + [EventOf(s, e).value], |s.log|)
  {
    var event := EventOf(s, e).value;
    var log := s.log + [event];
    assert log[..|s.log|] == s.log;
    if e.JobStep? {
      assert TaskOk(s, e.w);
    }
  }

  lemma StepKeepsAbort(s: State, e: Step)
    requires Inv(s) && AbortOk(s) && Enabled(s, e)
    ensures AbortOk(After(s, e))
  {
    var s' := After(s, e);
    StepKeepsFlags(s, e);
    forall w | w in s'.workers ensures TaskOk(s', w) {
      if e.JobStep? && e.w == w {
        OwnStepKeepsTask(s, e);
      } else if w in s.workers {
        StepKeepsTask(s, e, w);
      }
    }
    assert s'.log == Extended(s.log, EventOf(s, e));
    forall k | 0 <= k < |s'.log| ensures EventOk(s'.log, k) {
      if k < |s.log| {
        assert EventOk(s.log, k);
        assert s'.log[..k] == s.log[..k];
      } else {
        StepLogsWell(s, e);
      }
    }
  }

  lemma {:induction false} AbortHolds(states: seq<State>, steps: seq<Step>, i: nat)
    requires IsRun(states, steps) && i < |states|
    ensures AbortOk(states[i])
  {
    if i == 0 {
    } else {
      AbortHolds(states, steps, i - 1);
      Reachable(states, steps, i - 1);
      StepKeepsAbort(states[i - 1], steps[i - 1]);
    }
  }

  /**
    Once a job's abort is flagged, at most one more task of its stream is answered at all, and that one had been
    let in before the flag; every other task is refused, which importers see as SKIP.
   */
  lemma AtMostOneReplyAfterAbort(states: seq<State>, steps: seq<Step>, f: nat, i: nat, k: nat, id: JobId)
    requires IsRun(states, steps)
    requires f < i < |states[|steps|].log| && f < k < |states[|steps|].log|
    requires states[|steps|].log[f] == AbortFlagged(id)
    requires IsReply(states[|steps|].log[i], id) && IsReply(states[|steps|].log[k], id)
    ensures i == k
    ensures states[|steps|].log[k].task < f && states[|steps|].log[states[|steps|].log[k].task] == Admitted(id)
  {
    var log := states[|steps|].log;
    AbortHolds(states, steps, |steps|);
    assert EventOk(log, i) && EventOk(log, k);
    assert IsTaskEvent(log[i], id) && IsTaskEvent(log[k], id);
  }

  /** Once a job's abort is flagged no task of its stream is let in: `_choose` refuses every one that comes after. */
  lemma NobodyLetInAfterAbort(states: seq<State>, steps: seq<Step>, f: nat, k: nat, id: JobId)
    requires IsRun(states, steps)
    requires f < k < |states[|steps|].log| && states[|steps|].log[f] == AbortFlagged(id)
    ensures states[|steps|].log[k] != Admitted(id)
  {
    var log := states[|steps|].log;
    AbortHolds(states, steps, |steps|);
    assert EventOk(log, k) && log[..k][f] == AbortFlagged(id);
  }

  /** COMPLETED is chosen exactly when no abort had been flagged by the final read. */
  lemma CompletedOnlyIfUnflagged(states: seq<State>, steps: seq<Step>, k: nat)
    requires IsRun(states, steps)
    requires k < |states[|steps|].log| && states[|steps|].log[k].Concluded?
    ensures var log := states[|steps|].log;
      && (log[k].status == Completed <==> AbortFlagged(log[k].job) !in log[..k])
      && (log[k].status == Aborted <==> AbortFlagged(log[k].job) in log[..k])
  {
    AbortHolds(states, steps, |steps|);
    assert EventOk(states[|steps|].log, k);
  }

  // The status in the row

  predicate Concludes(status: Status) {
    status.Completed? || status.Aborted?
  }

  ghost predicate RowConcluded(s: State, id: JobId) {
    id in s.db.jobs && Concludes(s.db.jobs[id].status) ==> Concluded(id, s.db.jobs[id].status) in s.log
  }

  ghost predicate PcConcluded(s: State, w: WorkerId)
    requires w in s.workers
  {
    var pc := s.workers[w].pc;
    pc.OnJob? && pc.stage.Finalizing? && Concludes(pc.stage.status) ==> Concluded(pc.job, pc.stage.status) in s.log
  }

  ghost predicate ConcludedOk(s: State) {
    (forall id :: RowConcluded(s, id)) && (forall w :: w in s.workers ==> PcConcluded(s, w))
  }

  lemma StepKeepsRowConcluded(s: State, e: Step, id: JobId)
    requires ConcludedOk(s) && Enabled(s, e)
    ensures RowConcluded(After(s, e), id)
  {
    assert RowConcluded(s, id);
    assert After(s, e).log == Extended(s.log, EventOf(s, e));
    if e.JobStep? {
      JobStepFrame(s, e);
      assert PcConcluded(s, e.w);
    }
  }

  lemma StepKeepsPcConcluded(s: State, e: Step, w: WorkerId)
    requires ConcludedOk(s) && Enabled(s, e) && w in After(s, e).workers
    ensures PcConcluded(After(s, e), w)
  {
    assert w in s.workers ==> PcConcluded(s, w);
    assert After(s, e).log == Extended(s.log, EventOf(s, e));
    if e.JobStep? && e.move.FinalRead? && e.w == w {
      assert After(s, e).log[|s.log|] == EventOf(s, e).value;
    }
  }

  lemma {:induction false} ConcludedHolds(states: seq<State>, steps: seq<Step>, i: nat)
    requires IsRun(states, steps) && i < |states|
    ensures ConcludedOk(states[i])
  {
    if i == 0 {
    } else {
      var s, e := states[i - 1], steps[i - 1];
      ConcludedHolds(states, steps, i - 1);
      forall id ensures RowConcluded(states[i], id) {
        StepKeepsRowConcluded(s, e, id);
      }
      forall w | w in states[i].workers ensures PcConcluded(states[i], w) {
        StepKeepsPcConcluded(s, e, w);
      }
    }
  }

  /**
    A row says COMPLETED only if its worker's final read found no abort flagged, and ABORTED only if it found one, in
    every interleaving.
   */
  lemma StoredStatusFollowsTheFlag(states: seq<State>, steps: seq<Step>, id: JobId)
    requires IsRun(states, steps)
    requires id in states[|steps|].db.jobs && Concludes(states[|steps|].db.jobs[id].status)
    ensures var log, status := states[|steps|].log, states[|steps|].db.jobs[id].status;
      exists k :: (
        && 0 <= k < |log| && log[k] == Concluded(id, status)
        && (status == Completed <==> AbortFlagged(id) !in log[..k])
        && (status == Aborted <==> AbortFlagged(id) in log[..k]))
  {
    ConcludedHolds(states, steps, |steps|);
    var log := states[|steps|].log;
    assert RowConcluded(states[|steps|], id);
    var k :| 0 <= k < |log| && log[k] == Concluded(id, states[|steps|].db.jobs[id].status);
    CompletedOnlyIfUnflagged(states, steps, k);
  }

  // A parked request under abort

  /** Worker `w` is inside the request it parked at `park`. */
  ghost predicate ParkedAt(s: State, w: WorkerId, park: nat) {
    w in s.workers && s.workers[w].pc.OnJob? && s.workers[w].pc.stage.Parked() && s.workers[w].pc.stage.park == park
  }

  predicate IsPoll(e: Step, w: WorkerId) {
    e.JobStep? && e.w == w && (e.move.PollRead? || e.move.PollTake? || e.move.PollAbort?)
  }

  /** The statements left in the polling round. */
  function RoundLeft(stage: Stage): nat {
    if stage.Polling? then 3 else if stage.Taking? then 2 else if stage.AbortCheck? then 1 else 0
  }

  function Polls(steps: seq<Step>, w: WorkerId): nat {
    if steps == [] then 0
    else Polls(steps[..|steps| - 1], w) + if IsPoll(steps[|steps| - 1], w) then 1 else 0
  }

  lemma {:induction false} PollsStep(steps: seq<Step>, i: nat, k: nat, w: WorkerId)
    requires i < k <= |steps|
    ensures Polls(steps[i..k], w) == Polls(steps[i..k - 1], w) + if IsPoll(steps[k - 1], w) then 1 else 0
  {
    assert steps[i..k][..k - 1 - i] == steps[i..k - 1];
  }

  lemma FlagStays(states: seq<State>, steps: seq<Step>, i: nat, k: nat, id: JobId, park: nat)
    requires IsRun(states, steps) && i <= k < |states|
    requires park < |states[i].log| && AbortRequested(states[i].db, id)
    ensures park < |states[k].log| && AbortRequested(states[k].db, id)
  {
    HistoryOnlyGrows(states, steps, i, k);
  }

  /** Requests are labelled afresh, so one that has been left is not entered again. */
  lemma ParkIsFresh(s: State, e: Step, w: WorkerId, park: nat)
    requires Enabled(s, e) && park < |s.log| && ParkedAt(After(s, e), w, park)
    ensures ParkedAt(s, w, park)
    ensures s.workers[w].pc.job == After(s, e).workers[w].pc.job
    ensures AbortRequested(s.db, s.workers[w].pc.job) ==>
      RoundLeft(After(s, e).workers[w].pc.stage) + (if IsPoll(e, w) then 1 else 0) <= RoundLeft(s.workers[w].pc.stage)
  {
  }

  /** One step of a run, seen from a request that is still open afterwards. */
  lemma StepUsesUpTheRound(states: seq<State>, steps: seq<Step>, i: nat, k: nat, w: WorkerId, park: nat)
    requires IsRun(states, steps) && i <= k < |steps|
    requires park < |states[i].log| && ParkedAt(states[i], w, park)
    requires AbortRequested(states[i].db, states[i].workers[w].pc.job)
    requires ParkedAt(states[k + 1], w, park)
    ensures ParkedAt(states[k], w, park)
    ensures states[k].workers[w].pc.job == states[k + 1].workers[w].pc.job
    ensures states[k].workers[w].pc.job == states[i].workers[w].pc.job ==>
      RoundLeft(states[k + 1].workers[w].pc.stage) + (if IsPoll(steps[k], w) then 1 else 0)
      <= RoundLeft(states[k].workers[w].pc.stage)
  {
    FlagStays(states, steps, i, k, states[i].workers[w].pc.job, park);
    ParkIsFresh(states[k], steps[k], w, park);
  }

  /**
    A worker parked on a job whose abort is flagged is out of the request after at most three more statements of its
    own polling, the end of its next round, whatever the others do meanwhile.
   */
  lemma {:induction false} ParkedRequestReturns(
      states: seq<State>, steps: seq<Step>, i: nat, k: nat, w: WorkerId, park: nat)
    requires IsRun(states, steps) && i <= k < |states|
    requires park < |states[i].log| && ParkedAt(states[i], w, park)
    requires AbortRequested(states[i].db, states[i].workers[w].pc.job)
    requires ParkedAt(states[k], w, park)
    ensures Polls(steps[i..k], w) + RoundLeft(states[k].workers[w].pc.stage)
         <= RoundLeft(states[i].workers[w].pc.stage)
    ensures Polls(steps[i..k], w) < 3
    ensures states[k].workers[w].pc.job == states[i].workers[w].pc.job
    decreases k
  {
    if i == k {
    } else {
      StepUsesUpTheRound(states, steps, i, k - 1, w, park);
      ParkedRequestReturns(states, steps, i, k - 1, w, park);
      PollsStep(steps, i, k, w);
    }
  }
}
