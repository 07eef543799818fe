/**
  What the requests of the web processes do in the protocol, told from the rows alone: which jobs an abort reaches,
  which answers are accepted, and what a job that is aborted while it waits can still come to.
 */
module ClientSteps {
  import opened Wrappers
  import opened ImportJobs
  import opened StoreSpec
  import opened ImportProtocol
  import opened ProtocolInvariant
  import opened AbortSafety

  predicate OtherRowsStay(s: State, s': State, id: JobId) {
    s'.db.lock == s.db.lock && s'.db.jobs.Keys == s.db.jobs.Keys
    && forall other :: other in s.db.jobs && other != id ==> s'.db.jobs[other] == s.db.jobs[other]
  }

  /** An abort reaches exactly the jobs that wait, run or await a decision: it flags them, and logs that. */
  lemma AbortReaches(s: State, id: JobId)
    ensures var s' := After(s, ClientStep(Abort(id)));
      var reached := id in s.db.jobs
        && (s.db.jobs[id].status == Status.Pending || s.db.jobs[id].status == Running
            || s.db.jobs[id].status == AwaitingDecision);
      && s'.log == (if reached then s.log + [AbortFlagged(id)] else s.log)
      && (reached ==> OtherRowsStay(s, s', id) && s'.db.jobs[id] == s.db.jobs[id].(abortRequested := true))
      && (!reached ==> s'.db == s.db)
  {
  }

  /** An answer is accepted exactly by a job that awaits one and has none: it stores it, and the log has it. */
  lemma AnswerReaches(s: State, id: JobId, d: Decision)
    ensures var s' := After(s, ClientStep(Answer(id, d)));
      var accepted := id in s.db.jobs && s.db.jobs[id].status == AwaitingDecision && s.db.jobs[id].submitted == None;
      && s'.log == (if accepted then s.log + [Accepted(id, s.db.jobs[id].pending, d)] else s.log)
      && (accepted ==> OtherRowsStay(s, s', id) && s'.db.jobs[id] == s.db.jobs[id].(submitted := Some(d)))
      && (!accepted ==> s'.db == s.db)
  {
  }

  /** A submission is refused exactly if it names an album and a track to replace. */
  lemma SubmitIsRefused(s: State, id: JobId, settings: Settings, stamp: Time)
    requires id !in s.db.jobs
    ensures Enabled(s, ClientStep(Submit(id, settings, stamp))) <==>
      settings.cleanSlateAlbum == None || settings.cleanSlateItem == None
  {
  }

  /** A submission adds one waiting job, as it was submitted. */
  lemma SubmitAdds(s: State, id: JobId, settings: Settings, stamp: Time)
    requires Enabled(s, ClientStep(Submit(id, settings, stamp)))
    ensures var s' := After(s, ClientStep(Submit(id, settings, stamp)));
      && s'.db.jobs == s.db.jobs[id := Job(Status.Pending, settings, stamp, None, None, false, None, None, None)]
      && s'.db.lock == s.db.lock && s'.log == s.log
  {
  }

  /** Only a job that has been claimed has let tasks in or come to a conclusion. */
  ghost predicate HistoryOk(s: State) {
    forall k :: 0 <= k < |s.log| && (s.log[k].Admitted? || s.log[k].Concluded?) ==>
      s.log[k].job in s.db.jobs && s.db.jobs[s.log[k].job].claimedBy.Some?
  }

  lemma StepKeepsHistory(s: State, e: Step)
    requires Inv(s) && HistoryOk(s) && Enabled(s, e)
    ensures HistoryOk(After(s, e))
  {
    var s' := After(s, e);
    StepExtends(s, e);
    assert s'.log == Extended(s.log, EventOf(s, e));
    forall k | 0 <= k < |s'.log| && (s'.log[k].Admitted? || s'.log[k].Concluded?)
      ensures s'.log[k].job in s'.db.jobs && s'.db.jobs[s'.log[k].job].claimedBy.Some?
    {
      if k < |s.log| {
        assert s'.log[k] == s.log[k];
      } else {
        assert e.JobStep? && PcOk(s, e.w);
        JobStepFrame(s, e);
      }
    }
  }

  lemma {:induction false} HistoryHolds(states: seq<State>, steps: seq<Step>, i: nat)
    requires IsRun(states, steps) && i < |states|
    ensures HistoryOk(states[i])
  {
    if i == 0 {
    } else {
      HistoryHolds(states, steps, i - 1);
      Reachable(states, steps, i - 1);
      StepKeepsHistory(states[i - 1], steps[i - 1]);
    }
  }

  /** A job aborted while it waits never has a task let in, and never shows COMPLETED, in any interleaving. */
  lemma AbortedWhileWaiting(states: seq<State>, steps: seq<Step>, i: nat, id: JobId)
    requires IsRun(states, steps) && i < |steps| && steps[i] == ClientStep(Abort(id))
    requires id in states[i].db.jobs && states[i].db.jobs[id].status == Status.Pending
    ensures var s := states[|steps|];
      && AbortRequested(s.db, id)
      && Admitted(id) !in s.log
      && id in s.db.jobs && s.db.jobs[id].status != Completed
  {
    var f := |states[i].log|;
    AbortReaches(states[i], id);
    assert states[i + 1].log[f] == AbortFlagged(id);
    HistoryOnlyGrows(states, steps, i, i + 1);
    HistoryOnlyGrows(states, steps, i + 1, |steps|);
    NothingBefore(states, steps, i, id);
    var s := states[|steps|];
    assert s.log[f] == AbortFlagged(id) && s.log[..f] == states[i].log;
    forall k | 0 <= k < |s.log| ensures s.log[k] != Admitted(id) && s.log[k] != Concluded(id, Completed) {
      if k < f {
        assert s.log[k] == states[i].log[k];
      } else if k > f {
        LateEvents(states, steps, f, k, id);
      }
    }
    CompletedIsConcluded(states, steps, id);
  }

  lemma NothingBefore(states: seq<State>, steps: seq<Step>, i: nat, id: JobId)
    requires IsRun(states, steps) && i < |states|
    requires id in states[i].db.jobs && states[i].db.jobs[id].status == Status.Pending
    ensures Admitted(id) !in states[i].log && Concluded(id, Completed) !in states[i].log
  {
    HistoryHolds(states, steps, i);
    Reachable(states, steps, i);
    assert RowFits(states[i], id);
  }

  lemma LateEvents(states: seq<State>, steps: seq<Step>, f: nat, k: nat, id: JobId)
    requires IsRun(states, steps)
    requires f < k < |states[|steps|].log| && states[|steps|].log[f] == AbortFlagged(id)
    ensures states[|steps|].log[k] != Admitted(id) && states[|steps|].log[k] != Concluded(id, Completed)
  {
    NobodyLetInAfterAbort(states, steps, f, k, id);
    var log := states[|steps|].log;
    if log[k].Concluded? && log[k].job == id {
      CompletedOnlyIfUnflagged(states, steps, k);
      assert log[..k][f] == AbortFlagged(id);
    }
  }

  lemma CompletedIsConcluded(states: seq<State>, steps: seq<Step>, id: JobId)
    requires IsRun(states, steps) && id in states[|steps|].db.jobs
    requires Concluded(id, Completed) !in states[|steps|].log
    ensures states[|steps|].db.jobs[id].status != Completed
  {
    ConcludedHolds(states, steps, |steps|);
    assert RowConcluded(states[|steps|], id);
  }
}
