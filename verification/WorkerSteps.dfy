/**
  What a worker's own moves come to, told from the rows and the run alone: when it asks the user, when it leaves a
  request, what an error costs, what it writes at the end, and that it recovers again once it has seen its lease lost.
 */
module WorkerSteps {
  import opened Wrappers
  import opened ImportJobs
  import opened StoreSpec
  import opened ImportProtocol
  import opened ProtocolInvariant
  import opened LeaseIntervals

  // The lease

  /**
    The lease is granted exactly to its holder, when nobody holds it, or when the recorded expiry lies before the
    reading; it is then the worker's until 30 s after its reading, and otherwise stays as it was.
   */
  lemma LeaseIsGranted(s: State, e: Step)
    requires Enabled(s, e) && Asks(e) && s.db.lock.Some?
    ensures var lock, reading := s.db.lock.value, if e.CycleStep? then e.cycle.reading else e.move.reading;
      && After(s, e).db.jobs == s.db.jobs
      && After(s, e).db.lock == Some(
           if lock.holder == Some(e.w) || lock.holder == None
              || (lock.expiresAt.Some? && lock.expiresAt.value < reading)
           then Lock(Some(e.w), Some(reading + 30_000_000))
           else lock)
  {
  }

  /** A worker knows from its acquire whether it leads; only one that fails makes it forget having recovered. */
  lemma AcquireDecides(s: State, w: WorkerId, reading: Time)
    requires Enabled(s, CycleStep(w, Acquire(reading))) && s.db.lock.Some?
    ensures var s' := After(s, CycleStep(w, Acquire(reading)));
      var granted := s'.db.lock.value.holder == Some(w);
      && s'.workers[w].lastReading == reading
      && s'.workers[w].wasLeader == (granted && s.workers[w].wasLeader)
      && s'.workers[w].pc == if !granted then Idle else if s.workers[w].wasLeader then Selecting else Recovering
  {
  }

  ghost predicate IsRecovery(e: Step, w: WorkerId) {
    e == CycleStep(w, Recover)
  }

  lemma OnlyRecoverySettles(s: State, e: Step, w: WorkerId)
    requires Enabled(s, e) && w in s.workers && !s.workers[w].wasLeader && !IsRecovery(e, w)
    ensures w in After(s, e).workers && !After(s, e).workers[w].wasLeader
  {
  }

  lemma {:induction false} StaysUnsettled(states: seq<State>, steps: seq<Step>, i: nat, k: nat, w: WorkerId)
    requires IsRun(states, steps) && i <= k < |states| && w in states[i].workers && !states[i].workers[w].wasLeader
    requires forall j :: i <= j < k ==> !IsRecovery(steps[j], w)
    ensures w in states[k].workers && !states[k].workers[w].wasLeader
    decreases k
  {
    if i == k {
    } else {
      StaysUnsettled(states, steps, i, k - 1, w);
      OnlyRecoverySettles(states[k - 1], steps[k - 1], w);
    }
  }

  /** A worker that has seen an acquire fail recovers orphans again before it next claims, in every interleaving. */
  lemma RecoversBeforeClaiming(states: seq<State>, steps: seq<Step>, i: nat, k: nat, w: WorkerId, reading: Time)
    requires IsRun(states, steps) && i < k < |steps|
    requires steps[i] == CycleStep(w, Acquire(reading)) && states[i + 1].workers[w].pc.Idle?
    requires steps[k] == CycleStep(w, ClaimSelected)
    ensures exists j :: i < j < k && IsRecovery(steps[j], w)
  {
    Reachable(states, steps, i);
    Leads(states, steps, k, w);
    assert states[i + 1] == After(states[i], steps[i]);
    AcquireDecides(states[i], w, reading);
    if forall j :: i + 1 <= j < k ==> !IsRecovery(steps[j], w) {
      StaysUnsettled(states, steps, i + 1, k, w);
    }
  }

  lemma {:induction false} Leads(states: seq<State>, steps: seq<Step>, i: nat, w: WorkerId)
    requires IsRun(states, steps) && i < |states|
    ensures Live(states[i], w) && !states[i].workers[w].pc.Idle? && !states[i].workers[w].pc.Recovering? ==>
      states[i].workers[w].wasLeader
  {
    if i == 0 {
    } else {
      Leads(states, steps, i - 1, w);
    }
  }

  // Starting, recovering, claiming

  /** A worker starts idle, with nothing recovered, and sees to it that there is a lock, free if it is new. */
  lemma StartingIs(s: State, w: WorkerId)
    requires Enabled(s, Start(w))
    ensures var s' := After(s, Start(w));
      && w !in s.workers && s'.workers == s.workers[w := Worker(Idle, false, s.clock)]
      && s'.db.jobs == s.db.jobs && s'.log == s.log
      && s'.db.lock == if s.db.lock.Some? then s.db.lock else Some(Lock(None, None))
  {
  }

  /** Recovery fails exactly the running and awaiting jobs of other workers, and lets the worker look for work. */
  lemma RecoveryIs(s: State, w: WorkerId, id: JobId)
    requires Enabled(s, CycleStep(w, Recover)) && id in s.db.jobs
    ensures var s', row := After(s, CycleStep(w, Recover)), s.db.jobs[id];
      && s'.db.jobs.Keys == s.db.jobs.Keys && s'.db.lock == s.db.lock
      && s'.workers[w].pc == Selecting && s'.workers[w].wasLeader
      && s'.db.jobs[id] ==
         if (row.status == Running || row.status == AwaitingDecision) && row.claimedBy.Some? && row.claimedBy != Some(w)
         then row.(status := Failed, error := Some("Interrupted: the import worker restarted."), pending := None)
         else row
  {
  }

  /** The SELECT finds a waiting job than which none that waits is older, or that none waits. */
  lemma SelectionIs(s: State, w: WorkerId, choice: Option<JobId>)
    requires Live(s, w)
    ensures Enabled(s, CycleStep(w, Select(choice))) <==>
      && s.workers[w].pc == Selecting
      && match choice
         case Some(id) =>
           && id in s.db.jobs && s.db.jobs[id].status == Status.Pending
           && forall other :: other in s.db.jobs && s.db.jobs[other].status == Status.Pending ==>
                s.db.jobs[id].createdAt <= s.db.jobs[other].createdAt
         case None => forall id :: id in s.db.jobs ==> s.db.jobs[id].status != Status.Pending
    ensures Enabled(s, CycleStep(w, Select(choice))) ==>
      var s' := After(s, CycleStep(w, Select(choice)));
      s'.db == s.db && s'.workers[w].pc == if choice.Some? then Claiming(choice.value) else Idle
  {
  }

  /** A claim succeeds exactly if the job still waits; the worker then runs it, and else it goes back to idling. */
  lemma ClaimIs(s: State, w: WorkerId)
    requires Enabled(s, CycleStep(w, ClaimSelected))
    ensures var s', id := After(s, CycleStep(w, ClaimSelected)), s.workers[w].pc.job;
      if id in s.db.jobs && s.db.jobs[id].status == Status.Pending then
        && s'.db.jobs == s.db.jobs[id := s.db.jobs[id].(status := Running, claimedBy := Some(w))]
        && s'.workers[w].pc == OnJob(id, Rereading) && s'.log == s.log + [Claimed(id, w)]
      else
        s'.db == s.db && s'.workers[w].pc == Idle && s'.log == s.log
  {
  }

  // What can happen, and what is remembered of it

  /** While the pipeline runs the lease may be renewed, with any reading since the last; it may err until it is over. */
  lemma PipelineMayErr(s: State, w: WorkerId, reading: Time, message: string)
    requires Live(s, w) && s.workers[w].pc.OnJob?
    ensures var stage := s.workers[w].pc.stage;
      var running := !stage.Rereading? && !stage.Concluding? && !stage.Finalizing?;
      && (Enabled(s, JobStep(w, Renew(reading))) <==>
            running && s.workers[w].lastReading <= reading && reading <= s.clock)
      && (Enabled(s, JobStep(w, RunError(message))) <==> running || stage.Concluding?)
      && (Enabled(s, JobStep(w, WriteTerminal)) <==> stage.Finalizing?)
      && (Enabled(s, JobStep(w, WriteTerminalFails)) <==> stage.Finalizing?)
      && (Enabled(s, JobStep(w, FinalRead)) <==> stage.Concluding?)
  {
  }

  /** What the history keeps of a worker's move: each task let in, refused or answered, each request and conclusion. */
  lemma WhatIsLogged(s: State, w: WorkerId, move: JobMove)
    requires Inv(s) && Enabled(s, JobStep(w, move))
    ensures var id, stage := s.workers[w].pc.job, s.workers[w].pc.stage;
      && id in s.db.jobs
      && var row, log' := s.db.jobs[id], After(s, JobStep(w, move)).log;
         log' == s.log + match move
           case ReadAbortFlag => [if row.abortRequested then Refused(id) else Admitted(id)]
           case QuietAnswer(action) => [Answered(id, stage.task, action)]
           case Park(request) => [Event.Parked(id, request)]
           case PollTake =>
             if row.submitted.Some? then [Taken(id, stage.task, stage.park, stage.decision)] else []
           case PollAbort => if row.abortRequested then [Answered(id, stage.task, Skip)] else []
           case FinalRead => [Concluded(id, if row.abortRequested then Aborted else Completed)]
           case _ => []
  {
    assert PcOk(s, w);
  }

  // Errors

  /** A transient error changes no table and no history; a failing re-read or last write leaves the job behind. */
  lemma ErrorsChangeNoTable(s: State, e: Step)
    requires Enabled(s, e)
    requires (e.CycleStep? && e.cycle.CycleError?)
          || (e.JobStep? && (e.move.RereadError? || e.move.WriteTerminalFails?))
    ensures var s', pc := After(s, e), s.workers[e.w].pc;
      && s'.db == s.db && s'.log == s.log
      && s'.workers[e.w].wasLeader == s.workers[e.w].wasLeader
      && (e.CycleStep? ==> s'.workers[e.w].pc == Idle && s'.abandoned == s.abandoned)
      && (e.JobStep? && e.move.RereadError? ==> s'.workers[e.w].pc == Idle && s'.abandoned == s.abandoned + {pc.job})
  {
  }

  // The decision

  /** A quiet job never asks, and is answered as the quiet import decides; any other is let ask. */
  lemma OnlyInteractiveJobsAsk(s: State, w: WorkerId, request: Request, action: Action)
    requires Live(s, w) && s.workers[w].pc.OnJob? && s.workers[w].pc.stage.Deciding?
    requires s.workers[w].pc.job in s.db.jobs
    ensures var id := s.workers[w].pc.job;
      && (Enabled(s, JobStep(w, Park(request))) <==> !s.db.jobs[id].settings.quiet && request.jobId == id)
      && (Enabled(s, JobStep(w, QuietAnswer(action))) <==> s.db.jobs[id].settings.quiet)
  {
  }

  predicate QuietRow(row: Job) {
    row.settings.quiet ==> row.status != AwaitingDecision && row.pending == None && row.submitted == None
  }

  ghost predicate QuietOk(s: State) {
    forall id :: id in s.db.jobs ==> QuietRow(s.db.jobs[id])
  }

  lemma OwnJobKeepsQuiet(s: State, e: Step)
    requires Inv(s) && QuietOk(s) && Enabled(s, e) && e.JobStep? && s.workers[e.w].pc.job in s.db.jobs
    ensures s.workers[e.w].pc.job in After(s, e).db.jobs
    ensures QuietRow(After(s, e).db.jobs[s.workers[e.w].pc.job])
  {
    assert PcOk(s, e.w) && QuietRow(s.db.jobs[s.workers[e.w].pc.job]);
  }

  lemma JobKeepsQuiet(s: State, e: Step)
    requires Inv(s) && QuietOk(s) && Enabled(s, e) && e.JobStep?
    ensures QuietOk(After(s, e))
  {
    assert PcOk(s, e.w);
    OwnJobKeepsQuiet(s, e);
    JobStepFrame(s, e);
    forall id | id in After(s, e).db.jobs ensures QuietRow(After(s, e).db.jobs[id]) {
      if id != s.workers[e.w].pc.job {
        assert QuietRow(s.db.jobs[id]);
      }
    }
  }

  lemma StepKeepsQuiet(s: State, e: Step)
    requires Inv(s) && QuietOk(s) && Enabled(s, e)
    ensures QuietOk(After(s, e))
  {
    if e.JobStep? {
      JobKeepsQuiet(s, e);
    }
  }

  /** A quiet job never awaits a decision, in any interleaving. */
  lemma {:induction false} QuietJobsNeverAsk(states: seq<State>, steps: seq<Step>, i: nat)
    requires IsRun(states, steps) && i < |states|
    ensures QuietOk(states[i])
  {
    if i == 0 {
    } else {
      QuietJobsNeverAsk(states, steps, i - 1);
      Reachable(states, steps, i - 1);
      StepKeepsQuiet(states[i - 1], steps[i - 1]);
    }
  }

  /** What asking does: the row holds the request and no answer, and awaits a decision. */
  lemma ParkAsks(s: State, w: WorkerId, request: Request)
    requires Inv(s) && Enabled(s, JobStep(w, Park(request)))
    ensures var s', id := After(s, JobStep(w, Park(request))), s.workers[w].pc.job;
      && id in s.db.jobs
      && s'.db.jobs == s.db.jobs[id := s.db.jobs[id].(
           status := AwaitingDecision, pending := Some(request), submitted := None)]
      && s'.log == s.log + [Event.Parked(id, request)]
      && s'.workers[w].pc.OnJob? && s'.workers[w].pc.stage.Parked()
  {
    assert PcOk(s, w);
  }

  /**
    A request is left exactly by taking an answer that is stored, by seeing the abort flag, and by an error; in any
    other poll the worker stays with it.
   */
  lemma RequestIsLeftExactly(s: State, w: WorkerId, move: JobMove)
    requires Inv(s) && Enabled(s, JobStep(w, move)) && s.workers[w].pc.stage.Parked()
    ensures var s', id := After(s, JobStep(w, move)), s.workers[w].pc.job;
      && id in s.db.jobs && s'.workers[w].pc.OnJob? && s'.workers[w].pc.job == id
      && (!s'.workers[w].pc.stage.Parked() <==>
            || (move.PollTake? && s.db.jobs[id].submitted.Some?)
            || (move.PollAbort? && s.db.jobs[id].abortRequested)
            || move.RunError?)
      && (s'.workers[w].pc.stage.Parked() ==>
            s'.workers[w].pc.stage.task == s.workers[w].pc.stage.task
            && s'.workers[w].pc.stage.park == s.workers[w].pc.stage.park)
      && (move.PollTake? && s.db.jobs[id].submitted.Some? ==>
            s'.db.jobs[id] == s.db.jobs[id].(status := Running, pending := None, submitted := None))
      && (!move.PollTake? || s.db.jobs[id].submitted.None? ==> s'.db.jobs == s.db.jobs)
  {
    assert PcOk(s, w);
  }

  /** A task is let in exactly if no abort is flagged when it comes, and refused otherwise. */
  lemma FlagDecides(s: State, w: WorkerId)
    requires Inv(s) && Enabled(s, JobStep(w, ReadAbortFlag))
    ensures var s', id := After(s, JobStep(w, ReadAbortFlag)), s.workers[w].pc.job;
      && id in s.db.jobs && s'.db == s.db
      && s'.log == s.log + [if s.db.jobs[id].abortRequested then Refused(id) else Admitted(id)]
      && s'.workers[w].pc == OnJob(id, if s.db.jobs[id].abortRequested then Importing else Deciding(|s.log|))
  {
    assert PcOk(s, w);
  }

  // The end

  /** The worker is at the terminal write of `id`, to end it with `status` and `error`, for the `attempt`th time. */
  predicate IsEnding(s: State, w: WorkerId, id: JobId, status: Status, error: Option<string>, attempt: nat) {
    w in s.workers && s.workers[w].pc == OnJob(id, Finalizing(status, error, attempt))
  }

  /** An error in the run ends the job FAILED with its message; a finished run ends it as the flag says, without one. */
  lemma RunsEnd(s: State, e: Step)
    requires Inv(s) && Enabled(s, e) && e.JobStep? && (e.move.RunError? || e.move.FinalRead?)
    ensures var id := s.workers[e.w].pc.job;
      && id in s.db.jobs && After(s, e).db == s.db
      && (e.move.RunError? ==> IsEnding(After(s, e), e.w, id, Failed, Some(e.move.message), 1))
      && (e.move.FinalRead? ==>
            IsEnding(After(s, e), e.w, id, if s.db.jobs[id].abortRequested then Aborted else Completed, None, 1))
  {
    assert PcOk(s, e.w);
  }

  predicate IsOwnStep(e: Step, w: WorkerId) {
    (e.JobStep? || e.CycleStep? || e.Crash?) && e.w == w
  }

  /**
    From there it writes just that: the job ends with that status, and with that error or else the one it had. Up to
    five attempts may fail; with the fifth the worker gives the job up.
   */
  lemma EndingStep(s: State, e: Step, w: WorkerId, id: JobId, status: Status, error: Option<string>, attempt: nat)
    requires Inv(s) && Enabled(s, e) && IsEnding(s, w, id, status, error, attempt)
    ensures var s' := After(s, e);
      && 1 <= attempt <= 5 && id in s.db.jobs
      && (!IsOwnStep(e, w) ==> IsEnding(s', w, id, status, error, attempt))
      && (IsOwnStep(e, w) ==> e.Crash? || (e.JobStep? && (e.move.WriteTerminal? || e.move.WriteTerminalFails?)))
      && (IsOwnStep(e, w) && e.JobStep? && e.move.WriteTerminal? ==>
            && s'.db.jobs == s.db.jobs[id := s.db.jobs[id].(
                 status := status, pending := None, error := if error.Some? then error else s.db.jobs[id].error)]
            && s'.workers[w].pc == Idle)
      && (IsOwnStep(e, w) && e.JobStep? && e.move.WriteTerminalFails? ==>
            if attempt < 5 then IsEnding(s', w, id, status, error, attempt + 1) && s'.abandoned == s.abandoned
            else s'.workers[w].pc == Idle && s'.abandoned == s.abandoned + {id})
  {
    assert PcOk(s, w);
    if e.JobStep? {
      JobStepFrame(s, e);
    }
  }

  ghost predicate Lasts(states: seq<State>, steps: seq<Step>, i: nat, k: nat, w: WorkerId)
    requires IsRun(states, steps) && k <= |steps|
  {
    forall j :: i <= j < k && IsOwnStep(steps[j], w) ==> steps[j].JobStep? && steps[j].move.WriteTerminalFails?
  }

  predicate IsFailure(e: Step, w: WorkerId) {
    e.JobStep? && e.w == w && e.move.WriteTerminalFails?
  }

  function Failures(steps: seq<Step>, w: WorkerId): nat {
    if steps == [] then 0
    else Failures(steps[..|steps| - 1], w) + if IsFailure(steps[|steps| - 1], w) then 1 else 0
  }

  lemma {:induction false} FailuresNext(steps: seq<Step>, i: nat, k: nat, w: WorkerId)
    requires i < k <= |steps|
    ensures Failures(steps[i..k], w) == Failures(steps[i..k - 1], w) + if IsFailure(steps[k - 1], w) then 1 else 0
  {
    assert steps[i..k][..k - 1 - i] == steps[i..k - 1] && steps[i..k][k - 1 - i] == steps[k - 1];
  }

  lemma EndingNext(
      states: seq<State>, steps: seq<Step>, k: nat, w: WorkerId, id: JobId, status: Status, error: Option<string>,
      attempt: nat)
    requires IsRun(states, steps) && k < |steps| && IsEnding(states[k], w, id, status, error, attempt)
    requires IsOwnStep(steps[k], w) ==> IsFailure(steps[k], w) && attempt < 5
    ensures IsEnding(states[k + 1], w, id, status, error, attempt + if IsFailure(steps[k], w) then 1 else 0)
  {
    Reachable(states, steps, k);
    EndingStep(states[k], steps[k], w, id, status, error, attempt);
  }

  /** Through failed attempts, and whatever others do, the worker still means to write the same. */
  lemma {:induction false} EndingLasts(
      states: seq<State>, steps: seq<Step>, i: nat, k: nat, w: WorkerId, id: JobId, status: Status,
      error: Option<string>)
    requires IsRun(states, steps) && i <= k <= |steps| && IsEnding(states[i], w, id, status, error, 1)
    requires Lasts(states, steps, i, k, w) && Failures(steps[i..k], w) < 5
    ensures IsEnding(states[k], w, id, status, error, 1 + Failures(steps[i..k], w))
    decreases k
  {
    if i == k {
      assert steps[i..k] == [];
    } else {
      FailuresNext(steps, i, k, w);
      EndingLasts(states, steps, i, k - 1, w, id, status, error);
      EndingNext(states, steps, k - 1, w, id, status, error, 1 + Failures(steps[i..k - 1], w));
    }
  }

  /** So the row ends as the run did: FAILED with the message of the error, or as the flag said. */
  lemma RowsEndAsRunsDo(states: seq<State>, steps: seq<Step>, i: nat, k: nat)
    requires IsRun(states, steps) && i < k < |steps|
    requires steps[i].JobStep? && (steps[i].move.RunError? || steps[i].move.FinalRead?)
    requires steps[k].JobStep? && steps[k].w == steps[i].w && steps[k].move.WriteTerminal?
    requires Lasts(states, steps, i + 1, k, steps[i].w) && Failures(steps[i + 1..k], steps[i].w) < 5
    ensures var id := states[i].workers[steps[i].w].pc.job;
      && id in states[i].db.jobs && id in states[k + 1].db.jobs
      && var row := states[k + 1].db.jobs[id];
         && (steps[i].move.RunError? ==> row.status == Failed && row.error == Some(steps[i].move.message))
         && (steps[i].move.FinalRead? ==>
               row.status == if states[i].db.jobs[id].abortRequested then Aborted else Completed)
  {
    var w := steps[i].w;
    var id := states[i].workers[w].pc.job;
    Reachable(states, steps, i);
    Reachable(states, steps, k);
    RunsEnd(states[i], steps[i]);
    var status, error :=
      if steps[i].move.RunError? then Failed else if states[i].db.jobs[id].abortRequested then Aborted else Completed,
      if steps[i].move.RunError? then Some(steps[i].move.message) else None;
    EndingLasts(states, steps, i + 1, k, w, id, status, error);
    EndingStep(states[k], steps[k], w, id, status, error, 1 + Failures(steps[i + 1..k], w));
  }
}
