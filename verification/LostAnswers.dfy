/**
  What becomes of an answer that `submit_decision` has accepted, in every interleaving: it is taken, or it waits for
  the request it was given to, or it is lost; and it is lost exactly if nobody was left at that request when it was
  accepted, or the worker leaves the request without it.
 */
module LostAnswers {
  import opened Wrappers
  import opened ImportJobs
  import opened StoreSpec
  import opened ImportProtocol
  import opened ProtocolInvariant
  import opened DecisionHandoff
  import opened AbortSafety
  import StaleWorkers

  /** The step leaves the request at `park` unanswered: an abort seen, an error in the pipeline, or a crash. */
  ghost predicate Withdraws(s: State, e: Step, park: nat)
    requires Enabled(s, e)
  {
    && (e.Crash? || e.JobStep?)
    && ParkedAt(s, e.w, park)
    && (|| e.Crash?
        || e.move.RunError?
        || (e.move.PollAbort? && AbortRequested(s.db, s.workers[e.w].pc.job)))
  }

  ghost predicate NobodyAt(s: State, park: nat) {
    forall w :: !ParkedAt(s, w, park)
  }

  /** Some request took the answer at `a`. */
  ghost predicate IsTaken(log: seq<Event>, a: nat)
    requires a < |log|
  {
    exists k: nat :: k < |log| && log[k].Taken? && HandedOver(log, a, k)
  }

  datatype AnswerFate = Waits | Delivered | Lost

  /** What has become of the answer at `a` to the request that was parked at `park` for job `id`. */
  ghost predicate HasAnswerFate(s: State, id: JobId, park: nat, a: nat, fate: AnswerFate)
    requires a < |s.log|
  {
    match fate
    case Waits => exists w :: WaitsFor(s, w, id, park, a)
    case Delivered => IsTaken(s.log, a) && NobodyAt(s, park)
    case Lost => !IsTaken(s.log, a) && NobodyAt(s, park)
  }

  /** Two workers are never at the same request. */
  lemma OneAtRequest(s: State, v: WorkerId, w: WorkerId, park: nat)
    requires Inv(s) && HandoffOk(s) && ParkedAt(s, v, park) && ParkedAt(s, w, park)
    ensures v == w
  {
    assert ParkOk(s, v) && ParkOk(s, w) && PcOk(s, v) && PcOk(s, w);
    ChannelMeans(s.log, s.workers[v].pc.job);
    ChannelMeans(s.log, s.workers[w].pc.job);
  }

  /** An answer is only ever taken for the request it was accepted for. */
  lemma TakenForItsRequest(log: seq<Event>, a: nat, k: nat)
    requires a < |log| && k < |log| && log[k].Taken? && HandedOver(log, a, k)
    requires forall m :: 0 <= m < |log| ==> LegalAt(log, m)
    ensures ChannelOf(log[..a], log[a].job) == Asked(log[k].park)
  {
    var before, id, park := log[..a], log[a].job, log[k].park;
    forall m | 0 <= m < |before| ensures LegalAt(before, m) {
      assert LegalAt(log, m);
      assert before[..m] == log[..m];
    }
    ChannelMeans(before, id);
    assert LegalAt(log, a);
    assert before[park] == log[park] && IsHandoff(before[park], id);
    var asked := ChannelOf(before, id).park;
    assert before[asked] == log[asked] && IsHandoff(log[asked], id);
  }

  /** The answer at `a` is stored for the request at `park`, and worker `w` is there to take it. */
  ghost predicate WaitsFor(s: State, w: WorkerId, id: JobId, park: nat, a: nat) {
    ChannelOf(s.log, id) == Replied(park, a) && ParkedAt(s, w, park) && s.workers[w].pc.job == id
  }

  lemma OwnStepWithWaiting(s: State, e: Step, w: WorkerId, id: JobId, park: nat, a: nat)
    requires Inv(s) && HandoffOk(s) && Enabled(s, e) && WaitsFor(s, w, id, park, a) && e.JobStep? && e.w == w
    ensures var s' := After(s, e);
      if e.move.PollTake? then
        && !ParkedAt(s', w, park)
        && EventOf(s, e).Some? && EventOf(s, e).value.Taken?
        && EventOf(s, e).value.park == park && EventOf(s, e).value.job == id
      else if Withdraws(s, e, park) then
        !ParkedAt(s', w, park) && (EventOf(s, e).Some? ==> !EventOf(s, e).value.Taken?)
      else
        WaitsFor(s', w, id, park, a)
  {
    assert ParkOk(s, w) && PcOk(s, w) && ChannelOk(s, id);
    ChannelStep(s, e, id);
  }

  lemma OtherStepWithWaiting(s: State, e: Step, w: WorkerId, id: JobId, park: nat, a: nat)
    requires Inv(s) && HandoffOk(s) && Enabled(s, e) && WaitsFor(s, w, id, park, a) && !(e.JobStep? && e.w == w)
    ensures if e.Crash? && e.w == w then !ParkedAt(After(s, e), w, park) else WaitsFor(After(s, e), w, id, park, a)
    ensures Withdraws(s, e, park) ==> e.Crash? && e.w == w
  {
    assert PcOk(s, w) && ChannelOk(s, id);
    ChannelStep(s, e, id);
    if Withdraws(s, e, park) {
      OneAtRequest(s, e.w, w, park);
    }
    if e.JobStep? {
      JobStepFrame(s, e);
      assert PcOk(s, e.w);
    }
  }

  /** A request that has been left is not entered again, and nothing is taken for it. */
  lemma NobodyComesBack(s: State, e: Step, park: nat)
    requires Enabled(s, e) && park < |s.log| && NobodyAt(s, park)
    ensures NobodyAt(After(s, e), park)
    ensures EventOf(s, e).Some? && EventOf(s, e).value.Taken? ==> EventOf(s, e).value.park != park
  {
    forall w ensures !ParkedAt(After(s, e), w, park) {
      assert !ParkedAt(s, w, park);
      if ParkedAt(After(s, e), w, park) {
        ParkIsFresh(s, e, w, park);
      }
    }
    if e.JobStep? {
      assert !ParkedAt(s, e.w, park);
    }
  }

  /** The request the answer is for, as the log had it when the answer came. */
  predicate AnswersRequest(log: seq<Event>, id: JobId, park: nat, a: nat) {
    && a < |log| && park < a && log[a].Accepted? && log[a].job == id
    && ChannelOf(log[..a], id) == Asked(park)
  }

  lemma TakenStays(log: seq<Event>, more: seq<Event>, a: nat)
    requires a < |log| && IsTaken(log, a)
    ensures IsTaken(log + more, a)
  {
    var k: nat :| k < |log| && log[k].Taken? && HandedOver(log, a, k);
    assert HandedOver(log + more, a, k);
  }

  /** A step delivers the answer at `a` only by taking for its request. */
  lemma NotTakenYet(s: State, e: Step, id: JobId, park: nat, a: nat)
    requires Enabled(s, e) && HandoffOk(After(s, e)) && AnswersRequest(s.log, id, park, a) && !IsTaken(s.log, a)
    requires EventOf(s, e).Some? && EventOf(s, e).value.Taken? ==> EventOf(s, e).value.park != park
    ensures !IsTaken(After(s, e).log, a)
  {
    var log, log' := s.log, After(s, e).log;
    assert log' == Extended(log, EventOf(s, e)) by {
      ChannelStep(s, e, id);
    }
    assert log'[..a] == log[..a];
    if EventOf(s, e).Some? {
      if IsTaken(log', a) {
        TakenAtTheEnd(log, EventOf(s, e).value, a);
      }
      if EventOf(s, e).value.Taken? && HandedOver(log', a, |log|) {
        TakenForItsRequest(log', a, |log|);
      }
    }
  }

  lemma TakenAtTheEnd(log: seq<Event>, event: Event, a: nat)
    requires a < |log| && IsTaken(log + [event], a)
    ensures IsTaken(log, a) || (event.Taken? && HandedOver(log + [event], a, |log|))
  {
    var log' := log + [event];
    var k: nat :| k < |log'| && log'[k].Taken? && HandedOver(log', a, k);
    if k < |log| {
      assert forall m :: 0 <= m < |log| ==> log'[m] == log[m];
      assert HandedOver(log, a, k);
    }
  }

  lemma TakingDelivers(s: State, e: Step, w: WorkerId, id: JobId, park: nat, a: nat)
    requires Inv(s) && HandoffOk(s) && Enabled(s, e) && AnswersRequest(s.log, id, park, a)
    requires WaitsFor(s, w, id, park, a) && e.JobStep? && e.w == w && e.move.PollTake?
    ensures IsTaken(After(s, e).log, a)
  {
    OwnStepWithWaiting(s, e, w, id, park, a);
    ChannelMeans(s.log, id);
    ChannelStep(s, e, id);
    StepIsLegal(s, e);
    var log := After(s, e).log;
    assert log == s.log + [EventOf(s, e).value] && log[..|s.log|] == s.log;
    assert HandedOver(log, a, |s.log|);
  }

  lemma Leaves(s: State, e: Step, w: WorkerId, id: JobId, park: nat, a: nat)
    requires Inv(s) && HandoffOk(s) && Enabled(s, e) && park < |s.log|
    requires WaitsFor(s, w, id, park, a) && !ParkedAt(After(s, e), w, park)
    ensures NobodyAt(After(s, e), park)
  {
    forall v ensures !ParkedAt(After(s, e), v, park) {
      if v != w && ParkedAt(After(s, e), v, park) {
        ParkIsFresh(s, e, v, park);
        OneAtRequest(s, v, w, park);
      }
    }
  }

  /** How one step changes the fate of an answer that waits. */
  lemma StepWithWaiting(s: State, e: Step, id: JobId, park: nat, a: nat)
    requires Inv(s) && HandoffOk(s) && Enabled(s, e) && HandoffOk(After(s, e))
    requires AnswersRequest(s.log, id, park, a) && HasAnswerFate(s, id, park, a, Waits) && !IsTaken(s.log, a)
    ensures s.log <= After(s, e).log
    ensures Withdraws(s, e, park) ==> HasAnswerFate(After(s, e), id, park, a, Lost)
    ensures !Withdraws(s, e, park) ==>
      || HasAnswerFate(After(s, e), id, park, a, Delivered)
      || (HasAnswerFate(After(s, e), id, park, a, Waits) && !IsTaken(After(s, e).log, a))
  {
    ChannelStep(s, e, id);
    var w :| WaitsFor(s, w, id, park, a);
    if e.JobStep? && e.w == w {
      OwnStepWithWaiting(s, e, w, id, park, a);
    } else {
      OtherStepWithWaiting(s, e, w, id, park, a);
    }
    if e.JobStep? && e.w == w && e.move.PollTake? {
      TakingDelivers(s, e, w, id, park, a);
      Leaves(s, e, w, id, park, a);
    } else {
      OthersTakeElsewhere(s, e, w, park);
      NotTakenYet(s, e, id, park, a);
      if Withdraws(s, e, park) {
        Leaves(s, e, w, id, park, a);
      }
    }
  }

  /** No step changes the fate of an answer whose request has been left. */
  lemma StepWithoutWaiting(s: State, e: Step, id: JobId, park: nat, a: nat, fate: AnswerFate)
    requires Enabled(s, e) && HandoffOk(After(s, e)) && !fate.Waits?
    requires AnswersRequest(s.log, id, park, a) && HasAnswerFate(s, id, park, a, fate)
    ensures s.log <= After(s, e).log
    ensures HasAnswerFate(After(s, e), id, park, a, fate) && !Withdraws(s, e, park)
  {
    ChannelStep(s, e, id);
    NobodyComesBack(s, e, park);
    if fate.Delivered? {
      var more := After(s, e).log[|s.log|..];
      assert s.log + more == After(s, e).log;
      TakenStays(s.log, more, a);
    } else {
      NotTakenYet(s, e, id, park, a);
    }
  }

  lemma OthersTakeElsewhere(s: State, e: Step, w: WorkerId, park: nat)
    requires Inv(s) && HandoffOk(s) && Enabled(s, e) && ParkedAt(s, w, park)
    requires !(e.JobStep? && e.w == w && e.move.PollTake?)
    ensures EventOf(s, e).Some? && EventOf(s, e).value.Taken? ==> EventOf(s, e).value.park != park
  {
    if EventOf(s, e).Some? && EventOf(s, e).value.Taken? && EventOf(s, e).value.park == park {
      assert ParkedAt(s, e.w, park);
      OneAtRequest(s, e.w, w, park);
    }
  }

  /** The answer accepted by `steps[i]`, and the request it is for. */
  ghost predicate Accepts(s: State, e: Step, id: JobId, park: nat)
    requires Enabled(s, e)
  {
    e.ClientStep? && e.client.Answer? && e.client.id == id && AcceptsDecision(s.db, id)
    && ChannelOf(s.log, id) == Asked(park)
  }

  /** Every accepted answer is accepted for some request. */
  lemma AcceptedForSomeRequest(states: seq<State>, steps: seq<Step>, i: nat, id: JobId)
    requires IsRun(states, steps) && i < |steps| && steps[i].ClientStep? && steps[i].client.Answer?
    requires steps[i].client.id == id && AcceptsDecision(states[i].db, id)
    ensures exists park :: Accepts(states[i], steps[i], id, park)
  {
    HandoffHolds(states, steps, i);
    assert ChannelOk(states[i], id);
    assert Accepts(states[i], steps[i], id, ChannelOf(states[i].log, id).park);
  }

  lemma FatesExclude(s: State, id: JobId, park: nat, a: nat, fate: AnswerFate)
    requires a < |s.log| && HasAnswerFate(s, id, park, a, fate)
    ensures forall other :: HasAnswerFate(s, id, park, a, other) ==> other == fate
  {
  }

  /** An answer can be accepted while nobody is left at its request: the row stays AWAITING_DECISION after a SKIP. */
  lemma AcceptanceDecidesFate(s: State, e: Step, id: JobId, park: nat)
    requires Inv(s) && HandoffOk(s) && Enabled(s, e) && HandoffOk(After(s, e)) && Accepts(s, e, id, park)
    ensures AnswersRequest(After(s, e).log, id, park, |s.log|) && !IsTaken(After(s, e).log, |s.log|)
    ensures HasAnswerFate(After(s, e), id, park, |s.log|, if NobodyAt(s, park) then Lost else Waits)
  {
    var s', a := After(s, e), |s.log|;
    ChannelStep(s, e, id);
    ChannelMeans(s.log, id);
    assert s'.log[..a] == s.log;
    assert forall w :: ParkedAt(s', w, park) <==> ParkedAt(s, w, park);
    if w :| ParkedAt(s, w, park) {
      assert ParkOk(s, w);
      ChannelMeans(s.log, s.workers[w].pc.job);
      assert WaitsFor(s', w, id, park, a);
    }
  }

  ghost predicate NobodyWithdraws(states: seq<State>, steps: seq<Step>, from: nat, to: nat, park: nat)
    requires IsRun(states, steps) && to <= |steps|
  {
    forall j :: from <= j < to ==> !Withdraws(states[j], steps[j], park)
  }

  /** The answer at `a` has exactly one fate, and it is lost or not as `lost` says. */
  ghost predicate FateIs(s: State, id: JobId, park: nat, a: nat, lost: bool) {
    && AnswersRequest(s.log, id, park, a)
    && (exists fate ::
          && HasAnswerFate(s, id, park, a, fate)
          && forall other :: HasAnswerFate(s, id, park, a, other) ==> other == fate)
    && (HasAnswerFate(s, id, park, a, Lost) <==> lost)
    && (HasAnswerFate(s, id, park, a, Waits) ==> !IsTaken(s.log, a))
  }

  lemma StepKeepsFate(s: State, e: Step, id: JobId, park: nat, a: nat, lost: bool)
    requires Inv(s) && HandoffOk(s) && Enabled(s, e) && HandoffOk(After(s, e)) && FateIs(s, id, park, a, lost)
    ensures FateIs(After(s, e), id, park, a, lost || Withdraws(s, e, park))
  {
    var fate :| HasAnswerFate(s, id, park, a, fate);
    if fate.Waits? {
      StepWithWaiting(s, e, id, park, a);
    } else {
      StepWithoutWaiting(s, e, id, park, a, fate);
    }
    assert After(s, e).log[..a] == s.log[..a];
    var fate' :| HasAnswerFate(After(s, e), id, park, a, fate');
    FatesExclude(After(s, e), id, park, a, fate');
  }

  lemma RunKeepsFate(
      states: seq<State>, steps: seq<Step>, j: nat, id: JobId, park: nat, a: nat, lost: bool)
    requires IsRun(states, steps) && j < |steps| && FateIs(states[j], id, park, a, lost)
    ensures FateIs(states[j + 1], id, park, a, lost || Withdraws(states[j], steps[j], park))
  {
    HandoffHolds(states, steps, j);
    HandoffHolds(states, steps, j + 1);
    Reachable(states, steps, j);
    StepKeepsFate(states[j], steps[j], id, park, a, lost);
  }

  lemma RunAccepts(states: seq<State>, steps: seq<Step>, i: nat, id: JobId, park: nat)
    requires IsRun(states, steps) && i < |steps| && Accepts(states[i], steps[i], id, park)
    ensures FateIs(states[i + 1], id, park, |states[i].log|, NobodyAt(states[i], park))
  {
    HandoffHolds(states, steps, i);
    HandoffHolds(states, steps, i + 1);
    Reachable(states, steps, i);
    AcceptanceDecidesFate(states[i], steps[i], id, park);
    FatesExclude(states[i + 1], id, park, |states[i].log|, if NobodyAt(states[i], park) then Lost else Waits);
  }

  lemma OneMoreStep(states: seq<State>, steps: seq<Step>, from: nat, to: nat, park: nat)
    requires IsRun(states, steps) && from <= to < |steps|
    ensures NobodyWithdraws(states, steps, from, to + 1, park) <==>
      NobodyWithdraws(states, steps, from, to, park) && !Withdraws(states[to], steps[to], park)
  {
  }

  lemma {:induction false} FateGoesOn(
      states: seq<State>, steps: seq<Step>, from: nat, n: nat, id: JobId, park: nat, a: nat, lost: bool)
      returns (after: bool)
    requires IsRun(states, steps) && from <= n <= |steps| && FateIs(states[from], id, park, a, lost)
    ensures FateIs(states[n], id, park, a, after)
    ensures after <==> lost || !NobodyWithdraws(states, steps, from, n, park)
    decreases n
  {
    if n == from {
      after := lost;
    } else {
      var before := FateGoesOn(states, steps, from, n - 1, id, park, a, lost);
      RunKeepsFate(states, steps, n - 1, id, park, a, before);
      OneMoreStep(states, steps, from, n - 1, park);
      after := before || Withdraws(states[n - 1], steps[n - 1], park);
    }
  }

  /** Every answer accepted has exactly one fate, and who leaves its request, and when, decides whether it is lost. */
  lemma AnswerIsLostExactly(states: seq<State>, steps: seq<Step>, i: nat, n: nat, id: JobId, park: nat)
    requires IsRun(states, steps) && i < n <= |steps| && Accepts(states[i], steps[i], id, park)
    ensures FateIs(states[n], id, park, |states[i].log|,
                   NobodyAt(states[i], park) || !NobodyWithdraws(states, steps, i + 1, n, park))
  {
    RunAccepts(states, steps, i, id, park);
    var lost := FateGoesOn(states, steps, i + 1, n, id, park, |states[i].log|, NobodyAt(states[i], park));
  }

  // An answer that nobody will take

  const ASKED := Request(10, "task", "Which match?", [])

  /** Worker 1 left the request it had parked, because an abort was flagged; the row still awaits a decision. */
  function Left(): State {
    var s := StaleWorkers.OneAtWork();
    s.(db := s.db.(jobs := s.db.jobs[10 := s.db.jobs[10].(
                     status := AwaitingDecision, pending := Some(ASKED), abortRequested := true)]),
       log := s.log + [Admitted(10), Event.Parked(10, ASKED), AbortFlagged(10), Answered(10, 1, Skip)])
  }

  /** What worker 1 does next, when it is at `stage` of job 10. */
  function At(stage: Stage, awaiting: bool, aborted: bool, log: seq<Event>): State {
    var s := StaleWorkers.OneAtWork();
    var row := if awaiting then s.db.jobs[10].(status := AwaitingDecision, pending := Some(ASKED)) else s.db.jobs[10];
    s.(db := s.db.(jobs := s.db.jobs[10 := row.(abortRequested := aborted)]),
       workers := s.workers[1 := StaleWorkers.Leader(OnJob(10, stage), 0)],
       log := log)
  }

  lemma ParkedIsReachable()
    ensures StaleWorkers.IsReachable(
      At(Polling(1, 2), true, false, [Claimed(10, 1), Admitted(10), Event.Parked(10, ASKED)]))
  {
    StaleWorkers.OneAtWorkIsReachable();
    var s0 := StaleWorkers.OneAtWork();
    StaleWorkers.StepIsReachable(s0, JobStep(1, BeginTask));
    var s1 := At(Choosing, false, false, [Claimed(10, 1)]);
    assert After(s0, JobStep(1, BeginTask)) == s1;
    StaleWorkers.StepIsReachable(s1, JobStep(1, ReadAbortFlag));
    var s2 := At(Deciding(1), false, false, [Claimed(10, 1), Admitted(10)]);
    assert After(s1, JobStep(1, ReadAbortFlag)) == s2;
    StaleWorkers.StepIsReachable(s2, JobStep(1, Park(ASKED)));
    assert After(s2, JobStep(1, Park(ASKED))) ==
           At(Polling(1, 2), true, false, [Claimed(10, 1), Admitted(10), Event.Parked(10, ASKED)]);
  }

  lemma LeftIsReachable()
    ensures StaleWorkers.IsReachable(Left())
  {
    ParkedIsReachable();
    var log := [Claimed(10, 1), Admitted(10), Event.Parked(10, ASKED)];
    var s0 := At(Polling(1, 2), true, false, log);
    StaleWorkers.StepIsReachable(s0, ClientStep(Abort(10)));
    var s1 := At(Polling(1, 2), true, true, log + [AbortFlagged(10)]);
    assert After(s0, ClientStep(Abort(10))) == s1;
    StaleWorkers.StepIsReachable(s1, JobStep(1, PollRead));
    var s2 := At(AbortCheck(1, 2), true, true, log + [AbortFlagged(10)]);
    assert After(s1, JobStep(1, PollRead)) == s2;
    StaleWorkers.StepIsReachable(s2, JobStep(1, PollAbort));
    assert After(s2, JobStep(1, PollAbort)) == Left();
  }

  lemma LeftChannel()
    ensures ChannelOf(Left().log, 10) == Asked(2)
  {
    var parked := [Claimed(10, 1), Admitted(10), Event.Parked(10, ASKED)];
    ParkedChannel();
    ChannelAfter(parked, AbortFlagged(10), 10);
    ChannelAfter(parked + [AbortFlagged(10)], Answered(10, 1, Skip), 10);
    assert parked + [AbortFlagged(10)] + [Answered(10, 1, Skip)] == Left().log;
  }

  lemma ParkedChannel()
    ensures ChannelOf([Claimed(10, 1), Admitted(10), Event.Parked(10, ASKED)], 10) == Asked(2)
  {
    ChannelAfter([Claimed(10, 1), Admitted(10)], Event.Parked(10, ASKED), 10);
    assert [Claimed(10, 1), Admitted(10)] + [Event.Parked(10, ASKED)] ==
           [Claimed(10, 1), Admitted(10), Event.Parked(10, ASKED)];
  }

  /** A concrete run in which `submit_decision` accepts an answer while nobody is left at the request it is for. */
  lemma AnswersCanBeAcceptedInVain(d: Decision)
    ensures exists s, park :: (
      && StaleWorkers.IsReachable(s) && Enabled(s, ClientStep(Answer(10, d)))
      && Accepts(s, ClientStep(Answer(10, d)), 10, park) && NobodyAt(s, park))
  {
    LeftIsReachable();
    LeftChannel();
    assert Accepts(Left(), ClientStep(Answer(10, d)), 10, 2) && NobodyAt(Left(), 2);
  }
}
