/**
  The decision hand-off between the web processes and a parked importer thread, in every interleaving: an accepted
  answer reaches exactly the request that was pending when it was accepted, and reaches it at most once.
 */
module DecisionHandoff {
  import opened Wrappers
  import opened ImportJobs
  import opened ImportProtocol
  import opened ProtocolInvariant

  /** What the log says about a job's current request: none, asked at `park`, or also answered at `answer`. */
  datatype Channel = Quiet | Asked(park: nat) | Replied(park: nat, answer: nat)

  function Hear(channel: Channel, event: Event, at: nat, id: JobId): Channel {
    if event.job != id then channel
    else match event
      case Parked(_, _) => Asked(at)
      case Accepted(_, _, _) => if channel.Quiet? then channel else Replied(channel.park, at)
      case Taken(_, _, _, _) => Quiet
      case _ => channel
  }

  function ChannelOf(log: seq<Event>, id: JobId): Channel {
    if log == [] then Quiet
    else Hear(ChannelOf(log[..|log| - 1], id), log[|log| - 1], |log| - 1, id)
  }

  predicate IsHandoff(event: Event, id: JobId) {
    event.job == id && (event.Parked? || event.Accepted? || event.Taken?)
  }

  lemma {:induction false} ChannelAfter(log: seq<Event>, event: Event, id: JobId)
    ensures ChannelOf(log + [event], id) == Hear(ChannelOf(log, id), event, |log|, id)
  {
    assert (log + [event])[..|log|] == log;
  }

  /** The log at its `k`th event obeys the hand-off: answers go to an open request, and come back to it. */
  predicate LegalAt(log: seq<Event>, k: nat)
    requires k < |log|
  {
    var channel := ChannelOf(log[..k], log[k].job);
    && (log[k].Accepted? ==>
          && channel.Asked?
          && channel.park < k
          && log[channel.park].Parked?
          && log[k].pending == Some(log[channel.park].request))
    && (log[k].Taken? ==>
          && channel.Replied?
          && channel.park == log[k].park
          && channel.answer < k
          && log[channel.answer].Accepted?
          && log[channel.answer].job == log[k].job
          && log[channel.answer].decision == log[k].decision)
  }

  /** The row of `id` agrees with the log about the job's request and answer. */
  ghost predicate ChannelOk(s: State, id: JobId) {
    var channel := ChannelOf(s.log, id);
    if id !in s.db.jobs then channel.Quiet? else
      var row := s.db.jobs[id];
      && (row.submitted.Some? <==> channel.Replied?)
      && (channel.Replied? ==>
            && channel.answer < |s.log|
            && s.log[channel.answer].Accepted?
            && s.log[channel.answer].job == id
            && row.submitted == Some(s.log[channel.answer].decision))
      && (row.status.AwaitingDecision? ==>
            && !channel.Quiet?
            && channel.park < |s.log|
            && s.log[channel.park].Parked?
            && row.pending == Some(s.log[channel.park].request))
  }

  /** A parked worker is served by its own request's channel. */
  ghost predicate ParkOk(s: State, w: WorkerId)
    requires w in s.workers
  {
    var pc := s.workers[w].pc;
    pc.OnJob? && pc.stage.Parked() ==>
      && !ChannelOf(s.log, pc.job).Quiet?
      && ChannelOf(s.log, pc.job).park == pc.stage.park
      && (pc.stage.Taking? ==> pc.job in s.db.jobs && s.db.jobs[pc.job].submitted == Some(pc.stage.decision))
  }

  ghost predicate HandoffOk(s: State) {
    && (forall id :: ChannelOk(s, id))
    && (forall w :: w in s.workers ==> ParkOk(s, w))
    && (forall k :: 0 <= k < |s.log| ==> LegalAt(s.log, k))
  }

  lemma {:induction false} ChannelStep(s: State, e: Step, id: JobId)
    requires Enabled(s, e)
    ensures After(s, e).log == Extended(s.log, EventOf(s, e))
    ensures ChannelOf(After(s, e).log, id) ==
            if EventOf(s, e).Some? then Hear(ChannelOf(s.log, id), EventOf(s, e).value, |s.log|, id)
            else ChannelOf(s.log, id)
  {
    if EventOf(s, e).Some? {
      ChannelAfter(s.log, EventOf(s, e).value, id);
    }
  }

  lemma AnswerKeepsChannel(s: State, e: Step, id: JobId)
    requires Inv(s) && ChannelOk(s, id) && Enabled(s, e) && e.ClientStep? && e.client.Answer?
    ensures ChannelOk(After(s, e), id)
  {
    ChannelStep(s, e, id);
  }

  lemma ClientKeepsChannel(s: State, e: Step, id: JobId)
    requires Inv(s) && ChannelOk(s, id) && Enabled(s, e) && e.ClientStep?
    ensures ChannelOk(After(s, e), id)
  {
    if e.client.Answer? {
      AnswerKeepsChannel(s, e, id);
    } else {
      ChannelStep(s, e, id);
    }
  }

  lemma CycleKeepsChannel(s: State, e: Step, id: JobId)
    requires Inv(s) && ChannelOk(s, id) && Enabled(s, e) && e.CycleStep?
    ensures ChannelOk(After(s, e), id)
  {
    ChannelStep(s, e, id);
  }

  /** A worker's step leaves the channels of all other jobs alone. */
  lemma OtherJobKeepsChannel(s: State, e: Step, id: JobId)
    requires Inv(s) && ChannelOk(s, id) && Enabled(s, e) && e.JobStep? && s.workers[e.w].pc.job != id
    ensures ChannelOk(After(s, e), id)
  {
    JobStepFrame(s, e);
    ChannelStep(s, e, id);
  }

  lemma ParkKeepsChannel(s: State, e: Step, id: JobId)
    requires Inv(s) && ChannelOk(s, id) && Enabled(s, e) && e.JobStep? && s.workers[e.w].pc.job == id && e.move.Park?
    ensures ChannelOk(After(s, e), id)
  {
    assert PcOk(s, e.w);
    ChannelStep(s, e, id);
  }

  lemma PollKeepsChannel(s: State, e: Step, id: JobId)
    requires Inv(s) && ChannelOk(s, id) && Enabled(s, e) && e.JobStep? && s.workers[e.w].pc.job == id
    requires e.move.PollRead? || e.move.PollTake? || e.move.PollAbort?
    ensures ChannelOk(After(s, e), id)
  {
    assert PcOk(s, e.w);
    ChannelStep(s, e, id);
  }

  lemma OwnJobKeepsChannel(s: State, e: Step, id: JobId)
    requires Inv(s) && ChannelOk(s, id) && Enabled(s, e) && e.JobStep? && s.workers[e.w].pc.job == id
    ensures ChannelOk(After(s, e), id)
  {
    if e.move.Park? {
      ParkKeepsChannel(s, e, id);
    } else if e.move.PollRead? || e.move.PollTake? || e.move.PollAbort? {
      PollKeepsChannel(s, e, id);
    } else {
      RestKeepsChannel(s, e, id);
    }
  }

  lemma RestKeepsChannel(s: State, e: Step, id: JobId)
    requires Inv(s) && ChannelOk(s, id) && Enabled(s, e) && e.JobStep? && s.workers[e.w].pc.job == id
    requires !e.move.Park? && !e.move.PollRead? && !e.move.PollTake? && !e.move.PollAbort?
    ensures ChannelOk(After(s, e), id)
  {
    assert PcOk(s, e.w) && RowFits(s, id);
    ChannelStep(s, e, id);
  }

  lemma StepKeepsChannel(s: State, e: Step, id: JobId)
    requires Inv(s) && ChannelOk(s, id) && Enabled(s, e)
    ensures ChannelOk(After(s, e), id)
  {
    match e
    case ClientStep(_) => ClientKeepsChannel(s, e, id);
    case CycleStep(_, _) => CycleKeepsChannel(s, e, id);
    case JobStep(w, _) =>
      if s.workers[w].pc.job == id { OwnJobKeepsChannel(s, e, id); } else { OtherJobKeepsChannel(s, e, id); }
    case _ => ChannelStep(s, e, id);
  }

  lemma OwnStepKeepsPark(s: State, e: Step)
    requires Inv(s) && HandoffOk(s) && Enabled(s, e) && e.JobStep?
    ensures ParkOk(After(s, e), e.w)
  {
    assert ParkOk(s, e.w) && PcOk(s, e.w);
    ChannelStep(s, e, s.workers[e.w].pc.job);
    assert ChannelOk(s, s.workers[e.w].pc.job);
  }

  /** Nobody else parks or takes on a worker's job. */
  lemma OtherWorkersKeepPark(s: State, e: Step, w: WorkerId)
    requires Inv(s) && HandoffOk(s) && Enabled(s, e) && w in s.workers && e.JobStep? && e.w != w
    ensures ParkOk(After(s, e), w)
  {
    JobStepFrame(s, e);
    assert ParkOk(s, w) && PcOk(s, w) && PcOk(s, e.w);
    if s.workers[w].pc.OnJob? {
      ChannelStep(s, e, s.workers[w].pc.job);
    }
  }

  /** A client's answer leaves the request in place; recovery leaves an answer in place. */
  lemma RestKeepsPark(s: State, e: Step, w: WorkerId)
    requires Inv(s) && HandoffOk(s) && Enabled(s, e) && !e.JobStep? && w in After(s, e).workers
    ensures ParkOk(After(s, e), w)
  {
    var pc := After(s, e).workers[w].pc;
    if pc.OnJob? && pc.stage.Parked() {
      assert s.workers[w].pc == pc && ParkOk(s, w) && PcOk(s, w);
      ChannelStep(s, e, pc.job);
      assert ChannelOk(s, pc.job);
    }
  }

  lemma StepIsLegal(s: State, e: Step)
    requires Inv(s) && HandoffOk(s) && Enabled(s, e) && EventOf(s, e).Some?
    ensures LegalAt(s.log + [EventOf(s, e).value], |s.log|)
  {
    var event := EventOf(s, e).value;
    var log := s.log + [event];
    assert log[..|s.log|] == s.log;
    assert ChannelOk(s, event.job);
    if e.JobStep? {
      assert ParkOk(s, e.w);
    }
  }

  lemma StepKeepsHandoff(s: State, e: Step)
    requires Inv(s) && HandoffOk(s) && Enabled(s, e)
    ensures HandoffOk(After(s, e))
  {
    var s' := After(s, e);
    forall id ensures ChannelOk(s', id) {
      StepKeepsChannel(s, e, id);
    }
    forall w | w in s'.workers ensures ParkOk(s', w) {
      if !e.JobStep? {
        RestKeepsPark(s, e, w);
      } else if e.w == w {
        OwnStepKeepsPark(s, e);
      } else {
        OtherWorkersKeepPark(s, e, w);
      }
    }
    ChannelStep(s, e, 0);
    forall k | 0 <= k < |s'.log| ensures LegalAt(s'.log, k) {
      if k < |s.log| {
        assert LegalAt(s.log, k);
        assert s'.log[..k] == s.log[..k];
      } else {
        StepIsLegal(s, e);
      }
    }
  }

  lemma {:induction false} HandoffHolds(states: seq<State>, steps: seq<Step>, i: nat)
    requires IsRun(states, steps) && i < |states|
    ensures HandoffOk(states[i])
  {
    if i == 0 {
    } else {
      HandoffHolds(states, steps, i - 1);
      Reachable(states, steps, i - 1);
      StepKeepsHandoff(states[i - 1], steps[i - 1]);
    }
  }

  /** What a channel state says about the legal log it was read from. */
  ghost predicate Meaning(log: seq<Event>, id: JobId, channel: Channel) {
    match channel
    case Quiet => true
    case Asked(park) => IsPark(log, id, park) && forall m :: park < m < |log| ==> !IsHandoff(log[m], id)
    case Replied(park, answer) =>
      && IsPark(log, id, park)
      && park < answer < |log|
      && log[answer].Accepted?
      && log[answer].job == id
      && log[answer].pending == Some(log[park].request)
      && forall m :: park < m < |log| && m != answer ==> !IsHandoff(log[m], id)
  }

  predicate IsPark(log: seq<Event>, id: JobId, park: nat) {
    park < |log| && log[park].Parked? && log[park].job == id
  }

  lemma {:induction false} ChannelMeans(log: seq<Event>, id: JobId)
    requires forall k :: 0 <= k < |log| ==> LegalAt(log, k)
    ensures Meaning(log, id, ChannelOf(log, id))
  {
    if log == [] {
    } else {
      var before := log[..|log| - 1];
      forall k | 0 <= k < |before| ensures LegalAt(before, k) {
        assert LegalAt(log, k);
        assert before[..k] == log[..k];
      }
      ChannelMeans(before, id);
      assert LegalAt(log, |log| - 1);
    }
  }

  /**
    The answer at `a` is the one request `log[k].park` took at `k`: both belong to the same job, the answer was
    accepted while that very request was pending, and nothing else of the hand-off lies between.
   */
  predicate HandedOver(log: seq<Event>, a: nat, k: nat)
    requires a < |log| && k < |log| && log[k].Taken?
  {
    var park := log[k].park;
    && park < a < k
    && IsPark(log, log[k].job, park)
    && log[a] == Accepted(log[k].job, Some(log[park].request), log[k].decision)
    && forall m :: park < m < k && m != a ==> !IsHandoff(log[m], log[k].job)
  }

  /** In every interleaving, each decision a request takes was accepted for that request, and not before it. */
  lemma TakenAnswersFitTheirRequest(states: seq<State>, steps: seq<Step>, k: nat)
    requires IsRun(states, steps)
    requires k < |states[|steps|].log| && states[|steps|].log[k].Taken?
    ensures exists a: nat :: a < k && HandedOver(states[|steps|].log, a, k)
  {
    var log := states[|steps|].log;
    HandoffHolds(states, steps, |steps|);
    forall m | 0 <= m < k ensures LegalAt(log[..k], m) {
      assert LegalAt(log, m);
      assert log[..k][..m] == log[..m];
    }
    ChannelMeans(log[..k], log[k].job);
    assert LegalAt(log, k);
    var a := ChannelOf(log[..k], log[k].job).answer;
    assert a < k && HandedOver(log, a, k);
  }

  /** No accepted answer is taken twice, and no two requests share one. */
  lemma AnswersAreTakenAtMostOnce(log: seq<Event>, a: nat, k: nat, n: nat)
    requires a < |log| && k < |log| && n < |log| && log[k].Taken? && log[n].Taken?
    requires HandedOver(log, a, k) && HandedOver(log, a, n)
    ensures k == n
  {
    if k < n {
      assert log[n].park < k < n && IsHandoff(log[k], log[n].job);
    } else if n < k {
      assert log[k].park < n < k && IsHandoff(log[n], log[k].job);
    }
  }
}
