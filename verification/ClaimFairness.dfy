/**
  Jobs are claimed in creation order, in every interleaving, when creation stamps follow insertion order.
 */
module ClaimFairness {
  import opened ImportJobs
  import opened StoreSpec
  import opened ImportProtocol
  import opened ProtocolInvariant

  /** A new job is stamped no earlier than those there are. */
  ghost predicate StampsInOrder(s: State, e: Step) {
    e.ClientStep? && e.client.Submit? ==>
      forall id :: id in s.db.jobs ==> s.db.jobs[id].createdAt <= e.client.stamp
  }

  ghost predicate IsOrderedRun(states: seq<State>, steps: seq<Step>) {
    IsRun(states, steps) && forall i :: 0 <= i < |steps| ==> StampsInOrder(states[i], steps[i])
  }

  /** A selected job that nobody has claimed yet is still the oldest. */
  ghost predicate SelectionOk(s: State) {
    forall w :: w in s.workers && s.workers[w].pc.Claiming? && HasStatus(s.db, s.workers[w].pc.job, Status.Pending)
      ==> OldestPending(s.db, s.workers[w].pc.job)
  }

  lemma StepKeepsSelection(s: State, e: Step)
    requires Inv(s) && SelectionOk(s) && Enabled(s, e) && StampsInOrder(s, e)
    ensures SelectionOk(After(s, e))
  {
    var s' := After(s, e);
    StepExtends(s, e);
    forall w | w in s'.workers && s'.workers[w].pc.Claiming? && HasStatus(s'.db, s'.workers[w].pc.job, Status.Pending)
      ensures OldestPending(s'.db, s'.workers[w].pc.job)
    {
      var id := s'.workers[w].pc.job;
      assert w in s.workers ==> PcOk(s, w);
      assert OldestPending(s.db, id);
    }
  }

  lemma {:induction false} SelectionHolds(states: seq<State>, steps: seq<Step>, i: nat)
    requires IsOrderedRun(states, steps) && i < |states|
    ensures SelectionOk(states[i])
  {
    if i == 0 {
    } else {
      SelectionHolds(states, steps, i - 1);
      Reachable(states, steps, i - 1);
      StepKeepsSelection(states[i - 1], steps[i - 1]);
    }
  }

  /** No successful claim overtakes a waiting job with an earlier stamp, though it was selected a statement before. */
  lemma NeverOvertaken(states: seq<State>, steps: seq<Step>, i: nat, id: JobId)
    requires IsOrderedRun(states, steps) && i < |steps| && Claims(states[i], steps[i])
    requires HasStatus(states[i].db, id, Status.Pending)
    ensures var claimed := states[i].workers[steps[i].w].pc.job;
      states[i].db.jobs[claimed].createdAt <= states[i].db.jobs[id].createdAt
  {
    SelectionHolds(states, steps, i);
  }

  /** The waiting jobs stamped no later than `id`, itself included. */
  function Ahead(db: Db, id: JobId): set<JobId>
    requires id in db.jobs
  {
    set other | other in db.jobs && db.jobs[other].status.Pending? && db.jobs[other].createdAt <= db.jobs[id].createdAt
  }

  /** The step creates a job stamped exactly like `id`. */
  predicate Ties(s: State, e: Step, id: JobId)
    requires id in s.db.jobs
  {
    e.ClientStep? && e.client.Submit? && e.client.stamp == s.db.jobs[id].createdAt
  }

  /** Successful claims between states `i` and `k`. */
  ghost function ClaimCount(states: seq<State>, steps: seq<Step>, i: nat, k: nat): nat
    requires i <= k <= |steps| <= |states|
    decreases k
  {
    if i == k then 0
    else ClaimCount(states, steps, i, k - 1) + if Claims(states[k - 1], steps[k - 1]) then 1 else 0
  }

  ghost function TieCount(states: seq<State>, steps: seq<Step>, i: nat, k: nat, id: JobId): nat
    requires i <= k <= |steps| <= |states|
    decreases k
  {
    if i == k then 0
    else TieCount(states, steps, i, k - 1, id) +
         if id in states[k - 1].db.jobs && Ties(states[k - 1], steps[k - 1], id) then 1 else 0
  }

  lemma OnlySubmissionsCreate(s: State, e: Step)
    requires Enabled(s, e) && !(e.ClientStep? && e.client.Submit?)
    ensures After(s, e).db.jobs.Keys == s.db.jobs.Keys
  {
  }

  lemma QueueNeverGrows(s: State, e: Step, id: JobId)
    requires Inv(s) && Enabled(s, e) && !(e.ClientStep? && e.client.Submit?) && id in s.db.jobs
    ensures id in After(s, e).db.jobs && Ahead(After(s, e).db, id) <= Ahead(s.db, id)
  {
    OnlySubmissionsCreate(s, e);
    StepExtends(s, e);
    var s' := After(s, e);
    assert id in s'.db.jobs;
    forall other | other in Ahead(s'.db, id) ensures other in Ahead(s.db, id) {
      assert other in s'.db.jobs.Keys;
      assert other in s.db.jobs;
    }
  }

  lemma ClaimShortensQueue(s: State, e: Step, id: JobId)
    requires Inv(s) && SelectionOk(s) && Enabled(s, e) && Claims(s, e)
    requires HasStatus(s.db, id, Status.Pending) && HasStatus(After(s, e).db, id, Status.Pending)
    ensures |Ahead(After(s, e).db, id)| == |Ahead(s.db, id)| - 1
  {
    var claimed := s.workers[e.w].pc.job;
    assert After(s, e).db == Claim(s.db, claimed, e.w);
    assert OldestPending(s.db, claimed);
    assert claimed in Ahead(s.db, id);
    assert Ahead(After(s, e).db, id) == Ahead(s.db, id) - {claimed};
  }

  lemma SubmitExtendsQueue(s: State, e: Step, id: JobId)
    requires Enabled(s, e) && StampsInOrder(s, e) && e.ClientStep? && e.client.Submit? && id in s.db.jobs
    ensures |Ahead(After(s, e).db, id)| == |Ahead(s.db, id)| + if Ties(s, e, id) then 1 else 0
  {
    assert After(s, e).db == Create(s.db, e.client.id, e.client.settings, e.client.stamp);
    assert Ahead(After(s, e).db, id) == Ahead(s.db, id) + if Ties(s, e, id) then {e.client.id} else {};
  }

  /** One step's effect on the queue ahead of a job that keeps waiting. */
  lemma StepShortensQueue(s: State, e: Step, id: JobId)
    requires Inv(s) && SelectionOk(s) && Enabled(s, e) && StampsInOrder(s, e)
    requires HasStatus(s.db, id, Status.Pending) && HasStatus(After(s, e).db, id, Status.Pending)
    ensures |Ahead(After(s, e).db, id)| + (if Claims(s, e) then 1 else 0)
         <= |Ahead(s.db, id)| + (if Ties(s, e, id) then 1 else 0)
  {
    if Claims(s, e) {
      ClaimShortensQueue(s, e, id);
    } else if e.ClientStep? && e.client.Submit? {
      SubmitExtendsQueue(s, e, id);
    } else {
      QueueNeverGrows(s, e, id);
      SubsetIsSmaller(Ahead(After(s, e).db, id), Ahead(s.db, id));
    }
  }

  lemma SubsetIsSmaller(a: set<JobId>, b: set<JobId>)
    requires a <= b
    ensures |a| <= |b|
  {
    assert b == a + (b - a);
  }

  lemma StaysPending(states: seq<State>, steps: seq<Step>, i: nat, m: nat, k: nat, id: JobId)
    requires IsRun(states, steps) && i <= m <= k < |states|
    requires id in states[i].db.jobs && HasStatus(states[k].db, id, Status.Pending)
    ensures HasStatus(states[m].db, id, Status.Pending)
  {
    HistoryOnlyGrows(states, steps, i, m);
    HistoryOnlyGrows(states, steps, m, k);
  }

  /**
    No starvation: while a job waits, every successful claim shortens the queue ahead of it, which only jobs with
    the very same stamp can lengthen. So at most that many claims happen before its own.
   */
  lemma {:induction false} EveryClaimShortensTheQueue(
      states: seq<State>, steps: seq<Step>, i: nat, k: nat, id: JobId)
    requires IsOrderedRun(states, steps) && i <= k <= |steps|
    requires HasStatus(states[i].db, id, Status.Pending) && HasStatus(states[k].db, id, Status.Pending)
    ensures ClaimCount(states, steps, i, k) + |Ahead(states[k].db, id)|
         <= |Ahead(states[i].db, id)| + TieCount(states, steps, i, k, id)
    decreases k
  {
    if i == k {
    } else {
      StaysPending(states, steps, i, k - 1, k, id);
      Reachable(states, steps, k - 1);
      EveryClaimShortensTheQueue(states, steps, i, k - 1, id);
      SelectionHolds(states, steps, k - 1);
      StepShortensQueue(states[k - 1], steps[k - 1], id);
    }
  }
}
