/**
  Why the fail-stop hypothesis is there: concrete runs in which a worker goes on after losing its lease. Each shows
  one place where the code relies on the lease instead of checking it.
 */
module StaleWorkers {
  import opened Wrappers
  import opened ImportJobs
  import opened StoreSpec
  import opened ImportProtocol
  import opened ProtocolInvariant
  import opened Leadership
  import opened FailStopSafety

  ghost predicate IsReachable(s: State) {
    exists states, steps :: IsRun(states, steps) && states[|steps|] == s
  }

  lemma InitIsReachable(s: State)
    requires Init(s)
    ensures IsReachable(s)
  {
    assert IsRun([s], []);
  }

  lemma StepIsReachable(s: State, e: Step)
    requires IsReachable(s) && Enabled(s, e)
    ensures IsReachable(After(s, e))
  {
    var states, steps :| IsRun(states, steps) && states[|steps|] == s;
    var states', steps' := states + [After(s, e)], steps + [e];
    assert IsRun(states', steps') && states'[|steps'|] == After(s, e);
  }

  function Claimant(s: State, w: WorkerId, id: JobId): State
    requires w in s.workers
  {
    s.(db := Claim(s.db, id, w), workers := s.workers[w := s.workers[w].(pc := OnJob(id, Rereading))],
       log := s.log + [Claimed(id, w)])
  }

  lemma ClaimIsReachable(s: State, w: WorkerId, id: JobId)
    requires IsReachable(s) && Live(s, w) && s.workers[w].pc.Selecting? && OldestPending(s.db, id)
    ensures IsReachable(Claimant(s, w, id))
  {
    StepIsReachable(s, CycleStep(w, Select(Some(id))));
    var s1 := After(s, CycleStep(w, Select(Some(id))));
    StepIsReachable(s1, CycleStep(w, ClaimSelected));
    assert After(s1, CycleStep(w, ClaimSelected)) == Claimant(s, w, id);
  }

  function Electee(s: State, w: WorkerId, reading: Time): State {
    s.(db := RecoverOrphans(AcquireLock(s.db, w, reading, LEASE), w),
       workers := s.workers[w := Worker(Selecting, true, reading)])
  }

  lemma ElectionIsReachable(s: State, w: WorkerId, reading: Time)
    requires IsReachable(s) && Live(s, w) && s.workers[w].pc.Idle? && !s.workers[w].wasLeader
    requires s.workers[w].lastReading <= reading <= s.clock && CanAcquire(s.db.lock, w, reading)
    ensures IsReachable(Electee(s, w, reading))
  {
    StepIsReachable(s, CycleStep(w, Acquire(reading)));
    var s1 := After(s, CycleStep(w, Acquire(reading)));
    StepIsReachable(s1, CycleStep(w, Recover));
    assert After(s1, CycleStep(w, Recover)) == Electee(s, w, reading);
  }

  lemma TickIsReachable(s: State, now: Time)
    requires IsReachable(s) && s.clock <= now
    ensures IsReachable(s.(clock := now))
  {
    StepIsReachable(s, Tick(now));
  }

  const PLAIN := Settings(["/downloads/album"], false, None, false, false, map[], None, None, false)

  function Row(status: Status, claimedBy: Option<WorkerId>, error: Option<string>): Job {
    Job(status, PLAIN, 0, claimedBy, error, false, None, None, None)
  }

  function Leader(pc: Pc, reading: Time): Worker {
    Worker(pc, true, reading)
  }

  /** Worker 1 runs job 10; worker 2 and job 11 wait. */
  function OneAtWork(): State {
    State(Db(map[10 := Row(Running, Some(1), None), 11 := Row(Status.Pending, None, None)],
             Some(Lock(Some(1), Some(LEASE)))),
          0,
          map[1 := Leader(OnJob(10, Importing), 0), 2 := Worker(Idle, false, 0)],
          {},
          [Claimed(10, 1)])
  }

  /** A lease later, worker 2 has been elected and has failed job 10 as an orphan; worker 1 never noticed. */
  function TakenOver(): State {
    State(Db(map[10 := Row(Failed, Some(1), Some(ORPHAN_ERROR)), 11 := Row(Status.Pending, None, None)],
             Some(Lock(Some(2), Some(LEASE + 1 + LEASE)))),
          LEASE + 1,
          map[1 := Leader(OnJob(10, Importing), 0), 2 := Leader(Selecting, LEASE + 1)],
          {},
          [Claimed(10, 1)])
  }

  function Submitted(): State {
    State(Db(map[10 := Row(Status.Pending, None, None), 11 := Row(Status.Pending, None, None)], Some(Lock(None, None))),
          0, map[1 := Worker(Idle, false, 0), 2 := Worker(Idle, false, 0)], {}, [])
  }

  lemma SubmittedIsReachable()
    ensures IsReachable(Submitted())
  {
    var s0 := State(Db(map[], None), 0, map[], {}, []);
    InitIsReachable(s0);
    StepIsReachable(s0, Start(1));
    var s1 := After(s0, Start(1));
    StepIsReachable(s1, Start(2));
    var s2 := After(s1, Start(2));
    StepIsReachable(s2, ClientStep(Submit(10, PLAIN, 0)));
    var s3 := After(s2, ClientStep(Submit(10, PLAIN, 0)));
    StepIsReachable(s3, ClientStep(Submit(11, PLAIN, 0)));
    assert After(s3, ClientStep(Submit(11, PLAIN, 0))) == Submitted();
  }

  /** Worker 1 has been elected and is about to look for work. */
  function Elected(): State {
    Submitted().(
      db := Submitted().db.(lock := Some(Lock(Some(1), Some(LEASE)))),
      workers := map[1 := Leader(Selecting, 0), 2 := Worker(Idle, false, 0)])
  }

  lemma ElectedIsReachable()
    ensures IsReachable(Elected())
  {
    SubmittedIsReachable();
    ElectionIsReachable(Submitted(), 1, 0);
    assert Electee(Submitted(), 1, 0) == Elected();
  }

  lemma OneAtWorkIsReachable()
    ensures IsReachable(OneAtWork())
  {
    ElectedIsReachable();
    assert OldestPending(Elected().db, 10);
    ClaimIsReachable(Elected(), 1, 10);
    var s := Claimant(Elected(), 1, 10);
    StepIsReachable(s, JobStep(1, Reread));
    assert After(s, JobStep(1, Reread)) == OneAtWork();
  }

  lemma TakenOverIsReachable()
    ensures IsReachable(TakenOver())
  {
    OneAtWorkIsReachable();
    TickIsReachable(OneAtWork(), LEASE + 1);
    ElectionIsReachable(OneAtWork().(clock := LEASE + 1), 2, LEASE + 1);
    assert Electee(OneAtWork().(clock := LEASE + 1), 2, LEASE + 1) == TakenOver();
  }

  /** A renewal that comes too late, its failure ignored, lets two workers run jobs at the same time. */
  lemma TwoWorkersCanRunJobs()
    ensures exists s :: IsReachable(s) && Carries(s, 1, 10) && Carries(s, 2, 11)
  {
    TakenOverIsReachable();
    assert OldestPending(TakenOver().db, 11);
    ClaimIsReachable(TakenOver(), 2, 11);
    var s := Claimant(TakenOver(), 2, 11);
    assert Carries(s, 1, 10) && Carries(s, 2, 11);
  }

  ghost predicate OneAtATime(s: State) {
    forall v, w, a, b :: Carries(s, v, a) && Carries(s, w, b) ==> v == w
  }

  /** A claim succeeds while another live worker is on a job. */
  ghost predicate ClaimsBeside(s: State, e: Step) {
    Claims(s, e) && exists v, a :: v != e.w && Carries(s, v, a)
  }

  /** Exactly when that happens, in any interleaving: a claim succeeds while another live worker is on a job. */
  lemma TwoWorkersRunJobsExactly(s: State, e: Step)
    requires OneAtATime(s) && Enabled(s, e)
    ensures OneAtATime(After(s, e)) <==> !ClaimsBeside(s, e)
  {
    var s' := After(s, e);
    forall v, a | Carries(s', v, a) && !(Claims(s, e) && v == e.w) ensures Carries(s, v, a) {
      CarriesBefore(s, e, v, a);
    }
    if Claims(s, e) {
      var id := s.workers[e.w].pc.job;
      assert Carries(s', e.w, id);
      if v, a :| v != e.w && Carries(s, v, a) {
        assert Carries(s', v, a);
      }
    }
  }

  ghost predicate ClaimsApart(states: seq<State>, steps: seq<Step>, n: nat)
    requires IsRun(states, steps) && n <= |steps|
  {
    forall i :: 0 <= i < n ==> !ClaimsBeside(states[i], steps[i])
  }

  /** Over any stretch of any run, no two workers are on jobs at a time exactly if no such claim succeeds. */
  lemma {:induction false} OneAtATimeExactly(states: seq<State>, steps: seq<Step>, n: nat)
    requires IsRun(states, steps) && n <= |steps|
    ensures (forall i :: 0 <= i <= n ==> OneAtATime(states[i])) <==> ClaimsApart(states, steps, n)
  {
    if n == 0 {
    } else {
      var s, e := states[n - 1], steps[n - 1];
      OneAtATimeExactly(states, steps, n - 1);
      assert states[n] == After(s, e);
      if OneAtATime(s) {
        TwoWorkersRunJobsExactly(s, e);
      }
      assert ClaimsApart(states, steps, n) <==> ClaimsApart(states, steps, n - 1) && !ClaimsBeside(s, e);
    }
  }

  lemma CarriesBefore(s: State, e: Step, v: WorkerId, a: JobId)
    requires Enabled(s, e) && Carries(After(s, e), v, a) && !(Claims(s, e) && v == e.w)
    ensures Carries(s, v, a)
  {
  }

  /** `set_status` has no status guard: a stale worker overwrites the FAILED that recovery wrote with COMPLETED. */
  lemma TerminalStatusCanBeOverwritten()
    ensures exists s, e :: (
      && IsReachable(s) && Enabled(s, e)
      && HasStatus(s.db, 10, Failed) && HasStatus(After(s, e).db, 10, Completed))
  {
    TakenOverIsReachable();
    var s0 := TakenOver();
    StepIsReachable(s0, JobStep(1, PipelineEnds));
    var s1 := s0.(workers := s0.workers[1 := Leader(OnJob(10, Concluding), 0)]);
    assert After(s0, JobStep(1, PipelineEnds)) == s1;
    StepIsReachable(s1, JobStep(1, FinalRead));
    var s2 := After(s1, JobStep(1, FinalRead));
    assert Enabled(s2, JobStep(1, WriteTerminal));
    assert HasStatus(s2.db, 10, Failed) && HasStatus(After(s2, JobStep(1, WriteTerminal)).db, 10, Completed);
  }

  /**
    Exactly when a step of any interleaving takes a job out of its terminal status: a worker still on that job parks
    it, takes a stored answer for it, or writes another terminal status. The lease alone keeps these from happening.
   */
  lemma TerminalIsLeftExactly(s: State, e: Step, id: JobId)
    requires Inv(s) && Enabled(s, e) && id in s.db.jobs && s.db.jobs[id].status.Terminal()
    ensures After(s, e).db.jobs[id].status != s.db.jobs[id].status <==>
      && e.JobStep?
      && s.workers[e.w].pc.job == id
      && (|| e.move.Park?
          || (e.move.PollTake? && s.db.jobs[id].submitted.Some?)
          || (e.move.WriteTerminal? && s.workers[e.w].pc.stage.status != s.db.jobs[id].status))
  {
    if e.JobStep? {
      JobStepFrame(s, e);
      assert PcOk(s, e.w);
    }
  }

  /** Worker 1 idles past its lease with `_was_leader` set; worker 2 is elected. */
  function Displaced(): State {
    Submitted().(
      db := Submitted().db.(lock := Some(Lock(Some(2), Some(LEASE + 1 + LEASE)))),
      clock := LEASE + 1,
      workers := map[1 := Leader(Idle, 0), 2 := Leader(Selecting, LEASE + 1)])
  }

  /** Worker 1 after a transient error in its first cycle as leader. */
  function Idling(): State {
    Elected().(workers := map[1 := Leader(Idle, 0), 2 := Worker(Idle, false, 0)], clock := LEASE + 1)
  }

  lemma DisplacedIsReachable()
    ensures IsReachable(Displaced())
  {
    ElectedIsReachable();
    var s := Elected();
    StepIsReachable(s, CycleStep(1, CycleError));
    TickIsReachable(After(s, CycleStep(1, CycleError)), LEASE + 1);
    assert After(s, CycleStep(1, CycleError)).(clock := LEASE + 1) == Idling();
    ElectionIsReachable(Idling(), 2, LEASE + 1);
    assert Electee(Idling(), 2, LEASE + 1) == Displaced();
  }

  /** Worker 2 claims job 10 and dies. */
  lemma ClaimantDiedIsReachable()
    ensures IsReachable(ClaimantDied())
  {
    DisplacedIsReachable();
    assert OldestPending(Displaced().db, 10);
    ClaimIsReachable(Displaced(), 2, 10);
    var s := Claimant(Displaced(), 2, 10);
    StepIsReachable(s, Crash(2));
    assert After(s, Crash(2)) == ClaimantDied();
  }

  function ClaimantDied(): State {
    State(Db(map[10 := Row(Running, Some(2), None), 11 := Row(Status.Pending, None, None)],
             Some(Lock(Some(2), Some(LEASE + 1 + LEASE)))),
          LEASE + 1,
          map[1 := Leader(Idle, 0), 2 := Leader(Dead, LEASE + 1)],
          {},
          [Claimed(10, 2)])
  }

  /**
    `_was_leader` is cleared only by an acquire that is seen to fail: a worker that was displaced and re-elected
    without noticing goes straight to claiming, and the orphan between stays active. The step is one of those that
    Leadership.OrphansAreRecoveredExactly names.
   */
  lemma ReelectionCanSkipRecovery()
    ensures exists s, e :: (
      && IsReachable(s) && OrphansAreRecovered(s) && Enabled(s, e) && LeavesOrphan(s, e)
      && var s' := After(s, e);
         && Holds(s', 1) && Live(s', 1) && s'.workers[1].pc.Selecting?
         && 10 in s'.db.jobs && HasFate(s', 10, Orphaned))
  {
    ClaimantDiedIsReachable();
    var s0 := ClaimantDied();
    var late := LEASE + 1 + LEASE + 1;
    TickIsReachable(s0, late);
    var s, e := s0.(clock := late), CycleStep(1, Acquire(late));
    assert IsOrphan(s, 10) && Regains(s, e);
    var s' := After(s, e);
    assert Holds(s', 1) && Live(s', 1) && HasFate(s', 10, Orphaned);
  }
}
