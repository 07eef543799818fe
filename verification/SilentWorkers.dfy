/**
  Fail-stop runs stand for all runs in which a worker that loses its lease takes no further step: one that merely
  stays silent leaves the same tables and the same history as one that died just before.
 */
module SilentWorkers {
  import opened Wrappers
  import opened ImportJobs
  import opened ImportProtocol
  import opened ProtocolInvariant
  import opened LeaseIntervals
  import opened Leadership
  import opened FailStopSafety

  predicate IsStepOf(e: Step, w: WorkerId) {
    (e.Start? || e.Crash? || e.CycleStep? || e.JobStep?) && e.w == w
  }

  /** The step takes the lease from `w` in the middle of a cycle. */
  predicate DisplacesWorker(s: State, e: Step, w: WorkerId)
    requires Enabled(s, e)
  {
    Displaces(s, e) && s.db.lock.value.holder.value == w
  }

  /** A worker that is displaced in the middle of a cycle takes no step from then on. */
  ghost predicate IsSilentRun(states: seq<State>, steps: seq<Step>) {
    && IsRun(states, steps)
    && forall i, k, w :: 0 <= i < k < |steps| && DisplacesWorker(states[i], steps[i], w) ==> !IsStepOf(steps[k], w)
  }

  /** The state with the given workers dead. */
  function Muted(s: State, silent: set<WorkerId>): State {
    s.(workers := map w | w in s.workers :: if w in silent then s.workers[w].(pc := Dead) else s.workers[w])
  }

  ghost predicate Keeps(e: Step, silent: set<WorkerId>) {
    forall w :: w in silent ==> !IsStepOf(e, w)
  }

  /** Whoever is silent makes no difference to a step of anybody else. */
  lemma MutedStep(s: State, e: Step, silent: set<WorkerId>)
    requires Enabled(s, e) && Keeps(e, silent)
    ensures Enabled(Muted(s, silent), e) && After(Muted(s, silent), e) == Muted(After(s, e), silent)
  {
    var t, t' := Muted(s, silent), Muted(After(s, e), silent);
    assert e.Tick? || e.ClientStep? || IsStepOf(e, e.w);
    assert After(t, e).workers == t'.workers;
  }

  /** Falling silent is dying. */
  lemma MutedCrash(s: State, silent: set<WorkerId>, w: WorkerId)
    requires Live(s, w) && w !in silent
    ensures Enabled(Muted(s, silent), Crash(w)) && FailStop(Muted(s, silent), Crash(w))
    ensures After(Muted(s, silent), Crash(w)) == Muted(s, silent + {w})
  {
    assert After(Muted(s, silent), Crash(w)).workers == Muted(s, silent + {w}).workers;
  }

  lemma MutedFailStop(s: State, e: Step, silent: set<WorkerId>)
    requires Enabled(s, e) && Enabled(Muted(s, silent), e)
    requires Displaces(s, e) ==> s.db.lock.value.holder.value in silent
    ensures FailStop(Muted(s, silent), e)
  {
  }

  lemma ExtendRun(states: seq<State>, steps: seq<Step>, e: Step) returns (states': seq<State>, steps': seq<Step>)
    requires IsFailStopRun(states, steps) && Enabled(states[|steps|], e) && FailStop(states[|steps|], e)
    ensures IsFailStopRun(states', steps') && |steps'| > 0
    ensures states'[|steps'|] == After(states[|steps|], e)
  {
    states', steps' := states + [After(states[|steps|], e)], steps + [e];
  }

  /** Someone displaced `w` before step `n`. */
  ghost predicate WasDisplaced(states: seq<State>, steps: seq<Step>, n: nat, w: WorkerId)
    requires IsRun(states, steps) && n <= |steps|
  {
    exists i :: 0 <= i < n && DisplacesWorker(states[i], steps[i], w)
  }

  /** Every state of a silent run has a fail-stop run to it, but for displaced workers, dead instead of silent. */
  lemma {:induction false} SilentRunsAreFailStop(states: seq<State>, steps: seq<Step>, n: nat)
    returns (states': seq<State>, steps': seq<Step>, silent: set<WorkerId>)
    requires IsSilentRun(states, steps) && n <= |steps|
    ensures IsFailStopRun(states', steps') && states'[|steps'|] == Muted(states[n], silent)
    ensures forall w :: w in silent ==> WasDisplaced(states, steps, n, w)
    decreases n
  {
    if n == 0 {
      states', steps', silent := [states[0]], [], {};
      assert Muted(states[0], {}).workers == states[0].workers;
    } else {
      var s, e := states[n - 1], steps[n - 1];
      states', steps', silent := SilentRunsAreFailStop(states, steps, n - 1);
      assert states[n] == After(s, e);
      var before := silent;
      if Displaces(s, e) && s.db.lock.value.holder.value !in silent {
        var w := s.db.lock.value.holder.value;
        MutedCrash(s, silent, w);
        states', steps' := ExtendRun(states', steps', Crash(w));
        silent := silent + {w};
        assert DisplacesWorker(s, e, w);
      }
      StaysSilent(states, steps, n - 1, before);
      assert Keeps(e, silent);
      MutedStep(s, e, silent);
      MutedFailStop(s, e, silent);
      states', steps' := ExtendRun(states', steps', e);
      forall w | w in silent ensures WasDisplaced(states, steps, n, w) {
        if w in before {
          assert WasDisplaced(states, steps, n - 1, w);
        } else {
          assert DisplacesWorker(states[n - 1], steps[n - 1], w);
        }
      }
    }
  }

  lemma StaysSilent(states: seq<State>, steps: seq<Step>, n: nat, silent: set<WorkerId>)
    requires IsSilentRun(states, steps) && n < |steps|
    requires forall w :: w in silent ==> WasDisplaced(states, steps, n, w)
    ensures Keeps(steps[n], silent)
  {
    forall w | w in silent ensures !IsStepOf(steps[n], w) {
      var i :| 0 <= i < n && DisplacesWorker(states[i], steps[i], w);
    }
  }

  /** So, of the workers never displaced, at most one is on a job, in every run whose displaced workers stay silent. */
  lemma OneWorkerInSilentRuns(
      states: seq<State>, steps: seq<Step>, n: nat, v: WorkerId, w: WorkerId, a: JobId, b: JobId)
    requires IsSilentRun(states, steps) && n <= |steps|
    requires !WasDisplaced(states, steps, n, v) && !WasDisplaced(states, steps, n, w)
    requires Carries(states[n], v, a) && Carries(states[n], w, b)
    ensures v == w && a == b && Holds(states[n], w)
  {
    var states', steps', silent := SilentRunsAreFailStop(states, steps, n);
    OneWorkerOnAJob(states', steps', |steps'|, v, w, a, b);
  }
}
