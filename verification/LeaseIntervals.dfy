/**
  The lease itself, in every interleaving and whatever its holders do with it: the intervals it grants to different
  workers never overlap. A reading of the clock may be older than the UPDATE that uses it; all that is assumed is
  that each worker's own readings do not go back.
 */
module LeaseIntervals {
  import opened Wrappers
  import opened ImportJobs
  import opened StoreSpec
  import opened ImportProtocol

  /** The step asks for the lease, from the leader cycle or from the renewal task. */
  predicate Asks(e: Step) {
    (e.CycleStep? && e.cycle.Acquire?) || (e.JobStep? && e.move.Renew?)
  }

  function Reading(e: Step): Time
    requires Asks(e)
  {
    if e.CycleStep? then e.cycle.reading else e.move.reading
  }

  /** The step grants worker `e.w` the interval from its reading to a lease later. */
  predicate Grants(s: State, e: Step) {
    Asks(e) && CanAcquire(s.db.lock, e.w, Reading(e))
  }

  /** The grant of `w` at `reading` is over, or its worker still is the holder. */
  ghost predicate Remembered(s: State, w: WorkerId, reading: Time) {
    && s.db.lock.Some?
    && s.db.lock.value.holder.Some?
    && s.db.lock.value.holder.value in s.workers
    && var holder := s.db.lock.value.holder.value;
       var since := s.workers[holder].lastReading;
       && s.db.lock.value.expiresAt == Some(since + LEASE)
       && reading <= since
       && (w != holder ==> reading + LEASE < since)
  }

  lemma StepRemembers(s: State, e: Step, w: WorkerId, reading: Time)
    requires Enabled(s, e) && Remembered(s, w, reading)
    ensures Remembered(After(s, e), w, reading)
  {
  }

  lemma {:induction false} GrantIsRemembered(states: seq<State>, steps: seq<Step>, i: nat, n: nat)
    requires IsRun(states, steps) && i < n <= |steps| && Grants(states[i], steps[i])
    ensures Remembered(states[n], steps[i].w, Reading(steps[i]))
    decreases n
  {
    if i + 1 == n {
    } else {
      GrantIsRemembered(states, steps, i, n - 1);
      StepRemembers(states[n - 1], steps[n - 1], steps[i].w, Reading(steps[i]));
    }
  }

  /** Of two grants to different workers, the earlier one's recorded expiry lies before the later one's start. */
  lemma GrantedIntervalsAreDisjoint(states: seq<State>, steps: seq<Step>, i: nat, k: nat)
    requires IsRun(states, steps) && i < k < |steps|
    requires Grants(states[i], steps[i]) && Grants(states[k], steps[k]) && steps[i].w != steps[k].w
    ensures Reading(steps[i]) + LEASE < Reading(steps[k])
  {
    GrantIsRemembered(states, steps, i, k);
  }
}
