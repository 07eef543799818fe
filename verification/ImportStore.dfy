/**
  The store of `core/import_store.py` as an object over the shared tables. Each method is proved against the
  functions of StoreSpec.dfy, so that what the protocol proves about those functions is about these methods. A method
  is one SQL statement: `claim_next` and `take_decision`, which run two, are two methods each.
  A statement that the database refuses leaves the tables as they were; callers model that by not calling.
 */
module ImportStore {
  import opened Wrappers
  import opened ImportJobs
  import opened StoreSpec

  class ImportStore {
    var jobs: map<JobId, Job>
    var lock: Option<Lock>

    ghost function Contents(): Db
      reads this
    {
      Db(jobs, lock)
    }

    constructor ()
      ensures Contents() == Db(map[], None)
    {
      jobs := map[];
      lock := None;
    }

    method Create(id: JobId, settings: Settings, now: Time) returns (r: Result<Job, string>)
      requires id !in jobs
      modifies this`jobs
      ensures r.Ok? <==> settings.cleanSlateAlbum == None || settings.cleanSlateItem == None
      ensures r.Ok? ==>
        && r.value == Job(Status.Pending, settings, now, None, None, false, None, None, None)
        && jobs == old(jobs)[id := r.value]
        && Contents() == StoreSpec.Create(old(Contents()), id, settings, now)
      ensures r.Err? ==> Contents() == old(Contents())
    {
      if settings.cleanSlateAlbum.Some? && settings.cleanSlateItem.Some? {
        return Err("A clean slate names an album or a standalone track, not both.");
      }
      var job := NewJob(settings, now);
      jobs := jobs[id := job];
      return Ok(job);
    }

    method Get(id: JobId) returns (r: Option<Job>)
      ensures r == if id in jobs then Some(jobs[id]) else None
    {
      return if id in jobs then Some(jobs[id]) else None;
    }

    method SetStatus(id: JobId, status: Status, error: Option<string>)
      modifies this`jobs
      ensures Contents() == StoreSpec.SetStatus(old(Contents()), id, status, error)
      ensures jobs ==
        if id !in old(jobs) then old(jobs)
        else old(jobs)[id := old(jobs)[id].(
               status := status, pending := None, error := if error.Some? then error else old(jobs)[id].error)]
    {
      if id in jobs {
        var row := jobs[id].(status := status, pending := None);
        if error.Some? {
          row := row.(error := error);
        }
        jobs := jobs[id := row];
      }
    }

    method SetOutput(id: JobId, output: string)
      modifies this`jobs
      ensures Contents() == StoreSpec.SetOutput(old(Contents()), id, output)
      ensures jobs == if id in old(jobs) then old(jobs)[id := old(jobs)[id].(output := Some(output))] else old(jobs)
    {
      if id in jobs {
        jobs := jobs[id := jobs[id].(output := Some(output))];
      }
    }

    method SetAwaiting(request: Request)
      modifies this`jobs
      ensures Contents() == StoreSpec.SetAwaiting(old(Contents()), request)
      ensures jobs ==
        if request.jobId !in old(jobs) then old(jobs)
        else old(jobs)[request.jobId := old(jobs)[request.jobId].(
               status := AwaitingDecision, pending := Some(request), submitted := None)]
    {
      if request.jobId in jobs {
        jobs := jobs[request.jobId :=
          jobs[request.jobId].(status := AwaitingDecision, pending := Some(request), submitted := None)];
      }
    }

    method SubmitDecision(id: JobId, decision: Decision) returns (accepted: bool)
      modifies this`jobs
      ensures accepted <==>
        id in old(jobs) && old(jobs)[id].status == AwaitingDecision && old(jobs)[id].submitted == None
      ensures jobs == if accepted then old(jobs)[id := old(jobs)[id].(submitted := Some(decision))] else old(jobs)
      ensures Contents() == StoreSpec.SubmitDecision(old(Contents()), id, decision)
    {
      accepted := id in jobs && jobs[id].status == AwaitingDecision && jobs[id].submitted.None?;
      if accepted {
        jobs := jobs[id := jobs[id].(submitted := Some(decision))];
      }
    }

    /** The read of `take_decision`. */
    method ReadDecision(id: JobId) returns (r: Option<Decision>)
      ensures r == SubmittedDecision(Contents(), id)
      ensures r == if id in jobs then jobs[id].submitted else None
    {
      return if id in jobs then jobs[id].submitted else None;
    }

    /** Its guarded UPDATE: `taken` only if some answer is still stored, whoever else has been there meanwhile. */
    method ConsumeDecision(id: JobId) returns (taken: bool)
      modifies this`jobs
      ensures taken <==> id in old(jobs) && old(jobs)[id].submitted.Some?
      ensures jobs ==
        if taken then old(jobs)[id := old(jobs)[id].(submitted := None, pending := None, status := Running)]
        else old(jobs)
      ensures Contents() == StoreSpec.ConsumeDecision(old(Contents()), id)
    {
      taken := id in jobs && jobs[id].submitted.Some?;
      if taken {
        jobs := jobs[id := jobs[id].(submitted := None, pending := None, status := Running)];
      }
    }

    method RequestAbort(id: JobId) returns (flagged: bool)
      modifies this`jobs
      ensures flagged <==>
        id in old(jobs) && old(jobs)[id].status in {Status.Pending, Running, AwaitingDecision}
      ensures jobs == if flagged then old(jobs)[id := old(jobs)[id].(abortRequested := true)] else old(jobs)
      ensures Contents() == StoreSpec.RequestAbort(old(Contents()), id)
    {
      flagged := id in jobs && (jobs[id].status.Pending? || jobs[id].status.Active());
      if flagged {
        jobs := jobs[id := jobs[id].(abortRequested := true)];
      }
    }

    method IsAbortRequested(id: JobId) returns (flagged: bool)
      ensures flagged == AbortRequested(Contents(), id)
      ensures flagged <==> id in jobs && jobs[id].abortRequested
    {
      return id in jobs && jobs[id].abortRequested;
    }

    method EnsureLockRow()
      modifies this`lock
      ensures Contents() == StoreSpec.EnsureLockRow(old(Contents()))
      ensures lock == if old(lock).Some? then old(lock) else Some(Lock(None, None))
    {
      if lock.None? {
        lock := Some(Lock(None, None));
      }
    }

    method AcquireLock(worker: WorkerId, now: Time, lease: Time) returns (held: bool)
      modifies this`lock
      ensures held <==>
        && old(lock).Some?
        && (|| old(lock).value.holder == Some(worker)
            || old(lock).value.holder == None
            || (old(lock).value.expiresAt.Some? && old(lock).value.expiresAt.value < now))
      ensures Contents() == StoreSpec.AcquireLock(old(Contents()), worker, now, lease)
      ensures lock == if held then Some(Lock(Some(worker), Some(now + lease))) else old(lock)
    {
      held := lock.Some? && (lock.value.holder == Some(worker) || lock.value.holder.None?
              || (lock.value.expiresAt.Some? && lock.value.expiresAt.value < now));
      if held {
        lock := Some(Lock(Some(worker), Some(now + lease)));
      }
    }

    method LockHolder() returns (holder: Option<WorkerId>)
      ensures holder == if lock.Some? then lock.value.holder else None
    {
      return if lock.Some? then lock.value.holder else None;
    }

    /** The SELECT of `claim_next`. */
    method SelectOldest() returns (r: Option<JobId>)
      ensures r.Some? ==> OldestPending(Contents(), r.value)
      ensures r.Some? ==>
        && r.value in jobs && jobs[r.value].status == Status.Pending
        && forall id :: id in jobs && jobs[id].status == Status.Pending ==>
             jobs[r.value].createdAt <= jobs[id].createdAt
      ensures r.None? ==> NothingPending(Contents())
      ensures r.None? ==> forall id :: id in jobs ==> jobs[id].status != Status.Pending
    {
      if forall id :: id in jobs ==> jobs[id].status != Status.Pending {
        return None;
      }
      OldestExists(Contents());
      var oldest :| oldest in jobs && OldestPending(Db(jobs, lock), oldest);
      return Some(oldest);
    }

    /** Its guarded UPDATE: `won` only if the job is still PENDING, whoever else has been there meanwhile. */
    method ClaimSelected(id: JobId, worker: WorkerId) returns (won: bool)
      modifies this`jobs
      ensures won <==> id in old(jobs) && old(jobs)[id].status == Status.Pending
      ensures Contents() == Claim(old(Contents()), id, worker)
      ensures jobs ==
        if won then old(jobs)[id := old(jobs)[id].(status := Running, claimedBy := Some(worker))] else old(jobs)
    {
      won := id in jobs && jobs[id].status.Pending?;
      if won {
        jobs := jobs[id := jobs[id].(status := Running, claimedBy := Some(worker))];
      }
    }

    method RecoverOrphans(worker: WorkerId) returns (count: nat)
      modifies this`jobs
      ensures Contents() == StoreSpec.RecoverOrphans(old(Contents()), worker)
      ensures count == |set id | id in old(jobs) && IsOrphanFor(old(jobs)[id], worker)|
      ensures jobs.Keys == old(jobs).Keys
      ensures forall id :: id in jobs ==>
        jobs[id] ==
        if (old(jobs)[id].status == Running || old(jobs)[id].status == AwaitingDecision)
           && old(jobs)[id].claimedBy.Some? && old(jobs)[id].claimedBy != Some(worker)
        then old(jobs)[id].(
               status := Failed, error := Some("Interrupted: the import worker restarted."), pending := None)
        else old(jobs)[id]
    {
      var orphans := set id | id in jobs && IsOrphanFor(jobs[id], worker);
      count := |orphans|;
      jobs := map id | id in jobs :: Recovered(jobs[id], worker);
    }
  }
}
