/**
  What each SQL statement of `core/import_store.py` does to the shared tables, as functions on a database value.
  The class in ImportStore.dfy is proved against these functions, and the protocol in ImportProtocol.dfy steps
  through them, so a statement has one meaning in both places.
 */
module StoreSpec {
  import opened Wrappers
  import opened ImportJobs

  datatype Db = Db(jobs: map<JobId, Job>, lock: Option<Lock>)

  const ORPHAN_ERROR := "Interrupted: the import worker restarted."

  predicate HasStatus(db: Db, id: JobId, status: Status) {
    id in db.jobs && db.jobs[id].status == status
  }

  /** `UPDATE import_job ... WHERE id = id`: no row, no effect. */
  function UpdateRow(db: Db, id: JobId, row: Job): Db {
    if id in db.jobs then db.(jobs := db.jobs[id := row]) else db
  }

  function NewJob(settings: Settings, now: Time): Job {
    Job(Pending, settings, now, None, None, false, None, None, None)
  }

  predicate ValidSettings(settings: Settings) {
    settings.cleanSlateAlbum.None? || settings.cleanSlateItem.None?
  }

  function Create(db: Db, id: JobId, settings: Settings, now: Time): Db {
    db.(jobs := db.jobs[id := NewJob(settings, now)])
  }

  function SetStatus(db: Db, id: JobId, status: Status, error: Option<string>): Db {
    if id !in db.jobs then db else
      var row := db.jobs[id];
      UpdateRow(db, id, row.(status := status, pending := None, error := if error.Some? then error else row.error))
  }

  function SetOutput(db: Db, id: JobId, output: string): Db {
    if id !in db.jobs then db else UpdateRow(db, id, db.jobs[id].(output := Some(output)))
  }

  function SetAwaiting(db: Db, request: Request): Db {
    if request.jobId !in db.jobs then db else
      UpdateRow(db, request.jobId,
                db.jobs[request.jobId].(status := AwaitingDecision, pending := Some(request), submitted := None))
  }

  predicate AcceptsDecision(db: Db, id: JobId) {
    HasStatus(db, id, AwaitingDecision) && db.jobs[id].submitted.None?
  }

  function SubmitDecision(db: Db, id: JobId, decision: Decision): Db {
    if AcceptsDecision(db, id) then UpdateRow(db, id, db.jobs[id].(submitted := Some(decision))) else db
  }

  function SubmittedDecision(db: Db, id: JobId): Option<Decision> {
    if id in db.jobs then db.jobs[id].submitted else None
  }

  /** The guarded UPDATE of `take_decision`: it tests that some answer is stored, not which one. */
  function ConsumeDecision(db: Db, id: JobId): Db {
    if SubmittedDecision(db, id).None? then db else
      UpdateRow(db, id, db.jobs[id].(submitted := None, pending := None, status := Running))
  }

  predicate Abortable(db: Db, id: JobId) {
    id in db.jobs && !db.jobs[id].status.Terminal()
  }

  function RequestAbort(db: Db, id: JobId): Db {
    if Abortable(db, id) then UpdateRow(db, id, db.jobs[id].(abortRequested := true)) else db
  }

  predicate AbortRequested(db: Db, id: JobId) {
    id in db.jobs && db.jobs[id].abortRequested
  }

  function EnsureLockRow(db: Db): Db {
    if db.lock.Some? then db else db.(lock := Some(Lock(None, None)))
  }

  /** The WHERE clause of `acquire_lock`; a NULL expiry compares as not expired. */
  predicate CanAcquire(lock: Option<Lock>, worker: WorkerId, now: Time) {
    && lock.Some?
    && (|| lock.value.holder == Some(worker)
        || lock.value.holder.None?
        || (lock.value.expiresAt.Some? && lock.value.expiresAt.value < now))
  }

  function Acquired(lock: Option<Lock>, worker: WorkerId, now: Time, lease: Time): Option<Lock> {
    if CanAcquire(lock, worker, now) then Some(Lock(Some(worker), Some(now + lease))) else lock
  }

  function AcquireLock(db: Db, worker: WorkerId, now: Time, lease: Time): Db {
    db.(lock := Acquired(db.lock, worker, now, lease))
  }

  /** The SELECT of `claim_next`: any row that no PENDING row precedes by creation stamp. */
  predicate OldestPending(db: Db, id: JobId) {
    && HasStatus(db, id, Pending)
    && forall other :: other in db.jobs && db.jobs[other].status.Pending? ==>
         db.jobs[id].createdAt <= db.jobs[other].createdAt
  }

  predicate NothingPending(db: Db) {
    forall id :: id in db.jobs ==> db.jobs[id].status != Pending
  }

  /** Some row answers the SELECT unless no row is PENDING. */
  lemma OldestExists(db: Db)
    requires !NothingPending(db)
    ensures exists id :: id in db.jobs && OldestPending(db, id)
  {
    var pending := set id | id in db.jobs && db.jobs[id].status.Pending?;
    var some :| some in db.jobs && db.jobs[some].status == Status.Pending;
    assert some in pending;
    var oldest := OldestOf(db, pending, some);
    assert oldest in db.jobs && OldestPending(db, oldest);
  }

  lemma {:induction false} OldestOf(db: Db, ids: set<JobId>, first: JobId) returns (oldest: JobId)
    requires first in ids && ids <= db.jobs.Keys
    ensures oldest in ids && forall id :: id in ids ==> db.jobs[oldest].createdAt <= db.jobs[id].createdAt
    decreases ids
  {
    oldest := first;
    var rest := ids - {first};
    if next :| next in rest {
      var other := OldestOf(db, rest, next);
      if db.jobs[other].createdAt < db.jobs[oldest].createdAt {
        oldest := other;
      }
    }
    assert forall id :: id in ids ==> id == first || id in rest;
  }

  /** The guarded UPDATE of `claim_next`. */
  function Claim(db: Db, id: JobId, worker: WorkerId): Db {
    if HasStatus(db, id, Pending)
    then UpdateRow(db, id, db.jobs[id].(status := Running, claimedBy := Some(worker)))
    else db
  }

  /** The WHERE clause of `recover_orphans`: SQL's `!=` is not true of a NULL `claimed_by`. */
  predicate IsOrphanFor(row: Job, worker: WorkerId) {
    row.status.Active() && row.claimedBy.Some? && row.claimedBy.value != worker
  }

  function Recovered(row: Job, worker: WorkerId): Job {
    if IsOrphanFor(row, worker) then row.(status := Failed, error := Some(ORPHAN_ERROR), pending := None) else row
  }

  function RecoverOrphans(db: Db, worker: WorkerId): Db {
    db.(jobs := map id | id in db.jobs :: Recovered(db.jobs[id], worker))
  }
}
