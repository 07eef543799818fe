/**
  The state of an interactive import job: what `core/import_jobs.py` exchanges and what one `import_job` row
  (`db/models.py`) stores. Ids are opaque tokens, so integers stand for them; timestamps are microseconds.
 */
module ImportJobs {
  import opened Wrappers

  type JobId = int
  type WorkerId = int
  type Time = int

  datatype Status = Pending | Running | AwaitingDecision | Completed | Failed | Aborted
  {
    /** The statuses a worker may still change: `_ACTIVE`. */
    predicate Active() { Running? || AwaitingDecision? }

    predicate Terminal() { Completed? || Failed? || Aborted? }
  }

  datatype Action = Apply | AsIs | Skip

  datatype Decision = Decision(action: Action, candidateIndex: Option<int>)

  datatype Request = Request(jobId: JobId, taskId: string, prompt: string, candidates: seq<string>)

  datatype Settings = Settings(
    paths: seq<string>,
    quiet: bool,
    logpath: Option<string>,
    groupAlbums: bool,
    flat: bool,
    setFields: map<string, string>,
    cleanSlateAlbum: Option<int>,
    cleanSlateItem: Option<int>,
    allowFewerFiles: bool)

  datatype Job = Job(
    status: Status,
    settings: Settings,
    createdAt: Time,
    claimedBy: Option<WorkerId>,
    error: Option<string>,
    abortRequested: bool,
    pending: Option<Request>,
    submitted: Option<Decision>,
    output: Option<string>)

  /** The singleton `import_lock` row. */
  datatype Lock = Lock(holder: Option<WorkerId>, expiresAt: Option<Time>)

  const LEASE: Time := 30_000_000

  const FINALIZE_ATTEMPTS := 5
}
