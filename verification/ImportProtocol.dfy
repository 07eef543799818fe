/**
  The import-job protocol: any number of worker processes (`core/import_worker.py`), UI clients and jobs over the
  shared tables. One step is one SQL statement, or one move of a worker between two statements; a transient
  database error is a step without effect. Nothing here limits the interleaving.

  The log is history: it records what happened and no step reads it. A worker's `task` and `park` labels are
  positions in the log, naming the importer task and the decision request it is serving.
 */
module ImportProtocol {
  import opened Wrappers
  import opened ImportJobs
  import opened StoreSpec

  /** What a worker does next for the job it has claimed. */
  datatype Stage =
    | Rereading
    | Importing
    | Choosing
    | Deciding(task: nat)
    | Polling(task: nat, park: nat)
    | Taking(task: nat, park: nat, decision: Decision)
    | AbortCheck(task: nat, park: nat)
    | Concluding
    | Finalizing(status: Status, error: Option<string>, attempt: nat)
  {
    /** The beets pipeline is running, and with it the lease-renewal task. */
    predicate InPipeline() { Importing? || Choosing? || InTask() }

    /** Inside `_choose`, past the abort-flag read. */
    predicate InTask() { Deciding? || Parked() }

    /** Inside `DecisionBridge.request`, past `set_awaiting`. */
    predicate Parked() { Polling? || Taking? || AbortCheck? }
  }

  /** Where a worker is in `_run_one_cycle`; `OnJob` spans from the claim of a job to its terminal write. */
  datatype Pc = Idle | Recovering | Selecting | Claiming(job: JobId) | OnJob(job: JobId, stage: Stage) | Dead

  datatype Worker = Worker(pc: Pc, wasLeader: bool, lastReading: Time)

  datatype Event =
    | Claimed(job: JobId, worker: WorkerId)
    | Refused(job: JobId)
    | Admitted(job: JobId)
    | Answered(job: JobId, task: nat, action: Action)
    | Parked(job: JobId, request: Request)
    | Accepted(job: JobId, pending: Option<Request>, decision: Decision)
    | Taken(job: JobId, task: nat, park: nat, decision: Decision)
    | AbortFlagged(job: JobId)
    | Concluded(job: JobId, status: Status)

  datatype State = State(
    db: Db,
    clock: Time,
    workers: map<WorkerId, Worker>,
    abandoned: set<JobId>,
    log: seq<Event>)

  /** The moves of the leader cycle before a job is in hand. */
  datatype CycleMove =
    | Acquire(reading: Time)
    | Recover
    | Select(choice: Option<JobId>)
    | ClaimSelected
    | CycleError

  /** The moves of a worker that has claimed a job, its renewal task's included. */
  datatype JobMove =
    | Reread
    | RereadError
    | Renew(reading: Time)
    | BeginTask
    | ReadAbortFlag
    | QuietAnswer(action: Action)
    | Park(request: Request)
    | PollRead
    | PollTake
    | PollAbort
    | PipelineEnds
    | RunError(message: string)
    | FinalRead
    | WriteTerminal
    | WriteTerminalFails

  /** What a web process does to the store. */
  datatype ClientMove =
    | Submit(id: JobId, settings: Settings, stamp: Time)
    | Answer(id: JobId, decision: Decision)
    | Abort(id: JobId)

  datatype Step =
    | Tick(now: Time)
    | Start(w: WorkerId)
    | Crash(w: WorkerId)
    | ClientStep(client: ClientMove)
    | CycleStep(w: WorkerId, cycle: CycleMove)
    | JobStep(w: WorkerId, move: JobMove)

  /** What one worker move changes: the tables, the worker itself, and the history. */
  datatype Effect = Effect(db: Db, worker: Worker, event: Option<Event>, abandons: Option<JobId>)

  ghost predicate Init(s: State) {
    s.db == Db(map[], None) && s.workers == map[] && s.abandoned == {} && s.log == []
  }

  predicate Live(s: State, w: WorkerId) {
    w in s.workers && !s.workers[w].pc.Dead?
  }

  function Go(db: Db, worker: Worker, pc: Pc): Effect {
    Effect(db, worker.(pc := pc), None, None)
  }

  predicate CanCycle(db: Db, clock: Time, worker: Worker, move: CycleMove) {
    match move
    case Acquire(reading) => worker.pc.Idle? && worker.lastReading <= reading <= clock
    case Recover => worker.pc.Recovering?
    case Select(choice) =>
      worker.pc.Selecting? && if choice.Some? then OldestPending(db, choice.value) else NothingPending(db)
    case ClaimSelected => worker.pc.Claiming?
    case CycleError => worker.pc.Recovering? || worker.pc.Selecting? || worker.pc.Claiming?
  }

  /** `_run_one_cycle` up to `_run_job`. A failed acquire is the only thing that clears `_was_leader`. */
  function CycleEffect(db: Db, w: WorkerId, worker: Worker, move: CycleMove): Effect
    requires move.ClaimSelected? ==> worker.pc.Claiming?
  {
    match move
    case Acquire(reading) =>
      var read := worker.(lastReading := reading);
      var next :=
        if !CanAcquire(db.lock, w, reading) then read.(wasLeader := false)
        else read.(pc := if worker.wasLeader then Selecting else Recovering);
      Effect(AcquireLock(db, w, reading, LEASE), next, None, None)
    case Recover => Effect(RecoverOrphans(db, w), worker.(pc := Selecting, wasLeader := true), None, None)
    case Select(choice) => Go(db, worker, if choice.Some? then Claiming(choice.value) else Idle)
    case ClaimSelected =>
      var id := worker.pc.job;
      if HasStatus(db, id, Status.Pending)
      then Effect(Claim(db, id, w), worker.(pc := OnJob(id, Rereading)), Some(Claimed(id, w)), None)
      else Go(db, worker, Idle)
    case CycleError => Go(db, worker, Idle)
  }

  predicate CanDo(db: Db, clock: Time, worker: Worker, move: JobMove) {
    && worker.pc.OnJob?
    && var job, stage := worker.pc.job, worker.pc.stage;
       match move
       case Reread => stage.Rereading?
       case RereadError => stage.Rereading?
       case Renew(reading) => stage.InPipeline() && worker.lastReading <= reading <= clock
       case BeginTask => stage.Importing?
       case ReadAbortFlag => stage.Choosing?
       case QuietAnswer(action) => stage.Deciding? && job in db.jobs && db.jobs[job].settings.quiet
       case Park(request) =>
         stage.Deciding? && job in db.jobs && !db.jobs[job].settings.quiet && request.jobId == job
       case PollRead => stage.Polling?
       case PollTake => stage.Taking?
       case PollAbort => stage.AbortCheck?
       case PipelineEnds => stage.Importing?
       case RunError(message) => stage.InPipeline() || stage.Concluding?
       case FinalRead => stage.Concluding?
       case WriteTerminal => stage.Finalizing?
       case WriteTerminalFails => stage.Finalizing?
  }

  /** `DecisionBridge.request` after `set_awaiting`: one polling round, statement by statement. */
  function PollEffect(db: Db, worker: Worker, move: JobMove): Effect
    requires worker.pc.OnJob?
    requires (move.PollRead? && worker.pc.stage.Polling?) || (move.PollTake? && worker.pc.stage.Taking?)
          || (move.PollAbort? && worker.pc.stage.AbortCheck?)
  {
    var job, stage := worker.pc.job, worker.pc.stage;
    var submitted := SubmittedDecision(db, job);
    match move
    case PollRead =>
      Go(db, worker, OnJob(job, if submitted.Some? then Taking(stage.task, stage.park, submitted.value)
                                else AbortCheck(stage.task, stage.park)))
    case PollTake =>
      if submitted.Some?
      then Effect(ConsumeDecision(db, job), worker.(pc := OnJob(job, Importing)),
                  Some(Taken(job, stage.task, stage.park, stage.decision)), None)
      else Go(db, worker, OnJob(job, AbortCheck(stage.task, stage.park)))
    case PollAbort =>
      if AbortRequested(db, job)
      then Effect(db, worker.(pc := OnJob(job, Importing)), Some(Answered(job, stage.task, Skip)), None)
      else Go(db, worker, OnJob(job, Polling(stage.task, stage.park)))
  }

  /** `_run_job` and `_choose`; `at` is the length of the log, which labels a new task or request. */
  function JobEffect(db: Db, clock: Time, at: nat, w: WorkerId, worker: Worker, move: JobMove): Effect
    requires CanDo(db, clock, worker, move)
  {
    var job, stage := worker.pc.job, worker.pc.stage;
    match move
    case Reread => Go(db, worker, OnJob(job, Importing))
    case RereadError => Effect(db, worker.(pc := Idle), None, Some(job))
    case Renew(reading) => Effect(AcquireLock(db, w, reading, LEASE), worker.(lastReading := reading), None, None)
    case BeginTask => Go(db, worker, OnJob(job, Choosing))
    case ReadAbortFlag =>
      if AbortRequested(db, job)
      then Effect(db, worker.(pc := OnJob(job, Importing)), Some(Refused(job)), None)
      else Effect(db, worker.(pc := OnJob(job, Deciding(at))), Some(Admitted(job)), None)
    case QuietAnswer(action) =>
      Effect(db, worker.(pc := OnJob(job, Importing)), Some(Answered(job, stage.task, action)), None)
    case Park(request) =>
      Effect(SetAwaiting(db, request), worker.(pc := OnJob(job, Polling(stage.task, at))),
             Some(Event.Parked(job, request)), None)
    case PipelineEnds => Go(db, worker, OnJob(job, Concluding))
    case RunError(message) => Go(db, worker, OnJob(job, Finalizing(Failed, Some(message), 1)))
    case FinalRead =>
      var status := if AbortRequested(db, job) then Aborted else Completed;
      Effect(db, worker.(pc := OnJob(job, Finalizing(status, None, 1))), Some(Concluded(job, status)), None)
    case WriteTerminal => Go(SetStatus(db, job, stage.status, stage.error), worker, Idle)
    case WriteTerminalFails =>
      if stage.attempt < FINALIZE_ATTEMPTS
      then Go(db, worker, OnJob(job, stage.(attempt := stage.attempt + 1)))
      else Effect(db, worker.(pc := Idle), None, Some(job))
    case _ => PollEffect(db, worker, move)
  }

  predicate CanSend(db: Db, move: ClientMove) {
    move.Submit? ==> move.id !in db.jobs && ValidSettings(move.settings)
  }

  function ClientDb(db: Db, move: ClientMove): Db {
    match move
    case Submit(id, settings, stamp) => Create(db, id, settings, stamp)
    case Answer(id, decision) => SubmitDecision(db, id, decision)
    case Abort(id) => RequestAbort(db, id)
  }

  function ClientEvent(db: Db, move: ClientMove): Option<Event> {
    match move
    case Submit(id, settings, stamp) => None
    case Answer(id, decision) =>
      if AcceptsDecision(db, id) then Some(Accepted(id, db.jobs[id].pending, decision)) else None
    case Abort(id) => if Abortable(db, id) then Some(AbortFlagged(id)) else None
  }

  function Extended(log: seq<Event>, event: Option<Event>): seq<Event> {
    if event.Some? then log + [event.value] else log
  }

  function WithEffect(s: State, w: WorkerId, effect: Effect): State {
    State(effect.db, s.clock, s.workers[w := effect.worker],
          s.abandoned + (if effect.abandons.Some? then {effect.abandons.value} else {}),
          Extended(s.log, effect.event))
  }

  /** Whether step `e` can happen in `s`. */
  predicate Enabled(s: State, e: Step) {
    match e
    case Tick(now) => s.clock <= now
    case Start(w) => w !in s.workers
    case Crash(w) => Live(s, w)
    case ClientStep(client) => CanSend(s.db, client)
    case CycleStep(w, cycle) => Live(s, w) && CanCycle(s.db, s.clock, s.workers[w], cycle)
    case JobStep(w, move) => Live(s, w) && CanDo(s.db, s.clock, s.workers[w], move)
  }

  /** The state step `e` leads to. */
  function After(s: State, e: Step): State
    requires Enabled(s, e)
  {
    match e
    case Tick(now) => s.(clock := now)
    case Start(w) => s.(db := EnsureLockRow(s.db), workers := s.workers[w := Worker(Idle, false, s.clock)])
    case Crash(w) => s.(workers := s.workers[w := s.workers[w].(pc := Dead)])
    case ClientStep(client) =>
      s.(db := ClientDb(s.db, client), log := Extended(s.log, ClientEvent(s.db, client)))
    case CycleStep(w, cycle) => WithEffect(s, w, CycleEffect(s.db, w, s.workers[w], cycle))
    case JobStep(w, move) => WithEffect(s, w, JobEffect(s.db, s.clock, |s.log|, w, s.workers[w], move))
  }

  /** What step `e` adds to the history. */
  function EventOf(s: State, e: Step): Option<Event>
    requires Enabled(s, e)
  {
    match e
    case ClientStep(client) => ClientEvent(s.db, client)
    case CycleStep(w, cycle) => CycleEffect(s.db, w, s.workers[w], cycle).event
    case JobStep(w, move) => JobEffect(s.db, s.clock, |s.log|, w, s.workers[w], move).event
    case _ => None
  }

  /** A finite run: `states[i]` leads to `states[i + 1]` by `steps[i]`. */
  ghost predicate IsRun(states: seq<State>, steps: seq<Step>) {
    && |states| == |steps| + 1
    && Init(states[0])
    && forall i :: 0 <= i < |steps| ==> Enabled(states[i], steps[i]) && states[i + 1] == After(states[i], steps[i])
  }
}
