/**
  The protocol and the output machines of all its workers together: each claim starts a machine, and what a machine
  stores goes to the row of the job its worker is on. In every interleaving, stale workers included, only a job's
  claimant writes its output, so what the shared table shows for a job only ever grows.
 */
module SharedOutput {
  import opened Wrappers
  import opened ImportJobs
  import opened StoreSpec
  import opened ImportProtocol
  import opened ProtocolInvariant
  import Text
  import Log = OutputLog

  datatype Whole = Whole(s: State, runs: map<WorkerId, Log.Run>)

  /** A step of the protocol, with the line a worker may add to its output by it, or one of an output machine. */
  datatype Move = Protocol(e: Step, line: string) | Output(w: WorkerId, out: Log.Move)

  predicate OnJobWith(x: Whole, w: WorkerId) {
    w in x.s.workers && x.s.workers[w].pc.OnJob? && w in x.runs
  }

  /** What the machine may do at a stage: importer threads and the flush task in the pipeline, then the last write. */
  predicate Fits(stage: Stage, out: Log.Move) {
    if stage.InPipeline() then out.Append? || out.Extend? || out.FlushRead? || out.FlushWrite? || out.FlushError?
    else stage.Finalizing? && out.WriteOutput?
  }

  predicate CanMove(x: Whole, m: Move) {
    match m
    case Protocol(e, _) =>
      && Enabled(x.s, e)
      && (e.JobStep? && e.move.WriteTerminal? ==> e.w in x.runs && Log.Enabled(x.runs[e.w], Log.WriteStatus))
    case Output(w, out) =>
      OnJobWith(x, w) && Fits(x.s.workers[w].pc.stage, out) && Log.Enabled(x.runs[w], out)
  }

  function Do(run: Log.Run, out: Log.Move): Log.Run {
    if Log.Enabled(run, out) then Log.After(run, out) else run
  }

  function Fresh(): Log.Run {
    Log.Run([], 0, Log.Sleeping, -1, None, Log.Importing)
  }

  /** What a worker's own step does to its machine. */
  function RunAfter(stage: Stage, run: Log.Run, move: JobMove, line: string): Log.Run {
    match move
    case PipelineEnds => Do(run, Log.StopTasks)
    case RunError(_) =>
      var closing := if stage.Concluding? then run else Do(run, Log.StopTasks);
      Do(Do(closing, Log.Append(line)), Log.BeginFinalize)
    case FinalRead => Do(Do(run, Log.Append(line)), Log.BeginFinalize)
    case WriteTerminal => Do(run, Log.WriteStatus)
    case WriteTerminalFails => Do(run, Log.WriteError)
    case _ => run
  }

  function RunsAfter(x: Whole, e: Step, line: string): map<WorkerId, Log.Run>
    requires Enabled(x.s, e)
  {
    if Claims(x.s, e) then x.runs[e.w := Fresh()]
    else if e.JobStep? && e.w in x.runs then
      x.runs[e.w := RunAfter(x.s.workers[e.w].pc.stage, x.runs[e.w], e.move, line)]
    else x.runs
  }

  /** What a machine's write puts into the row of its worker's job. */
  function Written(db: Db, id: JobId, run: Log.Run, out: Log.Move): Db
    requires Log.Enabled(run, out)
  {
    if out.FlushWrite? then SetOutput(db, id, run.flush.text)
    else if out.WriteOutput? then SetOutput(db, id, Text.Join(run.lines))
    else db
  }

  function AfterMove(x: Whole, m: Move): Whole
    requires CanMove(x, m)
  {
    match m
    case Protocol(e, line) => Whole(After(x.s, e), RunsAfter(x, e, line))
    case Output(w, out) =>
      Whole(x.s.(db := Written(x.s.db, x.s.workers[w].pc.job, x.runs[w], out)), x.runs[w := Log.After(x.runs[w], out)])
  }

  ghost predicate IsWholeRun(xs: seq<Whole>, moves: seq<Move>) {
    && |xs| == |moves| + 1
    && Init(xs[0].s) && xs[0].runs == map[]
    && forall i :: 0 <= i < |moves| ==> CanMove(xs[i], moves[i]) && xs[i + 1] == AfterMove(xs[i], moves[i])
  }

  /** Lines and flushes come while the pipeline runs, the last write of the output when the job is being ended. */
  lemma MachineMovesAre(x: Whole, w: WorkerId, out: Log.Move)
    requires w in x.s.workers && x.s.workers[w].pc.OnJob? && w in x.runs
    ensures var stage := x.s.workers[w].pc.stage;
      CanMove(x, Output(w, out)) <==>
      && Log.Enabled(x.runs[w], out)
      && (|| (!stage.Rereading? && !stage.Concluding? && !stage.Finalizing?
              && (out.Append? || out.Extend? || out.FlushRead? || out.FlushWrite? || out.FlushError?))
          || (stage.Finalizing? && out.WriteOutput?))
  {
  }

  /** The machine is where its worker is. */
  predicate InPhase(stage: Stage, phase: Log.Phase) {
    if stage.Concluding? then phase.Closing?
    else if stage.Finalizing? then phase.Finalizing? && phase.attempt == stage.attempt
    else phase.Importing?
  }

  /** The row of a worker's job shows what the worker's machine has stored. */
  ghost predicate OutputOk(x: Whole, w: WorkerId)
    requires w in x.s.workers
  {
    var pc := x.s.workers[w].pc;
    pc.OnJob? ==>
      && w in x.runs && Log.Inv(x.runs[w]) && InPhase(pc.stage, x.runs[w].phase)
      && pc.job in x.s.db.jobs && x.s.db.jobs[pc.job].output == x.runs[w].stored
  }

  ghost predicate WholeOk(x: Whole) {
    && Inv(x.s)
    && (forall w :: w in x.s.workers ==> OutputOk(x, w))
    && (forall id :: id in x.s.db.jobs && x.s.db.jobs[id].status.Pending? ==> x.s.db.jobs[id].output.None?)
  }

  /** No step of the protocol proper touches a row's output, and new rows have none. */
  lemma ProtocolKeepsOutput(s: State, e: Step, id: JobId)
    requires Enabled(s, e) && id in After(s, e).db.jobs
    ensures After(s, e).db.jobs[id].output == if id in s.db.jobs then s.db.jobs[id].output else None
  {
    if e.JobStep? {
      JobStepFrame(s, e);
    }
  }

  /** What a worker's own step does to its machine leaves alone what is stored. */
  lemma RunKeepsInv(stage: Stage, run: Log.Run, move: JobMove, line: string)
    requires Log.Inv(run)
    ensures Log.Inv(RunAfter(stage, run, move, line)) && RunAfter(stage, run, move, line).stored == run.stored
  {
    match move
    case PipelineEnds => DoKeepsInv(run, Log.StopTasks);
    case RunError(_) =>
      var closing := if stage.Concluding? then run else Do(run, Log.StopTasks);
      DoKeepsInv(run, Log.StopTasks);
      DoKeepsInv(closing, Log.Append(line));
      DoKeepsInv(Do(closing, Log.Append(line)), Log.BeginFinalize);
    case FinalRead =>
      DoKeepsInv(run, Log.Append(line));
      DoKeepsInv(Do(run, Log.Append(line)), Log.BeginFinalize);
    case WriteTerminal => DoKeepsInv(run, Log.WriteStatus);
    case WriteTerminalFails => DoKeepsInv(run, Log.WriteError);
    case _ =>
  }

  lemma DoKeepsInv(run: Log.Run, out: Log.Move)
    requires Log.Inv(run)
    requires out.StopTasks? || out.Append? || out.BeginFinalize? || out.WriteStatus? || out.WriteError?
    ensures Log.Inv(Do(run, out)) && Do(run, out).stored == run.stored
  {
    if Log.Enabled(run, out) {
      Log.MoveKeepsInv(run, out);
    }
  }

  /** Which stages follow which, as far as the machine is concerned. */
  predicate StageFollows(before: Stage, move: JobMove, after: Stage) {
    match move
    case PipelineEnds => before.InPipeline() && after.Concluding?
    case RunError(_) => (before.InPipeline() || before.Concluding?) && after.Finalizing? && after.attempt == 1
    case FinalRead => before.Concluding? && after.Finalizing? && after.attempt == 1
    case WriteTerminal => false
    case WriteTerminalFails =>
      && before.Finalizing? && before.attempt < FINALIZE_ATTEMPTS
      && after.Finalizing? && after.attempt == before.attempt + 1
    case _ => !before.Concluding? && !before.Finalizing? && !after.Concluding? && !after.Finalizing?
  }

  lemma StepFollowsStages(s: State, e: Step)
    requires Enabled(s, e) && e.JobStep? && After(s, e).workers[e.w].pc.OnJob?
    ensures StageFollows(s.workers[e.w].pc.stage, e.move, After(s, e).workers[e.w].pc.stage)
  {
  }

  /** The machine goes where the worker goes. */
  lemma RunFollows(before: Stage, run: Log.Run, move: JobMove, line: string, after: Stage)
    requires InPhase(before, run.phase) && StageFollows(before, move, after)
    ensures InPhase(after, RunAfter(before, run, move, line).phase)
  {
  }

  lemma FreshOk()
    ensures Log.Inv(Fresh())
  {
  }

  lemma ProtocolKeepsOk(x: Whole, e: Step, line: string)
    requires WholeOk(x) && CanMove(x, Protocol(e, line))
    ensures WholeOk(AfterMove(x, Protocol(e, line)))
  {
    var x' := AfterMove(x, Protocol(e, line));
    StepKeepsRows(x.s, e);
    StepKeepsWorkers(x.s, e);
    forall w | w in x'.s.workers ensures OutputOk(x', w) {
      ProtocolKeepsOutputOk(x, e, line, w);
    }
    StepExtends(x.s, e);
    forall id | id in x'.s.db.jobs && x'.s.db.jobs[id].status.Pending? ensures x'.s.db.jobs[id].output.None? {
      ProtocolKeepsOutput(x.s, e, id);
    }
  }

  lemma ProtocolKeepsOutputOk(x: Whole, e: Step, line: string, w: WorkerId)
    requires WholeOk(x) && CanMove(x, Protocol(e, line)) && w in After(x.s, e).workers
    ensures OutputOk(AfterMove(x, Protocol(e, line)), w)
  {
    var pc := After(x.s, e).workers[w].pc;
    if pc.OnJob? {
      OnJobBefore(x.s, e, w);
      ProtocolKeepsOutput(x.s, e, pc.job);
      if Claims(x.s, e) && e.w == w {
        FreshOk();
      } else {
        assert OutputOk(x, w);
        if e.JobStep? && e.w == w {
          StepFollowsStages(x.s, e);
          RunFollows(x.s.workers[w].pc.stage, x.runs[w], e.move, line, pc.stage);
          RunKeepsInv(x.s.workers[w].pc.stage, x.runs[w], e.move, line);
        }
      }
    }
  }

  /** A worker on a job after a step was on it before, or has just claimed it. */
  lemma OnJobBefore(s: State, e: Step, w: WorkerId)
    requires Inv(s) && Enabled(s, e) && w in After(s, e).workers && After(s, e).workers[w].pc.OnJob?
    ensures After(s, e).workers[w].pc.job in s.db.jobs && After(s, e).workers[w].pc.job in After(s, e).db.jobs
    ensures if Claims(s, e) && e.w == w then
              s.db.jobs[After(s, e).workers[w].pc.job].status.Pending?
              && After(s, e).workers[w].pc.stage.Rereading?
            else
              && w in s.workers && s.workers[w].pc.OnJob?
              && s.workers[w].pc.job == After(s, e).workers[w].pc.job
              && (!(e.JobStep? && e.w == w) ==> s.workers[w].pc == After(s, e).workers[w].pc)
  {
    assert w in s.workers ==> PcOk(s, w);
    if e.JobStep? {
      JobStepFrame(s, e);
    }
  }

  /** Writing a row's output disturbs nothing the protocol relies on. */
  lemma WriteKeepsInv(s: State, id: JobId, text: string)
    requires Inv(s)
    ensures Inv(s.(db := SetOutput(s.db, id, text)))
  {
    var s' := s.(db := SetOutput(s.db, id, text));
    forall other | other in s'.db.jobs ensures RowFits(s', other) {
      assert RowFits(s, other);
    }
    forall w | w in s'.workers ensures PcOk(s', w) {
      assert PcOk(s, w);
    }
  }

  lemma OutputKeepsOk(x: Whole, w: WorkerId, out: Log.Move)
    requires WholeOk(x) && CanMove(x, Output(w, out))
    ensures WholeOk(AfterMove(x, Output(w, out)))
  {
    var x', id := AfterMove(x, Output(w, out)), x.s.workers[w].pc.job;
    assert OutputOk(x, w) && PcOk(x.s, w);
    Log.MoveKeepsInv(x.runs[w], out);
    if out.FlushWrite? {
      WriteKeepsInv(x.s, id, x.runs[w].flush.text);
    } else if out.WriteOutput? {
      WriteKeepsInv(x.s, id, Text.Join(x.runs[w].lines));
    }
    forall v | v in x'.s.workers ensures OutputOk(x', v) {
      assert OutputOk(x, v) && PcOk(x.s, v);
    }
  }

  lemma {:induction false} WholeHolds(xs: seq<Whole>, moves: seq<Move>, i: nat)
    requires IsWholeRun(xs, moves) && i < |xs|
    ensures WholeOk(xs[i])
  {
    if i == 0 {
    } else {
      WholeHolds(xs, moves, i - 1);
      match moves[i - 1]
      case Protocol(e, line) => ProtocolKeepsOk(xs[i - 1], e, line);
      case Output(w, out) => OutputKeepsOk(xs[i - 1], w, out);
    }
  }

  /** In every interleaving, a step that changes a job's output is a write of the worker that claimed it. */
  lemma OnlyTheClaimantWrites(xs: seq<Whole>, moves: seq<Move>, i: nat, id: JobId)
    requires IsWholeRun(xs, moves) && i < |moves| && id in xs[i].s.db.jobs
    ensures id in xs[i + 1].s.db.jobs
    ensures xs[i + 1].s.db.jobs[id].output != xs[i].s.db.jobs[id].output ==>
      && moves[i].Output? && (moves[i].out.FlushWrite? || moves[i].out.WriteOutput?)
      && xs[i].s.db.jobs[id].claimedBy == Some(moves[i].w) && xs[i].s.workers[moves[i].w].pc.job == id
  {
    WholeHolds(xs, moves, i);
    if moves[i].Protocol? {
      StepExtends(xs[i].s, moves[i].e);
      ProtocolKeepsOutput(xs[i].s, moves[i].e, id);
    } else {
      assert PcOk(xs[i].s, moves[i].w);
    }
  }

  /** A worker's last line is the one it adds at its final read, or for the error that ends the run. */
  lemma LastLineIsAdded(x: Whole, e: Step, line: string)
    requires WholeOk(x) && CanMove(x, Protocol(e, line)) && e.JobStep? && (e.move.FinalRead? || e.move.RunError?)
    ensures e.w in x.runs && e.w in AfterMove(x, Protocol(e, line)).runs
    ensures AfterMove(x, Protocol(e, line)).runs[e.w].lines == x.runs[e.w].lines + [line]
  {
    assert OutputOk(x, e.w);
  }

  /** From then on its output stays as it is, to the terminal write. */
  lemma OutputIsFinal(x: Whole, m: Move, w: WorkerId)
    requires WholeOk(x) && CanMove(x, m) && w in x.s.workers
    requires x.s.workers[w].pc.OnJob? && x.s.workers[w].pc.stage.Finalizing?
    ensures w in x.runs && w in AfterMove(x, m).runs && AfterMove(x, m).runs[w].lines == x.runs[w].lines
  {
    assert OutputOk(x, w);
  }

  /** Each text is a prefix of the next, or there was none before. */
  predicate Grows(before: Option<string>, after: Option<string>) {
    before.Some? ==> after.Some? && before.value <= after.value
  }

  lemma StepGrows(xs: seq<Whole>, moves: seq<Move>, i: nat, id: JobId)
    requires IsWholeRun(xs, moves) && i < |moves| && id in xs[i].s.db.jobs
    ensures id in xs[i + 1].s.db.jobs && Grows(xs[i].s.db.jobs[id].output, xs[i + 1].s.db.jobs[id].output)
  {
    OnlyTheClaimantWrites(xs, moves, i, id);
    WholeHolds(xs, moves, i);
    if xs[i + 1].s.db.jobs[id].output != xs[i].s.db.jobs[id].output {
      assert OutputOk(xs[i], moves[i].w);
      Log.MoveKeepsInv(xs[i].runs[moves[i].w], moves[i].out);
    }
  }

  /** Over any stretch of any run, what the table shows as a job's output only grows by extension. */
  lemma {:induction false} SharedOutputOnlyGrows(xs: seq<Whole>, moves: seq<Move>, i: nat, k: nat, id: JobId)
    requires IsWholeRun(xs, moves) && i <= k < |xs| && id in xs[i].s.db.jobs
    ensures id in xs[k].s.db.jobs && Grows(xs[i].s.db.jobs[id].output, xs[k].s.db.jobs[id].output)
    decreases k
  {
    if i == k {
    } else {
      SharedOutputOnlyGrows(xs, moves, i, k - 1, id);
      StepGrows(xs, moves, k - 1, id);
    }
  }

  /** When a worker writes a job's terminal status, the row shows all of that worker's output, and does so for good. */
  lemma TerminalRowShowsEverything(xs: seq<Whole>, moves: seq<Move>, i: nat, k: nat)
    requires IsWholeRun(xs, moves) && i < |moves| && i < k < |xs|
    requires moves[i].Protocol? && moves[i].e.JobStep? && moves[i].e.move.WriteTerminal?
    ensures var w := moves[i].e.w;
      var id := xs[i].s.workers[w].pc.job;
      && w in xs[i].runs && id in xs[i + 1].s.db.jobs
      && xs[i + 1].s.db.jobs[id].output == Some(Text.Join(xs[i].runs[w].lines))
      && id in xs[k].s.db.jobs && Grows(Some(Text.Join(xs[i].runs[w].lines)), xs[k].s.db.jobs[id].output)
  {
    var w := moves[i].e.w;
    var id := xs[i].s.workers[w].pc.job;
    WholeHolds(xs, moves, i);
    assert OutputOk(xs[i], w) && PcOk(xs[i].s, w);
    StepExtends(xs[i].s, moves[i].e);
    ProtocolKeepsOutput(xs[i].s, moves[i].e, id);
    SharedOutputOnlyGrows(xs, moves, i + 1, k, id);
  }
}
