/**
  A job's output: the buffer the importer threads append to, the task that flushes it to the job's row while the
  import runs, and the retried terminal write (`_OutputBuffer`, `_flush_output_until_cancelled`, `_finalize_job`).
 */
module OutputLog {
  import opened Wrappers
  import opened ImportJobs
  import opened Text
  import StoreSpec
  import Store = ImportStore

  function Indented(lines: seq<string>): seq<string> {
    seq(|lines|, i requires 0 <= i < |lines| => "  " + lines[i])
  }

  lemma {:induction false} JoinGrows(lines: seq<string>, more: seq<string>)
    ensures Join(lines) <= Join(lines + more)
  {
    if lines == [] || more == [] {
      assert more == [] ==> lines + more == lines;
    } else {
      assert (lines + more)[1..] == lines[1..] + more;
      JoinGrows(lines[1..], more);
    }
  }

  class OutputBuffer {
    var lines: seq<string>
    var version: nat

    constructor ()
      ensures lines == [] && version == 0
    {
      lines, version := [], 0;
    }

    method Append(line: string)
      modifies this
      ensures lines == old(lines) + [line] && version == old(version) + 1
    {
      lines := lines + [line];
      version := version + 1;
    }

    method ExtendLines(more: seq<string>)
      modifies this
      ensures lines == old(lines) + Indented(more) && version == old(version) + 1
      ensures |lines| == |old(lines)| + |more|
      ensures forall i :: 0 <= i < |more| ==> lines[|old(lines)| + i] == "  " + more[i]
    {
      for i := 0 to |more|
        invariant lines == old(lines) + Indented(more[..i]) && version == old(version)
      {
        lines := lines + ["  " + more[i]];
        assert Indented(more[..i + 1]) == Indented(more[..i]) + ["  " + more[i]];
      }
      assert more[..|more|] == more;
      version := version + 1;
    }

    method Snapshot() returns (seen: nat, text: string)
      ensures seen == version && text == Join(lines)
    {
      seen, text := version, Join(lines);
    }
  }

  /** What the database refuses in one attempt of the terminal write, if anything. */
  datatype Fault = Fine | OutputRefused | StatusRefused

  /** The job's row once its output, and then its status, have been written. */
  function Finalized(db: StoreSpec.Db, id: JobId, text: string, status: Status, error: Option<string>): StoreSpec.Db {
    StoreSpec.SetStatus(StoreSpec.SetOutput(db, id, text), id, status, error)
  }

  /** A finalized row shows its whole output and its ending, asks for nothing, and is otherwise the row it was. */
  lemma FinalizedRow(db: StoreSpec.Db, id: JobId, text: string, status: Status, error: Option<string>)
    requires id in db.jobs
    ensures var row, row' := db.jobs[id], Finalized(db, id, text, status, error).jobs[id];
      && row'.output == Some(text) && row'.status == status && row'.pending == None
      && row'.error == (if error.Some? then error else row.error)
      && row' == row.(output := row'.output, status := status, pending := None, error := row'.error)
    ensures forall other :: other in db.jobs && other != id ==>
      Finalized(db, id, text, status, error).jobs[other] == db.jobs[other]
  {
  }

  /** An attempt after one that got no further than the output leaves the same tables. */
  lemma OutputAgain(db: StoreSpec.Db, id: JobId, text: string)
    ensures StoreSpec.SetOutput(StoreSpec.SetOutput(db, id, text), id, text) == StoreSpec.SetOutput(db, id, text)
  {
    var once := StoreSpec.SetOutput(db, id, text);
    if id in db.jobs {
      assert once.jobs[id := once.jobs[id]] == once.jobs;
    }
  }

  lemma OneMoreFault(faults: seq<Fault>, attempt: nat, fault: Fault)
    requires attempt < |faults|
    ensures fault in faults[..attempt + 1] <==> fault in faults[..attempt] || fault == faults[attempt]
    ensures fault in faults[..attempt + 1] ==> fault in faults
  {
    assert faults[..attempt + 1] == faults[..attempt] + [faults[attempt]];
  }

  /** The tables after attempts that all failed: the output is there if one got that far. */
  function AfterFailures(db: StoreSpec.Db, id: JobId, text: string, faults: seq<Fault>): StoreSpec.Db {
    if StatusRefused in faults then StoreSpec.SetOutput(db, id, text) else db
  }

  /**
    `_finalize_job`: the terminal status is written exactly if one of the five attempts goes through, and never
    without the complete output; otherwise the job keeps its status.
   */
  method FinalizeJob(store: Store.ImportStore, buffer: OutputBuffer, id: JobId, status: Status, error: Option<string>,
                     faults: seq<Fault>)
    returns (written: bool)
    requires |faults| == 5
    modifies store`jobs
    ensures written <==> Fine in faults
    ensures written ==> store.Contents() == Finalized(old(store.Contents()), id, Join(buffer.lines), status, error)
    ensures !written && StatusRefused in faults ==>
      store.Contents() == StoreSpec.SetOutput(old(store.Contents()), id, Join(buffer.lines))
    ensures !written && StatusRefused !in faults ==> store.Contents() == old(store.Contents())
  {
    ghost var before, whole := store.Contents(), Join(buffer.lines);
    for attempt := 0 to FINALIZE_ATTEMPTS
      invariant Fine !in faults[..attempt]
      invariant Join(buffer.lines) == whole
      invariant store.Contents() == AfterFailures(before, id, whole, faults[..attempt])
    {
      OneMoreFault(faults, attempt, Fine);
      OneMoreFault(faults, attempt, StatusRefused);
      OutputAgain(before, id, whole);
      if !faults[attempt].OutputRefused? {
        var _, text := buffer.Snapshot();
        store.SetOutput(id, text);
        if !faults[attempt].StatusRefused? {
          store.SetStatus(id, status, error);
          return true;
        }
      }
    }
    assert faults[..FINALIZE_ATTEMPTS] == faults;
    return false;
  }

  // The flush task beside the importer threads

  datatype Flush = Sleeping | Holding(seen: nat, text: string) | Stopped

  /** The job run's course: importing, then writing its last lines, then the terminal write, then over. */
  datatype Phase = Importing | Closing | Finalizing(wrote: bool, attempt: nat) | Ended(written: bool)

  datatype Run = Run(
    lines: seq<string>, version: nat, flush: Flush, lastVersion: int, stored: Option<string>, phase: Phase)

  datatype Move =
    | Append(line: string)
    | Extend(more: seq<string>)
    | FlushRead
    | FlushWrite
    | FlushError
    | StopTasks
    | BeginFinalize
    | WriteOutput
    | WriteStatus
    | WriteError

  predicate Init(r: Run) {
    r == Run([], 0, Sleeping, -1, None, Importing)
  }

  predicate Enabled(r: Run, m: Move) {
    match m
    case Append(line) => r.phase.Importing? || r.phase.Closing?
    case Extend(more) => r.phase.Importing?
    case FlushRead => r.phase.Importing? && r.flush.Sleeping?
    case FlushWrite => r.phase.Importing? && r.flush.Holding?
    case FlushError => r.phase.Importing? && r.flush.Holding?
    case StopTasks => r.phase.Importing?
    case BeginFinalize => r.phase.Closing?
    case WriteOutput => r.phase.Finalizing? && !r.phase.wrote
    case WriteStatus => r.phase.Finalizing? && r.phase.wrote
    case WriteError => r.phase.Finalizing?
  }

  function After(r: Run, m: Move): Run
    requires Enabled(r, m)
  {
    match m
    case Append(line) => r.(lines := r.lines + [line], version := r.version + 1)
    case Extend(more) => r.(lines := r.lines + Indented(more), version := r.version + 1)
    case FlushRead =>
      if r.version == r.lastVersion then r else r.(flush := Holding(r.version, Join(r.lines)))
    case FlushWrite => r.(stored := Some(r.flush.text), lastVersion := r.flush.seen, flush := Sleeping)
    case FlushError => r.(flush := Sleeping)
    case StopTasks => r.(flush := Stopped, phase := Closing)
    case BeginFinalize => r.(phase := Finalizing(false, 1))
    case WriteOutput => r.(stored := Some(Join(r.lines)), phase := r.phase.(wrote := true))
    case WriteStatus => r.(phase := Ended(true))
    case WriteError =>
      if r.phase.attempt < FINALIZE_ATTEMPTS
      then r.(phase := Finalizing(false, r.phase.attempt + 1)) else r.(phase := Ended(false))
  }

  /**
    A flush while the import runs: it reads when it has nothing in hand, takes the text along if the version is not
    the one last written, and after the write, or a failed one that it will retry, has nothing in hand again.
   */
  lemma FlushIs(r: Run)
    ensures Enabled(r, FlushRead) <==> r.phase == Importing && r.flush == Sleeping
    ensures Enabled(r, FlushWrite) <==> r.phase == Importing && r.flush.Holding?
    ensures Enabled(r, FlushError) <==> r.phase == Importing && r.flush.Holding?
    ensures Enabled(r, FlushRead) ==>
      After(r, FlushRead) == r.(
        flush := if r.version == r.lastVersion then Sleeping else Holding(r.version, Join(r.lines)))
    ensures Enabled(r, FlushWrite) ==>
      After(r, FlushWrite) == r.(stored := Some(r.flush.text), lastVersion := r.flush.seen, flush := Sleeping)
    ensures Enabled(r, FlushError) ==> After(r, FlushError) == r.(flush := Sleeping)
  {
  }

  /** Every line, and every batch of lines, is a new version. */
  lemma LinesAreVersions(r: Run, line: string, more: seq<string>)
    ensures Enabled(r, Append(line)) <==> r.phase == Importing || r.phase == Closing
    ensures Enabled(r, Extend(more)) <==> r.phase == Importing
    ensures Enabled(r, Append(line)) ==>
      After(r, Append(line)) == r.(lines := r.lines + [line], version := r.version + 1)
    ensures Enabled(r, Extend(more)) ==>
      After(r, Extend(more)) == r.(lines := r.lines + Indented(more), version := r.version + 1)
  {
  }

  /** The end: the flush is stopped, then output and status are written, in up to five attempts. */
  lemma FinalizingIs(r: Run)
    ensures Enabled(r, StopTasks) <==> r.phase == Importing
    ensures Enabled(r, StopTasks) ==> After(r, StopTasks) == r.(flush := Stopped, phase := Closing)
    ensures Enabled(r, BeginFinalize) <==> r.phase == Closing
    ensures Enabled(r, BeginFinalize) ==> After(r, BeginFinalize) == r.(phase := Finalizing(false, 1))
    ensures Enabled(r, WriteOutput) <==> r.phase.Finalizing? && !r.phase.wrote
    ensures Enabled(r, WriteStatus) <==> r.phase.Finalizing? && r.phase.wrote
    ensures Enabled(r, WriteError) <==> r.phase.Finalizing?
    ensures Enabled(r, WriteOutput) ==>
      After(r, WriteOutput) == r.(stored := Some(Join(r.lines)), phase := Finalizing(true, r.phase.attempt))
    ensures Enabled(r, WriteStatus) ==> After(r, WriteStatus) == r.(phase := Ended(true))
    ensures Enabled(r, WriteError) ==>
      After(r, WriteError) == r.(
        phase := if r.phase.attempt < 5 then Finalizing(false, r.phase.attempt + 1) else Ended(false))
  {
  }

  ghost predicate IsRun(runs: seq<Run>, moves: seq<Move>) {
    && |runs| == |moves| + 1
    && Init(runs[0])
    && forall i :: 0 <= i < |moves| ==> Enabled(runs[i], moves[i]) && runs[i + 1] == After(runs[i], moves[i])
  }

  /** The text is the first `n` whole lines of the buffer. */
  predicate IsPage(text: string, lines: seq<string>, n: nat) {
    n <= |lines| && text == Join(lines[..n])
  }

  ghost predicate Inv(r: Run) {
    && (r.stored.Some? ==> exists n: nat :: IsPage(r.stored.value, r.lines, n))
    && (r.flush.Stopped? <==> !r.phase.Importing?)
    && r.lastVersion <= r.version
    && (r.lastVersion == r.version ==> r.stored == Some(Join(r.lines)))
    && (r.flush.Holding? ==>
          && r.flush.seen <= r.version
          && (r.flush.seen == r.version ==> r.flush.text == Join(r.lines))
          && (exists n: nat :: IsPage(r.flush.text, r.lines, n))
          && (r.stored.Some? ==> r.stored.value <= r.flush.text))
    && ((r.phase.Finalizing? && r.phase.wrote) || r.phase == Ended(true) ==> r.stored == Some(Join(r.lines)))
  }

  /** A page of the buffer stays one as the buffer grows. */
  lemma {:induction false} PageStays(text: string, lines: seq<string>, more: seq<string>)
    requires exists n: nat :: IsPage(text, lines, n)
    ensures exists n: nat :: IsPage(text, lines + more, n)
    ensures text <= Join(lines)
  {
    var n: nat :| IsPage(text, lines, n);
    assert (lines + more)[..n] == lines[..n];
    assert IsPage(text, lines + more, n);
    JoinGrows(lines[..n], lines[n..]);
    assert lines[..n] + lines[n..] == lines;
  }

  lemma {:induction false} FullPage(lines: seq<string>)
    ensures IsPage(Join(lines), lines, |lines|)
  {
    assert lines[..|lines|] == lines;
  }

  /** A move keeps the invariant and extends what is stored. */
  lemma MoveKeepsInv(r: Run, m: Move)
    requires Inv(r) && Enabled(r, m)
    ensures Inv(After(r, m))
    ensures r.stored.Some? ==> After(r, m).stored.Some? && r.stored.value <= After(r, m).stored.value
    ensures r.lines <= After(r, m).lines
  {
    FullPage(r.lines);
    var more := match m case Append(line) => [line] case Extend(more) => Indented(more) case _ => [];
    assert m.Append? || m.Extend? ==> After(r, m).lines == r.lines + more;
    if r.stored.Some? {
      PageStays(r.stored.value, r.lines, more);
    }
    if r.flush.Holding? {
      PageStays(r.flush.text, r.lines, more);
    }
  }

  lemma {:induction false} InvHolds(runs: seq<Run>, moves: seq<Move>, i: nat)
    requires IsRun(runs, moves) && i < |runs|
    ensures Inv(runs[i])
  {
    if i == 0 {
    } else {
      InvHolds(runs, moves, i - 1);
      MoveKeepsInv(runs[i - 1], moves[i - 1]);
    }
  }

  lemma StoredExtends(runs: seq<Run>, moves: seq<Move>, i: nat)
    requires IsRun(runs, moves) && i < |moves| && runs[i].stored.Some?
    ensures runs[i + 1].stored.Some? && runs[i].stored.value <= runs[i + 1].stored.value
  {
    InvHolds(runs, moves, i);
    MoveKeepsInv(runs[i], moves[i]);
  }

  /** The stored text only ever grows by extension, flush and terminal write alike, and is always whole lines. */
  lemma {:induction false} StoredOutputOnlyGrows(runs: seq<Run>, moves: seq<Move>, i: nat, k: nat)
    requires IsRun(runs, moves) && i <= k < |runs| && runs[i].stored.Some?
    ensures runs[k].stored.Some? && runs[i].stored.value <= runs[k].stored.value
    ensures exists n: nat :: IsPage(runs[k].stored.value, runs[k].lines, n)
    decreases k
  {
    InvHolds(runs, moves, k);
    if i < k {
      StoredOutputOnlyGrows(runs, moves, i, k - 1);
      StoredExtends(runs, moves, k - 1);
    }
  }

  /** A flush that skips its write because the version is unchanged has nothing to write. */
  lemma SkippedFlushLosesNothing(runs: seq<Run>, moves: seq<Move>, i: nat)
    requires IsRun(runs, moves) && i < |moves| && moves[i].FlushRead? && !runs[i + 1].flush.Holding?
    ensures runs[i].stored == Some(Join(runs[i].lines))
  {
    InvHolds(runs, moves, i);
  }

  /** Once the terminal status is written, the stored output is the complete buffer. */
  lemma TerminalOutputIsComplete(runs: seq<Run>, moves: seq<Move>, i: nat)
    requires IsRun(runs, moves) && i < |runs| && runs[i].phase == Ended(true)
    ensures runs[i].stored == Some(Join(runs[i].lines))
  {
    InvHolds(runs, moves, i);
  }
}
