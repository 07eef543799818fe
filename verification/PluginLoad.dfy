/**
  Double-checked loading of the beets plugins (`_load_plugins_once` in `core/library.py`) by any number of threads.
  One step reads or writes one shared variable; the load itself may raise, which releases the lock.
 */
module PluginLoad {
  import opened Wrappers

  /** One call by one thread. */
  type ThreadId = int

  datatype Pc =
    | Called
    | Waiting
    | Locked
    | Loading
    | Reporting(failed: seq<string>)
    | Flagging
    | Releasing
    | Returned
    | Raised

  /** The module globals and the callers; `starts`, `raises` and `reports` count what happened. */
  datatype State = State(
    loaded: bool,
    lock: Option<ThreadId>,
    failedNames: seq<string>,
    threads: map<ThreadId, Pc>,
    starts: nat,
    raises: nat,
    reports: seq<seq<string>>)

  datatype Step =
    | Call(t: ThreadId)
    | ReadFlag(t: ThreadId)
    | TakeLock(t: ThreadId)
    | ReadFlagAgain(t: ThreadId)
    | Load(t: ThreadId, failed: seq<string>)
    | LoadRaises(t: ThreadId)
    | ExtendFailedNames(t: ThreadId)
    | SetFlag(t: ThreadId)
    | Release(t: ThreadId)

  predicate Init(s: State) {
    s == State(false, None, [], map[], 0, 0, [])
  }

  predicate At(s: State, t: ThreadId, pc: Pc) {
    t in s.threads && s.threads[t] == pc
  }

  predicate Enabled(s: State, e: Step) {
    match e
    case Call(t) => t !in s.threads
    case ReadFlag(t) => At(s, t, Called)
    case TakeLock(t) => At(s, t, Waiting) && s.lock.None?
    case ReadFlagAgain(t) => At(s, t, Locked)
    case Load(t, failed) => At(s, t, Loading)
    case LoadRaises(t) => At(s, t, Loading)
    case ExtendFailedNames(t) => t in s.threads && s.threads[t].Reporting?
    case SetFlag(t) => At(s, t, Flagging)
    case Release(t) => At(s, t, Releasing)
  }

  function Go(s: State, t: ThreadId, pc: Pc): State {
    s.(threads := s.threads[t := pc])
  }

  function After(s: State, e: Step): State
    requires Enabled(s, e)
  {
    match e
    case Call(t) => Go(s, t, Called)
    case ReadFlag(t) => Go(s, t, if s.loaded then Returned else Waiting)
    case TakeLock(t) => Go(s, t, Locked).(lock := Some(t))
    case ReadFlagAgain(t) =>
      if s.loaded then Go(s, t, Releasing) else Go(s, t, Loading).(starts := s.starts + 1)
    case Load(t, failed) => Go(s, t, Reporting(failed))
    case LoadRaises(t) => Go(s, t, Raised).(lock := None, raises := s.raises + 1)
    case ExtendFailedNames(t) =>
      var failed := s.threads[t].failed;
      Go(s, t, Flagging).(failedNames := s.failedNames + failed, reports := s.reports + [failed])
    case SetFlag(t) => Go(s, t, Releasing).(loaded := true)
    case Release(t) => Go(s, t, Returned).(lock := None)
  }

  ghost predicate IsRun(states: seq<State>, steps: seq<Step>) {
    && |states| == |steps| + 1
    && Init(states[0])
    && forall i :: 0 <= i < |steps| ==> Enabled(states[i], steps[i]) && states[i + 1] == After(states[i], steps[i])
  }

  /** Between taking the lock and giving it back. */
  predicate Inside(s: State, t: ThreadId) {
    t in s.threads && s.threads[t] !in {Called, Waiting, Returned, Raised}
  }

  /** A load has begun that has neither raised nor been reported. */
  predicate InLoad(s: State) {
    s.lock.Some? && s.lock.value in s.threads
    && (s.threads[s.lock.value].Loading? || s.threads[s.lock.value].Reporting?)
  }

  ghost predicate Inv(s: State) {
    && (forall t :: Inside(s, t) <==> s.lock == Some(t))
    && (s.lock.Some? ==>
          s.lock.value in s.threads &&
          var pc := s.threads[s.lock.value];
          && (pc.Loading? || pc.Reporting? ==> s.reports == [])
          && (pc.Flagging? ==> |s.reports| == 1)
          && (pc.Loading? || pc.Reporting? || pc.Flagging? ==> !s.loaded)
          && (pc.Releasing? ==> s.loaded)
          && (pc.Locked? ==> |s.reports| == if s.loaded then 1 else 0))
    && (s.loaded ==> |s.reports| == 1)
    && (!s.loaded && s.reports != [] ==> s.lock.Some? && s.threads[s.lock.value].Flagging?)
    && |s.reports| <= 1
    && s.failedNames == (if s.reports == [] then [] else s.reports[0])
    && (forall t :: At(s, t, Returned) ==> s.loaded)
    && s.starts == s.raises + |s.reports| + (if InLoad(s) then 1 else 0)
  }

  lemma StepKeepsInv(s: State, e: Step)
    requires Inv(s) && Enabled(s, e)
    ensures Inv(After(s, e))
  {
    var s', t := After(s, e), e.t;
    assert Inside(s, t) <==> s.lock == Some(t);
    forall u ensures Inside(s', u) <==> s'.lock == Some(u) {
      assert Inside(s, u) <==> s.lock == Some(u);
    }
    forall u | At(s', u, Returned) ensures s'.loaded {
      assert u != t ==> At(s, u, Returned);
    }
  }

  lemma {:induction false} InvHolds(states: seq<State>, steps: seq<Step>, i: nat)
    requires IsRun(states, steps) && i < |states|
    ensures Inv(states[i])
  {
    if i == 0 {
    } else {
      InvHolds(states, steps, i - 1);
      StepKeepsInv(states[i - 1], steps[i - 1]);
    }
  }

  /** A load before step `i` found these plugins to have failed. */
  ghost predicate Found(steps: seq<Step>, i: nat, failed: seq<string>)
    requires i <= |steps|
  {
    exists j, u :: 0 <= j < i && steps[j] == Load(u, failed)
  }

  /** Whatever is reported, or about to be, is what a load has found. */
  lemma {:induction false} ReportsAreFound(states: seq<State>, steps: seq<Step>, i: nat)
    requires IsRun(states, steps) && i < |states|
    ensures forall t :: t in states[i].threads && states[i].threads[t].Reporting? ==>
      Found(steps, i, states[i].threads[t].failed)
    ensures forall failed :: failed in states[i].reports ==> Found(steps, i, failed)
  {
    if i == 0 {
    } else {
      var s, e := states[i - 1], steps[i - 1];
      ReportsAreFound(states, steps, i - 1);
      assert states[i] == After(s, e);
      forall failed | Found(steps, i - 1, failed) ensures Found(steps, i, failed) {
        var j, u :| 0 <= j < i - 1 && steps[j] == Load(u, failed);
      }
      if e.Load? {
        assert steps[i - 1] == Load(e.t, e.failed);
        assert Found(steps, i, e.failed);
      }
    }
  }

  /**
    Whatever the interleaving: at most one thread is inside the lock; the load is run once per raise and once more,
    never more; the failed names are reported at most once; and whoever returns finds the load complete and reported,
    with just the names that a load has found to have failed. Without raises, then, the load runs exactly once as soon
    as anyone has returned.
   */
  lemma LoadsExactlyOnce(states: seq<State>, steps: seq<Step>, i: nat, t: ThreadId)
    requires IsRun(states, steps) && i < |states|
    ensures var s := states[i];
      && s.starts <= s.raises + 1
      && |s.reports| <= 1
      && (forall u, v :: Inside(s, u) && Inside(s, v) ==> u == v)
      && (At(s, t, Returned) ==> s.loaded && s.starts == s.raises + 1 && s.reports == [s.failedNames])
      && (At(s, t, Returned) ==> Found(steps, i, s.failedNames))
  {
    InvHolds(states, steps, i);
    ReportsAreFound(states, steps, i);
  }
}
