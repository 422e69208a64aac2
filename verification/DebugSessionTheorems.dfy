/** The promises of the debug session, for every run of it. */
module DebugSessionTheorems {
  import opened Common
  import opened DebugSession
  import opened DebugSessionSafety
  import opened DebugSessionLog

  lemma {:induction false} RunKeepsInv(events: seq<Event>)
    ensures Inv(Run(events))
  {
    if events != [] {
      RunKeepsInv(events[..|events| - 1]);
      StepKeepsInv(Run(events[..|events| - 1]), events[|events| - 1]);
    }
  }

  /** Whenever the PIC may still be in capture mode, the monitor knows that it has to restore it. */
  lemma CaptureIsNeverForgotten(events: seq<Event>)
    ensures MayCapture(Run(events).log) ==> Run(events).restorationRequired
  {
    RunKeepsInv(events);
    DirtyMeansMayCapture(Run(events).log);
  }

  lemma PublishedStateIsTruthful(events: seq<Event>)
    ensures var s := Run(events);
      && (s.status == Idle || s.status == Error ==> !s.restorationRequired && !MayCapture(s.log))
      && (s.status == Capturing || s.status == RestoreRequired ==> s.restorationRequired)
  {
    RunKeepsInv(events);
    CaptureIsNeverForgotten(events);
  }

  lemma WriteLogIsDisciplined(events: seq<Event>)
    ensures CapturesAcked(Run(events).log)
    ensures CapturesSeparated(Run(events).log)
  {
    RunKeepsInv(events);
    DisciplineSound(Run(events).log);
  }

  // ---------------------------------------------------------------- async_stop

  predicate InStop(main: MainPoint) {
    main.StopTask? || InStopTail(main)
  }

  /** `async_stop` is over: it returned with nothing left to restore, or it raised and says so. */
  predicate StopOver(s: Session) {
    && s.main == Unlocked
    && s.task == NoTask
    && if s.outcome == Returned then !s.restorationRequired
       else s.outcome == ProtocolError && s.restorationRequired && s.status == RestoreRequired
  }

  /** How many I/O completions `async_stop` can still need. */
  function RestoreRank(at: RestorePoint): nat {
    match at
    case AwaitRestore(_) => 3
    case AwaitDisable(_) => 2
    case AwaitClose(_) => 1
  }

  function StopRank(s: Session): nat {
    match s.main
    case StopTask => (
      match s.task
      case Finished => 10
      case TaskClosing => 11
      case TaskRestoring(at) => 11 + RestoreRank(at)
      case _ => 15)
    case Restoring(StopCall, at) => 6 + RestoreRank(at)
    case RecoverConnect(_) => 6
    case RecoverSetup(_, _) => 5
    case RecoverAck(_, _) => 4
    case Restoring(_, at) => RestoreRank(at)
    case RecoverClose(_) => 1
    case _ => 0
  }

  /** The completion that lets a stopping session go on: the task's while it is being awaited,
      the lock holder's afterwards. */
  function NextOfStop(s: Session, ok: bool, io: TaskIo): Event {
    if s.main.StopTask? && LiveTask(s.task) then TaskStep(io) else MainIo(ok)
  }

  lemma StopTaskProgress(s: Session, io: TaskIo)
    requires Inv(s) && s.main.StopTask? && LiveTask(s.task)
    ensures Step(s, TaskStep(io)).main == StopTask
    ensures StopRank(Step(s, TaskStep(io))) < StopRank(s)
  {
  }

  /** After a step of `async_stop`: over as promised, or closer than `bound` to the end. */
  predicate Progress(s: Session, bound: nat) {
    if s.main.Unlocked? then StopOver(s) else InStopTail(s.main) && StopRank(s) < bound
  }

  predicate StopCaller(caller: Caller) {
    caller.StopCall? || caller == Recovery(true)
  }

  function CallerRank(caller: Caller): nat {
    if caller.StopCall? then 7 else 1
  }

  lemma AfterRestoreProgress(s: Session, caller: Caller, restored: bool)
    requires StopCaller(caller) && s.task == NoTask
    ensures Progress(AfterRestore(s, caller, restored), CallerRank(caller))
  {
  }

  lemma EndRestoreProgress(s: Session, caller: Caller, restored: bool)
    requires StopCaller(caller) && s.task == NoTask
    ensures Progress(EndRestore(s, caller, restored), CallerRank(caller) + 1)
  {
    if s.writer.None? { AfterRestoreProgress(s, caller, restored); }
  }

  lemma BeginRestoreProgress(s: Session, caller: Caller)
    requires StopCaller(caller) && s.task == NoTask
    ensures Progress(BeginRestore(s, caller), CallerRank(caller) + 3)
  {
    if s.writer.None? { AfterRestoreProgress(s, caller, false); }
  }

  lemma RestoreIoProgress(s: Session, caller: Caller, at: RestorePoint, ok: bool)
    requires StopCaller(caller) && s.task == NoTask && s.main == Restoring(caller, at)
    ensures Progress(MainStep(s, ok), StopRank(s))
  {
    match at
    case AwaitRestore(w) => if !ok { EndRestoreProgress(s, caller, false); }
    case AwaitDisable(w) =>
      if ok { EndRestoreProgress(Record(s, Drained(w, Disable)), caller, true); }
      else { EndRestoreProgress(s, caller, false); }
    case AwaitClose(restored) => AfterRestoreProgress(s, caller, restored);
  }

  lemma StopTailProgress(s: Session)
    ensures Progress(StopTail(s), 10)
  {
    var t := s.(task := NoTask, cancelled := false);
    if t.restorationRequired && t.writer.Some? { BeginRestoreProgress(t, StopCall); }
  }

  lemma StopRecoverProgress(s: Session, ok: bool)
    requires Inv(s) && InStopTail(s.main) && !s.main.Restoring?
    ensures Progress(MainStep(s, ok), StopRank(s))
  {
    match s.main
    case RecoverAck(_, c) => if ok { BeginRestoreProgress(Record(s, Acked(c)), Recovery(true)); }
    case _ =>
  }

  lemma StopProgress(s: Session, ok: bool)
    requires Inv(s) && InStop(s.main) && !(s.main.StopTask? && LiveTask(s.task))
    ensures Progress(MainStep(s, ok), StopRank(s))
  {
    match s.main
    case StopTask => StopTailProgress(s);
    case Restoring(caller, at) => RestoreIoProgress(s, caller, at, ok);
    case _ => StopRecoverProgress(s, ok);
  }

  /** One I/O completion, `x.2` saying whether the capture task is cancelled just before it. */
  function DriveOnce(s: Session, x: (bool, TaskIo, bool)): Session {
    var t := if x.2 then Step(s, CancelTask) else s;
    Step(t, NextOfStop(t, x.0, x.1))
  }

  /** `k` completions in the order in which they become possible. */
  function Drive(s: Session, xs: seq<(bool, TaskIo, bool)>): Session
    decreases |xs|
  {
    if xs == [] || s.main.Unlocked? then s else Drive(DriveOnce(s, xs[0]), xs[1..])
  }

  lemma {:induction false} StopDrives(s: Session, xs: seq<(bool, TaskIo, bool)>)
    requires Inv(s) && InStop(s.main) && |xs| >= StopRank(s)
    ensures StopOver(Drive(s, xs)) && Inv(Drive(s, xs))
    decreases StopRank(s)
  {
    hide Watched, Observe, MainStep, ResumeTask, Core, MainOk;
    var t := if xs[0].2 then Step(s, CancelTask) else s;
    StepKeepsInv(s, CancelTask);
    var e := NextOfStop(t, xs[0].0, xs[0].1);
    StepKeepsInv(t, e);
    if t.main.StopTask? && LiveTask(t.task) { StopTaskProgress(t, xs[0].1); } else { StopProgress(t, xs[0].0); }
    if !Step(t, e).main.Unlocked? { StopDrives(Step(t, e), xs[1..]); }
  }

  /** From any state a run can reach with the lock free - the task never started, cancelled in
      the middle of a restoration, its connection lost - `async_stop` is over after at most 15
      I/O completions, whatever they come to and however often the task is cancelled meanwhile. */
  lemma StopFromAnywhere(events: seq<Event>, xs: seq<(bool, TaskIo, bool)>)
    requires Run(events).main.Unlocked? && |xs| >= 15
    ensures var s := Drive(Step(Run(events), CallStop), xs);
      StopOver(s) && (MayCapture(s.log) ==> s.outcome == ProtocolError)
  {
    var s := Run(events);
    RunKeepsInv(events);
    StepKeepsInv(s, CallStop);
    if !LiveTask(s.task) { StopTailProgress(s); }
    var t := Step(s, CallStop);
    if !t.main.Unlocked? { StopDrives(t, xs); }
    DirtyMeansMayCapture(Drive(t, xs).log);
  }

  // ---------------------------------------------------------------- async_recover during a capture

  lemma TaskKeepsOutcome(s: Session, io: TaskIo)
    ensures ResumeTask(s, io).outcome == s.outcome && ResumeTask(s, io).main == s.main
  {
    hide Watched, Observe;
  }

  lemma RestoreNeverEscapes(s: Session, caller: Caller, at: RestorePoint, ok: bool)
    requires s.outcome != OtherError
    ensures RestoreIo(s, caller, at, ok).outcome != OtherError
  {
  }

  lemma CallsNeverEscape(s: Session, e: Event)
    requires s.outcome != OtherError && (e.CallStart? || e.CallStop? || e.CallRecover?)
    ensures Step(s, e).outcome != OtherError
  {
  }

  /** The one error that escapes undeclared: a recovery finds that its connection was closed
      under it while its SETUP drained.  Only a service call can see it, never `async_stop`. */
  lemma EscapesOnlyFromRecovery(s: Session, e: Event)
    requires Inv(s) && s.outcome != OtherError
    ensures Step(s, e).outcome == OtherError <==>
            s.main.RecoverSetup? && !s.main.fromStop && e == MainIo(true) && s.writer.None?
  {
    match e
    case TaskStep(io) => TaskKeepsOutcome(s, io);
    case CancelTask =>
    case MainIo(ok) => if s.main.Restoring? { RestoreNeverEscapes(s, s.main.caller, s.main.at, ok); }
    case _ => CallsNeverEscape(s, e);
  }

  /** What follows a call, until the lock is free again. */
  function During(s: Session, events: seq<Event>): Session
    decreases |events|
  {
    if events == [] || s.main.Unlocked? then s else During(Step(s, events[0]), events[1..])
  }

  predicate EndsInEscape(s: Session, events: seq<Event>) {
    var t := During(s, events);
    t.main.Unlocked? && t.outcome == OtherError
  }

  /** A recovery that the capture task can no longer disturb. */
  predicate Undisturbed(s: Session) {
    && !CanClose(s.task, s.cancelled)
    && (s.main.RecoverSetup? ==> s.writer.Some?)
    && (s.main.Unlocked? ==> s.outcome != OtherError)
  }

  lemma TaskLeavesWriter(s: Session, io: TaskIo)
    requires !CanClose(s.task, s.cancelled)
    ensures var t := ResumeTask(s, io); !CanClose(t.task, t.cancelled) && t.writer == s.writer && t.main == s.main
  {
  }

  /** No connection was opened and nothing logged was taken back. */
  predicate OnlyAdds(s: Session, t: Session) {
    s.log <= t.log && (t.writer == s.writer || t.writer == None) && t.nextConn == s.nextConn
  }

  lemma FinallyOnlyAdds(s: Session, lost: bool)
    ensures OnlyAdds(s, EnterFinally(s, lost))
  {
    hide Watched, Observe;
  }

  lemma TaskRestoreOnlyAdds(s: Session, at: RestorePoint, ok: bool)
    ensures OnlyAdds(s, TaskRestoreIo(s, at, ok))
  {
    hide Watched, Observe;
  }

  lemma TaskOnlyAdds(s: Session, io: TaskIo)
    ensures OnlyAdds(s, ResumeTask(s, io))
  {
    hide Watched, Observe, EnterFinally, TaskRestoreIo;
    FinallyOnlyAdds(s, false);
    FinallyOnlyAdds(s, true);
    FinallyOnlyAdds(s.(cancelled := false), false);
    if s.task.TaskRestoring? { TaskRestoreOnlyAdds(s, s.task.at, io != Failure); }
  }

  lemma RestoreIoUndisturbed(s: Session, caller: Caller, at: RestorePoint, ok: bool)
    requires Undisturbed(s) && s.main == Restoring(caller, at) && !caller.StartCleanup?
    ensures Undisturbed(RestoreIo(s, caller, at, ok)) && !InStart(RestoreIo(s, caller, at, ok).main)
  {
  }

  lemma StopTailUndisturbed(s: Session)
    ensures Undisturbed(StopTail(s)) && !InStart(StopTail(s).main)
  {
  }

  lemma StepUndisturbed(s: Session, e: Event)
    requires Undisturbed(s) && !s.main.Unlocked? && !InStart(s.main)
    ensures Undisturbed(Step(s, e)) && !InStart(Step(s, e).main)
  {
    hide RestoreIo, StopTail, ResumeTask, Watched, Observe;
    match e
    case TaskStep(io) => TaskLeavesWriter(s, io);
    case MainIo(ok) =>
      if s.main.Restoring? { RestoreIoUndisturbed(s, s.main.caller, s.main.at, ok); }
      StopTailUndisturbed(s);
    case _ =>
  }

  lemma {:induction false} DuringUndisturbed(s: Session, events: seq<Event>)
    requires Undisturbed(s) && !InStart(s.main)
    ensures Undisturbed(During(s, events))
    decreases |events|
  {
    hide Step;
    if events != [] && !s.main.Unlocked? {
      StepUndisturbed(s, events[0]);
      DuringUndisturbed(Step(s, events[0]), events[1..]);
    }
  }

  lemma During3(s: Session, a: Event, b: Event, c: Event)
    requires !s.main.Unlocked? && !Step(s, a).main.Unlocked? && !Step(Step(s, a), b).main.Unlocked?
    ensures During(s, [a, b, c]) == Step(Step(Step(s, a), b), c)
  {
    hide Step;
    assert [a, b, c][1..] == [b, c] && [b, c][1..] == [c] && [c][1..] == [];
    assert During(s, [a, b, c]) == During(Step(s, a), [b, c]);
    assert During(Step(s, a), [b, c]) == During(Step(Step(s, a), b), [c]);
  }

  lemma During4(s: Session, a: Event, b: Event, c: Event, d: Event)
    requires !s.main.Unlocked? && !Step(s, a).main.Unlocked? && !Step(Step(s, a), b).main.Unlocked?
    requires !Step(Step(Step(s, a), b), c).main.Unlocked?
    ensures During(s, [a, b, c, d]) == Step(Step(Step(Step(s, a), b), c), d)
  {
    hide Step;
    assert [a, b, c, d][1..] == [b, c, d];
    During3(Step(s, a), b, c, d);
  }

  /** One failure of the task closes the new connection, or two do when it has to get to its read or
      to its `finally` first. */
  lemma EscapeInThree(s: Session)
    requires s.main.Unlocked? && CanClose(s.task, s.cancelled) && !s.task.NotStarted? && !(s.task.Reading? && s.cancelled)
    ensures EndsInEscape(Step(s, CallRecover), [MainIo(true), TaskStep(Failure), MainIo(true)])
  {
    var t := Step(s, CallRecover);
    During3(t, MainIo(true), TaskStep(Failure), MainIo(true));
  }

  lemma EscapeInFour(s: Session)
    requires s.main.Unlocked? && CanClose(s.task, s.cancelled) && (s.task.NotStarted? || (s.task.Reading? && s.cancelled))
    ensures EndsInEscape(Step(s, CallRecover), [MainIo(true), TaskStep(Data), TaskStep(Failure), MainIo(true)])
  {
    var t := Step(s, CallRecover);
    During4(t, MainIo(true), TaskStep(Data), TaskStep(Failure), MainIo(true));
  }

  /** With the lock free, a call of `async_recover` can end with the undeclared error iff the capture
      task can still close a connection. */
  lemma RecoverEscapesIff(s: Session)
    requires s.main.Unlocked?
    ensures (exists events :: EndsInEscape(Step(s, CallRecover), events)) <==> CanClose(s.task, s.cancelled)
  {
    var t := Step(s, CallRecover);
    if CanClose(s.task, s.cancelled) {
      if s.task.NotStarted? || (s.task.Reading? && s.cancelled) { EscapeInFour(s); } else { EscapeInThree(s); }
    } else {
      forall events ensures !EndsInEscape(t, events) { DuringUndisturbed(t, events); }
    }
  }

  lemma RunAppend(events: seq<Event>, e: Event)
    ensures Run(events + [e]) == Step(Run(events), e)
  {
    assert (events + [e])[..|events|] == events;
  }

  lemma RunFour(events: seq<Event>, a: Event, b: Event, c: Event, d: Event) returns (longer: seq<Event>)
    ensures Run(longer) == Step(Step(Step(Step(Run(events), a), b), c), d)
  {
    RunAppend(events, a);
    RunAppend(events + [a], b);
    RunAppend(events + [a] + [b], c);
    longer := events + [a] + [b] + [c] + [d];
    RunAppend(events + [a] + [b] + [c], d);
  }

  lemma StartFrom(s: Session)
    requires s == Initial
    ensures var t := Step(Step(Step(Step(s, CallStart), MainIo(true)), MainIo(true)), MainIo(true));
      t.main == StartCapture(0) && t.restorationRequired && t.outcome == NoOutcome
  {
  }

  lemma CaptureFrom(s: Session)
    requires s.main == StartCapture(0) && s.writer == Some(0) && s.restorationRequired
    ensures var t := Step(Step(s, MainIo(true)), TaskStep(Data));
      t.main.Unlocked? && t.task == Reading && t.writer == Some(0) && !t.cancelled && t.restorationRequired
  {
  }

  lemma EscapeFrom(s: Session)
    requires s.main.Unlocked? && s.task == Reading && !s.cancelled && s.restorationRequired
    ensures var t := Step(Step(Step(Step(s, CallRecover), MainIo(true)), TaskStep(Failure)), MainIo(true));
      t.main.Unlocked? && t.outcome == OtherError && t.status == Stopping && t.restorationRequired
  {
  }

  /** It does happen: the task loses the old connection and closes the new one. */
  lemma RecoveryCanEscape() returns (events: seq<Event>)
    ensures Run(events).main.Unlocked? && Run(events).outcome == OtherError
    ensures Run(events).status == Stopping && Run(events).restorationRequired
  {
    var ok := MainIo(true);
    StartFrom(Initial);
    events := RunFour([], CallStart, ok, ok, ok);
    RunKeepsInv(events);
    CaptureFrom(Run(events));
    RunAppend(events, ok);
    RunAppend(events + [ok], TaskStep(Data));
    events := events + [ok] + [TaskStep(Data)];
    EscapeFrom(Run(events));
    events := RunFour(events, CallRecover, ok, TaskStep(Failure), ok);
  }
}
