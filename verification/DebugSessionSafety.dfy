/** What every run of the debug session keeps, whatever fails and however the calls, the
capture task and its cancellations interleave. */
module DebugSessionSafety {
  import opened Common
  import opened DebugSession

  predicate InStart(main: MainPoint) {
    main.StartConnect? || main.StartSetup? || main.StartAck? || main.StartCapture? || main.StartClose?
    || (main.Restoring? && main.caller.StartCleanup?)
  }

  /** `async_stop` once it has awaited the task. */
  predicate InStopTail(main: MainPoint) {
    match main
    case Restoring(caller, _) => caller.StopCall? || (caller.Recovery? && caller.fromStop)
    case RecoverConnect(fromStop) => fromStop
    case RecoverSetup(fromStop, _) => fromStop
    case RecoverAck(fromStop, _) => fromStop
    case RecoverClose(fromStop) => fromStop
    case _ => false
  }

  predicate PointOk(at: RestorePoint, w: Watch) {
    match at
    case AwaitRestore(_) => true
    case AwaitDisable(c) => c in w.drained && !w.dirty
    case AwaitClose(restored) => restored ==> w.clean
  }

  predicate MainOk(s: Session, w: Watch) {
    match s.main
    case StartConnect => !s.restorationRequired
    case StartSetup(c) => !s.restorationRequired && s.writer == Some(c) && c in w.setup
    case StartAck(c) => !s.restorationRequired && s.writer == Some(c) && c in w.setup
    case StartCapture(c) => s.restorationRequired && s.writer == Some(c)
    case StartClose => !s.restorationRequired
    case StopTask => !s.task.NoTask? && (s.task.NotStarted? || s.task.Reading? ==> s.cancelled)
    case RecoverSetup(fromStop, c) => fromStop ==> s.writer == Some(c)
    case RecoverAck(fromStop, c) => fromStop ==> s.writer == Some(c)
    case Restoring(caller, at) => PointOk(at, w) && (caller.StartCleanup? ==> s.restorationRequired)
    case _ => true
  }

  /** The part of the invariant that does not mention where the lock holder is parked. */
  predicate Core(s: Session) {
    var w := Watched(s.log);
    && (s.task.TaskRestoring? ==> PointOk(s.task.at, w))
    && (!s.restorationRequired ==> w.clean)
    && (w.clean ==> !w.dirty)
    && w.disciplined
  }

  /** "idle" and "error" are published only when nothing has to be restored, "capturing" and
      "restore_required" only when something has. */
  predicate Truthful(s: Session) {
    && (s.status == Idle || s.status == Error ==> !s.restorationRequired)
    && (s.status == Capturing || s.status == RestoreRequired ==> s.restorationRequired)
  }

  predicate Inv(s: Session) {
    && Core(s)
    && Truthful(s)
    && MainOk(s, Watched(s.log))
    && (InStart(s.main) ==> !LiveTask(s.task) && s.status == Starting)
    && (InStopTail(s.main) ==> s.task == NoTask)
  }

  // ---------------------------------------------------------------- the lock holder

  /** What has to hold where `_restore_current_connection` is entered or left for `caller`. */
  predicate CallerOk(s: Session, caller: Caller) {
    && Core(s) && Truthful(s)
    && (caller.StartCleanup? ==> s.restorationRequired && !LiveTask(s.task) && s.status == Starting)
    && (caller.StopCall? || caller == Recovery(true) ==> s.task == NoTask)
  }

  lemma StopRecoverInv(s: Session)
    requires Core(s) && Truthful(s) && s.task == NoTask
    ensures Inv(StopRecover(s))
  {
  }

  lemma AfterRestoreInv(s: Session, caller: Caller, restored: bool)
    requires CallerOk(s, caller) && (restored ==> Watched(s.log).clean)
    ensures Inv(AfterRestore(s, caller, restored))
  {
    if caller.StopCall? { StopRecoverInv(Settle(s, restored)); }
  }

  lemma BeginRestoreInv(s: Session, caller: Caller)
    requires CallerOk(s, caller)
    ensures Inv(BeginRestore(s, caller))
  {
    hide AfterRestore;
    if s.writer.None? { AfterRestoreInv(s, caller, false); }
  }

  lemma EndRestoreInv(s: Session, caller: Caller, restored: bool)
    requires CallerOk(s, caller) && (restored ==> Watched(s.log).clean)
    ensures Inv(EndRestore(s, caller, restored))
  {
    hide AfterRestore;
    if s.writer.None? { AfterRestoreInv(s, caller, restored); }
  }

  lemma RestoreIoInv(s: Session, caller: Caller, at: RestorePoint, ok: bool)
    requires Inv(s) && s.main == Restoring(caller, at)
    ensures Inv(RestoreIo(s, caller, at, ok))
  {
    hide EndRestore, AfterRestore;
    match at
    case AwaitRestore(w) => if !ok { EndRestoreInv(s, caller, false); }
    case AwaitDisable(w) =>
      if ok { EndRestoreInv(Record(s, Drained(w, Disable)), caller, true); } else { EndRestoreInv(s, caller, false); }
    case AwaitClose(restored) => AfterRestoreInv(s, caller, restored);
  }

  lemma CleanupStartInv(s: Session)
    requires Core(s) && !LiveTask(s.task) && s.status == Starting
    ensures Inv(CleanupStart(s))
  {
    if s.restorationRequired { BeginRestoreInv(s, StartCleanup); }
  }

  lemma SendCaptureInv(s: Session, c: nat)
    requires Inv(s) && s.main == StartAck(c)
    ensures Inv(SendCapture(Record(s, Acked(c))))
  {
  }

  lemma StartOkInv(s: Session)
    requires Inv(s) && InStart(s.main) && !s.main.Restoring? && !s.main.StartClose?
    ensures Inv(MainStep(s, true))
  {
    match s.main
    case StartAck(c) => SendCaptureInv(s, c);
    case _ =>
  }

  lemma StopTailInv(s: Session)
    requires Core(s) && Truthful(s)
    ensures Inv(StopTail(s))
  {
    var t := s.(task := NoTask, cancelled := false);
    if t.restorationRequired && t.writer.Some? { BeginRestoreInv(t, StopCall); } else { StopRecoverInv(t); }
  }

  lemma FailRecoverInv(s: Session, fromStop: bool)
    requires Core(s) && Truthful(s) && (fromStop ==> s.task == NoTask)
    ensures Inv(FailRecover(s, fromStop))
  {
    var t := s.(writer := None, main := RecoverClose(fromStop));
  }

  lemma RecoverConnectedInv(s: Session, fromStop: bool)
    requires Inv(s) && s.main == RecoverConnect(fromStop)
    ensures Inv(OpenAndSetup(s, RecoverSetup(fromStop, s.nextConn)))
  {
  }

  lemma RecoverSetupInv(s: Session, fromStop: bool, c: nat)
    requires Inv(s) && s.main == RecoverSetup(fromStop, c)
    ensures Inv(MainStep(s, true))
  {
    var t := Record(s, Drained(c, Setup));
  }

  lemma MainKeepsInv(s: Session, ok: bool)
    requires Inv(s)
    ensures Inv(MainStep(s, ok))
  {
    hide StopTail, RestoreIo, CleanupStart, FailRecover, BeginRestore;
    match s.main
    case Unlocked =>
    case StopTask => if s.task.Finished? { StopTailInv(s); }
    case Restoring(caller, at) => RestoreIoInv(s, caller, at, ok);
    case RecoverClose(_) =>
    case RecoverConnect(fs) => if ok { RecoverConnectedInv(s, fs); } else { FailRecoverInv(s, fs); }
    case RecoverSetup(fs, c) => if ok { RecoverSetupInv(s, fs, c); } else { FailRecoverInv(s, fs); }
    case RecoverAck(fs, c) =>
      if ok { BeginRestoreInv(Record(s, Acked(c)), Recovery(fs)); } else { FailRecoverInv(s, fs); }
    case StartClose =>
    case _ => if ok { StartOkInv(s); } else { CleanupStartInv(s); }
  }

  // ---------------------------------------------------------------- the capture task

  lemma FinishTaskInv(s: Session, restored: bool)
    requires Inv(s) && LiveTask(s.task) && (restored ==> Watched(s.log).clean)
    ensures Inv(FinishTask(s, restored))
  {
  }

  lemma CloseTaskInv(s: Session)
    requires Inv(s) && LiveTask(s.task)
    ensures Inv(CloseTask(s))
  {
    if s.writer.None? { FinishTaskInv(s, false); }
  }

  lemma EndTaskRestoreInv(s: Session, restored: bool)
    requires Inv(s) && LiveTask(s.task) && (restored ==> Watched(s.log).clean)
    ensures Inv(EndTaskRestore(s, restored))
  {
    if s.writer.None? { FinishTaskInv(s, restored); }
  }

  lemma EnterFinallyInv(s: Session, connectionLost: bool)
    requires Inv(s.(cancelled := true)) && LiveTask(s.task)
    ensures Inv(EnterFinally(s, connectionLost))
  {
  }

  lemma TaskRestoreIoInv(s: Session, at: RestorePoint, ok: bool)
    requires Inv(s) && s.task == TaskRestoring(at)
    ensures Inv(TaskRestoreIo(s, at, ok))
  {
    hide EndTaskRestore, CloseTask, FinishTask;
    match at
    case AwaitRestore(w) => if !ok { EndTaskRestoreInv(s, false); }
    case AwaitDisable(w) =>
      if ok { EndTaskRestoreInv(Record(s, Drained(w, Disable)), true); } else { EndTaskRestoreInv(s, false); }
    case AwaitClose(restored) => if restored { FinishTaskInv(s, true); } else { CloseTaskInv(s); }
  }

  lemma TaskKeepsInv(s: Session, io: TaskIo)
    requires Inv(s) && LiveTask(s.task)
    ensures Inv(ResumeTask(s, io))
  {
    hide TaskRestoreIo, EnterFinally;
    match s.task
    case TaskRestoring(at) => if !s.cancelled { TaskRestoreIoInv(s, at, io != Failure); }
    case Reading => EnterFinallyInv(s.(cancelled := false), !s.cancelled && io == Failure);
    case NotStarted => if !s.cancelled { EnterFinallyInv(s, false); }
    case _ => if !s.cancelled { FinishTaskInv(s, false); }
  }

  lemma StepKeepsInv(s: Session, e: Event)
    requires Inv(s)
    ensures Inv(Step(s, e))
  {
    hide StopTail, MainStep, ResumeTask;
    match e
    case CallStop => if s.main.Unlocked? && !LiveTask(s.task) { StopTailInv(s); }
    case MainIo(ok) => MainKeepsInv(s, ok);
    case TaskStep(io) => if LiveTask(s.task) { TaskKeepsInv(s, io); }
    case _ =>
  }
}
