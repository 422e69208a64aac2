/** The TCP/PIC debug session of advanced_debug.py as a machine over await points.

`async_start`, `async_stop` and `async_recover` hold one lock, so at most one of them is
in flight; `main` is the await it is parked at.  The capture task runs without the lock
and is parked at `task`.  One event completes one await, and the code up to the next
await runs atomically with it, exactly as on the asyncio loop.  The log is a ghost record
of everything written to, flushed to or acknowledged by the gateway. */
module DebugSession {
  import opened Common

  datatype Command = Setup | Capture | Restore | Disable

  datatype Status = Idle | Starting | Capturing | Stopping | RestoreRequired | Error

  datatype Entry =
    | Wrote(conn: nat, command: Command)
    | Drained(conn: nat, command: Command)
    | Acked(conn: nat)

  /** The awaits of `_restore_current_connection`, whoever called it. */
  datatype RestorePoint = AwaitRestore(conn: nat) | AwaitDisable(conn: nat) | AwaitClose(restored: bool)

  /** The lock-holding code that called `_restore_current_connection`. */
  datatype Caller = StartCleanup | StopCall | Recovery(fromStop: bool)

  datatype MainPoint =
    | Unlocked
    | StartConnect
    | StartSetup(conn: nat)
    | StartAck(conn: nat)
    | StartCapture(conn: nat)
    | StartClose
    | StopTask
    | RecoverConnect(fromStop: bool)
    | RecoverSetup(fromStop: bool, conn: nat)
    | RecoverAck(fromStop: bool, conn: nat)
    | RecoverClose(fromStop: bool)
    | Restoring(caller: Caller, at: RestorePoint)

  datatype TaskPoint = NoTask | NotStarted | Reading | TaskRestoring(at: RestorePoint) | TaskClosing | Finished

  datatype Outcome = NoOutcome | Returned | BusyError | ProtocolError | OtherError

  /** `_reader` and `_writer` are always set and cleared together, so one field stands for both. */
  datatype Session = Session(
    status: Status,
    restorationRequired: bool,
    writer: Option<nat>,
    nextConn: nat,
    main: MainPoint,
    task: TaskPoint,
    cancelled: bool,
    outcome: Outcome,
    log: seq<Entry>)

  /** What the task's current await, or the loop head after it, came to. */
  datatype TaskIo = Data | Deadline | Failure

  datatype Event =
    | CallStart
    | CallStop
    | CallRecover
    | MainIo(ok: bool)
    | TaskStep(io: TaskIo)
    | CancelTask

  const Initial := Session(Idle, false, None, 0, Unlocked, NoTask, false, NoOutcome, [])

  // ---------------------------------------------------------------- the log

  /** What a reader of the log has to remember of it: the connections with a SETUP, with an
      acknowledged SETUP and with a drained RESTORE since the last CAPTURE; whether a CAPTURE is
      outstanding, whether RESTORE and then DISABLE were drained on one connection since the last
      CAPTURE (or there was none), and whether the discipline was kept so far. */
  datatype Watch = Watch(
    setup: set<nat>, acked: set<nat>, drained: set<nat>, dirty: bool, clean: bool, disciplined: bool)

  function Observe(w: Watch, e: Entry): Watch {
    match e
    case Wrote(c, Setup) => w.(setup := w.setup + {c})
    case Wrote(c, Capture) =>
      w.(drained := {}, dirty := true, clean := false, disciplined := w.disciplined && w.clean && c in w.acked)
    case Acked(c) => if c in w.setup then w.(acked := w.acked + {c}) else w
    case Drained(c, Restore) => w.(drained := w.drained + {c}, dirty := false)
    case Drained(c, Disable) => if c in w.drained then w.(clean := true) else w
    case _ => w
  }

  function Watched(log: seq<Entry>): Watch {
    if log == [] then Watch({}, {}, {}, false, true, true)
    else Observe(Watched(log[..|log| - 1]), log[|log| - 1])
  }

  function Record(s: Session, e: Entry): (r: Session)
    ensures r == s.(log := r.log) && r.log == s.log + [e]
    ensures Watched(r.log) == Observe(Watched(s.log), e)
  {
    assert (s.log + [e])[..|s.log|] == s.log;
    s.(log := s.log + [e])
  }

  predicate LiveTask(task: TaskPoint) {
    !task.NoTask? && !task.Finished?
  }

  // ---------------------------------------------------------------- lock-holding code

  function Finish(s: Session, outcome: Outcome): Session {
    s.(main := Unlocked, outcome := outcome)
  }

  function CallStartFrom(s: Session): Session {
    if LiveTask(s.task) || s.restorationRequired then Finish(s, BusyError)
    else s.(status := Starting, main := StartConnect)
  }

  function OpenAndSetup(s: Session, at: MainPoint): Session {
    Record(s, Wrote(s.nextConn, Setup)).(writer := Some(s.nextConn), nextConn := s.nextConn + 1, main := at)
  }

  function FailStart(s: Session): Session {
    Finish(s.(status := if s.restorationRequired then RestoreRequired else Error), ProtocolError)
  }

  /** `_cleanup_failed_start` and the handler around it. */
  function CleanupStart(s: Session): Session {
    if s.restorationRequired then BeginRestore(s, StartCleanup)
    else if s.writer.None? then FailStart(s)
    else s.(writer := None, main := StartClose)
  }

  function SendCapture(s: Session): Session {
    var t := s.(restorationRequired := true);
    match t.writer
    case None => CleanupStart(t)
    case Some(w) => Record(t, Wrote(w, Capture)).(main := StartCapture(w))
  }

  function BeginCapturing(s: Session): Session {
    Finish(s.(status := Capturing, task := NotStarted, cancelled := false), Returned)
  }

  function BeginRestore(s: Session, caller: Caller): Session {
    match s.writer
    case None => AfterRestore(s, caller, false)
    case Some(w) => Record(s, Wrote(w, Restore)).(main := Restoring(caller, AwaitRestore(w)))
  }

  function EndRestore(s: Session, caller: Caller, restored: bool): Session {
    if s.writer.None? then AfterRestore(s, caller, restored)
    else s.(writer := None, main := Restoring(caller, AwaitClose(restored)))
  }

  function AfterRestore(s: Session, caller: Caller, restored: bool): Session {
    match caller
    case StartCleanup => FailStart(s.(restorationRequired := !restored))
    case StopCall => StopRecover(Settle(s, restored))
    case Recovery(fromStop) => FinishRecover(s, restored)
  }

  function Settle(s: Session, restored: bool): Session {
    s.(restorationRequired := !restored, status := if restored then Idle else RestoreRequired)
  }

  function FinishRecover(s: Session, restored: bool): Session {
    Finish(Settle(s, restored), if restored then Returned else ProtocolError)
  }

  function CallStopFrom(s: Session): Session {
    if LiveTask(s.task) then s.(cancelled := true, main := StopTask) else StopTail(s)
  }

  function StopTail(s: Session): Session {
    var t := s.(task := NoTask, cancelled := false);
    if t.restorationRequired && t.writer.Some? then BeginRestore(t, StopCall) else StopRecover(t)
  }

  function StopRecover(s: Session): Session {
    if s.restorationRequired then BeginRecover(s, true) else Finish(s, Returned)
  }

  function BeginRecover(s: Session, fromStop: bool): Session {
    s.(status := Stopping, main := RecoverConnect(fromStop))
  }

  function FailRecover(s: Session, fromStop: bool): Session {
    if s.writer.None? then FinishRecover(s, false) else s.(writer := None, main := RecoverClose(fromStop))
  }

  function RestoreIo(s: Session, caller: Caller, at: RestorePoint, ok: bool): Session {
    match at
    case AwaitRestore(w) =>
      if !ok then EndRestore(s, caller, false)
      else Record(Record(s, Drained(w, Restore)), Wrote(w, Disable)).(main := Restoring(caller, AwaitDisable(w)))
    case AwaitDisable(w) =>
      if !ok then EndRestore(s, caller, false)
      else EndRestore(Record(s, Drained(w, Disable)), caller, true)
    case AwaitClose(restored) => AfterRestore(s, caller, restored)
  }

  /** The await at `main` completes: normally, or with one of the I/O errors the code handles. */
  function MainStep(s: Session, ok: bool): Session {
    match s.main
    case Unlocked => s
    case StartConnect => if ok then OpenAndSetup(s, StartSetup(s.nextConn)) else CleanupStart(s)
    case StartSetup(c) =>
      if ok then Record(s, Drained(c, Setup)).(main := StartAck(c)) else CleanupStart(s)
    case StartAck(c) => if ok then SendCapture(Record(s, Acked(c))) else CleanupStart(s)
    case StartCapture(c) => if ok then BeginCapturing(Record(s, Drained(c, Capture))) else CleanupStart(s)
    case StartClose => FailStart(s)
    case StopTask => if s.task.Finished? then StopTail(s) else s
    case RecoverConnect(fs) =>
      if ok then OpenAndSetup(s, RecoverSetup(fs, s.nextConn)) else FailRecover(s, fs)
    case RecoverSetup(fs, c) =>
      if !ok then FailRecover(s, fs)
      // The task's own close may have cleared `_reader`: the attribute error escapes.
      else if s.writer.None? then Finish(Record(s, Drained(c, Setup)), OtherError)
      else Record(s, Drained(c, Setup)).(main := RecoverAck(fs, c))
    case RecoverAck(fs, c) =>
      if ok then BeginRestore(Record(s, Acked(c)), Recovery(fs)) else FailRecover(s, fs)
    case RecoverClose(fs) => FinishRecover(s, false)
    case Restoring(caller, at) => RestoreIo(s, caller, at, ok)
  }

  // ---------------------------------------------------------------- the capture task

  function FinishTask(s: Session, restored: bool): Session {
    Settle(s, restored).(task := Finished, cancelled := false)
  }

  function CloseTask(s: Session): Session {
    if s.writer.None? then FinishTask(s, false) else s.(writer := None, task := TaskClosing)
  }

  function EnterFinally(s: Session, connectionLost: bool): Session {
    var t := s.(status := Stopping);
    if connectionLost then CloseTask(t)
    else match t.writer
      case None => FinishTask(t, false)
      case Some(w) => Record(t, Wrote(w, Restore)).(task := TaskRestoring(AwaitRestore(w)))
  }

  function LoopHead(s: Session, io: TaskIo): Session {
    // `assert self._reader is not None` fails after a recovery closed the connection.
    if io == Deadline || s.writer.None? then EnterFinally(s, false) else s.(task := Reading)
  }

  function EndTaskRestore(s: Session, restored: bool): Session {
    if s.writer.None? then FinishTask(s, restored)
    else s.(writer := None, task := TaskRestoring(AwaitClose(restored)))
  }

  function TaskRestoreIo(s: Session, at: RestorePoint, ok: bool): Session {
    match at
    case AwaitRestore(w) =>
      if !ok then EndTaskRestore(s, false)
      else Record(Record(s, Drained(w, Restore)), Wrote(w, Disable)).(task := TaskRestoring(AwaitDisable(w)))
    case AwaitDisable(w) =>
      if !ok then EndTaskRestore(s, false)
      else EndTaskRestore(Record(s, Drained(w, Disable)), true)
    case AwaitClose(restored) => if restored then FinishTask(s, true) else CloseTask(s)
  }

  /** A pending cancellation is thrown at the await; before the first step the coroutine never
      runs, and inside the `finally` it leaves the flag and the connection as they are. */
  function ResumeTask(s: Session, io: TaskIo): Session {
    if s.cancelled then
      if s.task.Reading? then EnterFinally(s.(cancelled := false), false)
      else s.(task := Finished, cancelled := false)
    else match s.task
      case NotStarted => LoopHead(s, io)
      case Reading => if io == Failure then EnterFinally(s, true) else LoopHead(s, io)
      case TaskRestoring(at) => TaskRestoreIo(s, at, io != Failure)
      case TaskClosing => FinishTask(s, false)
      case _ => s
  }

  /** The capture task may still close a connection: it reads or will read, or it waits in its
      `finally` for something that can end with a close. */
  predicate CanClose(task: TaskPoint, cancelled: bool) {
    match task
    case Reading => true
    case NotStarted => !cancelled
    case TaskRestoring(at) => !cancelled && at != AwaitClose(true)
    case _ => false
  }

  // ---------------------------------------------------------------- runs

  function Step(s: Session, e: Event): Session {
    match e
    case CallStart => if s.main.Unlocked? then CallStartFrom(s) else s
    case CallStop => if s.main.Unlocked? then CallStopFrom(s) else s
    case CallRecover => if s.main.Unlocked? then BeginRecover(s, false) else s
    case MainIo(ok) => MainStep(s, ok)
    case TaskStep(io) => if LiveTask(s.task) then ResumeTask(s, io) else s
    case CancelTask => if LiveTask(s.task) then s.(cancelled := true) else s
  }

  function Run(events: seq<Event>): Session {
    if events == [] then Initial else Step(Run(events[..|events| - 1]), events[|events| - 1])
  }
}
