/** `AdvancedTcpDebugMonitor` as the object it is: the lock-holding methods are written out with
their awaits, and at every await the capture task runs as often as it likes.  Each await point
is shown to be the one the session machine is parked at, so every state of the object is a
state of some run and all that is proved of runs holds of the object. */
module DebugMonitor {
  import opened Common
  import opened DebugSession
  import opened DebugSessionSafety
  import opened DebugSessionLog
  import opened DebugSessionTheorems

  /** Where control goes when `_close`, called at `at`, is done. */
  ghost function AfterClose(s: Session, at: MainPoint): Session {
    match at
    case Restoring(caller, AwaitClose(restored)) => AfterRestore(s, caller, restored)
    case RecoverClose(_) => FinishRecover(s, false)
    case _ => FailStart(s)
  }

  ghost predicate CloseAwait(at: MainPoint) {
    at.StartClose? || at.RecoverClose? || (at.Restoring? && at.at.AwaitClose?)
  }

  /** How the handshake ended: acknowledged, refused with an error the callers handle, or with
      the reader gone. */
  datatype Bridge = Entered | Refused | Broken

  ghost function SetupAwait(start: bool, fromStop: bool, conn: nat): MainPoint {
    if start then StartSetup(conn) else RecoverSetup(fromStop, conn)
  }

  ghost function AckAwait(start: bool, fromStop: bool, conn: nat): MainPoint {
    if start then StartAck(conn) else RecoverAck(fromStop, conn)
  }

  lemma RestoreAwaited(s: Session, caller: Caller, at: RestorePoint, ok: bool)
    requires s.main == Restoring(caller, at)
    ensures !ok && !at.AwaitClose? ==> Step(s, MainIo(ok)) == EndRestore(s, caller, false)
    ensures ok && at.AwaitRestore? ==>
      var t := Record(Record(s, Drained(at.conn, Restore)), Wrote(at.conn, Disable));
      Step(s, MainIo(ok)) == t.(main := Restoring(caller, AwaitDisable(at.conn)))
    ensures ok && at.AwaitDisable? ==> Step(s, MainIo(ok)) == EndRestore(Record(s, Drained(at.conn, Disable)), caller, true)
  {
  }

  lemma BridgeAwaited(s: Session, start: bool, fromStop: bool, conn: nat, ok: bool)
    requires Inv(s) && (s.main == SetupAwait(start, fromStop, conn) || s.main == AckAwait(start, fromStop, conn))
    ensures start || fromStop ==> s.writer == Some(conn)
    ensures !ok ==> Step(s, MainIo(ok)) == if start then CleanupStart(s) else FailRecover(s, fromStop)
    ensures s.main == SetupAwait(start, fromStop, conn) && ok ==>
      var t := Record(s, Drained(conn, Setup));
      Step(s, MainIo(ok)) ==
        if s.writer.None? then Finish(t, OtherError) else t.(main := AckAwait(start, fromStop, conn))
    ensures s.main == AckAwait(start, fromStop, conn) && ok ==>
      var t := Record(s, Acked(conn));
      Step(s, MainIo(ok)) == if start then SendCapture(t) else BeginRestore(t, Recovery(fromStop))
  {
  }

  lemma StartAwaited(s: Session, ok: bool)
    requires s.main.StartConnect? || s.main.StartCapture?
    ensures !ok ==> Step(s, MainIo(ok)) == CleanupStart(s)
    ensures ok && s.main.StartConnect? ==> Step(s, MainIo(ok)) == OpenAndSetup(s, StartSetup(s.nextConn))
    ensures ok && s.main.StartCapture? ==> Step(s, MainIo(ok)) == BeginCapturing(Record(s, Drained(s.main.conn, Capture)))
  {
  }

  lemma RecoverAwaited(s: Session, ok: bool)
    requires s.main.RecoverConnect?
    ensures Step(s, MainIo(ok)) ==
      if ok then OpenAndSetup(s, RecoverSetup(s.main.fromStop, s.nextConn)) else FailRecover(s, s.main.fromStop)
  {
  }

  lemma StopAwaited(s: Session)
    requires Inv(s) && s.main.StopTask? && !LiveTask(s.task)
    ensures Step(s, MainIo(true)) == StopTail(s)
  {
  }

  lemma CallAwaited(s: Session)
    requires s.main.Unlocked?
    ensures Step(s, CallStart) == CallStartFrom(s)
    ensures Step(s, CallStop) == CallStopFrom(s)
    ensures Step(s, CallRecover) == BeginRecover(s, false)
  {
  }

  /** RESTORE and then DISABLE were drained on `conn`, both from `from` on. */
  ghost predicate RestoredSince(log: seq<Entry>, from: int, conn: nat) {
    exists a, b :: RestoredAt(log, a, b) && from <= a && log[a].conn == conn
  }

  lemma RestoredNow(drained: seq<Entry>, log: seq<Entry>, from: nat, conn: nat)
    requires from < |drained| < |log| && drained <= log
    requires drained[|drained| - 1] == Drained(conn, Restore) && log[|log| - 1] == Drained(conn, Disable)
    ensures RestoredSince(log, from, conn)
  {
    assert log[|drained| - 1] == drained[|drained| - 1];
    assert RestoredAt(log, |drained| - 1, |log| - 1);
  }

  lemma StillRestored(before: seq<Entry>, log: seq<Entry>, from: int, conn: nat)
    requires before <= log && RestoredSince(before, from, conn)
    ensures RestoredSince(log, from, conn)
  {
    var a, b :| RestoredAt(before, a, b) && from <= a && before[a].conn == conn;
    assert before[a] == log[a] && before[b] == log[b];
    assert RestoredAt(log, a, b);
  }

  /** No RESTORE was drained from `from` on. */
  ghost predicate NoRestoreFrom(log: seq<Entry>, from: int) {
    forall i :: from <= i && 0 <= i < |log| ==> !IsDrained(log[i], Restore)
  }

  ghost predicate NoDisableFrom(log: seq<Entry>, from: int) {
    forall i :: from <= i && 0 <= i < |log| ==> !IsDrained(log[i], Disable)
  }

  lemma NotRestored(log: seq<Entry>, from: int, conn: nat)
    requires NoRestoreFrom(log, from) || NoDisableFrom(log, from)
    ensures !RestoredSince(log, from, conn)
  {
  }

  lemma RestoredEarlier(log: seq<Entry>, from: int, later: int, conn: nat)
    requires from <= later && RestoredSince(log, later, conn)
    ensures RestoredSince(log, from, conn)
  {
  }

  /** What was restored was restored later. */
  lemma RestoredLater(before: seq<Entry>, log: seq<Entry>, from: nat, conn: nat)
    requires from <= |before| && before <= log && NoRestoreFrom(before, from)
    ensures RestoredSince(log, from, conn) <==> RestoredSince(log, |before|, conn)
  {
    assert forall i :: 0 <= i < |before| ==> before[i] == log[i];
  }

  lemma CaptureRestoresNothing(before: seq<Entry>, conn: nat)
    ensures var log := before + Handshake(conn) + CaptureSent(conn)[..1];
      before <= log && NoRestoreFrom(log, |before|) && Wrote(conn, Capture) in log[|before|..]
  {
    var log := before + Handshake(conn) + CaptureSent(conn)[..1];
    assert log[|before|..][3] == Wrote(conn, Capture);
  }

  lemma BridgeCapturesNothing(before: seq<Entry>, log: seq<Entry>, conn: nat)
    requires Bridged(before, log, conn)
    ensures Wrote(conn, Capture) !in log[|before|..]
  {
  }

  /** After a failed start something has to be restored iff CAPTURE was written and not restored. */
  lemma StartFailed(early: seq<Entry>, before: seq<Entry>, log: seq<Entry>, conn: nat, sent: bool, required: bool)
    requires before <= log
    requires sent ==> before == early + Handshake(conn) + CaptureSent(conn)[..1]
    requires sent ==> (!required <==> RestoredSince(log, |before|, conn))
    requires !sent ==> Bridged(early, before, conn) && log == before && !required
    ensures early <= log
    ensures required <==> Wrote(conn, Capture) in log[|early|..] && !RestoredSince(log, |early|, conn)
  {
    if sent {
      hide RestoredSince, NoRestoreFrom;
      CaptureRestoresNothing(early, conn);
      RestoredLater(before, log, |early|, conn);
      assert Wrote(conn, Capture) in log[|early|..] by {
        assert log[|early| + 3] == before[|early| + 3] == Wrote(conn, Capture);
        assert log[|early|..][3] == Wrote(conn, Capture);
      }
    } else {
      BridgeCapturesNothing(early, log, conn);
    }
  }

  lemma NoDisableEither(before: seq<Entry>, log: seq<Entry>, from: nat)
    requires from <= |before| && before <= log && NoDisableFrom(before, from) && NoDisableFrom(log, |before|)
    ensures NoDisableFrom(log, from)
  {
    assert forall i :: 0 <= i < |before| ==> before[i] == log[i];
  }

  /** What a complete handshake logs. */
  ghost function Handshake(conn: nat): seq<Entry> {
    [Wrote(conn, Setup), Drained(conn, Setup), Acked(conn)]
  }

  /** The log grew by a handshake or the beginning of one. */
  ghost predicate Bridged(before: seq<Entry>, log: seq<Entry>, conn: nat) {
    |before| <= |log| <= |before| + 3 && log == before + Handshake(conn)[..|log| - |before|]
  }

  ghost function CaptureSent(conn: nat): seq<Entry> {
    [Wrote(conn, Capture), Drained(conn, Capture)]
  }

  lemma NothingBridged(before: seq<Entry>, conn: nat)
    ensures Bridged(before, before, conn)
  {
  }

  lemma HandshakeSteps(before: seq<Entry>, conn: nat)
    ensures var one := before + [Wrote(conn, Setup)]; var two := one + [Drained(conn, Setup)];
      && Bridged(before, one, conn) && Bridged(before, two, conn)
      && Bridged(before, two + [Acked(conn)], conn) && two + [Acked(conn)] == before + Handshake(conn)
  {
  }

  lemma BridgeRestoresNothing(before: seq<Entry>, log: seq<Entry>, conn: nat)
    requires Bridged(before, log, conn)
    ensures before <= log && NoRestoreFrom(log, |before|) && NoDisableFrom(log, |before|)
  {
  }

  lemma NothingDisabled(log: seq<Entry>)
    ensures NoDisableFrom(log, |log|)
  {
  }

  class AdvancedTcpDebugMonitor {
    var state: Status
    var restorationRequired: bool
    var writer: Option<nat>
    var nextConn: nat
    // `_task`, with the await its coroutine is suspended at.
    var task: TaskPoint
    var cancelled: bool
    ghost var log: seq<Entry>
    // The run so far, the session it leads to, and the completion being handled since.
    ghost var events: seq<Event>
    ghost var machine: Session
    ghost var event: Event

    /** The fields as a session, the lock holder counted as parked where it last was. */
    ghost function Fields(): Session
      reads this
    {
      Session(state, restorationRequired, writer, nextConn, machine.main, task, cancelled, machine.outcome, log)
    }

    /** Where the machine is once the completion at hand has been handled. */
    ghost function Target(): Session
      reads this
    {
      Step(machine, event)
    }

    ghost predicate OnRun()
      reads this
    {
      machine == Run(events) && Inv(machine)
    }

    ghost predicate Valid()
      reads this
    {
      OnRun() && machine.main.Unlocked? && machine == Fields()
    }

    constructor ()
      ensures Valid()
      ensures state == Idle && !restorationRequired && task == NoTask && log == []
    {
      state, restorationRequired, writer, nextConn := Idle, false, None, 0;
      task, cancelled, log := NoTask, false, [];
      events, machine, event := [], Initial, CancelTask;
      new;
      RunKeepsInv([]);
    }

    /** The completion at hand has been handled. */
    ghost method Commit()
      requires OnRun()
      modifies `events, `machine
      ensures OnRun() && machine == old(Target())
    {
      hide Step, Inv;
      RunAppend(events, event);
      StepKeepsInv(machine, event);
      events := events + [event];
      machine := Step(machine, event);
    }

    // -------------------------------------------------------------- the capture task

    method FinishTask(restored: bool)
      modifies this
      ensures Fields() == DebugSession.FinishTask(old(Fields()), restored)
      ensures unchanged(`events, `machine, `event)
    {
      restorationRequired := !restored;
      state := if restored then Idle else RestoreRequired;
      task, cancelled := Finished, false;
    }

    method CloseTask()
      modifies this
      ensures Fields() == DebugSession.CloseTask(old(Fields()))
      ensures unchanged(`events, `machine, `event)
    {
      if writer.None? {
        FinishTask(false);
      } else {
        writer, task := None, TaskClosing;
      }
    }

    method EnterFinally(connectionLost: bool)
      modifies this
      ensures Fields() == DebugSession.EnterFinally(old(Fields()), connectionLost)
      ensures unchanged(`events, `machine, `event)
    {
      state := Stopping;
      if connectionLost {
        CloseTask();
      } else if writer.None? {
        FinishTask(false);
      } else {
        log := log + [Wrote(writer.value, Restore)];
        task := TaskRestoring(AwaitRestore(writer.value));
      }
    }

    method EndTaskRestore(restored: bool)
      modifies this
      ensures Fields() == DebugSession.EndTaskRestore(old(Fields()), restored)
      ensures unchanged(`events, `machine, `event)
    {
      if writer.None? {
        FinishTask(restored);
      } else {
        writer, task := None, TaskRestoring(AwaitClose(restored));
      }
    }

    /** The coroutine of `_run_capture` runs from the await it is suspended at to the next one. */
    method ResumeTask(io: TaskIo)
      modifies this
      ensures Fields() == DebugSession.ResumeTask(old(Fields()), io)
      ensures unchanged(`events, `machine, `event)
    {
      if cancelled {
        cancelled := false;
        if task.Reading? { EnterFinally(false); } else { task := Finished; }
        return;
      }
      match task
      case NotStarted =>
        if io == Deadline || writer.None? { EnterFinally(false); } else { task := Reading; }
      case Reading =>
        if io == Failure { EnterFinally(true); }
        else if io == Deadline || writer.None? { EnterFinally(false); }
      case TaskRestoring(AwaitRestore(w)) =>
        if io == Failure {
          EndTaskRestore(false);
        } else {
          log := log + [Drained(w, Restore)];
          log := log + [Wrote(w, Disable)];
          task := TaskRestoring(AwaitDisable(w));
        }
      case TaskRestoring(AwaitDisable(w)) =>
        if io == Failure {
          EndTaskRestore(false);
        } else {
          log := log + [Drained(w, Disable)];
          EndTaskRestore(true);
        }
      case TaskRestoring(AwaitClose(restored)) =>
        if restored { FinishTask(true); } else { CloseTask(); }
      case TaskClosing => FinishTask(false);
      case _ =>
    }

    method TaskEvent(cancel: bool, io: TaskIo)
      requires OnRun() && machine == Fields()
      modifies this
      ensures OnRun() && machine == Fields()
      ensures machine == old(Step(machine, if cancel then CancelTask else TaskStep(io)))
      ensures machine.main == old(machine.main) && machine.outcome == old(machine.outcome)
      ensures !LiveTask(old(task)) ==> machine == old(machine)
      ensures !old(CanClose(task, cancelled)) ==> !CanClose(task, cancelled) && writer == old(writer)
      ensures old(log) <= log && (writer == old(writer) || writer.None?) && nextConn == old(nextConn)
    {
      hide Inv, Run, Watched, Observe, MainStep;
      ghost var before := machine;
      event := if cancel then CancelTask else TaskStep(io);
      if LiveTask(task) {
        if cancel { cancelled := true; } else { ResumeTask(io); }
        TaskKeepsOutcome(before, io);
        TaskOnlyAdds(before, io);
        if !CanClose(before.task, before.cancelled) { TaskLeavesWriter(before, io); }
      }
      Commit();
    }

    // -------------------------------------------------------------- awaits

    /** The loop runs other code for a while: the capture task goes on, or is cancelled. */
    method OtherCodeRuns()
      requires OnRun() && machine == Fields()
      modifies this
      ensures OnRun() && machine == Fields()
      ensures machine.main == old(machine.main) && machine.outcome == old(machine.outcome)
      ensures !LiveTask(old(task)) ==> machine == old(machine)
      ensures !old(CanClose(task, cancelled)) ==> !CanClose(task, cancelled) && writer == old(writer)
      ensures old(log) <= log && (writer == old(writer) || writer.None?) && nextConn == old(nextConn)
    {
      hide CanClose;
      var steps: nat := *;
      while steps > 0
        invariant OnRun() && machine == Fields()
        invariant machine.main == old(machine.main) && machine.outcome == old(machine.outcome)
        invariant !LiveTask(old(task)) ==> machine == old(machine)
        invariant !old(CanClose(task, cancelled)) ==> !CanClose(task, cancelled) && writer == old(writer)
        invariant old(log) <= log && (writer == old(writer) || writer.None?) && nextConn == old(nextConn)
      {
        var cancel: bool := *;
        var io: TaskIo := *;
        TaskEvent(cancel, io);
        steps := steps - 1;
      }
    }

    /** Nobody else touched the session. */
    twostate predicate Still()
      reads this
    {
      unchanged(`state, `restorationRequired, `writer, `nextConn, `task, `cancelled, `log)
    }

    /** The lock holder awaits at `at`; the awaited operation succeeds or fails. */
    method Await(ghost at: MainPoint) returns (ok: bool)
      requires OnRun() && Target() == Fields().(main := at)
      modifies this
      ensures OnRun() && machine == Fields() && machine.main == at && machine.outcome == old(machine.outcome)
      ensures !LiveTask(old(task)) ==> machine == old(Target()) && Still()
      ensures event == MainIo(ok)
      ensures !old(CanClose(task, cancelled)) ==> !CanClose(task, cancelled) && writer == old(writer)
      ensures old(log) <= log && (writer == old(writer) || writer.None?) && nextConn == old(nextConn)
    {
      hide CanClose;
      Commit();
      OtherCodeRuns();
      ok := *;
      event := MainIo(ok);
    }

    // -------------------------------------------------------------- private coroutines

    method Close(ghost at: MainPoint)
      requires OnRun() && CloseAwait(at)
      requires Target() == if writer.None? then AfterClose(Fields(), at) else Fields().(writer := None, main := at)
      modifies this
      ensures OnRun() && Target() == AfterClose(Fields(), at) && machine.outcome == old(machine.outcome)
      ensures writer.None? && old(log) <= log
      ensures old(writer).None? ==> unchanged(this)
      ensures !LiveTask(old(task)) ==> unchanged(`state, `restorationRequired, `nextConn, `task, `cancelled, `log)
    {
      if writer.Some? {
        writer := None;
        var _ := Await(at);
      }
    }

    /** Await the drain of RESTORE or of DISABLE. */
    method AwaitDrain(ghost caller: Caller, ghost at: RestorePoint) returns (ok: bool)
      requires OnRun() && !at.AwaitClose? && Target() == Fields().(main := Restoring(caller, at))
      modifies this
      ensures OnRun() && machine.outcome == old(machine.outcome)
      ensures !LiveTask(old(task)) ==> Still()
      ensures old(log) <= log
      ensures !ok ==> Target() == EndRestore(Fields(), caller, false)
      ensures ok && at.AwaitRestore? ==>
        var t := Record(Record(Fields(), Drained(at.conn, Restore)), Wrote(at.conn, Disable));
        Target() == t.(main := Restoring(caller, AwaitDisable(at.conn)))
      ensures ok && at.AwaitDisable? ==> Target() == EndRestore(Record(Fields(), Drained(at.conn, Disable)), caller, true)
    {
      hide Inv, Run, Step, EndRestore, Record, RestoreIo, MainStep, LiveTask, CanClose;
      ok := Await(Restoring(caller, at));
      RestoreAwaited(machine, caller, at, ok);
    }

    /** The body of the `try` in `_restore_current_connection`. */
    method TryRestore(ghost caller: Caller) returns (restored: bool)
      requires OnRun() && writer.Some? && Target() == BeginRestore(Fields(), caller)
      modifies this
      ensures OnRun() && Target() == EndRestore(Fields(), caller, restored)
      ensures machine.outcome == old(machine.outcome)
      ensures !LiveTask(old(task)) ==> task == old(task)
      ensures old(log) <= log && (restored ==> RestoredSince(log, |old(log)|, old(writer).value))
      ensures !LiveTask(old(task)) && !restored ==> NoDisableFrom(log, |old(log)|)
    {
      hide Inv, Run, Step, AfterRestore, EndRestore, Watched, Observe, LiveTask, RestoredSince;
      var w := writer.value;
      log := log + [Wrote(w, Restore)];
      restored := AwaitDrain(caller, AwaitRestore(w));
      if !restored { return; }
      log := log + [Drained(w, Restore)];
      ghost var drained := log;
      log := log + [Wrote(w, Disable)];
      restored := AwaitDrain(caller, AwaitDisable(w));
      if !restored { return; }
      log := log + [Drained(w, Disable)];
      RestoredNow(drained, log, |old(log)|, w);
    }

    /** RESTORE drained, then DISABLE drained, on the connection it found, or false; either way the
        connection is closed. */
    method RestoreCurrentConnection(ghost caller: Caller) returns (restored: bool)
      requires OnRun() && Target() == BeginRestore(Fields(), caller)
      modifies this
      ensures OnRun() && Target() == AfterRestore(Fields(), caller, restored)
      ensures machine.outcome == old(machine.outcome)
      ensures !LiveTask(old(task)) ==> task == old(task)
      ensures writer.None? && old(log) <= log
      ensures old(writer).None? ==> !restored && log == old(log)
      ensures restored ==> RestoredSince(log, |old(log)|, old(writer).value)
      ensures !LiveTask(old(task)) && !restored ==> NoDisableFrom(log, |old(log)|)
    {
      hide Inv, Run, Step, AfterRestore, RestoreIo, MainStep, Watched, Observe, LiveTask, RestoredSince;
      if writer.None? { return false; }
      restored := TryRestore(caller);
      ghost var before := log;
      Close(Restoring(caller, AwaitClose(restored)));
      if restored { StillRestored(before, log, |old(log)|, old(writer).value); }
    }

    /** Await the drain of SETUP or its answer. */
    method AwaitBridge(ghost start: bool, ghost fromStop: bool, ghost conn: nat, ghost at: MainPoint) returns (ok: bool)
      requires OnRun() && Target() == Fields().(main := at)
      requires at == SetupAwait(start, fromStop, conn) || at == AckAwait(start, fromStop, conn)
      modifies this
      ensures OnRun() && machine.outcome == old(machine.outcome)
      ensures !LiveTask(old(task)) ==> Still()
      ensures !old(CanClose(task, cancelled)) ==> !CanClose(task, cancelled) && writer == old(writer)
      ensures old(log) <= log && (writer == old(writer) || writer.None?) && nextConn == old(nextConn)
      ensures start || fromStop ==> writer == Some(conn)
      ensures !ok ==> Target() == if start then CleanupStart(Fields()) else FailRecover(Fields(), fromStop)
      ensures ok && at == SetupAwait(start, fromStop, conn) ==>
        var t := Record(Fields(), Drained(conn, Setup));
        Target() == if writer.None? then Finish(t, OtherError) else t.(main := AckAwait(start, fromStop, conn))
      ensures ok && at == AckAwait(start, fromStop, conn) ==>
        var t := Record(Fields(), Acked(conn));
        Target() == if start then SendCapture(t) else BeginRestore(t, Recovery(fromStop))
    {
      hide Inv, Run, Step, CleanupStart, FailRecover, BeginRestore, SendCapture, Record, CanClose, LiveTask;
      ok := Await(at);
      BridgeAwaited(machine, start, fromStop, conn, ok);
    }

    /** `_enter_uart_bridge`, called by a start or by a recovery. */
    method EnterUartBridge(ghost start: bool, ghost fromStop: bool) returns (bridge: Bridge)
      requires OnRun() && writer.Some?
      requires Target() == Record(Fields(), Wrote(writer.value, Setup)).(main := SetupAwait(start, fromStop, writer.value))
      modifies this
      ensures OnRun() && machine.outcome == old(machine.outcome)
      ensures !LiveTask(old(task)) ==> task == old(task)
      ensures bridge == Entered && start ==> writer == old(writer) && Target() == SendCapture(Fields())
      ensures bridge == Entered && !start ==> Target() == BeginRestore(Fields(), Recovery(fromStop))
      ensures bridge == Refused ==> Target() == if start then CleanupStart(Fields()) else FailRecover(Fields(), fromStop)
      ensures bridge == Broken ==> !start && !fromStop && Target() == Finish(Fields(), OtherError)
      ensures bridge == Broken ==> old(CanClose(task, cancelled))
      ensures old(log) <= log && (writer == old(writer) || writer.None?)
      ensures !LiveTask(old(task)) ==> Bridged(old(log), log, old(writer).value)
      ensures !LiveTask(old(task)) && bridge == Entered ==> log == old(log) + Handshake(old(writer).value)
      ensures !LiveTask(old(task)) ==> unchanged(`restorationRequired, `writer)
    {
      hide Inv, Run, Step, CleanupStart, FailRecover, BeginRestore, SendCapture, Watched, Observe, CanClose, LiveTask,
        Bridged, Handshake, SetupAwait, AckAwait;
      var conn := writer.value;
      HandshakeSteps(log, conn);
      log := log + [Wrote(conn, Setup)];
      var ok := AwaitBridge(start, fromStop, conn, SetupAwait(start, fromStop, conn));
      if !ok { return Refused; }
      log := log + [Drained(conn, Setup)];
      if writer.None? { return Broken; }
      ok := AwaitBridge(start, fromStop, conn, AckAwait(start, fromStop, conn));
      if !ok { return Refused; }
      log := log + [Acked(conn)];
      return Entered;
    }

    method CleanupFailedStart()
      requires OnRun() && !LiveTask(task) && Target() == CleanupStart(Fields())
      modifies this
      ensures OnRun() && Target() == FailStart(Fields()) && machine.outcome == old(machine.outcome)
      ensures writer.None? && old(log) <= log
      ensures restorationRequired ==> old(restorationRequired)
      ensures !old(restorationRequired) ==> log == old(log)
      ensures old(restorationRequired) ==>
        (!restorationRequired <==> old(writer).Some? && RestoredSince(log, |old(log)|, old(writer).value))
    {
      hide Inv, Run, Step, Watched, Observe, RestoredSince, LiveTask;
      if !restorationRequired {
        Close(StartClose);
      } else {
        var restored := RestoreCurrentConnection(StartCleanup);
        restorationRequired := !restored;
        if !restored && old(writer).Some? { NotRestored(log, |old(log)|, old(writer).value); }
      }
    }

    /** The call is over and the lock is released. */
    ghost method Release(outcome: Outcome)
      requires OnRun() && Target() == Finish(Fields(), outcome)
      modifies `events, `machine
      ensures Valid() && machine.outcome == outcome
    {
      Commit();
    }

    /** The body of the `try` in `async_recover`. */
    method TryRecover(fromStop: bool) returns (bridge: Bridge, restored: bool)
      requires OnRun() && Target() == Fields().(main := RecoverConnect(fromStop))
      modifies this
      ensures OnRun() && machine.outcome == old(machine.outcome)
      ensures !LiveTask(old(task)) ==> task == old(task)
      ensures bridge == Entered ==> Target() == FinishRecover(Fields(), restored)
      ensures bridge == Refused ==> !restored && Target() == FailRecover(Fields(), fromStop)
      ensures bridge == Broken ==> !fromStop && Target() == Finish(Fields(), OtherError) && old(CanClose(task, cancelled))
      ensures old(log) <= log && (restored ==> bridge == Entered && RestoredSince(log, |old(log)|, old(nextConn)))
      ensures !LiveTask(old(task)) && !restored ==> NoDisableFrom(log, |old(log)|)
    {
      hide Inv, Run, Step, Watched, Observe, BeginRestore, FinishRecover, FailRecover, CanClose, LiveTask, RestoredSince;
      var ok := Await(RecoverConnect(fromStop));
      RecoverAwaited(machine, ok);
      if !ok { return Refused, false; }
      writer, nextConn := Some(nextConn), nextConn + 1;
      bridge := EnterUartBridge(false, fromStop);
      restored := false;
      ghost var before := log;
      if !LiveTask(old(task)) { BridgeRestoresNothing(old(log), log, old(nextConn)); }
      if bridge == Entered {
        restored := RestoreCurrentConnection(Recovery(fromStop));
        if restored {
          RestoredEarlier(log, |old(log)|, |before|, old(nextConn));
        } else if !LiveTask(old(task)) {
          NoDisableEither(before, log, |old(log)|);
        }
      }
    }

    /** `async_recover` with the lock held. */
    method Recover(fromStop: bool) returns (outcome: Outcome)
      requires OnRun() && Target() == BeginRecover(Fields(), fromStop)
      modifies this
      ensures Valid() && outcome == machine.outcome
      ensures outcome == Returned || outcome == ProtocolError
        || (outcome == OtherError && !fromStop && old(CanClose(task, cancelled)))
      ensures outcome == Returned ==> state == Idle && !restorationRequired
      ensures outcome == ProtocolError ==> state == RestoreRequired && restorationRequired
      ensures !LiveTask(old(task)) ==> task == old(task)
      ensures old(log) <= log && (outcome == Returned ==> RestoredSince(log, |old(log)|, old(nextConn)))
      ensures !LiveTask(old(task)) && outcome != Returned ==> NoDisableFrom(log, |old(log)|)
    {
      hide Inv, Run, Step, Watched, Observe, LiveTask, RestoredSince, NoDisableFrom;
      state := Stopping;
      var bridge, restored := TryRecover(fromStop);
      if bridge == Broken {
        Release(OtherError);
        return OtherError;
      }
      if bridge == Refused {
        Close(RecoverClose(fromStop));
      }
      outcome := EndRecover(restored);
    }

    method EndRecover(restored: bool) returns (outcome: Outcome)
      requires OnRun() && Target() == FinishRecover(Fields(), restored)
      modifies this
      ensures Valid() && task == old(task) && log == old(log)
      ensures outcome == machine.outcome == if restored then Returned else ProtocolError
      ensures restorationRequired == !restored && state == if restored then Idle else RestoreRequired
    {
      restorationRequired := !restored;
      state := if restored then Idle else RestoreRequired;
      outcome := if restored then Returned else ProtocolError;
      Release(outcome);
    }

    method AwaitTask()
      requires OnRun() && Target() == Fields().(main := StopTask)
      modifies this
      ensures OnRun() && machine == Fields() && machine.main.StopTask? && machine.outcome == old(machine.outcome)
      ensures !LiveTask(task) && Target() == StopTail(Fields())
    {
      Commit();
      while LiveTask(task)
        invariant OnRun() && machine == Fields() && machine.main.StopTask? && machine.outcome == old(machine.outcome)
        decreases StopRank(machine)
      {
        var again: bool := *;
        if again { TaskEvent(true, Data); }
        var io: TaskIo := *;
        StopTaskProgress(machine, io);
        TaskEvent(false, io);
      }
      event := MainIo(true);
      StopAwaited(machine);
    }

    // -------------------------------------------------------------- public methods

    /** The body of the `try` in `async_start`. */
    method TryStart() returns (ok: bool)
      requires OnRun() && !LiveTask(task) && Target() == Fields().(main := StartConnect)
      modifies this
      ensures OnRun() && !LiveTask(task) && machine.outcome == old(machine.outcome)
      ensures Target() == if ok then BeginCapturing(Fields()) else CleanupStart(Fields())
      ensures ok ==> restorationRequired && log == old(log) + Handshake(old(nextConn)) + CaptureSent(old(nextConn))
      ensures !ok && restorationRequired && !old(restorationRequired) ==>
        writer == Some(old(nextConn)) && log == old(log) + Handshake(old(nextConn)) + CaptureSent(old(nextConn))[..1]
      ensures !ok && !restorationRequired ==> Bridged(old(log), log, old(nextConn))
    {
      hide Inv, Run, Step, Watched, Observe, CleanupStart, BeginCapturing, Bridged, Handshake, LiveTask;
      NothingBridged(log, nextConn);
      ok := Await(StartConnect);
      StartAwaited(machine, ok);
      if !ok { return false; }
      writer, nextConn := Some(nextConn), nextConn + 1;
      var bridge := EnterUartBridge(true, false);
      if bridge != Entered { return false; }
      restorationRequired := true;
      var conn := writer.value;
      log := log + [Wrote(conn, Capture)];
      ok := Await(StartCapture(conn));
      StartAwaited(machine, ok);
      if ok {
        log := log + [Drained(conn, Capture)];
      }
    }

    method AsyncStart() returns (outcome: Outcome)
      requires Valid()
      modifies this
      ensures Valid() && outcome == machine.outcome
      ensures outcome == BusyError <==> old(LiveTask(task) || restorationRequired)
      ensures outcome == BusyError ==> unchanged(`state, `restorationRequired, `writer, `task, `log)
      ensures outcome == Returned ==> state == Capturing && restorationRequired && task == NotStarted
      ensures outcome != Returned && outcome != BusyError ==>
        outcome == ProtocolError && state == if restorationRequired then RestoreRequired else Error
      ensures old(log) <= log
      ensures outcome == Returned ==> log == old(log) + Handshake(old(nextConn)) + CaptureSent(old(nextConn))
      ensures outcome == ProtocolError ==>
        (restorationRequired <==>
          Wrote(old(nextConn), Capture) in log[|old(log)|..] && !RestoredSince(log, |old(log)|, old(nextConn)))
    {
      hide Inv, Run, Step, Watched, Observe, CleanupStart, Handshake, CaptureSent, RestoredSince, Bridged, NoRestoreFrom;
      event := CallStart;
      assert Target() == CallStartFrom(Fields()) by { CallAwaited(machine); }
      if LiveTask(task) || restorationRequired {
        Release(BusyError);
        return BusyError;
      }
      state := Starting;
      var capturing := TryStart();
      if capturing {
        state := Capturing;
        task, cancelled := NotStarted, false;
        Release(Returned);
        return Returned;
      }
      ghost var before := log;
      ghost var sent := restorationRequired;
      CleanupFailedStart();
      StartFailed(old(log), before, log, old(nextConn), sent, restorationRequired);
      state := if restorationRequired then RestoreRequired else Error;
      outcome := ProtocolError;
      Release(outcome);
    }

    /** `async_stop` once no task is left: restore over the connection there is, or else over a new one. */
    method EndStop() returns (outcome: Outcome)
      requires OnRun() && !LiveTask(task) && Target() == StopTail(Fields())
      modifies this
      ensures Valid() && outcome == machine.outcome && task == NoTask
      ensures outcome == if restorationRequired then ProtocolError else Returned
      ensures outcome == ProtocolError ==> state == RestoreRequired
      ensures old(log) <= log
      ensures outcome == Returned && old(restorationRequired) ==> exists conn :: RestoredSince(log, |old(log)|, conn)
      ensures outcome == ProtocolError ==> NoDisableFrom(log, |old(log)|)
      ensures !old(restorationRequired) ==> outcome == Returned
    {
      hide Inv, Run, Step, Watched, Observe, BeginRestore, BeginRecover, RestoredSince, NoDisableFrom;
      task, cancelled := NoTask, false;
      if restorationRequired && writer.Some? {
        var restored := RestoreCurrentConnection(StopCall);
        restorationRequired := !restored;
        state := if restored then Idle else RestoreRequired;
      }
      if restorationRequired {
        ghost var before := log;
        NothingDisabled(old(log));
        outcome := Recover(true);
        if outcome == Returned {
          ghost var conn :| RestoredSince(log, |before|, conn);
          RestoredEarlier(log, |old(log)|, |before|, conn);
        } else {
          NoDisableEither(before, log, |old(log)|);
        }
      } else {
        outcome := Returned;
        Release(Returned);
      }
    }

    /** Whatever the capture task is doing, `async_stop` ends it and either nothing is left to
        restore or it says that something is. */
    method AsyncStop() returns (outcome: Outcome)
      requires Valid()
      modifies this
      ensures Valid() && outcome == machine.outcome
      ensures task == NoTask
      ensures outcome == if restorationRequired then ProtocolError else Returned
      ensures outcome == Returned ==> !MayCapture(log)
      ensures outcome == ProtocolError ==> state == RestoreRequired
      ensures !LiveTask(old(task)) ==>
        (outcome == Returned <==> (old(restorationRequired) ==> exists conn :: RestoredSince(log, |old(log)|, conn)))
    {
      hide Inv, Run, Step, Watched, Observe, StopTail, RestoredSince, NoDisableFrom, MayCapture;
      event := CallStop;
      CallAwaited(machine);
      if LiveTask(task) {
        cancelled := true;
        AwaitTask();
      }
      outcome := EndStop();
      forall conn: nat | !LiveTask(old(task)) && outcome == ProtocolError ensures !RestoredSince(log, |old(log)|, conn) {
        NotRestored(log, |old(log)|, conn);
      }
      CaptureIsNeverForgotten(events);
    }

    method AsyncRecover() returns (outcome: Outcome)
      requires Valid()
      modifies this
      ensures Valid() && outcome == machine.outcome
      ensures outcome == Returned ==> state == Idle && !restorationRequired && !MayCapture(log)
      ensures outcome != Returned ==> outcome == OtherError || (state == RestoreRequired && restorationRequired)
      ensures outcome == OtherError ==> old(CanClose(task, cancelled))
      ensures outcome == Returned ==> RestoredSince(log, |old(log)|, old(nextConn))
      ensures !LiveTask(old(task)) ==> (outcome == Returned <==> RestoredSince(log, |old(log)|, old(nextConn)))
    {
      hide Inv, Run, Step, Watched, Observe, LiveTask, RestoredSince, NoDisableFrom, MayCapture;
      CallAwaited(machine);
      event := CallRecover;
      outcome := Recover(false);
      if !LiveTask(old(task)) && outcome != Returned { NotRestored(log, |old(log)|, old(nextConn)); }
      CaptureIsNeverForgotten(events);
    }

    /** The guard of `async_unload_entry`: the entry stays loaded while restoration is outstanding. */
    method AsyncUnloadEntry() returns (proceed: bool)
      requires Valid()
      modifies this
      ensures Valid()
      ensures proceed ==> !restorationRequired && task == NoTask && !MayCapture(log)
      ensures !proceed ==> restorationRequired && state == RestoreRequired
    {
      var outcome := AsyncStop();
      proceed := outcome == Returned;
    }
  }
}
