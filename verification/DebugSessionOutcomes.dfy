/** How the calls of the debug session and its capture end, as their I/O decides.

The replies to the awaits of a call are a sequence of booleans, those to the awaits of the task a
sequence of what each came to; nothing else runs in between. */
module DebugSessionOutcomes {
  import opened Common
  import opened DebugSession

  /** The call goes on with one reply after the other until it is over. */
  function Answer(s: Session, oks: seq<bool>): Session
    decreases |oks|
  {
    if oks == [] || s.main.Unlocked? then s else Answer(MainStep(s, oks[0]), oks[1..])
  }

  lemma AnswerNext(s: Session, oks: seq<bool>)
    requires oks != [] && !s.main.Unlocked?
    ensures Answer(s, oks) == Answer(MainStep(s, oks[0]), oks[1..])
  {
    hide MainStep;
  }

  lemma AnswerOver(s: Session, oks: seq<bool>)
    requires s.main.Unlocked?
    ensures Answer(s, oks) == s
  {
    hide MainStep;
  }

  predicate Succeeded(s: Session) {
    s.main.Unlocked? && s.outcome == Returned && s.status == Idle && !s.restorationRequired
  }

  predicate StillRequired(s: Session) {
    s.main.Unlocked? && s.outcome == ProtocolError && s.status == RestoreRequired && s.restorationRequired
  }

  /** The first `n` replies from `i` on are good. */
  predicate AllOk(oks: seq<bool>, i: nat, n: nat) {
    i + n <= |oks| && forall k :: i <= k < i + n ==> oks[k]
  }

  // ---------------------------------------------------------------- restoring a connection

  /** Where `_restore_current_connection` hands over to its caller. */
  function Restored(s: Session, caller: Caller, oks: seq<bool>): Session
    requires s.writer.Some? && |oks| >= 3
  {
    var c := s.writer.value;
    var t := Record(s, Wrote(c, Restore));
    if !oks[0] then AfterRestore(t.(writer := None, main := Restoring(caller, AwaitClose(false))), caller, false)
    else
      var u := Record(Record(t, Drained(c, Restore)), Wrote(c, Disable));
      if !oks[1] then AfterRestore(u.(writer := None, main := Restoring(caller, AwaitClose(false))), caller, false)
      else
        var v := Record(u, Drained(c, Disable));
        AfterRestore(v.(writer := None, main := Restoring(caller, AwaitClose(true))), caller, true)
  }

  /** Two replies are used when the first drain fails, three otherwise; the close may fail. */
  lemma RestoreAnswers(s: Session, caller: Caller, oks: seq<bool>)
    requires s.writer.Some? && |oks| >= 3
    ensures Answer(BeginRestore(s, caller), oks)
      == Answer(Restored(s, caller, oks), if oks[0] then oks[3..] else oks[2..])
  {
    hide AfterRestore, Watched, Observe, Answer;
    var t := BeginRestore(s, caller);
    AnswerNext(t, oks);
    var u := MainStep(t, oks[0]);
    AnswerNext(u, oks[1..]);
    assert oks[1..][1..] == oks[2..] && oks[1..][0] == oks[1];
    var v := MainStep(u, oks[1]);
    if oks[0] {
      AnswerNext(v, oks[2..]);
      assert oks[2..][1..] == oks[3..];
    }
  }

  // ---------------------------------------------------------------- async_recover

  lemma RecoveryRestores(s: Session, fromStop: bool, oks: seq<bool>)
    requires s.writer.Some? && |oks| >= 3
    ensures var t := Answer(BeginRestore(s, Recovery(fromStop)), oks);
      if oks[0] && oks[1] then Succeeded(t) else StillRequired(t)
  {
    hide Watched, Observe, Answer;
    RestoreAnswers(s, Recovery(fromStop), oks);
    AnswerOver(Restored(s, Recovery(fromStop), oks), if oks[0] then oks[3..] else oks[2..]);
  }

  /** A handshake that fails ends the recovery, after the close of the connection there is. */
  lemma RecoveryFails(s: Session, fromStop: bool, oks: seq<bool>)
    requires oks != []
    ensures StillRequired(Answer(FailRecover(s, fromStop), oks))
  {
    hide Watched, Observe, Answer;
    var t := FailRecover(s, fromStop);
    if t.main.Unlocked? {
      AnswerOver(t, oks);
    } else {
      AnswerNext(t, oks);
      AnswerOver(MainStep(t, oks[0]), oks[1..]);
    }
  }

  lemma RecoveryAcks(s: Session, fromStop: bool, c: nat, oks: seq<bool>)
    requires s.main == RecoverAck(fromStop, c) && s.writer.Some? && |oks| >= 4
    ensures if AllOk(oks, 0, 3) then Succeeded(Answer(s, oks)) else StillRequired(Answer(s, oks))
  {
    hide Watched, Observe, Answer, BeginRestore, FailRecover, Succeeded, StillRequired;
    AnswerNext(s, oks);
    if oks[0] { RecoveryRestores(Record(s, Acked(c)), fromStop, oks[1..]); } else { RecoveryFails(s, fromStop, oks[1..]); }
  }

  lemma RecoveryDrains(s: Session, fromStop: bool, c: nat, oks: seq<bool>)
    requires s.main == RecoverSetup(fromStop, c) && s.writer.Some? && |oks| >= 5
    ensures if AllOk(oks, 0, 4) then Succeeded(Answer(s, oks)) else StillRequired(Answer(s, oks))
  {
    hide Watched, Observe, Answer, BeginRestore, FailRecover, Succeeded, StillRequired;
    AnswerNext(s, oks);
    if oks[0] { RecoveryAcks(MainStep(s, true), fromStop, c, oks[1..]); } else { RecoveryFails(s, fromStop, oks[1..]); }
  }

  /** A recovery succeeds iff its connection, SETUP, "#ok", RESTORE and DISABLE all do; the close of
      the connection does not matter. */
  lemma RecoveryAnswers(s: Session, fromStop: bool, oks: seq<bool>)
    requires |oks| >= 6
    ensures var t := Answer(BeginRecover(s, fromStop), oks);
      if AllOk(oks, 0, 5) then Succeeded(t) else StillRequired(t)
  {
    hide Watched, Observe, Answer, BeginRestore, FailRecover, Succeeded, StillRequired;
    var t := BeginRecover(s, fromStop);
    AnswerNext(t, oks);
    if oks[0] {
      RecoveryDrains(MainStep(t, true), fromStop, t.nextConn, oks[1..]);
    } else {
      RecoveryFails(t, fromStop, oks[1..]);
    }
  }

  lemma RecoverOutcome(s: Session, oks: seq<bool>)
    requires s.main.Unlocked? && |oks| >= 6
    ensures var t := Answer(Step(s, CallRecover), oks);
      if AllOk(oks, 0, 5) then Succeeded(t) else StillRequired(t)
  {
    hide Answer, AllOk, Succeeded, StillRequired;
    RecoveryAnswers(s, false, oks);
  }

  // ---------------------------------------------------------------- async_stop

  /** With no capture running, a stop has nothing to do unless something has to be restored; then it
      restores over the connection there is, and if that fails, or there is none, over a new one. */
  lemma StopOutcome(s: Session, oks: seq<bool>)
    requires s.main.Unlocked? && !LiveTask(s.task) && |oks| >= 9
    ensures var t := Answer(Step(s, CallStop), oks);
      if !s.restorationRequired then t.main.Unlocked? && t.outcome == Returned && t.status == s.status && t.log == s.log
      else if s.writer.None? then if AllOk(oks, 0, 5) then Succeeded(t) else StillRequired(t)
      else if AllOk(oks, 0, 2) then Succeeded(t)
      else if AllOk(oks, if oks[0] then 3 else 2, 5) then Succeeded(t)
      else StillRequired(t)
  {
    hide Watched, Observe, Answer, BeginRecover;
    var t := Step(s, CallStop);
    var u := s.(task := NoTask, cancelled := false);
    if !s.restorationRequired {
      AnswerOver(t, oks);
    } else if s.writer.None? {
      RecoveryAnswers(u, true, oks);
    } else {
      StopRestores(u, oks);
    }
  }

  lemma StopRestores(s: Session, oks: seq<bool>)
    requires s.writer.Some? && |oks| >= 9
    ensures var t := Answer(BeginRestore(s, StopCall), oks);
      if AllOk(oks, 0, 2) || AllOk(oks, if oks[0] then 3 else 2, 5) then Succeeded(t) else StillRequired(t)
  {
    hide Watched, Observe, Answer, BeginRecover;
    RestoreAnswers(s, StopCall, oks);
    var n := if oks[0] then 3 else 2;
    var v := Restored(s, StopCall, oks);
    if oks[0] && oks[1] {
      AnswerOver(v, oks[n..]);
    } else {
      var t := if !oks[0] then Record(s, Wrote(s.writer.value, Restore))
               else Record(Record(Record(s, Wrote(s.writer.value, Restore)), Drained(s.writer.value, Restore)),
                           Wrote(s.writer.value, Disable));
      RecoveryAnswers(Settle(t.(writer := None, main := Restoring(StopCall, AwaitClose(false))), false), true, oks[n..]);
      assert AllOk(oks[n..], 0, 5) <==> AllOk(oks, n, 5) by {
        assert forall k :: n <= k < n + 5 ==> oks[k] == oks[n..][k - n];
      }
    }
  }

  // ---------------------------------------------------------------- async_start

  predicate Failed(s: Session, required: bool) {
    s.main.Unlocked? && s.outcome == ProtocolError && s.restorationRequired == required
    && s.status == if required then RestoreRequired else Error
  }

  predicate Started(s: Session) {
    s.main.Unlocked? && s.outcome == Returned && s.status == Capturing && s.restorationRequired && s.task == NotStarted
    && !s.cancelled
  }

  lemma StartFails(s: Session, oks: seq<bool>)
    requires oks != [] && !s.restorationRequired
    ensures Failed(Answer(CleanupStart(s), oks), false)
  {
    hide Watched, Observe, Answer;
    var t := CleanupStart(s);
    if t.main.Unlocked? {
      AnswerOver(t, oks);
    } else {
      AnswerNext(t, oks);
      AnswerOver(MainStep(t, oks[0]), oks[1..]);
    }
  }

  lemma StartRestores(s: Session, oks: seq<bool>)
    requires s.writer.Some? && s.restorationRequired && |oks| >= 3
    ensures Failed(Answer(CleanupStart(s), oks), !(oks[0] && oks[1]))
  {
    hide Watched, Observe, Answer;
    RestoreAnswers(s, StartCleanup, oks);
    AnswerOver(Restored(s, StartCleanup, oks), if oks[0] then oks[3..] else oks[2..]);
  }

  lemma StartCaptures(s: Session, c: nat, oks: seq<bool>)
    requires s.main == StartCapture(c) && s.writer.Some? && s.restorationRequired && |oks| >= 4
    ensures var t := Answer(s, oks); if oks[0] then Started(t) else Failed(t, !(oks[1] && oks[2]))
  {
    hide Watched, Observe, Answer, CleanupStart;
    AnswerNext(s, oks);
    if oks[0] { AnswerOver(MainStep(s, true), oks[1..]); } else { StartRestores(s, oks[1..]); }
  }

  lemma StartAcks(s: Session, c: nat, oks: seq<bool>)
    requires s.main == StartAck(c) && s.writer.Some? && !s.restorationRequired && |oks| >= 5
    ensures var t := Answer(s, oks);
      if AllOk(oks, 0, 2) then Started(t) else Failed(t, oks[0] && !(oks[2] && oks[3]))
  {
    hide Watched, Observe, Answer, CleanupStart, Started, Failed;
    AnswerNext(s, oks);
    if oks[0] { StartCaptures(MainStep(s, true), s.writer.value, oks[1..]); } else { StartFails(s, oks[1..]); }
  }

  lemma StartDrains(s: Session, c: nat, oks: seq<bool>)
    requires s.main == StartSetup(c) && s.writer.Some? && !s.restorationRequired && |oks| >= 6
    ensures var t := Answer(s, oks);
      if AllOk(oks, 0, 3) then Started(t) else Failed(t, AllOk(oks, 0, 2) && !(oks[3] && oks[4]))
  {
    hide Watched, Observe, Answer, CleanupStart, Started, Failed;
    AnswerNext(s, oks);
    if oks[0] { StartAcks(MainStep(s, true), c, oks[1..]); } else { StartFails(s, oks[1..]); }
  }

  /** A start succeeds iff its connection, SETUP, "#ok" and CAPTURE all do.  One that fails leaves
      something to restore iff CAPTURE was the one that failed and restoring failed too. */
  lemma StartOutcome(s: Session, oks: seq<bool>)
    requires s.main.Unlocked? && !LiveTask(s.task) && !s.restorationRequired && |oks| >= 7
    ensures var t := Answer(Step(s, CallStart), oks);
      if AllOk(oks, 0, 4) then Started(t) else Failed(t, AllOk(oks, 0, 3) && !(oks[4] && oks[5]))
  {
    hide Watched, Observe, Answer, CleanupStart, Started, Failed;
    var t := Step(s, CallStart);
    AnswerNext(t, oks);
    if oks[0] {
      StartDrains(MainStep(t, true), t.nextConn, oks[1..]);
    } else {
      StartFails(t, oks[1..]);
    }
  }

  // ---------------------------------------------------------------- the end of a capture

  /** The task goes on with one completion after the other until it is done. */
  function TaskAnswer(s: Session, ios: seq<TaskIo>): Session
    decreases |ios|
  {
    if ios == [] || !LiveTask(s.task) then s else TaskAnswer(ResumeTask(s, ios[0]), ios[1..])
  }

  lemma TaskNext(s: Session, ios: seq<TaskIo>)
    requires ios != [] && LiveTask(s.task)
    ensures TaskAnswer(s, ios) == TaskAnswer(ResumeTask(s, ios[0]), ios[1..])
  {
    hide ResumeTask;
  }

  lemma TaskOver(s: Session, ios: seq<TaskIo>)
    requires !LiveTask(s.task)
    ensures TaskAnswer(s, ios) == s
  {
    hide ResumeTask;
  }

  predicate Done(s: Session, restored: bool) {
    s.task == Finished && !s.cancelled && s.restorationRequired == !restored
    && s.status == if restored then Idle else RestoreRequired
  }

  /** From its `finally` on, the task restores iff both drains succeed; the close does not matter. */
  lemma FinallyOutcome(s: Session, ios: seq<TaskIo>)
    requires s.writer.Some? && !s.cancelled && |ios| >= 3
    ensures var t := TaskAnswer(EnterFinally(s, false), ios);
      Done(t, ios[0] != Failure && ios[1] != Failure) && t.writer.None?
  {
    hide Watched, Observe, TaskAnswer;
    var t := EnterFinally(s, false);
    TaskNext(t, ios);
    var u := ResumeTask(t, ios[0]);
    TaskNext(u, ios[1..]);
    assert ios[1..][0] == ios[1] && ios[1..][1..] == ios[2..];
    var v := ResumeTask(u, ios[1]);
    if ios[0] == Failure {
      TaskOver(v, ios[2..]);
    } else {
      TaskNext(v, ios[2..]);
      TaskOver(ResumeTask(v, ios[2]), ios[2..][1..]);
    }
  }

  /** A capture whose time is up, or that is cancelled while it reads, is restored over its own
      connection iff RESTORE and DISABLE drain; one whose connection is lost is not. */
  lemma CaptureOutcome(s: Session, ios: seq<TaskIo>)
    requires s.task == Reading && s.writer.Some? && |ios| >= 4
    ensures s.cancelled || ios[0] == Deadline ==>
      var t := TaskAnswer(s, ios); Done(t, ios[1] != Failure && ios[2] != Failure) && t.writer.None?
    ensures !s.cancelled && ios[0] == Failure ==>
      var t := TaskAnswer(s, ios); Done(t, false) && t.writer.None? && t.log == s.log
    ensures !s.cancelled && ios[0] == Data ==> ResumeTask(s, Data) == s
  {
    hide Watched, Observe, TaskAnswer;
    TaskNext(s, ios);
    if s.cancelled || ios[0] == Deadline {
      FinallyOutcome(s.(cancelled := false), ios[1..]);
    } else if ios[0] == Failure {
      var t := ResumeTask(s, Failure);
      TaskNext(t, ios[1..]);
      TaskOver(ResumeTask(t, ios[1]), ios[1..][1..]);
    }
  }

  /** A task cancelled before its first step, or in its `finally`, leaves everything as it is. */
  lemma CancelledOutcome(s: Session, io: TaskIo)
    requires s.cancelled && LiveTask(s.task) && s.task != Reading
    ensures ResumeTask(s, io) == s.(task := Finished, cancelled := false)
  {
  }
}
