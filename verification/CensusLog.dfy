/** The requests one census flow sends to the firmware, and what their order has to satisfy. */
module CensusLog {

  datatype Request = Prepare | Start | Stop | Resend | Clear | Query | Update

  /** A request goes out, and then: it was acknowledged; its sender took it as failed; or its reply
      raised an error that nobody caught. */
  datatype Entry = Sent(request: Request) | Acked(request: Request) | Failed(request: Request) | Escaped(request: Request)

  /** PREPARE was acknowledged and no STOP has been since: the PIC is in learning mode. */
  predicate Outstanding(log: seq<Entry>) {
    log != [] &&
    var last := log[|log| - 1];
    last == Acked(Prepare) || (last != Acked(Stop) && Outstanding(log[..|log| - 1]))
  }

  /** A STOP failed since PREPARE was last acknowledged. */
  predicate StopFailed(log: seq<Entry>) {
    log != [] &&
    var last := log[|log| - 1];
    last == Failed(Stop) || (last != Acked(Prepare) && StopFailed(log[..|log| - 1]))
  }

  /** PREPARE was sent and no STOP has been acknowledged since: the PIC may be in learning mode. */
  predicate Pending(log: seq<Entry>) {
    log != [] &&
    var last := log[|log| - 1];
    last == Sent(Prepare) || (last != Acked(Stop) && Pending(log[..|log| - 1]))
  }

  predicate IsLostPrepare(e: Entry) {
    e == Failed(Prepare) || e == Escaped(Prepare)
  }

  /** The reply to the last PREPARE was lost or raised, and no STOP has been acknowledged since. */
  predicate Lost(log: seq<Entry>) {
    log != [] &&
    var last := log[|log| - 1];
    IsLostPrepare(last) || (last != Acked(Prepare) && last != Acked(Stop) && Lost(log[..|log| - 1]))
  }

  /** The last PREPARE has no reply yet. */
  predicate Waits(log: seq<Entry>) {
    log != [] &&
    var last := log[|log| - 1];
    last == Sent(Prepare) || (last != Acked(Prepare) && !IsLostPrepare(last) && Waits(log[..|log| - 1]))
  }

  /** START is sent only in learning mode, RESEND only outside it. */
  predicate Safe(log: seq<Entry>) {
    log == [] ||
    var front, last := log[..|log| - 1], log[|log| - 1];
    Safe(front) && (last == Sent(Start) ==> Outstanding(front)) && (last == Sent(Resend) ==> !Outstanding(front))
  }

  function Queries(log: seq<Entry>): nat {
    if log == [] then 0
    else Queries(log[..|log| - 1]) + if log[|log| - 1] == Sent(Query) then 1 else 0
  }

  function Append(log: seq<Entry>, e: Entry): (r: seq<Entry>)
    ensures r == log + [e]
    ensures Outstanding(r) <==> e == Acked(Prepare) || (e != Acked(Stop) && Outstanding(log))
    ensures StopFailed(r) <==> e == Failed(Stop) || (e != Acked(Prepare) && StopFailed(log))
    ensures Pending(r) <==> e == Sent(Prepare) || (e != Acked(Stop) && Pending(log))
    ensures Lost(r) <==> IsLostPrepare(e) || (e != Acked(Prepare) && e != Acked(Stop) && Lost(log))
    ensures Waits(r) <==> e == Sent(Prepare) || (e != Acked(Prepare) && !IsLostPrepare(e) && Waits(log))
    ensures Safe(r) <==>
      Safe(log) && (e == Sent(Start) ==> Outstanding(log)) && (e == Sent(Resend) ==> !Outstanding(log))
    ensures Queries(r) == Queries(log) + if e == Sent(Query) then 1 else 0
  {
    assert (log + [e])[..|log|] == log;
    log + [e]
  }

  lemma {:induction false} OutstandingMeans(log: seq<Entry>)
    ensures Outstanding(log) <==>
      exists i :: 0 <= i < |log| && log[i] == Acked(Prepare) && forall j :: i < j < |log| ==> log[j] != Acked(Stop)
  {
    if log != [] {
      var front, last := log[..|log| - 1], log[|log| - 1];
      OutstandingMeans(front);
      if Outstanding(log) && last != Acked(Prepare) {
        var i :| 0 <= i < |front| && front[i] == Acked(Prepare) && forall j :: i < j < |front| ==> front[j] != Acked(Stop);
        assert log[i] == Acked(Prepare) && forall j :: i < j < |log| ==> log[j] != Acked(Stop);
      }
      if i :| 0 <= i < |log| && log[i] == Acked(Prepare) && forall j :: i < j < |log| ==> log[j] != Acked(Stop) {
        if i < |front| {
          assert front[i] == Acked(Prepare) && forall j :: i < j < |front| ==> front[j] != Acked(Stop);
        }
      }
    }
  }

  /** What `Pending` says position by position. */
  lemma {:induction false} PendingMeans(log: seq<Entry>)
    ensures Pending(log) <==>
      exists i :: 0 <= i < |log| && log[i] == Sent(Prepare) && forall j :: i < j < |log| ==> log[j] != Acked(Stop)
  {
    if log != [] {
      var front, last := log[..|log| - 1], log[|log| - 1];
      PendingMeans(front);
      if Pending(log) && last != Sent(Prepare) {
        var i :| 0 <= i < |front| && front[i] == Sent(Prepare) && forall j :: i < j < |front| ==> front[j] != Acked(Stop);
        assert log[i] == Sent(Prepare) && forall j :: i < j < |log| ==> log[j] != Acked(Stop);
      }
      if i :| 0 <= i < |log| && log[i] == Sent(Prepare) && forall j :: i < j < |log| ==> log[j] != Acked(Stop) {
        if i < |front| {
          assert front[i] == Sent(Prepare) && forall j :: i < j < |front| ==> front[j] != Acked(Stop);
        }
      }
    }
  }

  ghost predicate LostAt(log: seq<Entry>, i: int) {
    && 0 <= i < |log| && (log[i] == Failed(Prepare) || log[i] == Escaped(Prepare))
    && forall j :: i < j < |log| ==> log[j] != Acked(Prepare) && log[j] != Acked(Stop)
  }

  /** What `Lost` says position by position. */
  lemma {:induction false} LostMeans(log: seq<Entry>)
    ensures Lost(log) <==> exists i :: LostAt(log, i)
  {
    if log != [] {
      var front, last := log[..|log| - 1], log[|log| - 1];
      LostMeans(front);
      if IsLostPrepare(last) {
        assert LostAt(log, |front|);
      } else if Lost(log) {
        var i :| LostAt(front, i);
        assert LostAt(log, i);
      } else if i :| LostAt(log, i) {
        assert LostAt(front, i);
        assert false;
      }
    }
  }

  ghost predicate FailedAt(log: seq<Entry>, i: int) {
    0 <= i < |log| && log[i] == Failed(Stop) && forall j :: i < j < |log| ==> log[j] != Acked(Prepare)
  }

  /** What `StopFailed` says position by position. */
  lemma {:induction false} StopFailedMeans(log: seq<Entry>)
    ensures StopFailed(log) <==> exists i :: FailedAt(log, i)
  {
    if log != [] {
      var front, last := log[..|log| - 1], log[|log| - 1];
      StopFailedMeans(front);
      if last == Failed(Stop) {
        assert FailedAt(log, |front|);
      } else if StopFailed(log) {
        var i :| FailedAt(front, i);
        assert FailedAt(log, i);
      } else if i :| FailedAt(log, i) {
        assert FailedAt(front, i);
        assert false;
      }
    }
  }

  /** A PREPARE that may be in effect was acknowledged, has lost its reply, or is still waiting. */
  lemma {:induction false} PendingCases(log: seq<Entry>)
    ensures Pending(log) ==> Outstanding(log) || Lost(log) || Waits(log)
  {
    if log != [] { PendingCases(log[..|log| - 1]); }
  }

  /** What `Safe` says position by position. */
  lemma {:induction false} SafeMeans(log: seq<Entry>)
    ensures Safe(log) <==>
      && (forall i :: 0 <= i < |log| && log[i] == Sent(Start) ==> Outstanding(log[..i]))
      && (forall i :: 0 <= i < |log| && log[i] == Sent(Resend) ==> !Outstanding(log[..i]))
  {
    hide Outstanding;
    if log != [] {
      var front, n := log[..|log| - 1], |log| - 1;
      SafeMeans(front);
      assert forall i :: 0 <= i <= n ==> log[..i] == front[..i];
      assert front[..n] == front;
      assert forall i :: 0 <= i < n ==> log[i] == front[i];
    }
  }

  ghost predicate NoResendFrom(log: seq<Entry>, from: nat) {
    forall j :: from <= j < |log| ==> log[j] != Sent(Resend)
  }

  /** In what was logged from `from` on, every RESEND comes after an acknowledged STOP. */
  ghost predicate StoppedBeforeResend(log: seq<Entry>, from: nat) {
    forall j :: from <= j < |log| && log[j] == Sent(Resend) ==> exists i :: from <= i < j && log[i] == Acked(Stop)
  }

  lemma ResendAfterStop(stopped: seq<Entry>, log: seq<Entry>, from: nat)
    requires from < |stopped| && stopped <= log
    requires NoResendFrom(stopped, from) && stopped[|stopped| - 1] == Acked(Stop)
    ensures StoppedBeforeResend(log, from)
  {
    var i := |stopped| - 1;
    assert log[i] == Acked(Stop);
    assert forall j :: from <= j <= i ==> log[j] == stopped[j];
  }

  lemma ResendStillAfterStop(earlier: seq<Entry>, log: seq<Entry>, from: nat)
    requires from <= |earlier| && earlier <= log
    requires StoppedBeforeResend(earlier, from) && NoResendFrom(log, |earlier|)
    ensures StoppedBeforeResend(log, from)
  {
    forall j | from <= j < |log| && log[j] == Sent(Resend) ensures exists i :: from <= i < j && log[i] == Acked(Stop) {
      assert earlier[j] == log[j];
      var i :| from <= i < j && earlier[i] == Acked(Stop);
      assert log[i] == Acked(Stop);
    }
  }
}
