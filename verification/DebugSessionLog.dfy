/** What the folded `Watch` of a log says about the log itself, position by position. */
module DebugSessionLog {
  import opened DebugSession

  predicate IsCapture(e: Entry) {
    e.Wrote? && e.command == Capture
  }

  predicate IsDrained(e: Entry, command: Command) {
    e.Drained? && e.command == command
  }

  /** CAPTURE may have reached the PIC with no drained RESTORE since. */
  ghost predicate MayCapture(log: seq<Entry>) {
    exists i :: 0 <= i < |log| && IsCapture(log[i]) && forall j :: i < j < |log| ==> !IsDrained(log[j], Restore)
  }

  ghost predicate NoCaptureFrom(log: seq<Entry>, i: int) {
    forall k :: 0 <= k < |log| && i <= k ==> !IsCapture(log[k])
  }

  ghost predicate RestoredAt(log: seq<Entry>, a: int, b: int) {
    0 <= a < b < |log| && IsDrained(log[a], Restore) && log[b] == Drained(log[a].conn, Disable)
  }

  /** The last CAPTURE, if any, was followed by a drained RESTORE and then a drained DISABLE. */
  ghost predicate Clean(log: seq<Entry>) {
    NoCaptureFrom(log, 0) || exists a, b :: RestoredAt(log, a, b) && NoCaptureFrom(log, a)
  }

  ghost predicate RestoreDrained(log: seq<Entry>, conn: nat) {
    exists a :: 0 <= a < |log| && log[a] == Drained(conn, Restore) && NoCaptureFrom(log, a)
  }

  ghost predicate SetupAcked(log: seq<Entry>, n: int, conn: nat) {
    exists k, j :: 0 <= k < j < n && j < |log| && log[k] == Wrote(conn, Setup) && log[j] == Acked(conn)
  }

  /** Every CAPTURE follows a SETUP acknowledged on its connection. */
  ghost predicate CapturesAcked(log: seq<Entry>) {
    forall i :: 0 <= i < |log| && IsCapture(log[i]) ==> SetupAcked(log, i, log[i].conn)
  }

  ghost predicate Separated(log: seq<Entry>, i: int, j: int) {
    exists a, b :: RestoredAt(log, a, b) && i < a && b < j
  }

  /** Between any two CAPTUREs lie a drained RESTORE and then a drained DISABLE, on one connection. */
  ghost predicate CapturesSeparated(log: seq<Entry>) {
    forall i, j :: 0 <= i < j < |log| && IsCapture(log[i]) && IsCapture(log[j]) ==> Separated(log, i, j)
  }

  lemma {:induction false} DirtyMeansMayCapture(log: seq<Entry>)
    ensures Watched(log).dirty <==> MayCapture(log)
  {
    if log != [] {
      var front, e := log[..|log| - 1], log[|log| - 1];
      DirtyMeansMayCapture(front);
      if MayCapture(front) && !IsDrained(e, Restore) {
        var i :| 0 <= i < |front| && IsCapture(front[i]) && forall j :: i < j < |front| ==> !IsDrained(front[j], Restore);
        assert IsCapture(log[i]) && forall j :: i < j < |log| ==> !IsDrained(log[j], Restore);
      }
      if MayCapture(log) && !IsCapture(e) {
        var i :| 0 <= i < |log| && IsCapture(log[i]) && forall j :: i < j < |log| ==> !IsDrained(log[j], Restore);
        assert IsCapture(front[i]) && forall j :: i < j < |front| ==> !IsDrained(front[j], Restore);
      }
    }
  }

  lemma {:induction false} SetupSound(log: seq<Entry>, c: nat)
    ensures c in Watched(log).setup ==> Wrote(c, Setup) in log
    ensures c in Watched(log).acked ==> SetupAcked(log, |log|, c)
  {
    if log != [] {
      var front, e := log[..|log| - 1], log[|log| - 1];
      SetupSound(front, c);
      assert log == front + [e];
      if SetupAcked(front, |front|, c) {
        var k, j :| 0 <= k < j < |front| && front[k] == Wrote(c, Setup) && front[j] == Acked(c);
        assert log[k] == Wrote(c, Setup) && log[j] == Acked(c);
      } else if c in Watched(log).acked {
        var k :| 0 <= k < |front| && front[k] == Wrote(c, Setup);
        assert log[k] == Wrote(c, Setup) && log[|front|] == Acked(c);
      }
    }
  }

  lemma {:induction false} DrainedSound(log: seq<Entry>, c: nat)
    ensures c in Watched(log).drained ==> RestoreDrained(log, c)
  {
    if log != [] && c in Watched(log).drained {
      var front, e := log[..|log| - 1], log[|log| - 1];
      DrainedSound(front, c);
      if e != Drained(c, Restore) {
        var a :| 0 <= a < |front| && front[a] == Drained(c, Restore) && NoCaptureFrom(front, a);
        assert log[a] == Drained(c, Restore) && NoCaptureFrom(log, a);
      } else {
        assert NoCaptureFrom(log, |front|);
      }
    }
  }

  lemma {:induction false} CleanSound(log: seq<Entry>)
    ensures Watched(log).clean ==> Clean(log)
  {
    if log != [] && Watched(log).clean {
      var front, e := log[..|log| - 1], log[|log| - 1];
      CleanSound(front);
      if Watched(front).clean {
        if !NoCaptureFrom(front, 0) {
          var a, b :| RestoredAt(front, a, b) && NoCaptureFrom(front, a);
          assert RestoredAt(log, a, b) && NoCaptureFrom(log, a);
        }
      } else {
        DrainedSound(front, e.conn);
        var a :| 0 <= a < |front| && front[a] == Drained(e.conn, Restore) && NoCaptureFrom(front, a);
        assert RestoredAt(log, a, |front|) && NoCaptureFrom(log, a);
      }
    }
  }

  lemma SeparatedFromLast(log: seq<Entry>, i: int)
    requires 0 <= i < |log| && IsCapture(log[i]) && Clean(log)
    ensures Separated(log, i, |log|)
  {
    var a, b :| RestoredAt(log, a, b) && NoCaptureFrom(log, a);
    assert i < a;
  }

  lemma SeparatedLater(log: seq<Entry>, e: Entry, i: int, j: int)
    requires Separated(log, i, j)
    ensures Separated(log + [e], i, j)
  {
    var a, b :| RestoredAt(log, a, b) && i < a && b < j;
    assert RestoredAt(log + [e], a, b);
  }

  lemma {:induction false} DisciplineSound(log: seq<Entry>)
    requires Watched(log).disciplined
    ensures CapturesAcked(log)
    ensures CapturesSeparated(log)
  {
    if log != [] {
      var front, e := log[..|log| - 1], log[|log| - 1];
      DisciplineSound(front);
      assert log == front + [e];
      forall i | 0 <= i < |log| && IsCapture(log[i]) ensures SetupAcked(log, i, log[i].conn) {
        SetupSound(front, log[i].conn);
        assert SetupAcked(front, i, log[i].conn);
        var k, j :| 0 <= k < j < i && front[k] == Wrote(log[i].conn, Setup) && front[j] == Acked(log[i].conn);
        assert log[k] == front[k] && log[j] == front[j];
      }
      forall i, j | 0 <= i < j < |log| && IsCapture(log[i]) && IsCapture(log[j])
        ensures Separated(log, i, j)
      {
        if j == |front| {
          CleanSound(front);
          SeparatedFromLast(front, i);
        }
        assert IsCapture(front[i]);
        SeparatedLater(front, e, i, j);
      }
    }
  }
}
