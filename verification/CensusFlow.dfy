/** The census steps of the options flow, with the cleanup timer running beside them.

Between two awaits a handler runs undisturbed; at every await the timer may go off, send its
own STOP, or hear back about it.  The replies to the handler's own requests are its parameters.
`escaped` says that an error left the handler; Home Assistant then shows the form it showed
before. */
module CensusFlow {
  import opened Common
  import opened CensusLog
  import opened CensusReplies
  import opened Parsers

  datatype StepId =
    | Menu | GuidedCensus | DiscoverDevices | DiscoverCovers | CensusPrepare | CensusStart | CensusQuery
    | CensusReview | CensusManualAdd | CensusStop | CensusRecoveryStop | CensusResend | Danger | Finished

  datatype Timer = NoTimer | Sleeping | Stopping

  const MAX_QUERIES := 10

  /** How the sync of the device manager came back. */
  datatype SyncReply = Synced | GatewayError | OtherError

  datatype Action = ScanAgain | AddManual | Accept

  /** What a handler logs about a reply it looks at itself. */
  function Reaction(request: Request, answer: Answer): Entry {
    match answer
    case Devices(_) => Acked(request)
    case GatewayFails => Failed(request)
    case ParserRaises => Escaped(request)
  }

  function Times(request: Request, n: nat): (r: seq<Request>)
    ensures |r| == n && forall i :: 0 <= i < n ==> r[i] == request
  {
    seq(n, _ => request)
  }

  lemma TimesMore(request: Request, n: nat, before: seq<Request>)
    ensures before + Times(request, 0) == before
    ensures before + Times(request, n) + [request] == before + Times(request, n + 1)
  {
    assert Times(request, n) + [request] == Times(request, n + 1);
  }

  class OptionsFlow {
    var step: StepId
    var censusActive: bool
    var censusDevices: seq<Device>
    var baseline: seq<Device>
    var baselineLoaded: bool
    var cleanupTimer: Timer
    ghost var log: seq<Entry>
    // What the handlers sent; the STOP of the timer is not among it.
    ghost var sent: seq<Request>

    /** Holds at every await. */
    ghost predicate Core()
      reads this
    {
      && Safe(log)
      && (Outstanding(log) ==> censusActive)
      && (Outstanding(log) && !StopFailed(log) ==> cleanupTimer != NoTimer)
      && !(Lost(log) && Outstanding(log))
    }

    /** A failed STOP has taken the timer away. */
    ghost predicate TimerGone()
      reads this
    {
      Outstanding(log) && StopFailed(log) ==> cleanupTimer == NoTimer
    }

    /** The flow does not believe in a census it has not prepared. */
    ghost predicate Own()
      reads this
    {
      Core() && TimerGone() && !Waits(log) && (censusActive ==> Outstanding(log))
    }

    /** Holds whenever a form is shown.  Only a recovery may believe in a census this flow has
        not prepared. */
    ghost predicate Valid()
      reads this
    {
      && Core() && TimerGone() && !Waits(log)
      && (censusActive && step != CensusRecoveryStop ==> Outstanding(log))
      && (step in {Menu, Danger, CensusResend} ==> !censusActive && cleanupTimer == NoTimer && !Outstanding(log))
    }

    constructor ()
      ensures Valid() && step == Menu && log == [] && sent == [] && baseline == [] && !baselineLoaded && !censusActive && cleanupTimer == NoTimer
    {
      step, censusActive, censusDevices, baseline, baselineLoaded := Menu, false, [], [], false;
      cleanupTimer, log, sent := NoTimer, [], [];
    }

    // ---------------------------------------------------------------- the timer

    /** Nothing but the timer touched flag and timer: it can end a census but not begin one. */
    twostate predicate TimerOnly()
      reads this
    {
      && unchanged(`step, `censusDevices, `baseline, `baselineLoaded)
      && (censusActive ==> old(censusActive))
      && (Outstanding(log) ==> old(Outstanding(log)))
      && (old(censusActive) && !censusActive ==> !Outstanding(log))
      && (old(censusActive ==> Outstanding(log)) ==> (censusActive ==> Outstanding(log)))
      && (Lost(log) ==> old(Lost(log)))
      && (old(TimerGone()) ==> TimerGone())
      && (old(cleanupTimer) == NoTimer ==> cleanupTimer == NoTimer && censusActive == old(censusActive))
    }

    /** What the timer itself logs. */
    twostate predicate TimerLog()
      reads this
    {
      && sent == old(sent) && old(log) <= log && Queries(log) == old(Queries(log)) && NoResendFrom(log, |old(log)|)
      && Waits(log) == old(Waits(log)) && (Pending(log) ==> old(Pending(log)))
      && (old(cleanupTimer) == NoTimer ==> log == old(log))
    }

    /** What the timer does: it goes off and sends STOP if a census is active, and then it hears back. */
    twostate predicate TimerFires(reply: Reply)
      reads this
    {
      match old(cleanupTimer)
      case NoTimer => unchanged(this)
      case Sleeping =>
        if censusActive then log == old(log) + [Sent(Stop)] && cleanupTimer == Stopping && old(censusActive)
        else log == old(log) && cleanupTimer == NoTimer && !old(censusActive)
      case Stopping =>
        && cleanupTimer == NoTimer
        && log == old(log) + [if AnswerOf(reply).Devices? then Acked(Stop) else Failed(Stop)]
        && censusActive == (old(censusActive) && !AnswerOf(reply).Devices?)
    }

    method TimerStep(reply: Reply)
      requires Core()
      modifies this
      ensures Core() && TimerOnly() && TimerLog() && TimerFires(reply)
    {
      hide Outstanding, StopFailed, Pending, Lost, Waits, Safe, Queries, AnswerOf;
      match cleanupTimer
      case NoTimer =>
      case Sleeping =>
        if censusActive {
          log := Append(log, Sent(Stop));
          cleanupTimer := Stopping;
        } else {
          cleanupTimer := NoTimer;
        }
      case Stopping =>
        var stopped := AnswerOf(reply).Devices?;
        log := Append(log, if stopped then Acked(Stop) else Failed(Stop));
        if stopped { censusActive := false; }
        cleanupTimer := NoTimer;
    }

    method TimerRuns()
      requires Core()
      modifies this
      ensures Core() && TimerOnly() && TimerLog()
    {
      hide Outstanding, StopFailed, Pending, Lost, Waits, Safe, Queries, AnswerOf, TimerFires;
      var steps: nat := *;
      while steps > 0
        invariant Core() && TimerOnly() && TimerLog()
      {
        var reply: Reply := *;
        TimerStep(reply);
        steps := steps - 1;
      }
    }

    // ---------------------------------------------------------------- requests

    /** Send a request and wait for the reply, which the caller handles. */
    method Send(request: Request)
      requires Core()
      requires request == Start ==> Outstanding(log)
      requires request == Resend ==> !Outstanding(log)
      modifies this
      ensures Core() && TimerOnly() && sent == old(sent) + [request]
      ensures old(log) + [Sent(request)] <= log && NoResendFrom(log, |old(log)| + 1)
      ensures Queries(log) == old(Queries(log)) + if request == Query then 1 else 0
      ensures Waits(log) <==> request == Prepare || old(Waits(log))
      ensures Pending(log) ==> request == Prepare || old(Pending(log))
      ensures old(cleanupTimer) == NoTimer ==>
        log == old(log) + [Sent(request)] && (Pending(log) <==> request == Prepare || old(Pending(log)))
    {
      hide Outstanding, StopFailed, Pending, Lost, Waits, Safe, Queries, AnswerOf;
      log, sent := Append(log, Sent(request)), sent + [request];
      TimerRuns();
    }

    /** A request other than PREPARE and STOP, and its reply: only the timer touches what the flow
        relies on. */
    method Ask(request: Request, answer: Answer)
      requires Core() && request != Prepare && request != Stop
      requires request == Start ==> Outstanding(log)
      requires request == Resend ==> !Outstanding(log)
      modifies this
      ensures Core() && TimerOnly() && Waits(log) == old(Waits(log)) && (Pending(log) ==> old(Pending(log)))
      ensures old(log) + [Sent(request)] < log && log[|log| - 1] == Reaction(request, answer)
      ensures sent == old(sent) + [request]
      ensures Queries(log) == old(Queries(log)) + if request == Query then 1 else 0
      ensures request == Query ==> NoResendFrom(log, |old(log)|)
    {
      hide Outstanding, StopFailed, Pending, Lost, Waits, Safe, Queries, AnswerOf;
      Send(request);
      log := Append(log, Reaction(request, answer));
    }

    /** `async_query_devices_with_state` */
    method QueryWithState(reply: Reply) returns (state: State)
      requires Own()
      modifies this
      ensures Own() && TimerOnly() && state == StateOf(reply) && sent == old(sent) + [Query]
      ensures old(log) < log && Queries(log) == old(Queries(log)) + 1 && NoResendFrom(log, |old(log)|)
      ensures state == QueryRaises ==> log[|log| - 1] == Escaped(Query)
    {
      hide Outstanding, StopFailed, Pending, Lost, Waits, Safe, Queries, StateOf;
      state := StateOf(reply);
      Ask(Query, match state
        case QueryFails => GatewayFails
        case QueryRaises => ParserRaises
        case _ => Devices([]));
    }

    /** STOP without letting any error out. */
    method StopCensusBestEffort(reply: Reply) returns (stopped: bool)
      requires Core() && !Waits(log)
      modifies this
      ensures Core() && TimerGone() && !Waits(log) && cleanupTimer == NoTimer
      ensures unchanged(`step, `censusDevices, `baseline, `baselineLoaded)
      ensures stopped <==> !old(censusActive) || AnswerOf(reply).Devices?
      ensures stopped ==> !censusActive
      ensures sent == old(sent) + if old(censusActive) then [Stop] else []
      ensures stopped && old(censusActive) ==> !Pending(log) && !Lost(log)
      ensures !stopped ==> StopFailed(log)
      ensures !old(censusActive) ==> log == old(log)
      ensures Lost(log) ==> old(Lost(log))
      ensures old(censusActive ==> Outstanding(log)) ==> (censusActive ==> Outstanding(log))
      ensures old(log) <= log && Queries(log) == old(Queries(log)) && NoResendFrom(log, |old(log)|)
    {
      hide Outstanding, StopFailed, Pending, Lost, Waits, Safe, Queries, AnswerOf;
      stopped := true;
      if censusActive {
        Send(Stop);
        stopped := AnswerOf(reply).Devices?;
        log := Append(log, if stopped then Acked(Stop) else Failed(Stop));
      }
      if stopped { censusActive := false; }
      cleanupTimer := NoTimer;
    }

    /** Ends the census and shows `form`, or asks for recovery when the firmware did not answer. */
    method StopOrRecover(form: StepId, stop: Reply)
      requires Own() && form in {CensusPrepare, CensusManualAdd}
      modifies this
      ensures Valid() && Stopped(form)
      ensures step == CensusRecoveryStop <==> old(censusActive) && !AnswerOf(stop).Devices?
      ensures sent == old(sent) + if old(censusActive) then [Stop] else []
      ensures unchanged(`censusDevices, `baseline, `baselineLoaded)
      ensures old(log) <= log && Queries(log) == old(Queries(log))
    {
      hide Outstanding, StopFailed, Pending, Lost, Waits, Safe, Queries, AnswerOf;
      var stopped := StopCensusBestEffort(stop);
      step := if stopped then form else CensusRecoveryStop;
    }

    /** Learning was acknowledged stopped and `form` is shown, or the recovery form is shown, a STOP
        having failed, and the flow knows whether learning is still on. */
    ghost predicate Stopped(form: StepId)
      reads this
    {
      || (step == form && !censusActive && !Outstanding(log) && cleanupTimer == NoTimer)
      || (step == CensusRecoveryStop && StopFailed(log) && cleanupTimer == NoTimer && (censusActive <==> Outstanding(log)))
    }

    // ---------------------------------------------------------------- steps

    /** PREPARE; only an acknowledged one sets flag and timer.  An error of the gateway shows `form`
        again, a reply that raises escapes; both leave flag and timer as they were. */
    method AsyncPrepareCensus(form: StepId, submitted: bool, prepare: Reply) returns (escaped: bool)
      requires Own() && form in {GuidedCensus, DiscoverDevices, DiscoverCovers, CensusPrepare}
      requires submitted ==> step !in {Menu, Danger, CensusResend}
      modifies this
      ensures Valid() && unchanged(`baseline, `baselineLoaded)
      ensures escaped <==> submitted && !old(censusActive) && AnswerOf(prepare) == ParserRaises
      ensures sent == old(sent) + if submitted && !old(censusActive) then [Prepare] else []
      ensures !submitted || old(censusActive) ==>
        log == old(log) && unchanged(`censusActive, `cleanupTimer) && step == if submitted then CensusRecoveryStop else form
      ensures submitted && !old(censusActive) ==>
        && (step == if escaped then old(step) else if AnswerOf(prepare).Devices? then CensusStart else form)
        && (AnswerOf(prepare).Devices? ==> censusActive && Outstanding(log) && cleanupTimer == Sleeping)
        && (!AnswerOf(prepare).Devices? ==> Lost(log) && TimerOnlyFlags())
        && (old(cleanupTimer) == NoTimer ==>
              Pending(log) && log == old(log) + [Sent(Prepare), Reaction(Prepare, AnswerOf(prepare))])
    {
      hide Outstanding, StopFailed, Pending, Lost, Waits, Safe, Queries, AnswerOf;
      escaped := false;
      if !submitted {
        step := form;
        return;
      }
      if censusActive {
        step := CensusRecoveryStop;
        return;
      }
      Send(Prepare);
      var answer := AnswerOf(prepare);
      log := Append(log, Reaction(Prepare, answer));
      match answer
      case ParserRaises => escaped := true;
      case GatewayFails => step := form;
      case Devices(_) =>
        censusActive := true;
        cleanupTimer := Sleeping;
        step := CensusStart;
    }

    /** Flag and timer are as they were, or as the timer left them. */
    twostate predicate TimerOnlyFlags()
      reads this
    {
      && (censusActive ==> old(censusActive))
      && (old(censusActive) && !censusActive ==> !Outstanding(log))
      && (old(cleanupTimer) == NoTimer ==> cleanupTimer == NoTimer && censusActive == old(censusActive))
    }

    /** What the poll does once a query did not answer "waiting", or all did. */
    method EndPoll(state: State, stop: Reply) returns (escaped: bool)
      requires Own() && step !in {Menu, Danger, CensusResend}
      modifies this
      ensures Valid() && unchanged(`baseline, `baselineLoaded)
      ensures old(log) <= log && Queries(log) == old(Queries(log))
      ensures escaped <==> state == QueryRaises
      ensures escaped ==> unchanged(this)
      ensures sent == old(sent) + if old(censusActive) && (state == QueryFails || state == Waiting) then [Stop] else []
      ensures !escaped ==> match state
        case Complete(devices) => step == CensusReview && censusDevices == devices
        case _ => Stopped(CensusPrepare)
    {
      hide Outstanding, StopFailed, Pending, Lost, Waits, Safe, Queries, AnswerOf;
      escaped := false;
      match state
      case Complete(devices) =>
        censusDevices := devices;
        step := CensusReview;
      case QueryRaises => escaped := true;
      case _ => StopOrRecover(CensusPrepare, stop);
    }

    /** How a poll came out that ended with `reply`: a page that is neither "waiting" nor a table stops
        learning, a table that raises escapes with no STOP sent, and a table is reviewed. */
    ghost predicate PollEnded(reply: Reply, escaped: bool)
      reads this
    {
      && (SaysNothing(reply) ==> !escaped && Stopped(CensusPrepare))
      && (SaysTable(reply) && Parse(reply.text).Raised? ==> escaped)
      && (SaysTable(reply) && Parse(reply.text).Ok? ==>
            !escaped && step == CensusReview && censusDevices == Parse(reply.text).value)
    }

    /** So many queries were sent, and behind them at most a STOP. */
    static ghost predicate Polled(before: seq<Request>, after: seq<Request>, n: nat, stopped: bool) {
      after == before + Times(Query, n) || (stopped && after == before + Times(Query, n) + [Stop])
    }

    /** What a poll sends: a STOP only behind the last query, and only if the poll ran out or ended with a
        page that is neither "waiting" nor a table. */
    static ghost predicate PollSent(before: seq<Request>, after: seq<Request>, polls: nat -> Reply) {
      && (AllWaiting(polls, 10) ==> Polled(before, after, 10, true))
      && forall i :: EndsAt(polls, 10, i) ==> Polled(before, after, i + 1, SaysNothing(polls(i)))
    }

    static lemma SentByPoll(before: seq<Request>, after: seq<Request>, polls: nat -> Reply, n: nat, state: State)
      requires if state == Waiting then n == 10 && AllWaiting(polls, 10)
        else n > 0 && EndsAt(polls, 10, n - 1) && state == StateOf(polls(n - 1))
      requires Polled(before, after, n, state == Waiting || state == QueryFails)
      ensures PollSent(before, after, polls)
    {
      hide StateOf, SaysWaiting, SaysNothing, Times;
      if state != Waiting {
        StateMeans(polls(n - 1), []);
        assert forall k :: EndsAt(polls, 10, k) ==> k == n - 1;
      }
    }

    /** Query until a reply is not "waiting", ten times at most. */
    method RunPoll(polls: nat -> Reply) returns (state: State, ghost n: nat)
      requires Own()
      modifies this
      ensures Own() && TimerOnly() && old(log) < log
      ensures sent == old(sent) + Times(Query, n) && Queries(log) == old(Queries(log)) + n
      ensures state == Waiting ==> n == 10 && AllWaiting(polls, 10)
      ensures state != Waiting ==> n > 0 && EndsAt(polls, 10, n - 1) && state == StateOf(polls(n - 1))
      ensures state == QueryRaises ==> log[|log| - 1] == Escaped(Query)
    {
      hide Outstanding, StopFailed, Pending, Lost, Waits, Safe, Queries, AnswerOf, StateOf, SaysWaiting, SaysNothing,
        SaysTable, Parse, Times;
      TimesMore(Query, 0, sent);
      n := 0;
      for i := 0 to MAX_QUERIES
        invariant Own() && TimerOnly() && AllWaiting(polls, i) && n == i
        invariant old(log) <= log && (i > 0 ==> old(log) < log) && Queries(log) == old(Queries(log)) + i
        invariant sent == old(sent) + Times(Query, i)
      {
        StateMeans(polls(i), []);
        TimesMore(Query, i, old(sent));
        state := QueryWithState(polls(i));
        n := i + 1;
        if state != Waiting { return; }
        TimerRuns();
      }
      state := Waiting;
    }

    /** Ten queries if all replies are "waiting", and then learning is stopped; otherwise as many as it
        takes to the first other reply, which decides. */
    method PollCensus(polls: nat -> Reply, stop: Reply) returns (escaped: bool)
      requires Own() && step !in {Menu, Danger, CensusResend}
      modifies this
      ensures Valid() && unchanged(`baseline, `baselineLoaded)
      ensures old(log) < log
      ensures old(sent) <= sent && PollSent(old(sent), sent, polls)
      ensures AllWaiting(polls, 10) ==> Queries(log) == old(Queries(log)) + 10 && !escaped && Stopped(CensusPrepare)
      ensures forall i :: EndsAt(polls, 10, i) ==>
        Queries(log) == old(Queries(log)) + i + 1 && PollEnded(polls(i), escaped)
      ensures escaped <==> PollEnd(polls, MAX_QUERIES) == QueryRaises
      ensures escaped ==> TimerOnly() && log[|log| - 1] == Escaped(Query)
      ensures !escaped ==> match PollEnd(polls, MAX_QUERIES)
        case Complete(devices) => step == CensusReview && censusDevices == devices
        case _ => Stopped(CensusPrepare)
    {
      hide Outstanding, StopFailed, Pending, Lost, Waits, Safe, Queries, AnswerOf, StateOf, SaysWaiting, SaysNothing,
        SaysTable, Parse, PollEnd, Stopped, Times, PollSent;
      var state: State;
      ghost var n: nat;
      state, n := RunPoll(polls);
      PollMeans(polls, 10);
      if state != Waiting {
        PollEndIs(polls, 10, n - 1);
        StateMeans(polls(n - 1), []);
        assert forall k :: EndsAt(polls, 10, k) ==> k == n - 1;
      }
      escaped := EndPoll(state, stop);
      SentByPoll(old(sent), sent, polls, n, state);
    }

    method AsyncStepCensusStart(start: Reply, polls: nat -> Reply, stop: Reply) returns (escaped: bool)
      requires Valid() && step == CensusStart
      modifies this
      ensures Valid()
      ensures !old(censusActive) ==> !escaped && step == CensusPrepare && log == old(log) && sent == old(sent)
      ensures old(censusActive) ==> old(sent) + [Start] <= sent
      ensures old(censusActive) ==> match AnswerOf(start)
        case ParserRaises => sent == old(sent) + [Start]
        case GatewayFails => sent == old(sent) + [Start] || sent == old(sent) + [Start, Stop]
        case Devices(_) => PollSent(old(sent) + [Start], sent, polls)
      ensures old(censusActive) ==>
        (escaped <==> AnswerOf(start) == ParserRaises || (AnswerOf(start).Devices? && PollEnd(polls, MAX_QUERIES) == QueryRaises))
      ensures escaped ==> TimerOnly()
      ensures old(censusActive) && !escaped ==>
        if AnswerOf(start).Devices? && PollEnd(polls, MAX_QUERIES).Complete?
        then step == CensusReview && censusDevices == PollEnd(polls, MAX_QUERIES).devices
        else Stopped(CensusPrepare)
    {
      hide Outstanding, StopFailed, Pending, Lost, Waits, Safe, Queries, AnswerOf, PollEnd, PollSent, Times;
      if !censusActive {
        escaped := AsyncPrepareCensus(CensusPrepare, false, NoReply);
        return;
      }
      var answer := AnswerOf(start);
      Ask(Start, answer);
      match answer
      case ParserRaises => escaped := true;
      case Devices(_) => escaped := PollCensus(polls, stop);
      case GatewayFails =>
        StopOrRecover(CensusPrepare, stop);
        escaped := false;
    }

    method AsyncStepCensusQuery(polls: nat -> Reply, stop: Reply) returns (escaped: bool)
      requires Valid() && step == CensusQuery
      modifies this
      ensures Valid()
      ensures escaped <==> old(censusActive) && PollEnd(polls, MAX_QUERIES) == QueryRaises
      ensures escaped ==> TimerOnly()
      ensures old(censusActive) ==> PollSent(old(sent), sent, polls)
      ensures !old(censusActive) ==> log == old(log) && sent == old(sent)
      ensures !escaped ==> if old(censusActive) then step == CensusReview || Stopped(CensusPrepare) else step == CensusPrepare
    {
      if censusActive {
        escaped := PollCensus(polls, stop);
      } else {
        escaped := AsyncPrepareCensus(CensusPrepare, false, NoReply);
      }
    }

    /** STOP, and RESEND once it has been acknowledged.  The answer that ended it is returned. */
    method StopThenResend(stop: Reply, resend: Reply) returns (answer: Answer)
      requires Own()
      modifies this
      ensures Core() && !Waits(log) && (censusActive ==> Outstanding(log)) && unchanged(`step, `baseline, `baselineLoaded)
      ensures answer != GatewayFails ==> TimerGone()
      ensures answer == if AnswerOf(stop).Devices? then AnswerOf(resend) else AnswerOf(stop)
      ensures sent == old(sent) + if AnswerOf(stop).Devices? then [Stop, Resend] else [Stop]
      ensures old(log) < log && StoppedBeforeResend(log, |old(log)|)
      ensures AnswerOf(stop).Devices? ==> !censusActive && !Pending(log) && log[|log| - 1] == Reaction(Resend, AnswerOf(resend))
      ensures !AnswerOf(stop).Devices? ==> TimerOnlyFlags() && NoResendFrom(log, |old(log)|)
    {
      hide Outstanding, StopFailed, Pending, Lost, Waits, Safe, Queries, AnswerOf;
      ghost var from := |log|;
      Send(Stop);
      answer := AnswerOf(stop);
      log := Append(log, Reaction(Stop, answer));
      if answer.Devices? {
        ghost var stopped := log;
        censusActive := false;
        answer := AnswerOf(resend);
        Ask(Resend, answer);
        ResendAfterStop(stopped, log, from);
      }
    }

    /** Accepting a census: STOP acknowledged, then RESEND acknowledged, then the sync.  An error of
        the gateway leads to recovery; a reply that raises, or another error of the sync, escapes. */
    method AsyncStepCensusStop(stop: Reply, resend: Reply, sync: SyncReply, cleanup: Reply) returns (escaped: bool)
      requires Own() && step in {CensusReview, CensusStop}
      modifies this
      ensures Valid() && old(log) < log && StoppedBeforeResend(log, |old(log)|)
      ensures escaped <==>
        || AnswerOf(stop) == ParserRaises
        || (AnswerOf(stop).Devices? && AnswerOf(resend) == ParserRaises)
        || (AnswerOf(stop).Devices? && AnswerOf(resend).Devices? && sync == OtherError)
      ensures escaped ==> step == old(step)
      ensures match AnswerOf(stop)
        case Devices(_) => sent == old(sent) + [Stop, Resend]
        case ParserRaises => sent == old(sent) + [Stop]
        case GatewayFails => sent == old(sent) + [Stop] || sent == old(sent) + [Stop, Stop]
      ensures escaped && !AnswerOf(stop).Devices? ==> TimerOnlyFlags() && NoResendFrom(log, |old(log)|)
      ensures escaped && AnswerOf(stop).Devices? ==> !censusActive && !Pending(log)
      ensures step == Finished <==> AnswerOf(stop).Devices? && AnswerOf(resend).Devices? && sync == Synced
      ensures step == Finished ==> !censusActive && !Pending(log) && cleanupTimer == NoTimer
      ensures !escaped && step != Finished ==>
        step == CensusRecoveryStop && cleanupTimer == NoTimer && (censusActive <==> Outstanding(log))
      ensures AnswerOf(stop).Devices? && AnswerOf(resend).Devices? ==> Acked(Resend) in log[|old(log)|..]
    {
      hide Outstanding, StopFailed, Pending, Lost, Waits, Safe, Queries, AnswerOf;
      var answer := StopThenResend(stop, resend);
      ghost var sent := log;
      if answer.Devices? { TimerRuns(); }
      escaped := answer == ParserRaises || (answer.Devices? && sync == OtherError);
      if !escaped {
        var _ := StopCensusBestEffort(cleanup);
        step := if answer.Devices? && sync == Synced then Finished else CensusRecoveryStop;
      }
      ResendStillAfterStop(sent, log, |old(log)|);
    }

    method AsyncStepCensusReview(action: Action, stop: Reply, next: Reply, sync: SyncReply, cleanup: Reply)
      returns (escaped: bool)
      requires Valid() && step == CensusReview
      modifies this
      ensures Valid()
      ensures action == AddManual ==> !escaped && Stopped(CensusManualAdd)
      ensures action == ScanAgain ==>
        (escaped <==> (old(censusActive) ==> AnswerOf(stop).Devices?) && AnswerOf(next) == ParserRaises)
      ensures action == AddManual ==> sent == old(sent) + if old(censusActive) then [Stop] else []
      ensures action == ScanAgain ==>
        if old(censusActive) && !AnswerOf(stop).Devices? then step == CensusRecoveryStop && sent == old(sent) + [Stop]
        else sent == old(sent) + if old(censusActive) then [Stop, Prepare] else [Prepare]
      ensures action == ScanAgain && !escaped && step != CensusRecoveryStop ==>
        step == if AnswerOf(next).Devices? then CensusStart else GuidedCensus
      ensures action == Accept ==> old(sent) + [Stop] <= sent
      ensures action == Accept ==> escaped || step in {Finished, CensusRecoveryStop}
      ensures escaped ==> step == CensusReview
    {
      hide Outstanding, StopFailed, Pending, Lost, Waits, Safe, Queries, AnswerOf;
      escaped := false;
      match action
      case ScanAgain =>
        var stopped := StopCensusBestEffort(stop);
        if stopped {
          escaped := AsyncPrepareCensus(GuidedCensus, true, next);
        } else {
          step := CensusRecoveryStop;
        }
      case AddManual => StopOrRecover(CensusManualAdd, stop);
      case Accept => escaped := AsyncStepCensusStop(stop, next, sync, cleanup);
    }

    /** One missing device is saved and the table read again, whatever state its import is in. */
    method AsyncStepCensusManualAdd(saved: bool, query: Reply) returns (escaped: bool)
      requires Valid() && step == CensusManualAdd
      modifies this
      ensures Valid() && sent == old(sent) + if saved then [Update, Query] else [Update]
      ensures old(log) < log && (if saved then Acked(Update) else Failed(Update)) in log[|old(log)|..]
      ensures escaped <==> saved && AnswerOf(query) == ParserRaises
      ensures escaped ==> TimerOnly()
      ensures if saved && AnswerOf(query).Devices? then step == CensusReview && censusDevices == AnswerOf(query).devices
              else step == CensusManualAdd && censusDevices == old(censusDevices)
    {
      hide Outstanding, StopFailed, Pending, Lost, Waits, Safe, Queries, AnswerOf;
      escaped := false;
      Ask(Update, if saved then Devices([]) else GatewayFails);
      ghost var update := |log| - 1;
      assert log[|old(log)|..][update - |old(log)|] == log[update];
      if !saved { return; }
      var answer := AnswerOf(query);
      Ask(Query, answer);
      assert log[|old(log)|..][update - |old(log)|] == Acked(Update);
      match answer
      case Devices(devices) =>
        censusDevices := devices;
        step := CensusReview;
      case GatewayFails =>
      case ParserRaises => escaped := true;
    }

    method AsyncStepCensusRecoveryStop(stop: Reply)
      requires Valid() && step == CensusRecoveryStop
      modifies this
      ensures Valid()
      ensures step == if AnswerOf(stop).Devices? then Finished else CensusRecoveryStop
      ensures sent == old(sent) + [Stop]
      ensures step == Finished ==> !censusActive && !Pending(log) && cleanupTimer == NoTimer
      ensures step != Finished ==> StopFailed(log) && cleanupTimer == NoTimer
    {
      hide Outstanding, StopFailed, Pending, Lost, Waits, Safe, Queries, AnswerOf;
      censusActive := true;
      var stopped := StopCensusBestEffort(stop);
      step := if stopped then Finished else CensusRecoveryStop;
    }

    method AsyncStepCensusResend(resend: Reply) returns (escaped: bool)
      requires Valid() && step == CensusResend
      modifies this
      ensures Valid() && (escaped <==> AnswerOf(resend) == ParserRaises) && sent == old(sent) + [Resend]
      ensures step == if AnswerOf(resend).Devices? then Finished else CensusResend
    {
      hide Outstanding, StopFailed, Pending, Lost, Waits, Safe, Queries, AnswerOf;
      var answer := AnswerOf(resend);
      Ask(Resend, answer);
      if answer.Devices? { step := Finished; }
      escaped := answer == ParserRaises;
    }

    /** Once the baseline is there, PREPARE is sent iff the form was submitted and no census is active. */
    static predicate GuidedSent(asked: seq<Request>, after: seq<Request>, submitted: bool, active: bool) {
      if !submitted then after == asked
      else after == asked + [Prepare] || (active && after == asked)
    }

    /** The table is read once as the baseline; without it no census is prepared. */
    method AsyncStepGuidedCensus(submitted: bool, query: Reply, prepare: Reply) returns (escaped: bool)
      requires Valid() && step in {Menu, GuidedCensus} && (submitted ==> step == GuidedCensus)
      modifies this
      ensures Valid()
      ensures escaped ==> step == old(step)
      ensures !old(baselineLoaded) && !AnswerOf(query).Devices? ==>
        && (escaped <==> AnswerOf(query) == ParserRaises)
        && !baselineLoaded && TimerOnlyFlags() && (!escaped ==> step == GuidedCensus) && sent == old(sent) + [Query]
      ensures old(baselineLoaded) || AnswerOf(query).Devices? ==>
        GuidedSent(old(sent) + if old(baselineLoaded) then [] else [Query], sent, submitted, old(censusActive))
      ensures (old(baselineLoaded) || AnswerOf(query).Devices?) && !submitted ==> !escaped && step == GuidedCensus
      ensures old(baselineLoaded) || AnswerOf(query).Devices? ==>
        baselineLoaded && baseline == if old(baselineLoaded) then old(baseline) else AnswerOf(query).devices
      ensures !escaped ==> step in {GuidedCensus, CensusStart, CensusRecoveryStop}
      ensures step == CensusStart ==> baselineLoaded
    {
      hide Outstanding, StopFailed, Pending, Lost, Waits, Safe, Queries, AnswerOf;
      if !baselineLoaded {
        var answer := AnswerOf(query);
        Ask(Query, answer);
        match answer {
          case ParserRaises => return true;
          case GatewayFails =>
            step := GuidedCensus;
            return false;
          case Devices(devices) =>
            baseline, baselineLoaded := devices, true;
        }
      }
      escaped := AsyncPrepareCensus(GuidedCensus, submitted, prepare);
    }

    /** Clearing the device table; any request that fails or raises escapes and leaves the form as it
        was. */
    method AsyncStepDanger(status: bool, confirmed: bool, query: Reply, clear: Reply, prepare: Reply)
      returns (escaped: bool)
      requires Valid() && step == Danger
      modifies this
      ensures Valid()
      ensures escaped <==>
        !status || (confirmed && !(AnswerOf(query).Devices? && AnswerOf(clear).Devices? && AnswerOf(prepare).Devices?))
      ensures sent == old(sent) +
        if !status || !confirmed then []
        else if !AnswerOf(query).Devices? then [Query]
        else if !AnswerOf(clear).Devices? then [Query, Clear]
        else [Query, Clear, Prepare]
      ensures if confirmed && !escaped then step == CensusStart && censusActive && Outstanding(log) && cleanupTimer == Sleeping
              else step == Danger && !censusActive && cleanupTimer == NoTimer
    {
      hide Outstanding, StopFailed, Pending, Lost, Waits, Safe, Queries, AnswerOf;
      escaped := true;
      if !status { return; }
      if !confirmed { return false; }
      Ask(Query, AnswerOf(query));
      if !AnswerOf(query).Devices? { return; }
      Ask(Clear, AnswerOf(clear));
      if !AnswerOf(clear).Devices? { return; }
      Send(Prepare);
      log := Append(log, Reaction(Prepare, AnswerOf(prepare)));
      if !AnswerOf(prepare).Devices? { return; }
      censusActive := true;
      cleanupTimer := Sleeping;
      step := CensusStart;
      escaped := false;
    }

    method ChooseFromMenu(choice: StepId, query: Reply) returns (escaped: bool)
      requires Valid() && step == Menu
      modifies this
      ensures Valid()
      ensures choice in {DiscoverDevices, DiscoverCovers, CensusRecoveryStop, CensusResend, Danger} ==>
        !escaped && step == choice && unchanged(`censusActive, `cleanupTimer, `log, `sent)
      ensures choice !in {GuidedCensus, DiscoverDevices, DiscoverCovers, CensusRecoveryStop, CensusResend, Danger} ==>
        !escaped && unchanged(this)
      ensures choice == GuidedCensus ==>
        && (escaped <==> !old(baselineLoaded) && AnswerOf(query) == ParserRaises)
        && (!escaped ==> step == GuidedCensus) && sent == old(sent) + if old(baselineLoaded) then [] else [Query]
    {
      hide Outstanding, StopFailed, Pending, Lost, Waits, Safe, Queries, AnswerOf;
      escaped := false;
      if choice == GuidedCensus {
        escaped := AsyncStepGuidedCensus(false, query, NoReply);
      } else if choice in {DiscoverDevices, DiscoverCovers, CensusRecoveryStop, CensusResend, Danger} {
        step := choice;
      }
    }

    /** What submitting each form sends. */
    ghost predicate Submitted(form: StepId, active: bool, input: Input, before: seq<Request>)
      reads this
    {
      match form
      case Menu => sent == before || (input.choice == GuidedCensus && sent == before + [Query])
      case GuidedCensus =>
        sent == before + [Query] || GuidedSent(before, sent, true, active) || GuidedSent(before + [Query], sent, true, active)
      case DiscoverDevices => Prepared(form, active, input.first, before)
      case DiscoverCovers => Prepared(form, active, input.first, before)
      case CensusPrepare => Prepared(form, active, input.first, before)
      case CensusStart => if active then before + [Start] <= sent else sent == before && step == CensusPrepare
      case CensusQuery => if active then PollSent(before, sent, input.polls) else sent == before && step == CensusPrepare
      case CensusReview => true
      case CensusManualAdd => sent == before + if input.confirmed then [Update, Query] else [Update]
      case CensusStop => before + [Stop] <= sent
      case CensusRecoveryStop => sent == before + [Stop]
      case CensusResend => sent == before + [Resend]
      case Danger => if input.status && input.confirmed then before + [Query] <= sent else sent == before
      case Finished => sent == before
    }

    /** A census is prepared from this form, unless one is believed active. */
    ghost predicate Prepared(form: StepId, active: bool, prepare: Reply, before: seq<Request>)
      reads this
    {
      if active then sent == before && step == CensusRecoveryStop
      else sent == before + [Prepare] && (AnswerOf(prepare) == GatewayFails ==> step == form)
    }

    /** A submission before a census runs. */
    method SubmitForm(input: Input) returns (escaped: bool)
      requires Valid() && step in {Menu, GuidedCensus, DiscoverDevices, DiscoverCovers, CensusPrepare}
      modifies this
      ensures Valid() && Submitted(old(step), old(censusActive), input, old(sent))
    {
      hide Outstanding, StopFailed, Pending, Lost, Waits, Safe, Queries, AnswerOf, PollSent, Stopped;
      var a, b := input.first, input.second;
      match step
      case Menu => escaped := ChooseFromMenu(input.choice, a);
      case GuidedCensus => escaped := AsyncStepGuidedCensus(true, a, b);
      case DiscoverDevices => escaped := AsyncPrepareCensus(DiscoverDevices, true, a);
      case DiscoverCovers => escaped := AsyncPrepareCensus(DiscoverCovers, true, a);
      case CensusPrepare => escaped := AsyncPrepareCensus(CensusPrepare, true, a);
    }

    /** A submission while a census runs, or around one. */
    method SubmitStep(input: Input) returns (escaped: bool)
      requires Valid() && step !in {Menu, GuidedCensus, DiscoverDevices, DiscoverCovers, CensusPrepare}
      modifies this
      ensures Valid() && Submitted(old(step), old(censusActive), input, old(sent))
    {
      hide Outstanding, StopFailed, Pending, Lost, Waits, Safe, Queries, AnswerOf, PollSent, PollEnd, Stopped, Times;
      escaped := false;
      var a, b := input.first, input.second;
      match step
      case CensusStart => escaped := AsyncStepCensusStart(a, input.polls, b);
      case CensusQuery => escaped := AsyncStepCensusQuery(input.polls, b);
      case CensusReview => escaped := AsyncStepCensusReview(input.action, a, b, input.sync, input.third);
      case CensusManualAdd => escaped := AsyncStepCensusManualAdd(input.confirmed, a);
      case CensusStop => escaped := AsyncStepCensusStop(a, b, input.sync, input.third);
      case CensusRecoveryStop => AsyncStepCensusRecoveryStop(a);
      case CensusResend => escaped := AsyncStepCensusResend(a);
      case Danger => escaped := AsyncStepDanger(input.status, input.confirmed, a, b, input.third);
      case Finished =>
    }

    /** One submission of the form on show. */
    method Submit(input: Input) returns (escaped: bool)
      requires Valid()
      modifies this
      ensures Valid() && Submitted(old(step), old(censusActive), input, old(sent))
    {
      hide Valid, Submitted;
      if step in {Menu, GuidedCensus, DiscoverDevices, DiscoverCovers, CensusPrepare} {
        escaped := SubmitForm(input);
      } else {
        escaped := SubmitStep(input);
      }
    }
  }

  /** What the user enters, and the replies to the requests this leads to. */
  datatype Input = Input(
    choice: StepId, action: Action, confirmed: bool, status: bool,
    first: Reply, second: Reply, third: Reply, polls: nat -> Reply, sync: SyncReply)

  /** Every run of one flow, the timer going off whenever it likes: an acknowledged PREPARE is never
      forgotten, STARTs and RESENDs are sent only where they may be, and the cleanup timer of a
      prepared census is gone exactly when a STOP has failed.  If a PREPARE may be in effect and the
      flow does not know it, the reply to the last one was lost or raised; and outside a recovery the
      flow never knows it then. */
  method RunFlow(inputs: seq<Input>) returns (flow: OptionsFlow)
    ensures flow.Valid()
    ensures Outstanding(flow.log) ==> flow.censusActive
    ensures Safe(flow.log)
    ensures Outstanding(flow.log) ==> (flow.cleanupTimer == NoTimer <==> StopFailed(flow.log))
    ensures Pending(flow.log) && !flow.censusActive ==> Lost(flow.log)
    ensures Pending(flow.log) && flow.step != CensusRecoveryStop ==> (flow.censusActive <==> !Lost(flow.log))
  {
    hide Outstanding, StopFailed, Pending, Lost, Waits, Safe, Queries, AnswerOf;
    flow := new OptionsFlow();
    for i := 0 to |inputs|
      invariant fresh(flow) && flow.Valid()
    {
      flow.TimerRuns();
      var _ := flow.Submit(inputs[i]);
    }
    PendingCases(flow.log);
  }

  /** It happens: a PREPARE whose reply is lost, or whose reply raises, may be in effect, and the flow
      has neither flag nor timer. */
  method PrepareIsLost(reply: Reply) returns (flow: OptionsFlow, escaped: bool)
    requires !AnswerOf(reply).Devices?
    ensures flow.Valid() && Pending(flow.log) && Lost(flow.log)
    ensures !flow.censusActive && flow.cleanupTimer == NoTimer && flow.step == DiscoverDevices
    ensures escaped <==> AnswerOf(reply) == ParserRaises
  {
    hide Outstanding, StopFailed, Pending, Lost, Waits, Safe, Queries, AnswerOf;
    flow := new OptionsFlow();
    var _ := flow.ChooseFromMenu(DiscoverDevices, NoReply);
    escaped := flow.AsyncPrepareCensus(DiscoverDevices, true, reply);
  }
}
