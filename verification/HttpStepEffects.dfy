/** What every step of a request of src/http/client.ts does to what its caller, its transport and the counters see. */
module HttpStepEffects {
  import opened Prelude
  import opened HttpStatistics
  import opened HttpRequests
  import opened HttpClientRuns
  import Pool = HttpPoolSpec

  /** The step aborts the request's controller and its transport answers that at once. */
  predicate AnswersAbort(v: View, answer: Option<Outcome>) {
    !v.req.aborted && v.req.transport.Pending? && answer.Some?
  }

  /** The error of a promise that the pool refused. */
  function RefusalTag(v: View): Tag
    requires RejectReady(v)
  {
    match v.req.wait
    case Refused(tag) => tag
    case OnWaiter(w) => if v.pool.waiters[w].outcome == Pool.TimedOut then PoolTimeoutTag else AbortTag
  }

  /** What the step of an unfinished request calls the callback with, if it calls it. */
  function Report(v: View, e: Step): Option<Outcome>
    requires Enabled(v, e)
  {
    match e
    case GrantTask(Answers(outcome)) => Some(outcome)
    case GrantTask(Suspends(_)) => None
    case RejectTask => Some(Failure(RefusalTag(v)))
    case Complete(outcome) => Some(outcome)
    case TimeoutFires(_) => Some(TimedOut)
    case CancelCalled(answer) => if AnswersAbort(v, answer) then answer else Some(Interrupt)
    case SignalAborts(_, answer) => if AnswersAbort(v, answer) then answer else None
    case AbortMicrotask => Some(Failure(v.req.abortTask.value.tag))
    case QueueTimeoutFires => None
  }

  /** The callback was called with o and the counters count it. */
  ghost predicate EndedWith(v: View, r: View, o: Outcome) {
    r.req.done && r.req.callbacks == [o] && OneEnded(v.stats, r.stats, o)
  }

  ghost predicate NothingReported(v: View, r: View) {
    r.req.done == v.req.done && r.req.callbacks == v.req.callbacks && r.stats == v.stats
  }

  ghost predicate Reported(v: View, r: View, report: Option<Outcome>) {
    if report.Some? then EndedWith(v, r, report.value) else NothingReported(v, r)
  }

  lemma AnswerReports(c: Pool.Config, v: View, outcome: Outcome)
    requires InRange(v)
    ensures
      var r := Answer(c, v, outcome);
      && (v.req.done ==> NothingReported(v, r))
      && (!v.req.done && v.req.callbacks == [] ==> EndedWith(v, r, outcome))
  {
    hide Freed, Finished;
    FinishedCounts(v.stats, outcome);
  }

  lemma AbortReports(c: Pool.Config, v: View, answer: Option<Outcome>)
    requires InRange(v)
    ensures
      var r := AbortOwn(c, v, answer);
      && (v.req.done || !AnswersAbort(v, answer) || v.req.wait.OnWaiter? ==> NothingReported(v, r))
      && (!v.req.done && v.req.callbacks == [] && AnswersAbort(v, answer) && !v.req.wait.OnWaiter? ==>
            EndedWith(v, r, answer.value))
  {
    hide Answer, AbortWaiter;
    if answer.Some? {
      AnswerReports(c, v.(req := v.req.(aborted := true)), answer.value);
    }
  }

  lemma TimeoutReports(c: Pool.Config, v: View, answer: Option<Outcome>)
    requires InRange(v) && !v.req.done && v.req.callbacks == []
    ensures EndedWith(v, Timeout(c, v, answer), TimedOut)
  {
    hide AbortOwn, Freed, Finished;
    AbortReports(c, TimeoutWith(v, Freed(c, v)), answer);
    FinishedCounts(v.stats, TimedOut);
  }

  lemma CancelReports(c: Pool.Config, v: View, answer: Option<Outcome>)
    requires InRange(v) && !v.req.done && v.req.callbacks == [] && (v.req.transport.Pending? ==> v.req.wait.NoWait?)
    ensures EndedWith(v, Cancel(c, v, answer), if AnswersAbort(v, answer) then answer.value else Interrupt)
  {
    hide AbortOwn, Freed, Finished;
    AbortReports(c, v.(req := v.req.(cancelInner := false)), answer);
    FinishedCounts(v.stats, Interrupt);
  }

  lemma SignalReports(c: Pool.Config, v: View, tag: Tag, answer: Option<Outcome>)
    requires InRange(v) && !v.req.done && v.req.callbacks == [] && (v.req.transport.Pending? ==> v.req.wait.NoWait?)
    ensures Reported(v, ExternalAbort(c, v, tag, answer), if AnswersAbort(v, answer) then answer else None)
  {
    hide AbortOwn, Freed;
    AbortReports(c, v.(req := v.req.(listening := false)), answer);
  }

  lemma GrantReports(c: Pool.Config, v: View, reply: Reply)
    requires InRange(v) && !v.req.done && v.req.callbacks == [] && GrantReady(v)
    ensures Reported(v, Grant(c, v, reply), if reply.Answers? then Some(reply.outcome) else None)
  {
    hide Freed, Finished;
    if reply.Answers? {
      FinishedCounts(v.stats, reply.outcome);
    }
  }

  lemma RejectReports(v: View)
    requires !v.req.done && v.req.callbacks == [] && RejectReady(v)
    ensures EndedWith(v, Reject(v), Failure(RefusalTag(v)))
  {
    hide Finished;
    FinishedCounts(v.stats, Failure(RefusalTag(v)));
  }

  lemma TaskReports(v: View)
    requires !v.req.done && v.req.callbacks == [] && v.req.abortTask.Some?
    ensures EndedWith(v, RunAbortTask(v), Failure(v.req.abortTask.value.tag))
  {
    hide Finished;
    FinishedCounts(v.stats, Failure(v.req.abortTask.value.tag));
  }

  lemma UnfinishedReports(c: Pool.Config, v: View, e: Step)
    requires InRange(v) && !v.req.done && v.req.callbacks == [] && (v.req.transport.Pending? ==> v.req.wait.NoWait?)
    requires Enabled(v, e)
    ensures Reported(v, Next(c, v, e), Report(v, e))
  {
    hide InRange, Timeout, Cancel, ExternalAbort, Grant, Reject, RunAbortTask, Answer;
    match e
    case GrantTask(reply) => GrantReports(c, v, reply);
    case RejectTask => RejectReports(v);
    case Complete(outcome) => AnswerReports(c, v, outcome);
    case TimeoutFires(answer) => TimeoutReports(c, v, answer);
    case CancelCalled(answer) => CancelReports(c, v, answer);
    case SignalAborts(tag, answer) => SignalReports(c, v, tag, answer);
    case AbortMicrotask => TaskReports(v);
    case QueueTimeoutFires =>
  }

  /** A step of an unfinished request calls its callback with the outcome due then, once, and counts it; or it calls and
      counts nothing. A step of a finished one calls and counts nothing. */
  lemma StepReports(c: Pool.Config, v: View, e: Step)
    requires Sound(c, v) && Enabled(v, e)
    ensures Reported(v, Next(c, v, e), if v.req.done then None else Report(v, e))
  {
    hide Enabled, Next, Report, Pool.Inv, GivesBack;
    if v.req.done {
      StepSound(c, v, e);
    } else {
      UnfinishedReports(c, v, e);
    }
  }

  // ----- everything else a step changes -----

  /** The step aborts the request's own controller. */
  predicate AbortsController(v: View, e: Step) {
    e.TimeoutFires? || e.SignalAborts? || (e.CancelCalled? && !v.req.done)
  }

  function AnswerOnAbort(e: Step): Option<Outcome> {
    match e
    case TimeoutFires(answer) => answer
    case CancelCalled(answer) => answer
    case SignalAborts(_, answer) => answer
    case _ => None
  }

  /** The transport, the controller and what is armed after a step: a timer or a listener only goes when it has run or the
      request is done, and an abort queues its microtask. */
  ghost predicate Continues(v: View, e: Step, q: Request) {
    && (q.aborted <==> v.req.aborted || AbortsController(v, e))
    && (q.timer <==> v.req.timer && !q.done)
    && (q.listening <==> v.req.listening && !q.done && !e.SignalAborts?)
    && q.wait == (if e.GrantTask? || e.RejectTask? then NoWait else v.req.wait)
    && q.transport == (if e.GrantTask? && !v.req.done then (if e.reply.Answers? then Answered else Pending)
                       else if e.Complete? || (AbortsController(v, e) && AnswersAbort(v, AnswerOnAbort(e))) then Answered
                       else v.req.transport)
  }

  /** The transport's canceller after a step: stored, handed to the microtask of an abort, or called. */
  ghost predicate Cancels(v: View, e: Step, q: Request) {
    && (q.cancelInner <==>
          if e.GrantTask? && !v.req.done then e.reply == Suspends(true)
          else v.req.cancelInner && !q.done && !e.SignalAborts?)
    && q.abortTask == (if e.SignalAborts? then Some(AbortTask(e.tag, v.req.cancelInner && !q.done))
                       else if e.AbortMicrotask? then None else v.req.abortTask)
    && q.cancels == v.req.cancels +
                    (if AbortsController(v, e) && !e.SignalAborts? && v.req.cancelInner then 1
                     else if e.AbortMicrotask? && v.req.abortTask.Some? && v.req.abortTask.value.cancels then 1
                     else 0)
  }

  /** What aborting the controller leaves of the request. */
  lemma AbortContinues(c: Pool.Config, v: View, answer: Option<Outcome>)
    requires InRange(v) && (v.req.transport.Pending? ==> v.req.wait.NoWait?)
    ensures
      var r := AbortOwn(c, v, answer).req;
      var answers := AnswersAbort(v, answer);
      var q := if answers && !v.req.done then v.req.(done := true, timer := false, listening := false, cancelInner := false,
                                                     callbacks := v.req.callbacks + [answer.value]) else v.req;
      r == q.(aborted := true, transport := if answers then Answered else v.req.transport)
  {
    hide Freed, Finished, AbortWaiter;
  }

  lemma TimeoutContinues(c: Pool.Config, v: View, answer: Option<Outcome>)
    requires InRange(v) && (v.req.transport.Pending? ==> v.req.wait.NoWait?) && v.req.timer && !v.req.done
    ensures Continues(v, TimeoutFires(answer), Timeout(c, v, answer).req)
    ensures Cancels(v, TimeoutFires(answer), Timeout(c, v, answer).req)
  {
    hide AbortOwn, Freed, Finished;
    AbortContinues(c, TimeoutWith(v, Freed(c, v)), answer);
  }

  lemma CancelContinues(c: Pool.Config, v: View, answer: Option<Outcome>)
    requires InRange(v) && (v.req.transport.Pending? ==> v.req.wait.NoWait?) && Settled(v.req)
    ensures Continues(v, CancelCalled(answer), Cancel(c, v, answer).req)
  {
    hide AbortOwn, Freed, Finished, Pool.InRange;
    AbortContinues(c, v.(req := v.req.(cancelInner := false)), answer);
  }

  lemma CancelCancels(c: Pool.Config, v: View, answer: Option<Outcome>)
    requires InRange(v) && (v.req.transport.Pending? ==> v.req.wait.NoWait?) && Settled(v.req)
    ensures Cancels(v, CancelCalled(answer), Cancel(c, v, answer).req)
  {
    hide AbortOwn, Freed, Finished, Pool.InRange;
    AbortContinues(c, v.(req := v.req.(cancelInner := false)), answer);
  }

  lemma SignalContinues(c: Pool.Config, v: View, tag: Tag, answer: Option<Outcome>)
    requires InRange(v) && (v.req.transport.Pending? ==> v.req.wait.NoWait?) && Settled(v.req)
    ensures Continues(v, SignalAborts(tag, answer), ExternalAbort(c, v, tag, answer).req)
    ensures Cancels(v, SignalAborts(tag, answer), ExternalAbort(c, v, tag, answer).req)
  {
    hide AbortOwn, Freed;
    AbortContinues(c, v.(req := v.req.(listening := false)), answer);
  }

  lemma StepContinues(c: Pool.Config, v: View, e: Step)
    requires Sound(c, v) && Enabled(v, e)
    ensures Continues(v, e, Next(c, v, e).req) && Cancels(v, e, Next(c, v, e).req)
  {
    hide Timeout, Cancel, ExternalAbort, Freed, Finished, Pool.Inv, GivesBack, Pool.Release;
    match e
    case TimeoutFires(answer) => TimeoutContinues(c, v, answer);
    case CancelCalled(answer) =>
      CancelContinues(c, v, answer);
      CancelCancels(c, v, answer);
    case SignalAborts(tag, answer) => SignalContinues(c, v, tag, answer);
    case _ =>
  }

  // ----- registering a request -----

  function CountedIn(stats: Stats): Stats {
    stats.(started := stats.started + 1, inFlight := stats.inFlight + 1)
  }

  /** What a new request has armed, whatever becomes of it at once. */
  ghost predicate Armed(setup: Setup, q: Request) {
    && q.key == setup.key && (q.aborted <==> setup.preAborted) && (q.cancellable <==> !setup.preAborted)
    && (q.timer <==> setup.hasTimeout && !setup.preAborted && !q.done)
    && (q.listening <==> setup.hasSignal && !setup.preAborted && !q.done)
    && q.abortTask == (if setup.preAborted then Some(AbortTask(setup.tag, false)) else None)
  }

  /** The transport has been started: it has answered, or it is pending and the request holds a new lease. */
  ghost predicate StartedNow(p: Pool.KeyState, stats: Stats, setup: Setup, r: View) {
    match setup.reply
    case Answers(outcome) =>
      && r.req.done && r.req.callbacks == [outcome] && r.req.transport == Answered && r.req.wait == NoWait
      && OneEnded(CountedIn(stats), r.stats, outcome)
    case Suspends(canceller) =>
      && !r.req.done && r.req.callbacks == [] && r.req.transport == Pending && r.req.wait == NoWait
      && (r.req.cancelInner <==> canceller) && r.stats == CountedIn(stats)
      && (if setup.key.Some? then
            && r.req.lease == Some(|p.leases|) && r.pool.leases == p.leases + [false] && r.pool.running == p.running + 1
            && r.pool.queue == p.queue && r.pool.waiters == p.waiters
          else r.req.lease == None && r.pool == p)
  }

  /** The request waits: at the end of the queue, or for the news that the pool refused it. */
  ghost predicate WaitsNow(c: Pool.Config, p: Pool.KeyState, stats: Stats, r: View) {
    && !r.req.done && r.req.callbacks == [] && r.req.transport == Idle && r.req.lease == None && r.stats == CountedIn(stats)
    && r.pool.leases == p.leases && r.pool.running == p.running
    && (if |p.queue| < c.maxQueue then
          && r.req.wait == OnWaiter(|p.waiters|) && r.pool.queue == p.queue + [|p.waiters|] && r.pool.rejected == p.rejected
          && r.pool.waiters == p.waiters + [Pool.Waiter(false, true, c.queueTimeout, Pool.Queued)]
        else
          r.req.wait == Refused(PoolRejectedTag) && r.pool == p.(rejected := p.rejected + 1))
  }

  /** A new request is counted; if its signal is aborted already only the microtask is left to run; otherwise its transport
      starts at once if there is room, and else it waits or is refused. */
  lemma RegisterReports(c: Pool.Config, p: Pool.KeyState, stats: Stats, setup: Setup)
    requires Pool.InRange(p)
    ensures
      var r := Joined(c, p, stats, setup);
      && Armed(setup, r.req)
      && (setup.preAborted ==> !r.req.done && r.req.callbacks == [] && r.req.transport == Idle && r.req.wait == NoWait
                               && r.pool == p && r.stats == CountedIn(stats))
      && (!setup.preAborted ==>
            if setup.key.None? || p.running < c.concurrency then StartedNow(p, stats, setup, r) else WaitsNow(c, p, stats, r))
  {
    hide Pool.Acquire, Finished, Pool.Release;
    ArriveInRange(c, p, stats, setup);
    Pool.SyncAnswers(c, p, false);
    Pool.AcquireAnswers(c, p, false);
    if setup.reply.Answers? {
      FinishedCounts(CountedIn(stats), setup.reply.outcome);
    }
  }

  /** A transport that answers at once leaves no permit behind. */
  lemma AnsweredHoldsNothing(c: Pool.Config, p: Pool.KeyState, stats: Stats, setup: Setup)
    requires Pool.Inv(c, p) && Pool.InRange(p) && setup.reply.Answers?
    ensures Joined(c, p, stats, setup).req.done ==> !HoldsOpen(Joined(c, p, stats, setup))
  {
    hide Pool.Release, Pool.Inv;
    JoinedIs(c, p, stats, setup);
    ArriveProper(c, p, stats, setup);
    ArriveKeepsPool(c, p, stats, setup);
    var a := Arrive(c, p, stats, setup);
    if a.1 {
      FreedFacts(c, a.0);
    }
  }
}
