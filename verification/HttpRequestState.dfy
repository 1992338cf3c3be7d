/** The per-request state object of src/http/client.ts (PoolRequestState), changed in place together with the pool state of
    its key and the counters. Every method is proved to perform the step of the same name in HttpRequests. */
module HttpRequestState {
  import opened Prelude
  import opened HttpStatistics
  import Spec = HttpRequests
  import Pool = HttpPoolSpec
  import HttpPools
  import Runs = HttpClientRuns

  class PoolRequestState {
    const key: Option<string>
    const pool: HttpPools.PoolState
    const metrics: HttpStats
    const conf: Pool.Config
    const cancellable: bool
    var done: bool
    var lease: Option<nat>
    var wait: Spec.Wait
    var aborted: bool
    var listening: bool
    var timer: bool
    var transport: Spec.Transport
    var cancelInner: bool
    var abortTask: Option<Spec.AbortTask>
    var callbacks: seq<Outcome>
    var cancels: nat
    ghost var late: bool
    ghost var stranded: bool
    ghost var given: bool

    ghost function Req(): Spec.Request
      reads this
    {
      Spec.Request(key, done, lease, wait, aborted, listening, timer, transport, cancelInner, abortTask, cancellable,
                   callbacks, cancels, late, stranded, given)
    }

    ghost function Model(): Spec.View
      reads this, pool, metrics
    {
      Spec.View(pool.Model(), Req(), metrics.Model())
    }

    constructor (setup: Runs.Setup, pool: HttpPools.PoolState, metrics: HttpStats, conf: Pool.Config)
      ensures this.pool == pool && this.metrics == metrics && this.conf == conf && Req() == Runs.NewRequest(setup)
    {
      this.pool, this.metrics, this.conf := pool, metrics, conf;
      key, cancellable := setup.key, !setup.preAborted;
      done, lease, wait, aborted := false, None, Spec.NoWait, false;
      listening, timer := setup.hasSignal && !setup.preAborted, setup.hasTimeout && !setup.preAborted;
      transport, cancelInner, abortTask, callbacks, cancels, late, stranded, given := Spec.Idle, false, None, [], 0, false, false, false;
    }

    /** The body of register in runPoolTransport. */
    method Register(setup: Runs.Setup)
      requires Pool.InRange(pool.Model()) && Req() == Runs.NewRequest(setup)
      modifies this, pool, metrics
      ensures Model() == Runs.Joined(conf, old(pool.Model()), old(metrics.Model()), setup)
    {
      Runs.ArriveInRange(conf, pool.Model(), metrics.Model(), setup);
      metrics.OnStart();
      if setup.preAborted {
        AbortFromPrevious(setup.tag, None);
        return;
      }
      if key.Some? {
        var started := AcquirePermit(setup);
        if !started { return; }
      }
      RunTransportInner(setup.reply);
    }

    /** The acquire of register: synchronously if possible, otherwise by a promise; says whether a lease was taken. */
    method AcquirePermit(ghost setup: Runs.Setup) returns (started: bool)
      requires key.Some? && Req() == Runs.NewRequest(setup) && !setup.preAborted
      modifies this`lease, this`wait, pool
      ensures forall stats :: metrics.Model() == Started(stats) ==>
        (Model(), started) == Runs.Arrive(conf, old(pool.Model()), stats, setup)
    {
      var syncLease := pool.TryAcquireSync(conf, false);
      if syncLease.Some? {
        lease := syncLease;
        return true;
      }
      var acquired := pool.Acquire(conf, false);
      wait := PromiseOf(acquired);
      started := false;
    }

    /** What the promise returned by acquire is. */
    static function PromiseOf(acquired: Pool.Acquired): Spec.Wait {
      match acquired
      case Leased(l) => Spec.Posted(l)
      case Enqueued(w) => Spec.OnWaiter(w)
      case Rejected => Spec.Refused(PoolRejectedTag)
      case AbortedAtOnce => Spec.Refused(AbortTag)
    }

    method Finish(outcome: Outcome)
      modifies this, metrics
      ensures Model() == Spec.Finish(old(Model()), outcome)
    {
      hide Finished;
      if done {
        return;
      }
      done := true;
      timer := false;
      listening := false;
      cancelInner := false;
      metrics.OnFinish(outcome);
      callbacks := callbacks + [outcome];
    }

    /** `if (this.lease) release(this.lease)`. */
    method ReleaseHeld()
      requires Spec.InRange(Model())
      modifies pool
      ensures pool.Model() == Spec.Freed(conf, old(Model()))
    {
      if lease.Some? {
        pool.Release(conf, lease.value);
      }
    }

    /** The completion callback of the transport. */
    method OnCompletion(outcome: Outcome)
      requires Spec.InRange(Model())
      modifies this, pool, metrics
      ensures Model() == Spec.Answer(conf, old(Model()), outcome)
    {
      hide Pool.Release, Spec.Finish;
      transport := Spec.Answered;
      if done {
        return;
      }
      ReleaseHeld();
      cancelInner := false;
      Finish(outcome);
    }

    method RunTransportInner(reply: Spec.Reply)
      requires Spec.InRange(Model())
      modifies this, pool, metrics
      ensures Model() == Spec.RunTransport(conf, old(Model()), reply)
    {
      hide Spec.Freed, Spec.Finish;
      match reply
      case Answers(outcome) =>
        ReleaseHeld();
        transport := Spec.Answered;
        Finish(outcome);
      case Suspends(canceller) =>
        transport := Spec.Pending;
        cancelInner := !done && canceller;
        given := cancelInner;
    }

    /** controller.abort(). */
    method AbortCurrent(answer: Option<Outcome>)
      requires Spec.InRange(Model())
      modifies this, pool, metrics
      ensures Model() == Spec.AbortOwn(conf, old(Model()), answer)
    {
      if aborted {
        return;
      }
      aborted := true;
      if wait.OnWaiter? {
        pool.SignalAborts(wait.waiter);
        if pool.waiters[wait.waiter].listening {
          pool.AbortListener(wait.waiter);
        }
      } else if transport.Pending? && answer.Some? {
        OnCompletion(answer.value);
      }
    }

    method UseCanceller(captured: bool)
      modifies this`cancels
      ensures Req() == Spec.UseCanceller(Spec.View(pool.Model(), old(Req()), metrics.Model()), captured).req
    {
      if captured {
        cancels := cancels + 1;
      }
    }

    method OnTimeout(answer: Option<Outcome>)
      requires Spec.InRange(Model())
      modifies this, pool, metrics
      ensures Model() == Spec.Timeout(conf, old(Model()), answer)
    {
      hide Spec.AbortOwn, Spec.Freed, Finished;
      ReleaseHeld();
      lease := None;
      var cancel := cancelInner;
      cancelInner := false;
      Finish(TimedOut);
      AbortCurrent(answer);
      UseCanceller(cancel);
    }

    /** The canceller returned to the caller. */
    method Cancel(answer: Option<Outcome>)
      requires Spec.InRange(Model())
      modifies this, pool, metrics
      ensures Model() == Spec.Cancel(conf, old(Model()), answer)
    {
      hide Spec.AbortOwn, Spec.Freed, Spec.Finish;
      if done {
        return;
      }
      var cancel := cancelInner;
      cancelInner := false;
      AbortCurrent(answer);
      ReleaseHeld();
      Finish(Interrupt);
      UseCanceller(cancel);
    }

    method AbortFromPrevious(tag: Tag, answer: Option<Outcome>)
      requires Spec.InRange(Model())
      modifies this, pool, metrics
      ensures Model() == Spec.ExternalAbort(conf, old(Model()), tag, answer)
    {
      hide Spec.AbortOwn, Spec.AbortLater;
      listening := false;
      AbortCurrent(answer);
      AbortLater(tag);
    }

    /** Giving back the lease and queueing the microtask. */
    method AbortLater(tag: Tag)
      requires Spec.InRange(Model())
      modifies this, pool
      ensures Model() == Spec.AbortLater(conf, old(Model()), tag)
    {
      hide Pool.Release;
      var cancel := cancelInner;
      cancelInner := false;
      ReleaseHeld();
      lease := None;
      abortTask := Some(Spec.AbortTask(tag, cancel));
    }

    /** The microtask queued by AbortFromPrevious. */
    method RunAbortTask()
      requires abortTask.Some?
      modifies this, metrics
      ensures Model() == Spec.RunAbortTask(old(Model()))
    {
      var task := abortTask.value;
      abortTask := None;
      stranded := stranded || (!done && late);
      Finish(Failure(task.tag));
      UseCanceller(task.cancels);
    }

    /** The continuation of a granted pool promise. */
    method OnGrant(reply: Spec.Reply)
      requires Spec.InRange(Model()) && Spec.GrantReady(Model())
      modifies this, pool, metrics
      ensures Model() == Spec.Grant(conf, old(Model()), reply)
    {
      hide Spec.RunTransport, Pool.Release;
      var granted := if wait.Posted? then wait.lease else pool.waiters[wait.waiter].outcome.lease;
      wait := Spec.NoWait;
      if done {
        pool.Release(conf, granted);
        return;
      }
      lease := Some(granted);
      late := aborted && reply.Suspends?;
      RunTransportInner(reply);
    }

    /** The continuation of a refused pool promise. */
    method OnReject()
      requires Spec.RejectReady(Model())
      modifies this, metrics
      ensures Model() == Spec.Reject(old(Model()))
    {
      var tag := if wait.Refused? then wait.tag
                 else if pool.waiters[wait.waiter].outcome.Aborted? then AbortTag else PoolTimeoutTag;
      wait := Spec.NoWait;
      Finish(Failure(tag));
    }
  }
}
