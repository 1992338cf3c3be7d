/** A request that bypasses the pool (runDirectTransport of src/http/client.ts), its variables changed in place. It has no
    lease and no timer; every method performs the step of the same name in HttpRequests. */
module HttpDirectRequest {
  import opened Prelude
  import opened HttpStatistics
  import Spec = HttpRequests
  import Pool = HttpPoolSpec
  import Runs = HttpClientRuns
  import Effects = HttpStepEffects

  class DirectRequestState {
    const metrics: HttpStats
    const conf: Pool.Config
    const cancellable: bool
    var done: bool
    var aborted: bool
    var listening: bool
    var transport: Spec.Transport
    var cancelInner: bool
    var abortTask: Option<Spec.AbortTask>
    var callbacks: seq<Outcome>
    var cancels: nat
    ghost var given: bool

    ghost function Req(): Spec.Request
      reads this
    {
      Spec.Request(None, done, None, Spec.NoWait, aborted, listening, false, transport, cancelInner, abortTask, cancellable,
                   callbacks, cancels, false, false, given)
    }

    ghost function Model(): Spec.View
      reads this, metrics
    {
      Spec.View(Pool.EMPTY, Req(), metrics.Model())
    }

    /** finish leaves the stored canceller alone; its callers clear it. */
    ghost predicate Valid()
      reads this
    {
      done || abortTask.Some? ==> !cancelInner
    }

    constructor (setup: Runs.Setup, metrics: HttpStats, conf: Pool.Config)
      requires setup.key.None? && !setup.hasTimeout
      ensures this.metrics == metrics && this.conf == conf && Valid() && Req() == Runs.NewRequest(setup)
    {
      this.metrics, this.conf, cancellable := metrics, conf, !setup.preAborted;
      done, aborted, listening := false, false, setup.hasSignal && !setup.preAborted;
      transport, cancelInner, abortTask, callbacks, cancels, given := Spec.Idle, false, None, [], 0, false;
    }

    method Finish(outcome: Outcome)
      modifies this`done, this`listening, this`callbacks, metrics
      ensures done && Req() == Spec.Finish(old(Model()), outcome).req.(cancelInner := cancelInner)
      ensures metrics.Model() == Spec.Finish(old(Model()), outcome).stats
    {
      if done { return; }
      done := true;
      listening := false;
      metrics.OnFinish(outcome);
      callbacks := callbacks + [outcome];
    }

    /** The body of register. */
    method Register(setup: Runs.Setup)
      requires Valid() && setup.key.None? && !setup.hasTimeout && Req() == Runs.NewRequest(setup)
      modifies this, metrics
      ensures Valid() && Pool.InRange(Pool.EMPTY)
      ensures Model() == Runs.Joined(conf, Pool.EMPTY, old(metrics.Model()), setup)
    {
      Runs.ArriveInRange(conf, Pool.EMPTY, metrics.Model(), setup);
      metrics.OnStart();
      if setup.preAborted {
        AbortFromPrevious(setup.tag, None);
        return;
      }
      match setup.reply {
        case Answers(outcome) => OnCompletion(outcome);
        case Suspends(canceller) =>
          transport := Spec.Pending;
          cancelInner := canceller;
          given := canceller;
      }
    }

    /** The completion callback of the transport. */
    method OnCompletion(outcome: Outcome)
      requires Valid() && Spec.InRange(Model())
      modifies this, metrics
      ensures Valid() && Model() == Spec.Answer(conf, old(Model()), outcome)
    {
      transport := Spec.Answered;
      Finish(outcome);
      cancelInner := false;
    }

    method AbortCurrent(answer: Option<Outcome>)
      requires Valid() && Spec.InRange(Model())
      modifies this, metrics
      ensures Valid() && Model() == Spec.AbortOwn(conf, old(Model()), answer)
    {
      if aborted { return; }
      aborted := true;
      if transport.Pending? && answer.Some? {
        OnCompletion(answer.value);
      }
    }

    method UseCanceller(captured: bool)
      modifies this`cancels
      ensures Model() == Spec.UseCanceller(old(Model()), captured)
    {
      if captured {
        cancels := cancels + 1;
      }
    }

    method AbortFromPrevious(tag: Tag, answer: Option<Outcome>)
      requires Valid() && Spec.InRange(Model())
      modifies this, metrics
      ensures Valid() && Model() == Spec.ExternalAbort(conf, old(Model()), tag, answer)
    {
      listening := false;
      AbortCurrent(answer);
      AbortLater(tag);
    }

    /** Queueing the microtask. */
    method AbortLater(tag: Tag)
      requires Spec.InRange(Model())
      modifies this`cancelInner, this`abortTask
      ensures Valid() && Model() == Spec.AbortLater(conf, old(Model()), tag)
    {
      var cancel := cancelInner;
      cancelInner := false;
      abortTask := Some(Spec.AbortTask(tag, cancel));
    }

    /** The microtask queued by AbortFromPrevious. */
    method RunAbortTask()
      requires Valid() && abortTask.Some?
      modifies this, metrics
      ensures Valid() && Model() == Spec.RunAbortTask(old(Model()))
    {
      var task := abortTask.value;
      abortTask := None;
      Finish(Failure(task.tag));
      UseCanceller(task.cancels);
    }

    /** The canceller returned to the caller. */
    method Cancel(answer: Option<Outcome>)
      requires Valid() && Spec.InRange(Model())
      modifies this, metrics
      ensures Valid() && Model() == Spec.Cancel(conf, old(Model()), answer)
    {
      hide Spec.AbortOwn, Finished;
      if done { return; }
      Effects.AbortContinues(conf, Model().(req := Req().(cancelInner := false)), answer);
      var cancel := cancelInner;
      cancelInner := false;
      AbortCurrent(answer);
      Finish(Interrupt);
      UseCanceller(cancel);
    }
  }
}
