/** The request counters of src/http/client.ts (makeHttpStats). */
module HttpStatistics {

  /** The error tags the counters tell apart. */
  datatype Tag = AbortTag | TimeoutTag | PoolRejectedTag | PoolTimeoutTag | OtherTag

  /** How a request finished. */
  datatype Outcome = Success | Interrupt | TimedOut | Failure(tag: Tag)

  datatype Stats = Stats(inFlight: nat, started: nat, succeeded: nat, failed: nat, aborted: nat, timedOut: nat,
                         poolRejected: nat, poolTimeouts: nat)

  const ZERO := Stats(0, 0, 0, 0, 0, 0, 0, 0)

  function Started(s: Stats): Stats {
    s.(inFlight := s.inFlight + 1, started := s.started + 1)
  }

  function Finished(s: Stats, outcome: Outcome): Stats {
    var t := if s.inFlight > 0 then s.(inFlight := s.inFlight - 1) else s;
    match outcome
    case Success => t.(succeeded := t.succeeded + 1)
    case Interrupt => t.(aborted := t.aborted + 1)
    case TimedOut => t.(timedOut := t.timedOut + 1)
    case Failure(AbortTag) => t.(aborted := t.aborted + 1)
    case Failure(TimeoutTag) => t.(timedOut := t.timedOut + 1)
    case Failure(PoolRejectedTag) => t.(poolRejected := t.poolRejected + 1, failed := t.failed + 1)
    case Failure(PoolTimeoutTag) => t.(poolTimeouts := t.poolTimeouts + 1, failed := t.failed + 1)
    case Failure(OtherTag) => t.(failed := t.failed + 1)
  }

  // ----- which counter an outcome is counted in -----

  predicate IsSuccess(o: Outcome) { o == Success }
  predicate IsAbort(o: Outcome) { o == Interrupt || o == Failure(AbortTag) }
  predicate IsTimeout(o: Outcome) { o == TimedOut || o == Failure(TimeoutTag) }
  predicate IsPoolRejection(o: Outcome) { o == Failure(PoolRejectedTag) }
  predicate IsPoolTimeout(o: Outcome) { o == Failure(PoolTimeoutTag) }
  predicate IsFailure(o: Outcome) { IsPoolRejection(o) || IsPoolTimeout(o) || o == Failure(OtherTag) }

  /** n counts one more in m if it is to. */
  predicate OneMoreIf(n: nat, m: nat, counted: bool) { m == if counted then n + 1 else n }

  /** From s to t one request has ended with outcome o. */
  ghost predicate OneEnded(s: Stats, t: Stats, o: Outcome) {
    && t.started == s.started && t.inFlight == (if s.inFlight > 0 then s.inFlight - 1 else 0)
    && OneMoreIf(s.succeeded, t.succeeded, IsSuccess(o)) && OneMoreIf(s.aborted, t.aborted, IsAbort(o))
    && OneMoreIf(s.timedOut, t.timedOut, IsTimeout(o)) && OneMoreIf(s.failed, t.failed, IsFailure(o))
    && OneMoreIf(s.poolRejected, t.poolRejected, IsPoolRejection(o))
    && OneMoreIf(s.poolTimeouts, t.poolTimeouts, IsPoolTimeout(o))
  }

  lemma FinishedCounts(s: Stats, outcome: Outcome)
    ensures OneEnded(s, Finished(s, outcome), outcome)
  {
    match outcome
    case Failure(tag) => match tag {
      case AbortTag =>
      case _ =>
    }
    case _ =>
  }

  /** Every request started is in flight or counted once among the ends, and pool errors are failures. */
  ghost predicate Balanced(s: Stats) {
    && s.started == s.inFlight + s.succeeded + s.failed + s.aborted + s.timedOut
    && s.poolRejected + s.poolTimeouts <= s.failed
  }

  lemma FinishedKeepsBalance(s: Stats, outcome: Outcome)
    requires Balanced(s) && s.inFlight > 0
    ensures Balanced(Finished(s, outcome)) && Finished(s, outcome).inFlight == s.inFlight - 1
    ensures Finished(s, outcome).started == s.started
  {
    match outcome
    case Failure(tag) => match tag {
      case AbortTag =>
      case _ =>
    }
    case _ =>
  }

  class HttpStats {
    var inFlight: nat
    var started: nat
    var succeeded: nat
    var failed: nat
    var aborted: nat
    var timedOut: nat
    var poolRejected: nat
    var poolTimeouts: nat

    ghost function Model(): Stats
      reads this
    {
      Stats(inFlight, started, succeeded, failed, aborted, timedOut, poolRejected, poolTimeouts)
    }

    constructor ()
      ensures Model() == ZERO
    {
      inFlight, started, succeeded, failed, aborted, timedOut, poolRejected, poolTimeouts := 0, 0, 0, 0, 0, 0, 0, 0;
    }

    method OnStart()
      modifies this
      ensures Model() == Started(old(Model()))
    {
      inFlight := inFlight + 1;
      started := started + 1;
    }

    method OnFinish(outcome: Outcome)
      modifies this
      ensures Model() == Finished(old(Model()), outcome)
    {
      if inFlight > 0 {
        inFlight := inFlight - 1;
      }
      match outcome
      case Success => succeeded := succeeded + 1;
      case Interrupt => aborted := aborted + 1;
      case TimedOut => timedOut := timedOut + 1;
      case Failure(tag) =>
        match tag {
          case AbortTag => aborted := aborted + 1;
          case TimeoutTag => timedOut := timedOut + 1;
          case PoolRejectedTag =>
            poolRejected := poolRejected + 1;
            failed := failed + 1;
          case PoolTimeoutTag =>
            poolTimeouts := poolTimeouts + 1;
            failed := failed + 1;
          case OtherTag => failed := failed + 1;
        }
    }
  }
}
