/** What each event of the request batcher does, said of the requests and their callbacks. */
module BatchingEffects {
  import opened Prelude
  import opened Effects
  import opened BatchingSpec
  import opened BatchingSafety

  /** reqs are the requests of the members, in the order of the members. */
  ghost predicate RequestsOf<Q, R>(entries: seq<Entry<Q, R>>, es: seq<nat>, reqs: seq<Q>) {
    |reqs| == |es| && forall i :: 0 <= i < |es| ==> es[i] < |entries| && reqs[i] == entries[es[i]].req
  }

  lemma TheRequests<Q, R>(entries: seq<Entry<Q, R>>, es: seq<nat>, reqs: seq<Q>)
    requires RequestsOf(entries, es, reqs)
    ensures Known(entries, es) && Requests(entries, es) == reqs
  {
  }

  // ----- answers -----

  /** The error of a broken group: its leftmost failure, an abort if it was only interrupted, otherwise what is made of it. */
  ghost predicate RightError<Q, R>(cfg: Settings<Q, R>, cause: Cause<HttpError>, error: HttpError) {
    var leaves := Leaves(cause);
    if exists x :: x in leaves && x.Fail? then
      exists i :: 0 <= i < |leaves| && leaves[i] == Fail(error) && forall j :: 0 <= j < i ==> !leaves[j].Fail?
    else if exists x :: x in leaves && x.Die? then error == cfg.describe(cause)
    else error == Abort
  }

  lemma {:induction false} FirstError<V>(leaves: seq<Cause<V>>) returns (i: nat)
    requires Errors(leaves) != []
    ensures i < |leaves| && leaves[i] == Fail(Errors(leaves)[0]) && forall j :: 0 <= j < i ==> !leaves[j].Fail?
  {
    if leaves[0].Fail? {
      i := 0;
    } else {
      i := FirstError(leaves[1..]);
      i := i + 1;
    }
  }

  lemma GroupErrorIsRight<Q, R>(cfg: Settings<Q, R>, cause: Cause<HttpError>)
    ensures RightError(cfg, cause, GroupError(cfg, cause))
  {
    CauseHelpers(cause);
    if ContainsFailure(cause) {
      var i := FirstError(Leaves(cause));
    } else if !ContainsInterrupt(cause) {
      LeavesAreLeaves(cause, Leaves(cause)[0]);
    }
  }

  /** What the i-th of the requests given to the encoder is to receive. */
  ghost predicate RightAnswer<Q, R>(cfg: Settings<Q, R>, reqs: seq<Q>, outcome: Ending<R>, i: nat, reply: Reply<R>) {
    match outcome
    case Broke(cause) => reply.Error? && RightError(cfg, cause, reply.error)
    case Arrived(response) =>
      match cfg.decode(response, reqs)
      case Throws(error) => reply == Error(error)
      case Returns(decoded) =>
        if |decoded| == |reqs| then i < |reqs| && reply == Response(decoded[i])
        else reply == Error(cfg.mismatch(|decoded|, |reqs|))
  }

  /**
   * On success the i-th of the requests that were encoded gets the i-th decoded
   * response, unless it was cancelled; any failure, throw or wrong number of
   * responses gives every unsettled member one and the same error. Nobody else
   * hears of it.
   */
  lemma AnswersAreAligned<Q, R>(cfg: Settings<Q, R>, s: State<Q, R>, g: nat, outcome: Ending<R>, reqs: seq<Q>)
    requires Inv(cfg, s) && Refs(s) && g < |s.groups| && s.groups[g].phase.Running?
    requires RequestsOf(s.entries, s.groups[g].entries, reqs)
    ensures var es := s.groups[g].entries;
      var t := AnsweredGroup(cfg, s, g, outcome);
      && |t.entries| == |s.entries|
      && (forall i :: 0 <= i < |es| && s.entries[es[i]].cancelled ==> t.entries[es[i]].calls == s.entries[es[i]].calls)
      && (forall i :: 0 <= i < |es| && !s.entries[es[i]].done ==>
            && |t.entries[es[i]].calls| == 1
            && RightAnswer(cfg, reqs, outcome, i, t.entries[es[i]].calls[0]))
      && (forall e :: 0 <= e < |s.entries| && e !in es ==> t.entries[e] == s.entries[e])
  {
    var es := s.groups[g].entries;
    TheRequests(s.entries, es, reqs);
    assert GroupOk(cfg, s, g);
    AnswerEffect(cfg, s, g, outcome);
    if outcome.Broke? {
      GroupErrorIsRight(cfg, outcome.cause);
    }
    forall i | 0 <= i < |es| ensures EntryOk(s, es[i]) {}
  }

  // ----- flushing -----

  /** The batch of key is gone, its timer with it, and the other batches and timers are as before. */
  ghost predicate BatchTaken<Q, R>(s: State<Q, R>, t: State<Q, R>, key: string)
    requires key in s.pending
  {
    && t.pending == s.pending - {key} && |t.timers| == |s.timers| && t.stops == s.stops
    && forall i :: 0 <= i < |s.timers| ==>
         t.timers[i] == if s.pending[key].timer == Some(i) then s.timers[i].(live := false) else s.timers[i]
  }

  /** The members of es left as one group, whose request encodes theirs in order; or they all failed, if encoding throws. */
  ghost predicate Sent<Q, R>(cfg: Settings<Q, R>, s: State<Q, R>, t: State<Q, R>, key: string, es: seq<nat>, reqs: seq<Q>)
    requires Known(s.entries, es) && |t.entries| == |s.entries|
  {
    match cfg.encode(reqs)
    case Returns(wire) =>
      && t.groups == s.groups + [Group(key, es, wire, Running)]
      && forall i :: 0 <= i < |es| ==> t.entries[es[i]] == s.entries[es[i]].(group := Some(|s.groups|))
    case Throws(error) =>
      && t.groups == s.groups
      && forall i :: 0 <= i < |es| ==>
           t.entries[es[i]] == s.entries[es[i]].(done := true, calls := s.entries[es[i]].calls + [Error(error)])
  }

  /** A flush sends the whole batch of its key, in order of arrival, and touches nothing else. */
  lemma FlushSends<Q, R>(cfg: Settings<Q, R>, s: State<Q, R>, key: string, reqs: seq<Q>)
    requires Core(cfg, s) && Refs(s) && key in s.pending && RequestsOf(s.entries, s.pending[key].entries, reqs)
    ensures var es := s.pending[key].entries;
      var t := Flushed(cfg, s, key);
      && |t.entries| == |s.entries| && BatchTaken(s, t, key) && Sent(cfg, s, t, key, es, reqs)
      && forall e :: 0 <= e < |s.entries| && e !in es ==> t.entries[e] == s.entries[e]
  {
    var es := s.pending[key].entries;
    TheRequests(s.entries, es, reqs);
    assert BatchOk(cfg, s, key);
    BatchIsUnsettled(cfg, s, key);
    LaunchEffect(cfg, Taken(s, key), key, es);
    forall i | 0 <= i < |es| ensures !s.entries[es[i]].done {
      assert Member(s, key, es[i]);
    }
  }

  // ----- registering -----

  function Batch<Q, R>(s: State<Q, R>, key: string): seq<nat> {
    if key in s.pending then s.pending[key].entries else []
  }

  /** The new request waits in the batch of its key, behind those already there; the first of a batch starts its timer. */
  ghost predicate Waits<Q, R>(s: State<Q, R>, t: State<Q, R>, key: string) {
    && key in t.pending && t.pending[key].entries == Batch(s, key) + [|s.entries|]
    && t.groups == s.groups && t.stops == s.stops
    && (forall k :: k != key ==> (k in t.pending <==> k in s.pending) && (k in s.pending ==> t.pending[k] == s.pending[k]))
    && (if key in s.pending then t.timers == s.timers && t.pending[key].timer == s.pending[key].timer
        else t.timers == s.timers + [Timer(key, true)] && t.pending[key].timer == Some(|s.timers|))
  }

  ghost predicate Entered<Q, R>(s: State<Q, R>, entries: seq<Entry<Q, R>>, key: string, req: Q) {
    entries == s.entries + [Entry(key, req, false, false, None, [])]
  }

  /** A request that makes its batch full is sent at once with all who waited, and before that it waits with them. */
  lemma RegisterSendsWhenFull<Q, R>(cfg: Settings<Q, R>, s: State<Q, R>, key: string, req: Q, reqs: seq<Q>)
    requires Inv(cfg, s) && Refs(s) && cfg.maxBatchSize >= 1 && RequestsOf(s.entries, Batch(s, key), reqs)
    ensures var es, t := Batch(s, key) + [|s.entries|], Registered(cfg, s, key, req);
      && |t.entries| == |s.entries| + 1 && t.entries[|s.entries|].key == key && t.entries[|s.entries|].req == req
      && (if |Batch(s, key)| + 1 < cfg.maxBatchSize then Entered(s, t.entries, key, req) && Waits(s, t, key)
          else
            && key !in t.pending
            && (match cfg.encode(reqs + [req])
                case Returns(wire) =>
                  t.groups == s.groups + [Group(key, es, wire, Running)] && forall e :: e in es ==> t.entries[e].calls == []
                case Throws(error) =>
                  t.groups == s.groups && forall e :: e in es ==> t.entries[e].calls == [Error(error)]))
      && forall e :: 0 <= e < |s.entries| && e !in es ==> t.entries[e] == s.entries[e]
  {
    var p := Pushed(s, key, req);
    PushKeeps(cfg, s, key, req);
    RefsHold(cfg, p);
    if key in s.pending {
      assert BatchOk(cfg, s, key) && Waiting(cfg, s, key);
    }
    if |p.pending[key].entries| >= cfg.maxBatchSize {
      FullBatchIsSent(cfg, s, key, req, reqs);
    }
  }

  lemma FullBatchIsSent<Q, R>(cfg: Settings<Q, R>, s: State<Q, R>, key: string, req: Q, reqs: seq<Q>)
    requires Inv(cfg, s) && Refs(s) && RequestsOf(s.entries, Batch(s, key), reqs)
    requires Core(cfg, Pushed(s, key, req)) && Refs(Pushed(s, key, req))
    ensures var es, t := Batch(s, key) + [|s.entries|], Flushed(cfg, Pushed(s, key, req), key);
      && |t.entries| == |s.entries| + 1 && key !in t.pending
      && (match cfg.encode(reqs + [req])
          case Returns(wire) =>
            t.groups == s.groups + [Group(key, es, wire, Running)] && forall e :: e in es ==> t.entries[e].calls == []
          case Throws(error) =>
            t.groups == s.groups && forall e :: e in es ==> t.entries[e].calls == [Error(error)])
      && t.entries[|s.entries|].key == key && t.entries[|s.entries|].req == req
      && forall e :: 0 <= e < |s.entries| && e !in es ==> t.entries[e] == s.entries[e]
  {
    var p := Pushed(s, key, req);
    var es := p.pending[key].entries;
    assert es == Batch(s, key) + [|s.entries|];
    FlushSends(cfg, p, key, reqs + [req]);
    assert BatchOk(cfg, p, key);
    forall i | 0 <= i < |es| ensures p.entries[es[i]].calls == [] {
      assert Member(p, key, es[i]) && EntryOk(p, es[i]);
    }
    assert es[|es| - 1] == |s.entries|;
  }

  // ----- cancelling -----

  /** Cancelling a settled request does nothing; any other is interrupted, once, and the callbacks of no other are called. */
  lemma CancelInterrupts<Q, R>(cfg: Settings<Q, R>, s: State<Q, R>, e: nat)
    requires Inv(cfg, s) && Refs(s) && e < |s.entries|
    ensures var t := CancelledEntry(s, e);
      && (s.entries[e].done ==> t == s)
      && (!s.entries[e].done ==> t.entries == s.entries[e := s.entries[e].(done := true, cancelled := true, calls := [Interrupted])])
  {
    assert EntryOk(s, e);
    if !s.entries[e].done {
      MarkedEntries(s, e);
    }
  }

  /** Cancelling a request that waits takes it out of its batch; the others keep waiting in order, and if there is none the
      batch is gone and its timer stopped. */
  lemma CancelLeavesBatch<Q, R>(cfg: Settings<Q, R>, s: State<Q, R>, e: nat, before: seq<nat>, behind: seq<nat>)
    requires Inv(cfg, s) && Refs(s) && e < |s.entries| && s.entries[e].key in s.pending
    requires s.pending[s.entries[e].key].entries == before + [e] + behind
    ensures var t, key := CancelledEntry(s, e), s.entries[e].key;
      && t.groups == s.groups && t.stops == s.stops
      && (if before + behind == [] then BatchTaken(s, t, key)
          else t.timers == s.timers && t.pending == s.pending[key := Pending(before + behind, s.pending[key].timer)])
  {
    var key := s.entries[e].key;
    var es := s.pending[key].entries;
    assert BatchOk(cfg, s, key);
    assert es[|before|] == e;
    assert Member(s, key, es[|before|]) && EntryOk(s, e);
    DropMiddle(before, e, behind);
  }

  lemma {:induction false} DropMiddle(before: seq<nat>, e: nat, behind: seq<nat>)
    requires NoDuplicates(before + [e] + behind)
    ensures Drop(before + [e] + behind, e) == before + behind
  {
    var all := before + [e] + behind;
    if before == [] {
      assert all[1..] == behind && all[0] == e;
      forall i | 0 <= i < |behind| ensures behind[i] != e {
        assert all[i + 1] == behind[i];
      }
      DropNone(behind, e);
    } else {
      assert all[1..] == before[1..] + [e] + behind && all[|before|] == e && all[0] == before[0];
      DropMiddle(before[1..], e, behind);
    }
  }

  lemma {:induction false} DropNone(es: seq<nat>, e: nat)
    requires forall i :: 0 <= i < |es| ==> es[i] != e
    ensures Drop(es, e) == es
  {
    if es != [] {
      DropNone(es[1..], e);
    }
  }

  // ----- over every run -----

  /** Nobody's request changes, nor the members and the request of a group. */
  ghost predicate Keeps<Q, R>(s: State<Q, R>, t: State<Q, R>) {
    && |s.entries| <= |t.entries| && |s.groups| <= |t.groups|
    && (forall e :: 0 <= e < |s.entries| ==> t.entries[e].req == s.entries[e].req)
    && (forall g :: 0 <= g < |s.groups| ==> t.groups[g].entries == s.groups[g].entries && t.groups[g].wire == s.groups[g].wire)
  }

  ghost predicate WireIsRight<Q, R>(cfg: Settings<Q, R>, s: State<Q, R>, g: nat)
    requires g < |s.groups|
  {
    && Known(s.entries, s.groups[g].entries)
    && cfg.encode(Requests(s.entries, s.groups[g].entries)) == Returns(s.groups[g].wire)
  }

  ghost predicate WiresAreRight<Q, R>(cfg: Settings<Q, R>, s: State<Q, R>) {
    forall g :: 0 <= g < |s.groups| ==> WireIsRight(cfg, s, g)
  }

  lemma OldWires<Q, R>(cfg: Settings<Q, R>, s: State<Q, R>, t: State<Q, R>, g: nat)
    requires Keeps(s, t) && g < |s.groups| && WireIsRight(cfg, s, g)
    ensures WireIsRight(cfg, t, g)
  {
    assert Requests(t.entries, t.groups[g].entries) == Requests(s.entries, s.groups[g].entries);
  }

  lemma FlushKeepsWires<Q, R>(cfg: Settings<Q, R>, s: State<Q, R>, key: string)
    requires Core(cfg, s) && Refs(s) && key in s.pending && WiresAreRight(cfg, s)
    ensures WiresAreRight(cfg, Flushed(cfg, s, key))
  {
    var es, t := s.pending[key].entries, Flushed(cfg, s, key);
    FlushSends(cfg, s, key, Requests(s.entries, es));
    forall g | 0 <= g < |t.groups| ensures WireIsRight(cfg, t, g) {
      if g < |s.groups| {
        OldWires(cfg, s, t, g);
      } else {
        assert Requests(t.entries, es) == Requests(s.entries, es);
      }
    }
  }

  lemma StepKeepsWires<Q, R>(cfg: Settings<Q, R>, s: State<Q, R>, e: Event<Q, R>)
    requires Inv(cfg, s) && cfg.maxBatchSize >= 1 && WiresAreRight(cfg, s)
    ensures WiresAreRight(cfg, Step(cfg, s, e))
  {
    RefsHold(cfg, s);
    if Enabled(s, e) {
      match e
      case Register(key, req) => RegisterKeepsWires(cfg, s, key, req);
      case TimerFires(t) =>
        TimerFlushesItsBatch(cfg, s, t);
        FlushKeepsWires(cfg, s, s.timers[t].key);
      case GroupAnswers(g, outcome) =>
        assert GroupOk(cfg, s, g);
        AnswerEffect(cfg, s, g, outcome);
        SameWires(cfg, s, AnsweredGroup(cfg, s, g, outcome));
      case CancelEntry(x) => SameWires(cfg, s, CancelledEntry(s, x));
    }
  }

  lemma SameWires<Q, R>(cfg: Settings<Q, R>, s: State<Q, R>, t: State<Q, R>)
    requires Keeps(s, t) && |t.groups| == |s.groups| && WiresAreRight(cfg, s)
    ensures WiresAreRight(cfg, t)
  {
    forall g | 0 <= g < |t.groups| ensures WireIsRight(cfg, t, g) {
      OldWires(cfg, s, t, g);
    }
  }

  lemma RegisterKeepsWires<Q, R>(cfg: Settings<Q, R>, s: State<Q, R>, key: string, req: Q)
    requires Inv(cfg, s) && Refs(s) && cfg.maxBatchSize >= 1 && WiresAreRight(cfg, s)
    ensures WiresAreRight(cfg, Registered(cfg, s, key, req))
  {
    var p := Pushed(s, key, req);
    PushKeeps(cfg, s, key, req);
    RefsHold(cfg, p);
    SameWires(cfg, s, p);
    if |p.pending[key].entries| >= cfg.maxBatchSize {
      FlushKeepsWires(cfg, p, key);
    } else {
      SameWires(cfg, p, Registered(cfg, s, key, req));
    }
  }

  lemma {:induction false} RunKeepsWires<Q, R>(cfg: Settings<Q, R>, s: State<Q, R>, events: seq<Event<Q, R>>)
    requires Inv(cfg, s) && cfg.maxBatchSize >= 1 && WiresAreRight(cfg, s)
    ensures WiresAreRight(cfg, After(cfg, s, events))
    decreases |events|
  {
    if events != [] {
      StepKeeps(cfg, s, events[0]);
      StepKeepsWires(cfg, s, events[0]);
      RunKeepsWires(cfg, Step(cfg, s, events[0]), events[1..]);
    }
  }

  /** In every run, what a group sends downstream is the encoding of its members' requests, in the order of the members. */
  lemma EveryGroupSendsItsMembers<Q, R>(cfg: Settings<Q, R>, events: seq<Event<Q, R>>, g: nat, reqs: seq<Q>)
    requires cfg.maxBatchSize >= 1 && g < |After(cfg, Fresh(), events).groups|
    requires RequestsOf(After(cfg, Fresh(), events).entries, After(cfg, Fresh(), events).groups[g].entries, reqs)
    ensures cfg.encode(reqs) == Returns(After(cfg, Fresh(), events).groups[g].wire)
  {
    RunKeepsWires(cfg, Fresh(), events);
    var s := After(cfg, Fresh(), events);
    TheRequests(s.entries, s.groups[g].entries, reqs);
    assert WireIsRight(cfg, s, g);
  }
}
