/** The request batcher, its tables changed in place. */
module Batching {
  import opened Prelude
  import opened Effects
  import opened BatchingSpec
  import opened BatchingSafety

  class RequestBatcher<Q, R> {
    const cfg: Settings<Q, R>
    var entries: seq<Entry<Q, R>>
    var pending: map<string, Pending>
    var groups: seq<Group<Q>>
    var timers: seq<Timer>
    var stops: seq<nat>

    ghost function Model(): State<Q, R>
      reads this
    {
      State(entries, pending, groups, timers, stops)
    }

    ghost predicate Valid()
      reads this
    {
      cfg.maxBatchSize >= 1 && Inv(cfg, Model())
    }

    constructor (maxBatchSize: Option<real>, encode: seq<Q> -> Attempt<Q, HttpError>,
                 decode: (R, seq<Q>) -> Attempt<seq<R>, HttpError>,
                 mismatch: (nat, nat) -> HttpError, describe: Cause<HttpError> -> HttpError)
      ensures Valid() && Model() == Fresh()
      ensures cfg.maxBatchSize == if maxBatchSize.None? then 16 else if maxBatchSize.value.Floor < 1 then 1 else maxBatchSize.value.Floor
    {
      var size := if maxBatchSize.None? then 16 else maxBatchSize.value.Floor;
      cfg := Settings(if size < 1 then 1 else size, encode, decode, mismatch, describe);
      entries, pending, groups, timers, stops := [], map[], [], [], [];
    }

    method Complete(e: nat, reply: Reply<R>)
      requires e < |entries|
      modifies this`entries
      ensures entries == old(entries)[e := Settle(old(entries)[e], reply)]
    {
      var entry := entries[e];
      if entry.done { return; }
      entries := entries[e := entry.(done := true, calls := entry.calls + [reply])];
    }

    method CompleteAll(es: seq<nat>, replies: seq<Reply<R>>)
      requires Known(entries, es) && |replies| == |es|
      modifies this`entries
      ensures entries == CompletedFrom(old(entries), es, replies, 0)
    {
      var i := 0;
      while i < |es|
        invariant 0 <= i <= |es| && |entries| == |old(entries)|
        invariant CompletedFrom(old(entries), es, replies, 0) == CompletedFrom(entries, es, replies, i)
      {
        Complete(es[i], replies[i]);
        i := i + 1;
      }
    }

    method FailEntries(es: seq<nat>, error: HttpError)
      requires Known(entries, es)
      modifies this`entries
      ensures Model() == FailedAll(old(Model()), es, error)
    {
      CompleteAll(es, Repeated(Error(error), |es|));
    }

    method ClearTimer(t: Option<nat>)
      modifies this`timers
      ensures timers == Cleared(old(timers), t)
    {
      if t.Some? && t.value < |timers| {
        timers := timers[t.value := timers[t.value].(live := false)];
      }
    }

    /** The entries not yet cancelled or settled. */
    method Filter(es: seq<nat>) returns (kept: seq<nat>)
      requires Known(entries, es)
      ensures kept == Unsettled(entries, es)
    {
      kept := [];
      var i := |es|;
      while i > 0
        invariant 0 <= i <= |es| && kept == Unsettled(entries, es[i..])
      {
        i := i - 1;
        assert es[i..][1..] == es[i + 1..];
        if !entries[es[i]].cancelled && !entries[es[i]].done {
          kept := [es[i]] + kept;
        }
      }
    }

    method JoinGroup(es: seq<nat>, g: nat)
      requires Known(entries, es)
      modifies this`entries
      ensures entries == JoinedFrom(old(entries), es, g, 0)
    {
      var i := 0;
      while i < |es|
        invariant 0 <= i <= |es| && |entries| == |old(entries)|
        invariant JoinedFrom(old(entries), es, g, 0) == JoinedFrom(entries, es, g, i)
      {
        entries := entries[es[i] := entries[es[i]].(group := Some(g))];
        i := i + 1;
      }
    }

    method Flush(key: string)
      requires key in pending ==> Known(entries, pending[key].entries)
      modifies this
      ensures Model() == Flushed(cfg, old(Model()), key)
    {
      if key !in pending { return; }
      var batch := pending[key];
      pending := pending - {key};
      ClearTimer(batch.timer);
      var es := Filter(batch.entries);
      if |es| == 0 { return; }
      match cfg.encode(Requests(entries, es)) {
        case Throws(error) => FailEntries(es, error);
        case Returns(wire) =>
          JoinGroup(es, |groups|);
          groups := groups + [Group(key, es, wire, Running)];
      }
    }

    method Push(key: string, req: Q)
      modifies this`entries, this`pending
      ensures Model() == Pushed(old(Model()), key, req)
    {
      if key !in pending {
        pending := pending[key := Pending([], None)];
      }
      var batch := pending[key];
      pending := pending[key := batch.(entries := batch.entries + [|entries|])];
      entries := entries + [Entry(key, req, false, false, None, [])];
    }

    /** A request enters the batch of its key; returns its number, for CancelEntry. */
    method Register(key: string, req: Q) returns (e: nat)
      requires Valid()
      modifies this
      ensures Valid() && Known(old(entries), BatchFor(old(Model()), key).entries)
      ensures Model() == Registered(cfg, old(Model()), key, req) && e == |old(entries)|
    {
      RefsHold(cfg, Model());
      RegisterKeeps(cfg, Model(), key, req);
      PushKeeps(cfg, Model(), key, req);
      e := |entries|;
      Push(key, req);
      var batch := pending[key];
      if |batch.entries| >= cfg.maxBatchSize {
        RefsHold(cfg, Model());
        Flush(key);
      } else if batch.timer.None? {
        pending := pending[key := batch.(timer := Some(|timers|))];
        timers := timers + [Timer(key, true)];
      }
    }

    method OnTimer(t: nat)
      requires Valid() && t < |timers| && timers[t].live
      modifies this
      ensures Valid() && Model() == Fired(cfg, old(Model()), t)
    {
      RefsHold(cfg, Model());
      StepKeeps(cfg, Model(), TimerFires(t));
      var key := timers[t].key;
      ClearTimer(Some(t));
      Flush(key);
    }

    /** The downstream effect of a group ended. */
    method OnAnswer(g: nat, outcome: Ending<R>)
      requires Valid() && g < |groups| && groups[g].phase.Running?
      modifies this
      ensures Valid() && Refs(old(Model())) && Model() == AnsweredGroup(cfg, old(Model()), g, outcome)
    {
      RefsHold(cfg, Model());
      AnswerKeeps(cfg, Model(), g, outcome);
      var es := groups[g].entries;
      groups := groups[g := groups[g].(phase := Answered)];
      match outcome {
        case Broke(cause) => FailEntries(es, GroupError(cfg, cause));
        case Arrived(response) =>
          match cfg.decode(response, Requests(entries, es)) {
            case Throws(error) => FailEntries(es, error);
            case Returns(decoded) =>
              if |decoded| != |es| {
                FailEntries(es, cfg.mismatch(|decoded|, |es|));
              } else {
                CompleteAll(es, seq(|es|, i requires 0 <= i < |es| => Response(decoded[i])));
              }
          }
      }
    }

    /** The canceller of one request. */
    method CancelEntry(e: nat)
      requires Valid() && e < |entries|
      modifies this
      ensures Valid() && Refs(old(Model())) && Model() == CancelledEntry(old(Model()), e)
    {
      RefsHold(cfg, Model());
      CancelKeeps(cfg, Model(), e);
      var entry := entries[e];
      if entry.done || entry.cancelled { return; }
      entries := entries[e := entry.(cancelled := true)];
      Complete(e, Interrupted);
      UpdateTwice(old(entries), e, entry.(cancelled := true), entries[e]);
      assert Model() == Marked(old(Model()), e);
      if entry.key in pending {
        LeavePending(entry.key, e);
      } else if entry.group.Some? {
        StopIfSettled(entry.group.value);
      }
    }

    method LeavePending(key: string, e: nat)
      requires key in pending
      modifies this`pending, this`timers
      ensures Model() == LeftBatch(old(Model()), key, e)
    {
      var queued := pending[key];
      var rest := Drop(queued.entries, e);
      pending := pending[key := queued.(entries := rest)];
      if |rest| == 0 {
        ClearTimer(queued.timer);
        pending := pending - {key};
      }
    }

    method StopIfSettled(g: nat)
      requires g < |groups| && Known(entries, groups[g].entries)
      modifies this`groups, this`stops
      ensures Model() == StoppedGroup(old(Model()), g)
    {
      if groups[g].phase.Stopped? { return; }
      var es := groups[g].entries;
      var i := 0;
      while i < |es|
        invariant 0 <= i <= |es|
        invariant forall j :: 0 <= j < i ==> entries[es[j]].cancelled || entries[es[j]].done
      {
        if !entries[es[i]].cancelled && !entries[es[i]].done { return; }
        i := i + 1;
      }
      groups := groups[g := groups[g].(phase := Stopped)];
      stops := stops + [g];
    }
  }
}
