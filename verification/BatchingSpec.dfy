/**
 * Request batching on values: requests gather in a pending batch per key, a
 * batch is flushed by size or by its timer, and its group is answered as a whole.
 */
module BatchingSpec {
  import opened Prelude
  import opened Effects

  datatype HttpError = Abort | FetchError(message: string) | OtherError(tag: string)

  /** What a request's callback receives. */
  datatype Reply<R> = Response(value: R) | Error(error: HttpError) | Interrupted

  datatype Entry<Q, R> = Entry(key: string, req: Q, cancelled: bool, done: bool, group: Option<nat>, calls: seq<Reply<R>>)

  datatype Pending = Pending(entries: seq<nat>, timer: Option<nat>)

  datatype Timer = Timer(key: string, live: bool)

  datatype Phase = Running | Answered | Stopped

  datatype Group<Q> = Group(key: string, entries: seq<nat>, wire: Q, phase: Phase)

  /** Requests are numbered in order of registration, groups in order of flushing. */
  datatype State<Q, R> = State(
    entries: seq<Entry<Q, R>>,
    pending: map<string, Pending>,
    groups: seq<Group<Q>>,
    timers: seq<Timer>,
    stops: seq<nat>)                 // groups whose downstream canceller was called

  datatype Settings<!Q, !R> = Settings(
    maxBatchSize: nat,
    encode: seq<Q> -> Attempt<Q, HttpError>,
    decode: (R, seq<Q>) -> Attempt<seq<R>, HttpError>,
    mismatch: (nat, nat) -> HttpError,
    describe: Cause<HttpError> -> HttpError)

  /** How the downstream effect of a group ends. */
  datatype Ending<R> = Arrived(response: R) | Broke(cause: Cause<HttpError>)

  datatype Event<Q, R> =
    | Register(key: string, req: Q)
    | TimerFires(timer: nat)
    | GroupAnswers(group: nat, outcome: Ending<R>)
    | CancelEntry(entry: nat)

  // ----- completing entries -----

  function Settle<Q, R>(x: Entry<Q, R>, reply: Reply<R>): Entry<Q, R> {
    if x.done then x else x.(done := true, calls := x.calls + [reply])
  }

  predicate Known<Q, R>(entries: seq<Entry<Q, R>>, es: seq<nat>) {
    forall i :: 0 <= i < |es| ==> es[i] < |entries|
  }

  /** Completes es[i..], each with the reply at its position. */
  function CompletedFrom<Q, R>(entries: seq<Entry<Q, R>>, es: seq<nat>, replies: seq<Reply<R>>, i: nat): seq<Entry<Q, R>>
    requires Known(entries, es) && |replies| == |es| && i <= |es|
    decreases |es| - i
  {
    if i == |es| then entries
    else CompletedFrom(entries[es[i] := Settle(entries[es[i]], replies[i])], es, replies, i + 1)
  }

  /** Every member is settled with the reply at its position, and nobody else is touched. */
  lemma {:induction false} EachGetsItsOwn<Q, R>(entries: seq<Entry<Q, R>>, es: seq<nat>, replies: seq<Reply<R>>, i: nat)
    requires Known(entries, es) && |replies| == |es| && i <= |es| && NoDuplicates(es)
    ensures var after := CompletedFrom(entries, es, replies, i);
      && |after| == |entries|
      && (forall j :: i <= j < |es| ==> after[es[j]] == Settle(entries[es[j]], replies[j]))
      && (forall e :: 0 <= e < |entries| && e !in es[i..] ==> after[e] == entries[e])
    decreases |es| - i
  {
    if i < |es| {
      var next := entries[es[i] := Settle(entries[es[i]], replies[i])];
      EachGetsItsOwn(next, es, replies, i + 1);
      assert es[i..] == [es[i]] + es[i + 1..];
      assert es[i] !in es[i + 1..];
    }
  }

  function Repeated<R>(reply: Reply<R>, n: nat): seq<Reply<R>> { seq(n, _ => reply) }

  function Completed<Q, R>(s: State<Q, R>, es: seq<nat>, replies: seq<Reply<R>>): State<Q, R>
    requires Known(s.entries, es) && |replies| == |es|
  {
    s.(entries := CompletedFrom(s.entries, es, replies, 0))
  }

  /** One error for every unsettled member. */
  function FailedAll<Q, R>(s: State<Q, R>, es: seq<nat>, error: HttpError): State<Q, R>
    requires Known(s.entries, es)
  {
    Completed(s, es, Repeated(Error(error), |es|))
  }

  // ----- flushing -----

  function Requests<Q, R>(entries: seq<Entry<Q, R>>, es: seq<nat>): seq<Q>
    requires Known(entries, es)
  {
    seq(|es|, i requires 0 <= i < |es| => entries[es[i]].req)
  }

  /** The members not yet cancelled or settled. */
  function Unsettled<Q, R>(entries: seq<Entry<Q, R>>, es: seq<nat>): (r: seq<nat>)
    requires Known(entries, es)
    ensures Known(entries, r) && |r| <= |es|
  {
    if es == [] then []
    else
      var rest := Unsettled(entries, es[1..]);
      var x := entries[es[0]];
      if !x.cancelled && !x.done then [es[0]] + rest else rest
  }

  function Cleared(timers: seq<Timer>, t: Option<nat>): seq<Timer> {
    if t.Some? && t.value < |timers| then timers[t.value := timers[t.value].(live := false)] else timers
  }

  function Taken<Q, R>(s: State<Q, R>, key: string): State<Q, R>
    requires key in s.pending
  {
    s.(pending := s.pending - {key}, timers := Cleared(s.timers, s.pending[key].timer))
  }

  function Joined<Q, R>(x: Entry<Q, R>, g: nat): Entry<Q, R> { x.(group := Some(g)) }

  function JoinedFrom<Q, R>(entries: seq<Entry<Q, R>>, es: seq<nat>, g: nat, i: nat): seq<Entry<Q, R>>
    requires Known(entries, es) && i <= |es|
    decreases |es| - i
  {
    if i == |es| then entries else JoinedFrom(entries[es[i] := Joined(entries[es[i]], g)], es, g, i + 1)
  }

  lemma {:induction false} AllJoin<Q, R>(entries: seq<Entry<Q, R>>, es: seq<nat>, g: nat, i: nat)
    requires Known(entries, es) && i <= |es| && NoDuplicates(es)
    ensures var after := JoinedFrom(entries, es, g, i);
      && |after| == |entries|
      && (forall j :: i <= j < |es| ==> after[es[j]] == Joined(entries[es[j]], g))
      && (forall e :: 0 <= e < |entries| && e !in es[i..] ==> after[e] == entries[e])
    decreases |es| - i
  {
    if i < |es| {
      AllJoin(entries[es[i] := Joined(entries[es[i]], g)], es, g, i + 1);
      assert es[i..] == [es[i]] + es[i + 1..];
      assert es[i] !in es[i + 1..];
    }
  }

  /** The members leave as one encoded request, or all fail when encoding throws. */
  function Launched<Q, R>(cfg: Settings<Q, R>, s: State<Q, R>, key: string, es: seq<nat>): State<Q, R>
    requires Known(s.entries, es)
  {
    match cfg.encode(Requests(s.entries, es))
    case Throws(error) => FailedAll(s, es, error)
    case Returns(wire) =>
      s.(entries := JoinedFrom(s.entries, es, |s.groups|, 0), groups := s.groups + [Group(key, es, wire, Running)])
  }

  function Flushed<Q, R>(cfg: Settings<Q, R>, s: State<Q, R>, key: string): State<Q, R>
    requires key in s.pending ==> Known(s.entries, s.pending[key].entries)
  {
    if key !in s.pending then s
    else
      var es := Unsettled(s.entries, s.pending[key].entries);
      if es == [] then Taken(s, key) else Launched(cfg, Taken(s, key), key, es)
  }

  // ----- operations -----

  function BatchFor<Q, R>(s: State<Q, R>, key: string): Pending {
    if key in s.pending then s.pending[key] else Pending([], None)
  }

  /** The new request is in its batch; nothing else happened yet. */
  function Pushed<Q, R>(s: State<Q, R>, key: string, req: Q): State<Q, R> {
    var batch := BatchFor(s, key);
    s.(entries := s.entries + [Entry(key, req, false, false, None, [])],
       pending := s.pending[key := batch.(entries := batch.entries + [|s.entries|])])
  }

  function Armed<Q, R>(s: State<Q, R>, key: string): State<Q, R>
    requires key in s.pending
  {
    s.(timers := s.timers + [Timer(key, true)], pending := s.pending[key := s.pending[key].(timer := Some(|s.timers|))])
  }

  function Registered<Q, R>(cfg: Settings<Q, R>, s: State<Q, R>, key: string, req: Q): State<Q, R>
    requires Known(s.entries, BatchFor(s, key).entries)
  {
    var p := Pushed(s, key, req);
    if |p.pending[key].entries| >= cfg.maxBatchSize then Flushed(cfg, p, key)
    else if p.pending[key].timer.None? then Armed(p, key)
    else p
  }

  function Fired<Q, R>(cfg: Settings<Q, R>, s: State<Q, R>, t: nat): State<Q, R>
    requires t < |s.timers|
    requires s.timers[t].key in s.pending ==> Known(s.entries, s.pending[s.timers[t].key].entries)
  {
    Flushed(cfg, s.(timers := Cleared(s.timers, Some(t))), s.timers[t].key)
  }

  function GroupError<Q, R>(cfg: Settings<Q, R>, cause: Cause<HttpError>): HttpError {
    if FirstFailure(cause).Some? then FirstFailure(cause).value
    else if IsInterruptedOnly(cause) then Abort
    else cfg.describe(cause)
  }

  /** The replies for the members, in their order. */
  function Replies<Q, R>(cfg: Settings<Q, R>, reqs: seq<Q>, outcome: Ending<R>): (replies: seq<Reply<R>>)
    ensures |replies| == |reqs|
  {
    match outcome
    case Broke(cause) => Repeated(Error(GroupError(cfg, cause)), |reqs|)
    case Arrived(response) =>
      (match cfg.decode(response, reqs)
       case Throws(error) => Repeated(Error(error), |reqs|)
       case Returns(decoded) =>
         if |decoded| != |reqs| then Repeated(Error(cfg.mismatch(|decoded|, |reqs|)), |reqs|)
         else seq(|reqs|, i requires 0 <= i < |reqs| => Response(decoded[i])))
  }

  function AnsweredGroup<Q, R>(cfg: Settings<Q, R>, s: State<Q, R>, g: nat, outcome: Ending<R>): State<Q, R>
    requires g < |s.groups| && Known(s.entries, s.groups[g].entries)
  {
    var es := s.groups[g].entries;
    Completed(s.(groups := s.groups[g := s.groups[g].(phase := Answered)]), es,
              Replies(cfg, Requests(s.entries, es), outcome))
  }

  /** The list without e. */
  function Drop(es: seq<nat>, e: nat): seq<nat> {
    Filter(es, x => x != e)
  }

  predicate AllSettled<Q, R>(entries: seq<Entry<Q, R>>, es: seq<nat>)
    requires Known(entries, es)
  {
    forall i :: 0 <= i < |es| ==> entries[es[i]].cancelled || entries[es[i]].done
  }

  function Marked<Q, R>(s: State<Q, R>, e: nat): State<Q, R>
    requires e < |s.entries|
  {
    s.(entries := s.entries[e := Settle(s.entries[e].(cancelled := true), Interrupted)])
  }

  function LeftBatch<Q, R>(s: State<Q, R>, key: string, e: nat): State<Q, R>
    requires key in s.pending
  {
    var batch := s.pending[key];
    var rest := Drop(batch.entries, e);
    if rest == [] then s.(timers := Cleared(s.timers, batch.timer), pending := s.pending - {key})
    else s.(pending := s.pending[key := batch.(entries := rest)])
  }

  function StoppedGroup<Q, R>(s: State<Q, R>, g: nat): State<Q, R>
    requires g < |s.groups| && Known(s.entries, s.groups[g].entries)
  {
    if s.groups[g].phase.Stopped? || !AllSettled(s.entries, s.groups[g].entries) then s
    else s.(groups := s.groups[g := s.groups[g].(phase := Stopped)], stops := s.stops + [g])
  }

  /** A pending batch of the same key ends the cancellation, whether or not the entry is in it. */
  function CancelledEntry<Q, R>(s: State<Q, R>, e: nat): State<Q, R>
    requires e < |s.entries| && Refs(s)
  {
    var x := s.entries[e];
    if x.done || x.cancelled then s
    else if x.key in s.pending then LeftBatch(Marked(s, e), x.key, e)
    else if x.group.None? then Marked(s, e)
    else StoppedGroup(Marked(s, e), x.group.value)
  }

  // ----- runs -----

  /** Every reference is to something that exists. */
  ghost predicate Refs<Q, R>(s: State<Q, R>) {
    && (forall k :: k in s.pending ==> Known(s.entries, s.pending[k].entries))
    && (forall g :: 0 <= g < |s.groups| ==> Known(s.entries, s.groups[g].entries))
    && (forall e :: 0 <= e < |s.entries| && s.entries[e].group.Some? ==> s.entries[e].group.value < |s.groups|)
  }

  /** A timer fires while it is armed; a group is answered once, and not after its canceller was called. */
  ghost predicate Enabled<Q, R>(s: State<Q, R>, e: Event<Q, R>) {
    match e
    case Register(_, _) => true
    case TimerFires(t) => t < |s.timers| && s.timers[t].live
    case GroupAnswers(g, _) => g < |s.groups| && s.groups[g].phase.Running?
    case CancelEntry(x) => x < |s.entries|
  }

  /** Any event; one that cannot happen changes nothing. */
  ghost function Step<Q, R>(cfg: Settings<Q, R>, s: State<Q, R>, e: Event<Q, R>): State<Q, R> {
    if !Refs(s) || !Enabled(s, e) then s else
    match e
    case Register(key, req) => Registered(cfg, s, key, req)
    case TimerFires(t) => Fired(cfg, s, t)
    case GroupAnswers(g, outcome) => AnsweredGroup(cfg, s, g, outcome)
    case CancelEntry(x) => CancelledEntry(s, x)
  }

  ghost function After<Q, R>(cfg: Settings<Q, R>, s: State<Q, R>, events: seq<Event<Q, R>>): State<Q, R>
    decreases |events|
  {
    if events == [] then s else After(cfg, Step(cfg, s, events[0]), events[1..])
  }

  function Fresh<Q, R>(): State<Q, R> { State([], map[], [], [], []) }
}
