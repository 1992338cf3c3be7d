/**
 * The bookkeeping of exported spans: which finished spans wait in the trace
 * pipeline, which may be forgotten, and why none is exported twice.
 */
module SpanExport {
  import opened Prelude
  import opened ExportSpec
  import opened ExportPipelines

  datatype Span = Span(spanId: string, payload: string)

  /** What a flush is doing: nothing, about to collect spans, or sending batches. */
  datatype Phase = Idle | Collecting | Draining

  datatype Book = Book(
    pipe: Pipe<Span>,
    queuedIds: set<string>,
    exportedIds: set<string>,
    finished: seq<Span>,       // the tracer's store
    pruned: set<string>,       // ids this code asked the tracer to forget
    seen: set<string>,         // ids of all spans finished so far
    phase: Phase)

  function Ids(s: seq<Span>): set<string> { set x | x in s :: x.spanId }

  /** The spans whose ids are not among ids. */
  function Others(s: seq<Span>, ids: set<string>): seq<Span> {
    Filter(s, (x: Span) => x.spanId !in ids)
  }

  // ----- operations -----

  /** The finished spans not yet handed to the pipeline. */
  function Pending(b: Book): seq<Span> { Others(b.finished, b.exportedIds + b.queuedIds) }

  /** Spans leave: exported or dropped, they are no longer queued and the tracer forgets them. */
  function Forget(b: Book, spans: seq<Span>): Book {
    b.(queuedIds := b.queuedIds - Ids(spans),
       exportedIds := (b.exportedIds + Ids(spans)) - Ids(spans),
       finished := Others(b.finished, Ids(spans)),
       pruned := b.pruned + Ids(spans))
  }

  /** The pending spans are marked and offered; the pipeline reports what it dropped. */
  function Collected(t: Tuning, b: Book): Book {
    var pending := Pending(b);
    var lost := Lost(t, b.pipe.queue, pending);
    var offered := b.(queuedIds := b.queuedIds + Ids(pending), pipe := Offered(t, b.pipe, pending));
    Forget(offered, lost).(phase := if Kept(t, b.pipe.queue, pending) == [] then Idle else Draining)
  }

  function Shipped(b: Book): Book {
    Forget(b, b.pipe.inFlight).(pipe := Succeeded(b.pipe))
  }

  /** The batch goes back to the queue and the flush ends. */
  function PutBack(b: Book): Book { b.(pipe := Failed(b.pipe), phase := Idle) }

  datatype Event =
    | Finish(span: Span)
    | Evict(i: nat)        // the tracer drops a finished span on its own
    | FlushCalled
    | Collect
    | Begin
    | Succeed
    | Fail
    | FlushEnds            // the queue is empty or the deadline passed

  predicate Enabled(b: Book, e: Event) {
    match e
    case Finish(span) => span.spanId !in b.seen
    case Evict(i) => i < |b.finished|
    case FlushCalled => true
    case Collect => b.phase.Collecting?
    case Begin => b.phase.Draining? && b.pipe.inFlight == [] && b.pipe.queue != []
    case FlushEnds => b.phase.Draining? && b.pipe.inFlight == []
    case _ => b.pipe.inFlight != []
  }

  /** One event; one that is not possible changes nothing. */
  function Next(t: Tuning, b: Book, e: Event): Book {
    if !Enabled(b, e) then b else
    match e
    case Finish(span) => b.(finished := b.finished + [span], seen := b.seen + {span.spanId})
    case Evict(i) => b.(finished := RemoveAt(b.finished, i))
    case FlushCalled => if b.phase.Idle? then b.(phase := Collecting) else b
    case Collect => Collected(t, b)
    case Begin => b.(pipe := Begun(t, b.pipe))
    case Succeed => Shipped(b)
    case Fail => PutBack(b)
    case FlushEnds => b.(phase := Idle)
  }

  // ----- invariant -----

  function Waiting(p: Pipe<Span>): seq<Span> { p.inFlight + p.queue }

  ghost predicate DistinctIds(s: seq<Span>) {
    forall i, j :: 0 <= i < j < |s| ==> s[i].spanId != s[j].spanId
  }

  /** The set of queued ids is exactly the ids in the pipeline, and no id is in the other set between steps. */
  ghost predicate Marked(b: Book) {
    b.queuedIds == Ids(Waiting(b.pipe)) && b.exportedIds == {}
  }

  /** No span was offered twice, and a finished span that was offered still waits. */
  ghost predicate OfferedOnce(b: Book) {
    && DistinctIds(b.pipe.offered) && DistinctIds(b.finished)
    && Ids(b.pipe.offered) <= b.seen && Ids(b.finished) <= b.seen
    && Ids(b.finished) * Ids(b.pipe.offered) <= b.queuedIds
  }

  ghost predicate PrunedForCause(b: Book) {
    b.pruned == Ids(b.pipe.exported) + Ids(b.pipe.dropped)
  }

  ghost predicate Inv(t: Tuning, b: Book) {
    && ExportSpec.Inv(t, b.pipe) && Marked(b) && OfferedOnce(b) && PrunedForCause(b)
    && (b.pipe.inFlight != [] ==> b.phase.Draining?)
  }

  // ----- lemmas on lists of spans -----

  lemma {:induction false} OthersFacts(s: seq<Span>, ids: set<string>)
    ensures Ids(Others(s, ids)) == Ids(s) - ids
    ensures DistinctIds(s) ==> DistinctIds(Others(s, ids))
    decreases |s|
  {
    if s != [] {
      OthersFacts(s[1..], ids);
      var rest := Others(s[1..], ids);
      assert s == [s[0]] + s[1..];
      IdsJoin([s[0]], s[1..]);
      IdsJoin([s[0]], rest);
      assert Ids([s[0]]) == {s[0].spanId};
      if DistinctIds(s) {
        assert DistinctIds(s[1..]);
        HeadIsNew(s);
        forall j | 0 <= j < |rest| ensures rest[j].spanId != s[0].spanId {
          assert rest[j].spanId in Ids(rest);
        }
      }
    }
  }

  lemma HeadIsNew(s: seq<Span>)
    requires s != [] && DistinctIds(s)
    ensures s[0].spanId !in Ids(s[1..])
  {
  }

  lemma IdsJoin(a: seq<Span>, b: seq<Span>)
    ensures Ids(a + b) == Ids(a) + Ids(b)
  {
    forall id ensures id in Ids(a + b) <==> id in Ids(a) + Ids(b) {
      if id in Ids(a) { var x :| x in a && x.spanId == id; assert x in a + b; }
      if id in Ids(b) { var x :| x in b && x.spanId == id; assert x in a + b; }
    }
  }

  lemma DistinctJoin(a: seq<Span>, b: seq<Span>)
    requires DistinctIds(a) && DistinctIds(b) && Ids(a) !! Ids(b)
    ensures DistinctIds(a + b)
  {
    forall i, j | 0 <= i < j < |a + b| ensures (a + b)[i].spanId != (a + b)[j].spanId {
      if i < |a| <= j {
        assert a[i].spanId in Ids(a) && b[j - |a|].spanId in Ids(b);
      }
    }
  }

  /** Spans with distinct ids that sit in different places of the pipeline have different ids. */
  lemma PlacesAreApart(p: Pipe<Span>)
    requires Conserved(p) && DistinctIds(p.offered)
    ensures Ids(p.exported) !! Ids(p.dropped) && Ids(p.exported) !! Ids(Waiting(p)) && Ids(p.dropped) !! Ids(Waiting(p))
    ensures Ids(p.offered) == Ids(p.exported) + Ids(p.dropped) + Ids(Waiting(p))
    ensures NoDuplicates(p.exported) && NoDuplicates(Waiting(p))
  {
    assert NoDuplicates(p.offered);
    NothingTwice(p);
    forall x, y | x in p.offered && y in p.offered && x.spanId == y.spanId ensures x == y {
      var i :| 0 <= i < |p.offered| && p.offered[i] == x;
      var j :| 0 <= j < |p.offered| && p.offered[j] == y;
    }
  }

  // ----- every step keeps the invariant -----

  lemma CollectKeeps(t: Tuning, b: Book)
    requires Inv(t, b)
    ensures Inv(t, Collected(t, b).(phase := b.phase))
  {
    var pending := Pending(b);
    var c := Collected(t, b);
    var lost, kept := Lost(t, b.pipe.queue, pending), Kept(t, b.pipe.queue, pending);
    OthersFacts(b.finished, b.exportedIds + b.queuedIds);
    assert Ids(pending) == Ids(b.finished) - b.queuedIds;
    DistinctJoin(b.pipe.offered, pending);
    OfferKeeps(t, b.pipe, pending);
    IdsJoin(b.pipe.offered, pending);
    IdsJoin(b.pipe.dropped, lost);
    OthersFacts(b.finished, Ids(lost));
    PlacesAreApart(b.pipe);
    PlacesAreApart(c.pipe);
    IdsMove(t, b.pipe, pending);
    assert c.queuedIds == Ids(Waiting(c.pipe));
  }

  /** The ids that wait after an offer are those that waited or were offered, less the dropped ones. */
  lemma IdsMove(t: Tuning, p: Pipe<Span>, items: seq<Span>)
    ensures Ids(Waiting(Offered(t, p, items))) + Ids(Lost(t, p.queue, items)) == Ids(Waiting(p)) + Ids(items)
  {
    var kept, lost := Kept(t, p.queue, items), Lost(t, p.queue, items);
    OfferSplits(t, p.queue, items);
    IdsJoin(p.inFlight, kept);
    IdsJoin(p.inFlight, p.queue);
    IdsJoin(kept, lost);
    IdsJoin(p.queue, items);
    assert multiset(kept + lost) == multiset(p.queue + items);
    forall x ensures x in kept + lost <==> x in p.queue + items {
      assert x in multiset(kept + lost) <==> x in multiset(p.queue + items);
    }
  }

  lemma ShippedKeeps(t: Tuning, b: Book)
    requires Inv(t, b) && b.pipe.inFlight != []
    ensures Inv(t, Shipped(b))
  {
    var batch := b.pipe.inFlight;
    var q := Shipped(b);
    SettleKeeps(t, b.pipe);
    OthersFacts(b.finished, Ids(batch));
    IdsJoin(batch, b.pipe.queue);
    IdsJoin(b.pipe.exported, batch);
    PlacesAreApart(b.pipe);
    PlacesAreApart(q.pipe);
    assert Waiting(q.pipe) == q.pipe.queue;
  }

  lemma FinishKeeps(t: Tuning, b: Book, span: Span)
    requires Inv(t, b) && span.spanId !in b.seen
    ensures Inv(t, Next(t, b, Finish(span)))
  {
    IdsJoin(b.finished, [span]);
    assert Ids([span]) == {span.spanId};
    DistinctJoin(b.finished, [span]);
  }

  lemma EvictKeeps(t: Tuning, b: Book, i: nat)
    requires Inv(t, b) && i < |b.finished|
    ensures Inv(t, Next(t, b, Evict(i)))
  {
    var left := RemoveAt(b.finished, i);
    forall x | x in left ensures x in b.finished {}
  }

  lemma StepKeeps(t: Tuning, b: Book, e: Event)
    requires Inv(t, b) && t.batchSize >= 1
    ensures Inv(t, Next(t, b, e))
  {
    if !Enabled(b, e) { return; }
    match e
    case Finish(span) => FinishKeeps(t, b, span);
    case Evict(i) => EvictKeeps(t, b, i);
    case Collect =>
      CollectKeeps(t, b);
      assert b.pipe.inFlight == [];
    case Begin =>
      BeginKeeps(t, b.pipe);
      assert Waiting(Begun(t, b.pipe)) == Waiting(b.pipe);
    case Succeed => ShippedKeeps(t, b);
    case Fail =>
      SettleKeeps(t, b.pipe);
      assert Waiting(Failed(b.pipe)) == Waiting(b.pipe);
    case _ =>
  }

  function EmptyBook(): Book {
    Book(ExportSpec.Fresh(), {}, {}, [], {}, {}, Idle)
  }

  lemma EmptyKeeps(t: Tuning)
    ensures Inv(t, EmptyBook())
  {
    FreshKeeps<Span>(t);
  }

  ghost function After(t: Tuning, b: Book, events: seq<Event>): Book
    decreases |events|
  {
    if events == [] then b else After(t, Next(t, b, events[0]), events[1..])
  }

  lemma {:induction false} RunKeeps(t: Tuning, b: Book, events: seq<Event>)
    requires Inv(t, b) && t.batchSize >= 1
    ensures Inv(t, After(t, b, events))
    decreases |events|
  {
    if events != [] {
      StepKeeps(t, b, events[0]);
      RunKeeps(t, Next(t, b, events[0]), events[1..]);
    }
  }

  /**
   * In every run, over failed and retried batches and flushes: the queued ids
   * are those in flight or queued; no span is offered twice; no span is exported
   * twice, or exported and dropped; and the tracer is told to forget exactly the
   * spans that were exported or dropped.
   */
  lemma SpansExportedOnce(t: Tuning, events: seq<Event>)
    requires t.batchSize >= 1
    ensures var b := After(t, EmptyBook(), events);
      && b.queuedIds == Ids(b.pipe.inFlight + b.pipe.queue) && b.exportedIds == {}
      && DistinctIds(b.pipe.offered) && DistinctIds(b.pipe.exported)
      && Ids(b.pipe.exported) !! Ids(b.pipe.dropped) && Ids(b.pipe.exported) !! b.queuedIds
      && b.pruned == Ids(b.pipe.exported) + Ids(b.pipe.dropped)
      && b.pruned !! b.queuedIds && b.pruned !! Ids(b.finished)
  {
    EmptyKeeps(t);
    RunKeeps(t, EmptyBook(), events);
    var b := After(t, EmptyBook(), events);
    PlacesAreApart(b.pipe);
    ExportedIdsDiffer(b.pipe);
  }

  lemma ExportedIdsDiffer(p: Pipe<Span>)
    requires Conserved(p) && DistinctIds(p.offered)
    ensures DistinctIds(p.exported)
  {
    PlacesAreApart(p);
    forall i, j | 0 <= i < j < |p.exported| ensures p.exported[i].spanId != p.exported[j].spanId {
      var x, y := p.exported[i], p.exported[j];
      assert x in multiset(p.exported) && y in multiset(p.exported);
      assert x in multiset(p.offered) && y in multiset(p.offered);
      assert x in p.offered && y in p.offered;
    }
  }

  // ----- what is collected, and what the tracer keeps -----

  lemma {:induction false} OthersAre(s: seq<Span>, ids: set<string>)
    ensures forall x :: x in Others(s, ids) <==> x in s && x.spanId !in ids
    ensures Within(Others(s, ids), s)
    decreases |s|
  {
    if s != [] {
      OthersAre(s[1..], ids);
      assert s == [s[0]] + s[1..];
      var rest := Others(s[1..], ids);
      if s[0].spanId !in ids {
        assert ([s[0]] + rest)[1..] == rest;
      }
    }
  }

  /** A collection offers, in order, every finished span that does not wait already, so that none is left unoffered; the
      tracer keeps them all but those that the offer drops, and there is something to drain iff something waits. */
  lemma CollectOffers(t: Tuning, b: Book)
    requires Inv(t, b)
    ensures var c := Collected(t, b);
      && (exists more :: c.pipe.offered == b.pipe.offered + more && Within(more, b.finished)
                        && forall x :: x in more <==> x in b.finished && x.spanId !in Ids(Waiting(b.pipe)))
      && (exists lost :: c.pipe.dropped == b.pipe.dropped + lost
                         && forall x :: x in c.finished <==> x in b.finished && x.spanId !in Ids(lost))
      && (c.phase.Draining? <==> c.pipe.queue != []) && (c.phase.Idle? <==> c.pipe.queue == [])
      && c.pipe.inFlight == b.pipe.inFlight && c.pipe.exported == b.pipe.exported && c.seen == b.seen
  {
    var pending := Pending(b);
    var lost := Lost(t, b.pipe.queue, pending);
    OthersAre(b.finished, b.exportedIds + b.queuedIds);
    OthersAre(b.finished, Ids(lost));
    assert Collected(t, b).pipe.offered == b.pipe.offered + pending;
    assert Collected(t, b).pipe.dropped == b.pipe.dropped + lost;
  }

  /** What a batch that was exported takes from the tracer is that batch and nothing else. */
  lemma ShippedForgets(t: Tuning, b: Book)
    requires Inv(t, b)
    ensures var c := Shipped(b);
      && c.pipe.exported == b.pipe.exported + b.pipe.inFlight && c.pipe.inFlight == [] && c.pipe.queue == b.pipe.queue
      && (forall x :: x in c.finished <==> x in b.finished && x.spanId !in Ids(b.pipe.inFlight))
  {
    OthersAre(b.finished, Ids(b.pipe.inFlight));
  }

  /** All spans finished so far are still with the tracer, or were exported or dropped. */
  ghost predicate NoneLost(b: Book) {
    b.seen == Ids(b.finished) + Ids(b.pipe.exported) + Ids(b.pipe.dropped)
  }

  lemma StepLosesNone(t: Tuning, b: Book, e: Event)
    requires Inv(t, b) && t.batchSize >= 1 && NoneLost(b) && !e.Evict?
    ensures NoneLost(Next(t, b, e))
  {
    if !Enabled(b, e) { return; }
    match e
    case Finish(span) =>
      IdsJoin(b.finished, [span]);
      assert Ids([span]) == {span.spanId};
    case Collect =>
      var lost := Lost(t, b.pipe.queue, Pending(b));
      OthersFacts(b.finished, Ids(lost));
      IdsJoin(b.pipe.dropped, lost);
      CollectKeeps(t, b);
      DroppedWasSeen(t, b);
    case Succeed =>
      OthersFacts(b.finished, Ids(b.pipe.inFlight));
      IdsJoin(b.pipe.exported, b.pipe.inFlight);
      PlacesAreApart(b.pipe);
      IdsJoin(b.pipe.inFlight, b.pipe.queue);
    case _ =>
  }

  lemma DroppedWasSeen(t: Tuning, b: Book)
    requires Inv(t, Collected(t, b).(phase := b.phase))
    ensures Ids(Collected(t, b).pipe.dropped) <= b.seen
  {
    PlacesAreApart(Collected(t, b).pipe);
  }

  lemma {:induction false} RunLosesNone(t: Tuning, b: Book, events: seq<Event>)
    requires Inv(t, b) && t.batchSize >= 1 && NoneLost(b) && forall i :: 0 <= i < |events| ==> !events[i].Evict?
    ensures NoneLost(After(t, b, events))
    decreases |events|
  {
    if events != [] {
      StepKeeps(t, b, events[0]);
      StepLosesNone(t, b, events[0]);
      RunLosesNone(t, Next(t, b, events[0]), events[1..]);
    }
  }

  /** As long as the tracer evicts nothing on its own, every finished span is exported, dropped by the pipeline, or there to
      be collected or waiting. */
  lemma NoSpanIsLost(t: Tuning, events: seq<Event>)
    requires t.batchSize >= 1 && forall i :: 0 <= i < |events| ==> !events[i].Evict?
    ensures NoneLost(After(t, EmptyBook(), events))
  {
    EmptyKeeps(t);
    RunLosesNone(t, EmptyBook(), events);
  }

  // ----- the same bookkeeping, in place -----

  class TraceExport {
    const pipeline: ExportPipeline<Span>
    var queuedSpanIds: set<string>
    var exportedSpanIds: set<string>
    var finished: seq<Span>
    ghost var pruned: set<string>
    ghost var seen: set<string>
    var phase: Phase

    ghost predicate Valid()
      reads this, pipeline
    {
      pipeline.Valid()
    }

    ghost function Model(): Book
      reads this, pipeline
    {
      Book(pipeline.Model(), queuedSpanIds, exportedSpanIds, finished, pruned, seen, phase)
    }

    constructor (batchSize: Option<real>, maxQueueSize: Option<real>, policy: Option<Policy>, retry: RetryTuning)
      ensures Valid() && fresh(pipeline) && Model() == EmptyBook()
    {
      pipeline := new ExportPipeline<Span>(batchSize, maxQueueSize, policy, retry);
      queuedSpanIds, exportedSpanIds, finished, phase := {}, {}, [], Idle;
      pruned, seen := {}, {};
    }

    /** What both exportBatch, on success, and onDrop do with the spans that leave. */
    method Release(spans: seq<Span>)
      modifies this`queuedSpanIds, this`exportedSpanIds, this`finished, this`pruned
      ensures queuedSpanIds == old(queuedSpanIds) - Ids(spans)
      ensures exportedSpanIds == (old(exportedSpanIds) + Ids(spans)) - Ids(spans)
      ensures finished == Others(old(finished), Ids(spans))
      ensures pruned == old(pruned) + Ids(spans)
    {
      var i := 0;
      while i < |spans|
        invariant 0 <= i <= |spans|
        invariant queuedSpanIds == old(queuedSpanIds) - Ids(spans[..i])
        invariant exportedSpanIds == old(exportedSpanIds) + Ids(spans[..i])
        modifies this`queuedSpanIds, this`exportedSpanIds
      {
        OneMoreId(spans, i);
        queuedSpanIds := queuedSpanIds - {spans[i].spanId};
        exportedSpanIds := exportedSpanIds + {spans[i].spanId};
        i := i + 1;
      }
      assert spans[..i] == spans;
      PruneFinished(Ids(spans));
      ghost var marked := exportedSpanIds;
      i := 0;
      while i < |spans|
        invariant 0 <= i <= |spans|
        invariant exportedSpanIds == marked - Ids(spans[..i])
        modifies this`exportedSpanIds
      {
        OneMoreId(spans, i);
        exportedSpanIds := exportedSpanIds - {spans[i].spanId};
        i := i + 1;
      }
      assert spans[..i] == spans;
    }

    /** The tracer forgets finished spans. */
    method PruneFinished(ids: set<string>)
      modifies this`finished, this`pruned
      ensures finished == Others(old(finished), ids) && pruned == old(pruned) + ids
    {
      finished := Others(finished, ids);
      pruned := pruned + ids;
    }

    /** The start of export: collect, mark, offer. */
    method Collect()
      requires Valid() && phase.Collecting?
      modifies this, pipeline
      ensures Valid() && Model() == Collected(pipeline.tuning, old(Model()))
    {
      var pending := Others(finished, exportedSpanIds + queuedSpanIds);
      var i := 0;
      while i < |pending|
        invariant 0 <= i <= |pending|
        invariant queuedSpanIds == old(queuedSpanIds) + Ids(pending[..i])
        modifies this`queuedSpanIds
      {
        OneMoreId(pending, i);
        queuedSpanIds := queuedSpanIds + {pending[i].spanId};
        i := i + 1;
      }
      assert pending[..i] == pending;
      var _, lost := pipeline.Enqueue(pending);
      if |lost| > 0 {
        Release(lost);
      } else {
        NothingToRelease(Model());
      }
      phase := if |pipeline.queue| == 0 then Idle else Draining;
    }

    /** exportBatch got its response for the batch it was called with. */
    method OnExported(batch: seq<Span>)
      requires Valid() && batch == pipeline.inFlight
      modifies this, pipeline
      ensures Valid() && Model() == Shipped(old(Model()))
    {
      Release(batch);
      pipeline.OnExported(batch);
    }

    /** The next batch is taken from the queue and handed to exportBatch. */
    method Begin() returns (batch: seq<Span>)
      requires Valid() && phase.Draining? && pipeline.inFlight == [] && pipeline.queue != []
      modifies pipeline
      ensures Valid() && batch == pipeline.inFlight
      ensures Model() == old(Model()).(pipe := Begun(pipeline.tuning, old(Model()).pipe))
    {
      batch := pipeline.TakeBatch();
    }

    /** exportBatch failed for good: the batch goes back and the flush ends. */
    method OnFailed(batch: seq<Span>)
      requires Valid() && batch == pipeline.inFlight
      modifies this`phase, pipeline
      ensures Valid() && Model() == PutBack(old(Model()))
    {
      pipeline.PutBack(batch);
      phase := Idle;
    }

    /** flush: a call while one is running shares it. */
    method Flush() returns (shared: bool)
      modifies this`phase
      ensures Model() == Next(pipeline.tuning, old(Model()), FlushCalled) && shared == !old(phase).Idle?
    {
      shared := !phase.Idle?;
      if shared { return; }
      phase := Collecting;
    }
  }

  lemma OneMoreId(s: seq<Span>, i: nat)
    requires i < |s|
    ensures Ids(s[..i + 1]) == Ids(s[..i]) + {s[i].spanId}
  {
    assert s[..i + 1] == s[..i] + [s[i]];
    IdsJoin(s[..i], [s[i]]);
    assert Ids([s[i]]) == {s[i].spanId};
  }

  lemma {:induction false} OthersOfNone(s: seq<Span>)
    ensures Others(s, {}) == s
  {
    if s != [] {
      OthersOfNone(s[1..]);
    }
  }

  lemma NothingToRelease(b: Book)
    ensures Forget(b, []) == b
  {
    OthersOfNone(b.finished);
    assert Ids([]) == {};
  }
}
