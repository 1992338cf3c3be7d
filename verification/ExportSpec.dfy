/** The export queue on values: what offers, batches and failures do to it, and what every run keeps. */
module ExportSpec {
  import opened Prelude

  datatype Policy = DropOldest | DropNewest

  datatype Tuning = Tuning(batchSize: nat, maxQueueSize: nat, policy: Policy)

  /** The queue, the batch being exported, and everything offered, exported and dropped so far. */
  datatype Pipe<T> = Pipe(queue: seq<T>, inFlight: seq<T>, exported: seq<T>, dropped: seq<T>, offered: seq<T>)

  datatype Event<T> = Offer(items: seq<T>) | Begin | Succeed | Fail

  // ----- operations -----

  predicate Fits<T>(t: Tuning, queue: seq<T>, items: seq<T>) {
    |queue| + |items| <= t.maxQueueSize
  }

  /** How many more items the queue takes without dropping; an over-full queue takes none. */
  function Room<T>(t: Tuning, queue: seq<T>): nat {
    if |queue| < t.maxQueueSize then t.maxQueueSize - |queue| else 0
  }

  /** The queue after an offer. */
  function Kept<T>(t: Tuning, queue: seq<T>, items: seq<T>): seq<T> {
    if items == [] || t.maxQueueSize == 0 then queue
    else if Fits(t, queue, items) then queue + items
    else if t.policy.DropOldest? then (queue + items)[|queue| + |items| - t.maxQueueSize..]
    else queue + items[..Room(t, queue)]
  }

  /** What an offer drops. */
  function Lost<T>(t: Tuning, queue: seq<T>, items: seq<T>): seq<T> {
    if items == [] || t.maxQueueSize == 0 then items
    else if Fits(t, queue, items) then []
    else if t.policy.DropOldest? then (queue + items)[..|queue| + |items| - t.maxQueueSize]
    else items[Room(t, queue)..]
  }

  function Offered<T>(t: Tuning, p: Pipe<T>, items: seq<T>): Pipe<T> {
    p.(queue := Kept(t, p.queue, items), dropped := p.dropped + Lost(t, p.queue, items), offered := p.offered + items)
  }

  function BatchOf<T>(t: Tuning, queue: seq<T>): seq<T> {
    if |queue| <= t.batchSize then queue else queue[..t.batchSize]
  }

  function Begun<T>(t: Tuning, p: Pipe<T>): Pipe<T> {
    p.(inFlight := BatchOf(t, p.queue), queue := p.queue[|BatchOf(t, p.queue)|..])
  }

  function Succeeded<T>(p: Pipe<T>): Pipe<T> {
    p.(exported := p.exported + p.inFlight, inFlight := [])
  }

  function Failed<T>(p: Pipe<T>): Pipe<T> {
    p.(queue := p.inFlight + p.queue, inFlight := [])
  }

  /** One flush at a time: a batch begins only when none is in flight. */
  predicate Enabled<T>(p: Pipe<T>, e: Event<T>) {
    match e
    case Offer(_) => true
    case Begin => p.inFlight == [] && p.queue != []
    case _ => p.inFlight != []
  }

  /** One event; one that is not possible changes nothing. */
  function Step<T>(t: Tuning, p: Pipe<T>, e: Event<T>): Pipe<T> {
    if !Enabled(p, e) then p else
    match e
    case Offer(items) => Offered(t, p, items)
    case Begin => Begun(t, p)
    case Succeed => Succeeded(p)
    case Fail => Failed(p)
  }

  // ----- subsequences -----

  /** a is b with some elements left out. */
  ghost predicate Within<T>(a: seq<T>, b: seq<T>) {
    a == [] || (b != [] && ((a[0] == b[0] && Within(a[1..], b[1..])) || Within(a, b[1..])))
  }

  lemma {:induction false} WithinItself<T>(a: seq<T>)
    ensures Within(a, a)
  {
    if a != [] { WithinItself(a[1..]); }
  }

  lemma {:induction false} WithinTrans<T>(a: seq<T>, b: seq<T>, c: seq<T>)
    requires Within(a, b) && Within(b, c)
    ensures Within(a, c)
    decreases |b| + |c|
  {
    if a == [] {
    } else if b[0] == c[0] && Within(b[1..], c[1..]) {
      if a[0] == b[0] && Within(a[1..], b[1..]) {
        WithinTrans(a[1..], b[1..], c[1..]);
      } else {
        WithinTrans(a, b[1..], c[1..]);
      }
    } else {
      WithinTrans(a, b, c[1..]);
    }
  }

  lemma {:induction false} WithinJoins<T>(a: seq<T>, b: seq<T>, x: seq<T>, y: seq<T>)
    requires Within(a, b) && Within(x, y)
    ensures Within(a + x, b + y)
    decreases |b|, |y|
  {
    if b == [] {
      assert a + x == x && b + y == y;
    } else {
      assert (b + y)[0] == b[0] && (b + y)[1..] == b[1..] + y;
      if a != [] && a[0] == b[0] && Within(a[1..], b[1..]) {
        assert (a + x)[0] == a[0] && (a + x)[1..] == a[1..] + x;
        WithinJoins(a[1..], b[1..], x, y);
      } else {
        WithinJoins(a, b[1..], x, y);
      }
    }
  }

  /** Leaving out a piece. */
  lemma PieceWithin<T>(a: seq<T>, b: seq<T>, c: seq<T>)
    ensures Within(a + c, a + b + c)
  {
    assert Within([], b);
    WithinItself(a);
    WithinJoins(a, a, [], b);
    assert a + [] == a;
    WithinItself(c);
    WithinJoins(a, a + b, c, c);
  }

  // ----- invariants -----

  /** Everything not dropped, oldest first. */
  function Live<T>(p: Pipe<T>): seq<T> { p.exported + p.inFlight + p.queue }

  ghost predicate Conserved<T>(p: Pipe<T>) {
    multiset(p.offered) == multiset(p.exported) + multiset(p.dropped) + multiset(p.inFlight) + multiset(p.queue)
  }

  ghost predicate Ordered<T>(p: Pipe<T>) { Within(Live(p), p.offered) }

  predicate Bounded<T>(t: Tuning, p: Pipe<T>) {
    && |p.inFlight| <= t.batchSize
    && |p.queue| <= t.maxQueueSize + (if p.inFlight == [] then t.batchSize else 0)
    && (t.maxQueueSize == 0 ==> p.queue == [] && p.inFlight == [])
  }

  ghost predicate Inv<T>(t: Tuning, p: Pipe<T>) {
    Conserved(p) && Ordered(p) && Bounded(t, p)
  }

  /** Kept and lost items are exactly the queue and the offer. */
  lemma OfferSplits<T>(t: Tuning, queue: seq<T>, items: seq<T>)
    ensures multiset(Kept(t, queue, items)) + multiset(Lost(t, queue, items)) == multiset(queue) + multiset(items)
  {
    var all := queue + items;
    assert multiset(all) == multiset(queue) + multiset(items);
    if items == [] || t.maxQueueSize == 0 || Fits(t, queue, items) {
    } else if t.policy.DropOldest? {
      var k := |queue| + |items| - t.maxQueueSize;
      assert all == all[..k] + all[k..];
      assert multiset(all) == multiset(all[..k]) + multiset(all[k..]);
    } else {
      var r := Room(t, queue);
      assert items == items[..r] + items[r..];
      assert multiset(items) == multiset(items[..r]) + multiset(items[r..]);
    }
  }

  /** What an offer keeps is the queue and the offer with one piece left out. */
  lemma OfferKeepsOrder<T>(t: Tuning, before: seq<T>, queue: seq<T>, items: seq<T>)
    ensures Within(before + Kept(t, queue, items), before + queue + items)
  {
    var all := queue + items;
    assert before + queue + items == before + all;
    if items == [] || t.maxQueueSize == 0 {
      SuffixLeftOut(before + queue, items);
    } else if Fits(t, queue, items) {
      WithinItself(before + all);
    } else if t.policy.DropOldest? {
      var k := |all| - t.maxQueueSize;
      PieceWithin(before, all[..k], all[k..]);
      assert before + all[..k] + all[k..] == before + all;
    } else {
      NewestLeftOut(before, queue, items, Room(t, queue));
    }
  }

  lemma SuffixLeftOut<T>(a: seq<T>, b: seq<T>)
    ensures Within(a, a + b)
  {
    PieceWithin(a, b, []);
    assert a + b + [] == a + b && a + [] == a;
  }

  lemma NewestLeftOut<T>(before: seq<T>, queue: seq<T>, items: seq<T>, r: nat)
    requires r <= |items|
    ensures Within(before + (queue + items[..r]), before + queue + items)
  {
    SuffixLeftOut(before + (queue + items[..r]), items[r..]);
    assert before + (queue + items[..r]) + items[r..] == before + queue + items;
  }

  lemma OfferConserves<T>(t: Tuning, p: Pipe<T>, items: seq<T>)
    requires Conserved(p)
    ensures Conserved(Offered(t, p, items))
  {
    OfferSplits(t, p.queue, items);
    var kept, lost := Kept(t, p.queue, items), Lost(t, p.queue, items);
    assert multiset(p.offered + items) == multiset(p.offered) + multiset(items);
    assert multiset(p.dropped + lost) == multiset(p.dropped) + multiset(lost);
    Rearrange(multiset(p.exported), multiset(p.dropped), multiset(p.inFlight),
              multiset(p.queue), multiset(items), multiset(kept), multiset(lost));
  }

  lemma Rearrange<T>(e: multiset<T>, d: multiset<T>, f: multiset<T>, q: multiset<T>, i: multiset<T>,
                     kept: multiset<T>, lost: multiset<T>)
    requires kept + lost == q + i
    ensures e + d + f + q + i == e + (d + lost) + f + kept
  {
    assert e + (d + lost) + f + kept == e + d + f + (kept + lost);
  }

  lemma OfferKeeps<T>(t: Tuning, p: Pipe<T>, items: seq<T>)
    requires Inv(t, p)
    ensures Inv(t, Offered(t, p, items))
  {
    var q := Offered(t, p, items);
    OfferConserves(t, p, items);
    OfferKeepsOrder(t, p.exported + p.inFlight, p.queue, items);
    WithinItself(items);
    WithinJoins(Live(p), p.offered, items, items);
    WithinTrans(Live(q), Live(p) + items, q.offered);
  }

  /**
   * What an offer leaves. While everything fits nothing is dropped. On overflow
   * exactly as much is dropped as does not fit: under drop-oldest from the front
   * of the queue and the offer together, so that the queue is full of the newest;
   * under drop-newest from the end of the offer, so that the queue, filled up,
   * keeps all it had. A queue of size 0 drops every offer.
   */
  lemma OfferLeaves<T>(t: Tuning, p: Pipe<T>, items: seq<T>)
    ensures var q, all, max := Offered(t, p, items), p.queue + items, t.maxQueueSize;
      && q.offered == p.offered + items && q.inFlight == p.inFlight && q.exported == p.exported
      && (items == [] || (0 < max && |all| <= max) ==> q.queue == all && q.dropped == p.dropped)
      && (max == 0 ==> q.queue == p.queue && q.dropped == p.dropped + items)
      && (items != [] && 0 < max < |all| ==>
            if t.policy.DropOldest? then
              |q.queue| == max && exists lost :: all == lost + q.queue && q.dropped == p.dropped + lost
            else
              && |q.queue| == (if |p.queue| < max then max else |p.queue|)
              && exists lost :: all == q.queue + lost && q.dropped == p.dropped + lost)
  {
    var q, all, max := Offered(t, p, items), p.queue + items, t.maxQueueSize;
    var lost := Lost(t, p.queue, items);
    if items == [] {
      assert p.dropped + [] == p.dropped && p.queue + [] == p.queue;
    } else if 0 < max && |all| <= max {
      assert p.dropped + [] == p.dropped;
    } else if 0 < max && t.policy.DropOldest? {
      assert all == lost + q.queue;
    } else if 0 < max {
      assert all == q.queue + lost;
    }
  }

  /** A batch is the front of the queue, as long as a batch may be. */
  lemma BeginTakes<T>(t: Tuning, p: Pipe<T>)
    ensures var q := Begun(t, p);
      && p.queue == q.inFlight + q.queue && q.exported == p.exported && q.dropped == p.dropped
      && |q.inFlight| == (if |p.queue| < t.batchSize then |p.queue| else t.batchSize)
  {
  }

  lemma BeginKeeps<T>(t: Tuning, p: Pipe<T>)
    requires Inv(t, p) && t.batchSize >= 1 && Enabled(p, Begin)
    ensures Inv(t, Begun(t, p)) && 1 <= |Begun(t, p).inFlight| <= t.batchSize && Live(Begun(t, p)) == Live(p)
  {
    var q := Begun(t, p);
    assert p.queue == q.inFlight + q.queue;
    assert Live(q) == Live(p);
  }

  lemma SettleKeeps<T>(t: Tuning, p: Pipe<T>)
    requires Inv(t, p) && p.inFlight != []
    ensures Inv(t, Succeeded(p)) && Live(Succeeded(p)) == Live(p)
    ensures Inv(t, Failed(p)) && Live(Failed(p)) == Live(p)
  {
    assert Live(Succeeded(p)) == Live(p);
    assert Live(Failed(p)) == Live(p);
  }

  function Fresh<T>(): Pipe<T> { Pipe([], [], [], [], []) }

  lemma FreshKeeps<T>(t: Tuning)
    ensures Inv(t, Fresh<T>())
  {
    assert Within<T>([], []);
  }

  ghost function After<T>(t: Tuning, p: Pipe<T>, events: seq<Event<T>>): Pipe<T>
    decreases |events|
  {
    if events == [] then p else After(t, Step(t, p, events[0]), events[1..])
  }

  lemma StepKeeps<T>(t: Tuning, p: Pipe<T>, e: Event<T>)
    requires Inv(t, p) && t.batchSize >= 1
    ensures Inv(t, Step(t, p, e))
  {
    if !Enabled(p, e) { return; }
    match e
    case Offer(items) => OfferKeeps(t, p, items);
    case Begin => BeginKeeps(t, p);
    case _ => SettleKeeps(t, p);
  }

  /**
   * In every run, with producers offering between any two steps of the flusher:
   * offered items are exported, dropped, in flight or queued and nothing else;
   * what is not dropped is in the order it was offered; the queue is bounded.
   */
  lemma {:induction false} EveryRun<T>(t: Tuning, p: Pipe<T>, events: seq<Event<T>>)
    requires Inv(t, p) && t.batchSize >= 1
    ensures Inv(t, After(t, p, events))
    decreases |events|
  {
    if events != [] {
      StepKeeps(t, p, events[0]);
      EveryRun(t, Step(t, p, events[0]), events[1..]);
    }
  }

  /** Under drop-newest, an item once accepted stays until it is exported, in its place. */
  lemma {:induction false} AcceptedItemsStay<T>(t: Tuning, p: Pipe<T>, events: seq<Event<T>>)
    requires t.policy.DropNewest? && t.batchSize >= 1
    ensures Live(p) <= Live(After(t, p, events))
    decreases |events|
  {
    if events != [] {
      var q := Step(t, p, events[0]);
      if Enabled(p, events[0]) {
        match events[0] {
          case Offer(items) => assert Live(p) <= Live(q);
          case Begin =>
            assert p.queue == q.inFlight + q.queue;
            assert Live(p) == Live(q);
          case _ => assert Live(p) == Live(q);
        }
      }
      AcceptedItemsStay(t, q, events[1..]);
    }
  }

  /** Under drop-oldest, the newest offered items, as many as the bound, are never dropped by the offer. */
  lemma NewestItemsEnter<T>(t: Tuning, p: Pipe<T>, items: seq<T>)
    requires t.policy.DropOldest? && t.maxQueueSize > 0 && items != []
    ensures var q := Offered(t, p, items).queue;
      var n := if |items| <= t.maxQueueSize then |items| else t.maxQueueSize;
      |q| >= n && q[|q| - n..] == items[|items| - n..]
  {
  }

  /** Distinct offers are exported, dropped or waiting in exactly one place, once. */
  lemma NothingTwice<T>(p: Pipe<T>)
    requires Conserved(p) && NoDuplicates(p.offered)
    ensures NoDuplicates(p.exported) && NoDuplicates(p.dropped) && NoDuplicates(p.inFlight + p.queue)
    ensures forall x :: x in p.exported ==> x !in p.dropped && x !in p.inFlight + p.queue
    ensures forall x :: x in p.dropped ==> x !in p.inFlight + p.queue
    ensures forall x :: x in p.offered <==> x in p.exported || x in p.dropped || x in p.inFlight + p.queue
  {
    DistinctCounts(p.offered);
    var waiting := p.inFlight + p.queue;
    assert multiset(waiting) == multiset(p.inFlight) + multiset(p.queue);
    forall x ensures multiset(p.exported)[x] + multiset(p.dropped)[x] + multiset(waiting)[x] == multiset(p.offered)[x] <= 1 {
      assert multiset(p.offered)[x] ==
        (multiset(p.exported) + multiset(p.dropped) + multiset(p.inFlight) + multiset(p.queue))[x];
    }
    CountsDistinct(p.exported);
    CountsDistinct(p.dropped);
    CountsDistinct(waiting);
    forall x ensures x in p.offered <==> x in p.exported || x in p.dropped || x in waiting {
      assert x in p.offered <==> multiset(p.offered)[x] > 0;
      assert x in p.exported <==> multiset(p.exported)[x] > 0;
      assert x in p.dropped <==> multiset(p.dropped)[x] > 0;
      assert x in waiting <==> multiset(waiting)[x] > 0;
    }
    forall x | x in p.exported ensures x !in p.dropped && x !in waiting {
      assert multiset(p.exported)[x] > 0;
    }
    forall x | x in p.dropped ensures x !in waiting {
      assert multiset(p.dropped)[x] > 0;
    }
  }

  lemma {:induction false} DistinctCounts<T>(s: seq<T>)
    requires NoDuplicates(s)
    ensures forall x :: multiset(s)[x] <= 1
  {
    if s != [] {
      DistinctCounts(s[1..]);
      assert s == [s[0]] + s[1..];
      assert s[0] !in s[1..];
      assert multiset(s) == multiset{s[0]} + multiset(s[1..]);
      assert multiset(s[1..])[s[0]] == 0;
    }
  }

  lemma CountsDistinct<T>(s: seq<T>)
    requires forall x :: multiset(s)[x] <= 1
    ensures NoDuplicates(s)
  {
    forall i, j | 0 <= i < j < |s| ensures s[i] != s[j] {
      if s[i] == s[j] {
        CountsTwice(s, i, j);
      }
    }
  }

  lemma CountsTwice<T>(s: seq<T>, i: nat, j: nat)
    requires i < j < |s| && s[i] == s[j]
    ensures multiset(s)[s[i]] >= 2
  {
    assert s == s[..j] + s[j..];
    assert s[..j][i] == s[i] && s[j..][0] == s[j];
    assert multiset(s[..j])[s[i]] >= 1 && multiset(s[j..])[s[i]] >= 1;
  }

  // ----- a flush -----

  /** What happens around one batch: is the deadline over, what arrives while it is exported, how it ends. */
  datatype Round<T> = Round(late: bool, arrivals: seq<seq<T>>, ok: bool, attempts: nat)

  function Arrived<T>(t: Tuning, p: Pipe<T>, arrivals: seq<seq<T>>): Pipe<T>
    decreases |arrivals|
  {
    if arrivals == [] then p else Arrived(t, Offered(t, p, arrivals[0]), arrivals[1..])
  }

  lemma {:induction false} ArrivalsKeep<T>(t: Tuning, p: Pipe<T>, arrivals: seq<seq<T>>)
    requires Inv(t, p)
    ensures Inv(t, Arrived(t, p, arrivals))
    ensures Arrived(t, p, arrivals).inFlight == p.inFlight && Arrived(t, p, arrivals).exported == p.exported
    decreases |arrivals|
  {
    if arrivals != [] {
      OfferKeeps(t, p, arrivals[0]);
      ArrivalsKeep(t, Offered(t, p, arrivals[0]), arrivals[1..]);
    }
  }

  /** A flush stops at an empty queue, at the deadline, or after the first batch that fails. */
  function Flushed<T>(t: Tuning, p: Pipe<T>, rounds: seq<Round<T>>): Pipe<T>
    decreases |rounds|
  {
    if p.queue == [] || rounds == [] || rounds[0].late then p
    else
      var q := Arrived(t, Begun(t, p), rounds[0].arrivals);
      if rounds[0].ok then Flushed(t, Succeeded(q), rounds[1..]) else Failed(q)
  }

  /** The attempts made for the batches of these rounds. */
  function TotalAttempts<T>(rounds: seq<Round<T>>): nat {
    if rounds == [] then 0 else TotalAttempts(rounds[..|rounds| - 1]) + rounds[|rounds| - 1].attempts
  }

  /** A flush keeps the invariant, leaves no batch in flight, and only adds to what is exported. */
  lemma {:induction false} FlushKeeps<T>(t: Tuning, p: Pipe<T>, rounds: seq<Round<T>>)
    requires Inv(t, p) && t.batchSize >= 1 && p.inFlight == []
    ensures var q := Flushed(t, p, rounds); Inv(t, q) && q.inFlight == [] && p.exported <= q.exported
    decreases |rounds|
  {
    if p.queue != [] && rounds != [] && !rounds[0].late {
      BeginKeeps(t, p);
      ArrivalsKeep(t, Begun(t, p), rounds[0].arrivals);
      var q := Arrived(t, Begun(t, p), rounds[0].arrivals);
      SettleKeeps(t, q);
      if rounds[0].ok {
        FlushKeeps(t, Succeeded(q), rounds[1..]);
      }
    }
  }

  /** With nothing arriving, no deadline and no failure, enough rounds export the whole queue in order. */
  lemma {:induction false} QuietFlushDrains<T>(t: Tuning, p: Pipe<T>, rounds: seq<Round<T>>)
    requires t.batchSize >= 1 && p.inFlight == [] && |p.queue| <= |rounds| * t.batchSize
    requires forall i :: 0 <= i < |rounds| ==> !rounds[i].late && rounds[i].ok && rounds[i].arrivals == []
    ensures Flushed(t, p, rounds).queue == [] && Flushed(t, p, rounds).exported == p.exported + p.queue
    decreases |rounds|
  {
    if p.queue != [] {
      var b := Begun(t, p);
      assert p.queue == b.inFlight + b.queue;
      OneMoreTimes(|rounds| - 1, t.batchSize);
      QuietFlushDrains(t, Succeeded(b), rounds[1..]);
      assert p.exported + b.inFlight + b.queue == p.exported + p.queue;
    }
  }
}
