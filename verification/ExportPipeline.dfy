/** The export pipeline: a queue changed in place, its flush loop, and the retry loop around one batch. */
module ExportPipelines {
  import opened Prelude
  import opened ExportSpec
  import opened SlotMask

  function AtLeast(low: int, x: int): int { if x < low then low else x }

  // ----- retries -----

  datatype Result<V, E> = Ok(value: V) | Err(error: E)

  datatype Retried<V, E> = Exported(value: V, attempts: nat) | GaveUp(error: E)

  datatype RetryTuning = RetryTuning(attempts: Option<real>, initialDelayMs: Option<real>, maxDelayMs: Option<real>, jitterRatio: Option<real>)

  function Max(x: real, y: real): real { if x < y then y else x }

  function Min(x: real, y: real): real { if x < y then x else y }

  function Attempts(t: RetryTuning): nat { AtLeast(1, Or(t.attempts, 1.0).Floor) }

  function InitialDelay(t: RetryTuning): real { Max(0.0, Or(t.initialDelayMs, 100.0)) }

  function MaxDelay(t: RetryTuning): real { Max(InitialDelay(t), Or(t.maxDelayMs, 2000.0)) }

  function Jitter(t: RetryTuning): real { Max(0.0, Min(1.0, Or(t.jitterRatio, 0.2))) }

  /** The delay after an attempt, before jitter. */
  function Base(t: RetryTuning, attempt: nat): real
    requires attempt >= 1
  {
    Min(MaxDelay(t), InitialDelay(t) * Pow2(attempt - 1) as real)
  }

  function ToWhole(x: real): real { (x + 0.5).Floor as real }

  function JitteredDelay(t: RetryTuning, attempt: nat, random: real): real
    requires attempt >= 1
  {
    Jittered(Base(t, attempt), Jitter(t), random)
  }

  function Jittered(base: real, ratio: real, random: real): real {
    if base <= 0.0 || ratio <= 0.0 then base
    else
      Max(0.0, ToWhole(Shifted(base, base * ratio, random)))
  }

  function Shifted(base: real, spread: real, random: real): real { base - spread + random * spread * 2.0 }

  lemma ShiftedInRange(base: real, spread: real, random: real, ratio: real)
    requires 0.0 <= base && 0.0 <= ratio <= 1.0 && 0.0 <= random < 1.0 && spread == base * ratio
    ensures 0.0 <= base - spread <= Shifted(base, spread, random) <= base + spread
  {
    ProductInRange(base, ratio);
    ProductInRange(spread, random);
    DoubleInRange(base, spread, random, spread * random);
  }

  lemma DoubleInRange(base: real, spread: real, random: real, x: real)
    requires x == random * spread && 0.0 <= x <= spread
    ensures base - spread <= Shifted(base, spread, random) <= base + spread
  {
  }

  lemma JitteredIsClose(base: real, ratio: real, random: real)
    requires 0.0 <= base && 0.0 <= ratio <= 1.0 && 0.0 <= random < 1.0
    ensures var delay := Jittered(base, ratio, random);
      0.0 <= delay && base - base * ratio - 0.5 <= delay <= base + base * ratio + 0.5
  {
    hide Shifted;
    ShiftedInRange(base, base * ratio, random, ratio);
  }

  /** Delays start at the initial one and double up to the maximum. */
  lemma DelaysDouble(t: RetryTuning, attempt: nat)
    requires attempt >= 1
    ensures Base(t, 1) == InitialDelay(t) && 0.0 <= Base(t, attempt) <= MaxDelay(t)
    ensures Base(t, attempt + 1) == Min(MaxDelay(t), 2.0 * Base(t, attempt))
  {
    var initial, p := InitialDelay(t), Pow2(attempt - 1) as real;
    ProductInRange(initial, p);
    assert Pow2(attempt) == 2 * Pow2(attempt - 1);
    assert initial * (2.0 * p) == 2.0 * (initial * p);
  }

  /** Jitter moves a delay by at most its ratio, up to rounding to a whole millisecond. */
  lemma JitterIsBounded(t: RetryTuning, attempt: nat, random: real)
    requires attempt >= 1 && 0.0 <= random < 1.0
    ensures var base, delay := Base(t, attempt), JitteredDelay(t, attempt, random);
      0.0 <= delay && base - base * Jitter(t) - 0.5 <= delay <= base + base * Jitter(t) + 0.5
  {
    DelaysDouble(t, attempt);
    JitteredIsClose(Base(t, attempt), Jitter(t), random);
  }

  /** The delay is the base where there is nothing to jitter; otherwise, up to rounding, it moves with the random number from
      the base less its spread up to the base and its spread. */
  predicate FollowsRandom(delay: real, base: real, spread: real, random: real) {
    if spread == 0.0 then delay == base else IsRounded(delay, base - spread + random * spread * 2.0)
  }

  lemma JitterFollowsRandom(t: RetryTuning, attempt: nat, random: real)
    requires attempt >= 1 && 0.0 <= random < 1.0
    ensures FollowsRandom(JitteredDelay(t, attempt, random), Base(t, attempt), Base(t, attempt) * Jitter(t), random)
  {
    hide FollowsRandom, Base, Jittered;
    DelaysDouble(t, attempt);
    JitteredFollows(Base(t, attempt), Jitter(t), random, Base(t, attempt) * Jitter(t));
  }

  lemma JitteredFollows(base: real, ratio: real, random: real, spread: real)
    requires 0.0 <= base && 0.0 <= ratio <= 1.0 && 0.0 <= random < 1.0 && spread == base * ratio
    ensures FollowsRandom(Jittered(base, ratio, random), base, spread, random)
  {
    hide IsRounded, ToWhole, Max, Shifted, FollowsRandom;
    ShiftedInRange(base, spread, random, ratio);
    RoundedShift(base, spread, random);
    NoSpread(base, ratio, random);
  }

  lemma NoSpread(base: real, ratio: real, random: real)
    requires 0.0 <= base && 0.0 <= ratio
    ensures base == 0.0 || ratio == 0.0 <==> base * ratio == 0.0
    ensures base * ratio == 0.0 ==> FollowsRandom(base, base, base * ratio, random)
  {
  }

  lemma RoundedShift(base: real, spread: real, random: real)
    requires Shifted(base, spread, random) >= 0.0
    ensures spread != 0.0 ==> FollowsRandom(Max(0.0, ToWhole(Shifted(base, spread, random))), base, spread, random)
  {
    hide ToWhole, Max;
    WholeIsNear(Shifted(base, spread, random));
  }

  /** delay is the whole number nearest to x, the upper one of two. */
  predicate IsRounded(delay: real, x: real) {
    delay.Floor as real == delay && delay - 0.5 <= x < delay + 0.5
  }

  lemma WholeIsNear(x: real)
    requires x >= 0.0
    ensures IsRounded(Max(0.0, ToWhole(x)), x)
  {
  }

  /** The settings of the retry loop: one attempt, 100 ms, 2 s and a ratio of 0.2 unless configured, each kept in bounds. */
  lemma RetrySettings(t: RetryTuning)
    ensures t.attempts.None? ==> Attempts(t) == 1
    ensures t.attempts.Some? ==> Attempts(t) >= 1 && (t.attempts.value >= 1.0 ==>
              Attempts(t) as real <= t.attempts.value < Attempts(t) as real + 1.0)
    ensures t.attempts.Some? && t.attempts.value < 1.0 ==> Attempts(t) == 1
    ensures t.initialDelayMs.None? ==> InitialDelay(t) == 100.0
    ensures t.initialDelayMs.Some? ==> InitialDelay(t) == if t.initialDelayMs.value < 0.0 then 0.0 else t.initialDelayMs.value
    ensures MaxDelay(t) >= InitialDelay(t) >= 0.0
    ensures t.maxDelayMs.None? ==> MaxDelay(t) == if InitialDelay(t) > 2000.0 then InitialDelay(t) else 2000.0
    ensures t.maxDelayMs.Some? && t.maxDelayMs.value >= InitialDelay(t) ==> MaxDelay(t) == t.maxDelayMs.value
    ensures t.maxDelayMs.Some? && t.maxDelayMs.value < InitialDelay(t) ==> MaxDelay(t) == InitialDelay(t)
    ensures t.jitterRatio.None? ==> Jitter(t) == 0.2
    ensures t.jitterRatio.Some? && 0.0 <= t.jitterRatio.value <= 1.0 ==> Jitter(t) == t.jitterRatio.value
    ensures t.jitterRatio.Some? && t.jitterRatio.value < 0.0 ==> Jitter(t) == 0.0
    ensures t.jitterRatio.Some? && t.jitterRatio.value > 1.0 ==> Jitter(t) == 1.0
  {
  }

  lemma ProductInRange(x: real, y: real)
    requires x >= 0.0 && y >= 0.0
    ensures x * y >= 0.0 && y * x == x * y
    ensures y <= 1.0 ==> x * y <= x
  {
    if y <= 1.0 {
      assert x * (1.0 - y) >= 0.0;
    }
  }

  /**
   * Runs the operation until it succeeds or the attempts are used up, sleeping
   * between attempts; operation(n) is what the n-th attempt does.
   */
  method ExportWithRetry<V, E>(t: RetryTuning, operation: nat -> Result<V, E>, random: nat -> real)
    returns (result: Retried<V, E>, slept: seq<real>)
    ensures result.Exported? ==>
      && 1 <= result.attempts <= Attempts(t) && operation(result.attempts) == Ok(result.value)
      && (forall n :: 1 <= n < result.attempts ==> operation(n).Err?)
      && |slept| == result.attempts - 1
    ensures result.GaveUp? ==>
      && operation(Attempts(t)) == Err(result.error)
      && (forall n :: 1 <= n <= Attempts(t) ==> operation(n).Err?)
      && |slept| == Attempts(t) - 1
    ensures forall i :: 0 <= i < |slept| ==> slept[i] == JitteredDelay(t, i + 1, random(i + 1))
  {
    var attempts := Attempts(t);
    slept := [];
    var attempt := 1;
    while true
      invariant 1 <= attempt <= attempts && |slept| == attempt - 1
      invariant forall n :: 1 <= n < attempt ==> operation(n).Err?
      invariant forall i :: 0 <= i < |slept| ==> slept[i] == JitteredDelay(t, i + 1, random(i + 1))
      decreases attempts - attempt
    {
      match operation(attempt) {
        case Ok(value) => return Exported(value, attempt), slept;
        case Err(error) =>
          if attempt >= attempts { return GaveUp(error), slept; }
          slept := slept + [JitteredDelay(t, attempt, random(attempt))];
      }
      attempt := attempt + 1;
    }
  }

  /** The first attempt from n up to the limit that succeeds; 0 when none does. */
  function FirstOk<V, E>(operation: nat -> Result<V, E>, n: nat, limit: nat): nat
    decreases limit + 1 - n
  {
    if n > limit then 0 else if operation(n).Ok? then n else FirstOk(operation, n + 1, limit)
  }

  lemma {:induction false} FirstOkIs<V, E>(operation: nat -> Result<V, E>, n: nat, k: nat, limit: nat)
    requires n <= k <= limit + 1 && forall i :: n <= i < k ==> operation(i).Err?
    ensures k <= limit && operation(k).Ok? && k >= 1 ==> FirstOk(operation, n, limit) == k
    ensures k == limit + 1 ==> FirstOk(operation, n, limit) == 0
    decreases k - n
  {
    if n < k {
      FirstOkIs(operation, n + 1, k, limit);
    }
  }

  // ----- the pipeline -----

  /** What a flush meets around one batch: is the deadline over, what arrives while it is exported, and what each attempt
      to export it does. */
  datatype Plan<T> = Plan(late: bool, arrivals: seq<seq<T>>, operation: nat -> Result<Response, string>, random: nat -> real)

  datatype Response = Response(status: Option<int>, body: Option<string>)

  /** The batch is exported iff one of the attempts succeeds, by the first one that does. */
  function RoundOf<T>(t: RetryTuning, plan: Plan<T>): Round<T> {
    var n := FirstOk(plan.operation, 1, Attempts(t));
    Round(plan.late, plan.arrivals, n > 0, n)
  }

  function RoundsOf<T>(t: RetryTuning, plans: seq<Plan<T>>): seq<Round<T>> {
    seq(|plans|, i requires 0 <= i < |plans| => RoundOf(t, plans[i]))
  }

  datatype FlushResult = FlushResult(exported: nat, dropped: nat, failed: nat, batchCount: nat,
                                     attempts: nat, queueSize: nat, last: Option<Response>, errors: seq<string>)

  class ExportPipeline<T> {
    const tuning: Tuning
    const retry: RetryTuning
    var queue: seq<T>
    var droppedTotal: nat
    ghost var inFlight: seq<T>
    ghost var exported: seq<T>
    ghost var dropped: seq<T>      // what onDrop was given
    ghost var offered: seq<T>

    ghost predicate Valid()
      reads this
    {
      tuning.batchSize >= 1 && droppedTotal == |dropped|
    }

    ghost function Model(): Pipe<T>
      reads this
    {
      Pipe(queue, inFlight, exported, dropped, offered)
    }

    constructor (batchSize: Option<real>, maxQueueSize: Option<real>, policy: Option<Policy>, retry: RetryTuning)
      ensures Valid() && Model() == Fresh() && this.retry == retry
      ensures tuning.batchSize == if batchSize.None? then 512 else AtLeast(1, batchSize.value.Floor)
      ensures tuning.maxQueueSize == if maxQueueSize.None? then 10000 else AtLeast(0, maxQueueSize.value.Floor)
      ensures tuning.policy == if policy.None? then DropOldest else policy.value
    {
      tuning := Tuning(
        AtLeast(1, if batchSize.None? then 512 else batchSize.value.Floor),
        AtLeast(0, if maxQueueSize.None? then 10000 else maxQueueSize.value.Floor),
        if policy.None? then DropOldest else policy.value);
      this.retry := retry;
      queue, droppedTotal := [], 0;
      inFlight, exported, dropped, offered := [], [], [], [];
    }

    method DropItems(items: seq<T>)
      requires Valid()
      modifies this`droppedTotal, this`dropped
      ensures Valid() && dropped == old(dropped) + items
    {
      if |items| == 0 { return; }
      droppedTotal := droppedTotal + |items|;
      dropped := dropped + items;
    }

    /** Offers items; says how many of them were accepted, and what onDrop is given. */
    method Enqueue(items: seq<T>) returns (accepted: nat, lost: seq<T>)
      requires Valid()
      modifies this
      ensures Valid() && Model() == Offered(tuning, old(Model()), items)
      ensures lost == Lost(tuning, old(queue), items) && dropped == old(dropped) + lost
      ensures tuning.policy.DropNewest? ==> accepted == |queue| - |old(queue)|
      ensures tuning.policy.DropOldest? ==> accepted == if |items| <= tuning.maxQueueSize then |items| else tuning.maxQueueSize
    {
      offered := offered + items;
      if |items| == 0 || tuning.maxQueueSize == 0 {
        DropItems(items);
        return 0, items;
      }
      var incoming := items;
      var available: int := tuning.maxQueueSize - |queue|;
      if |incoming| <= available {
        queue := queue + incoming;
        assert dropped == old(dropped) + [];
        return |incoming|, [];
      }
      if tuning.policy.DropNewest? {
        var kept := incoming[..AtLeast(0, available)];
        queue := queue + kept;
        lost := incoming[|kept|..];
        DropItems(lost);
        return |kept|, lost;
      }
      var dropCount := |queue| + |incoming| - tuning.maxQueueSize;
      var n := if dropCount <= |queue| then dropCount else |queue|;
      lost := queue[..n];
      queue := queue[n..];
      var remainingDrop := dropCount - |lost|;
      if remainingDrop > 0 {
        lost := lost + incoming[..remainingDrop];
        incoming := incoming[remainingDrop..];
      }
      SplitsAcross(old(queue), items, dropCount);
      queue := queue + incoming;
      DropItems(lost);
      return |incoming|, lost;
    }

    /** queue.splice(0, batchSize) */
    method TakeBatch() returns (batch: seq<T>)
      requires Valid() && inFlight == [] && queue != []
      modifies this`queue, this`inFlight
      ensures Model() == Begun(tuning, old(Model())) && batch == inFlight
    {
      var n := if |queue| <= tuning.batchSize then |queue| else tuning.batchSize;
      batch := queue[..n];
      queue := queue[n..];
      inFlight := batch;
    }

    /** The batch was exported. */
    method OnExported(ghost batch: seq<T>)
      requires Valid() && batch == inFlight
      modifies this`inFlight, this`exported
      ensures Valid() && Model() == Succeeded(old(Model()))
    {
      exported := exported + batch;
      inFlight := [];
    }

    /** queue = [...batch, ...queue] */
    method PutBack(batch: seq<T>)
      requires Valid() && batch == inFlight
      modifies this`inFlight, this`queue
      ensures Valid() && Model() == Failed(old(Model()))
    {
      queue := batch + queue;
      inFlight := [];
    }

    method EnqueueAll(arrivals: seq<seq<T>>)
      requires Valid()
      modifies this
      ensures Valid() && Model() == Arrived(tuning, old(Model()), arrivals)
    {
      var i := 0;
      while i < |arrivals|
        invariant Valid() && 0 <= i <= |arrivals|
        invariant Arrived(tuning, old(Model()), arrivals) == Arrived(tuning, Model(), arrivals[i..])
      {
        assert arrivals[i..][0] == arrivals[i] && arrivals[i..][1..] == arrivals[i + 1..];
        var _, _ := Enqueue(arrivals[i]);
        i := i + 1;
      }
    }

    /** One turn of the flush loop: take a batch, export it with retries while items arrive, and settle it. */
    method FlushBatch(plan: Plan<T>) returns (n: nat, outcome: Retried<Response, string>)
      requires Valid() && inFlight == [] && queue != []
      modifies this
      ensures Valid() && inFlight == []
      ensures n == if |old(queue)| <= tuning.batchSize then |old(queue)| else tuning.batchSize
      ensures var round := RoundOf(retry, plan);
        && (outcome.Exported? <==> round.ok) && (outcome.Exported? ==> outcome.attempts == round.attempts)
        && var q := Arrived(tuning, Begun(tuning, old(Model())), plan.arrivals);
        Model() == if round.ok then Succeeded(q) else Failed(q)
      ensures exported == old(exported) + (if outcome.Exported? then old(queue)[..n] else [])
      ensures outcome.Exported? ==> plan.operation(outcome.attempts) == Ok(outcome.value)
      ensures outcome.GaveUp? ==> n <= |queue| && plan.operation(Attempts(retry)) == Err(outcome.error)
    {
      ArrivedFields(tuning, Begun(tuning, Model()), plan.arrivals);
      var batch := TakeBatch();
      EnqueueAll(plan.arrivals);
      n := |batch|;
      var slept: seq<real>;
      outcome, slept := ExportWithRetry(retry, plan.operation, plan.random);
      FirstOkIs(plan.operation, 1, if outcome.Exported? then outcome.attempts else Attempts(retry) + 1, Attempts(retry));
      if outcome.Exported? {
        OnExported(batch);
      } else {
        PutBack(batch);
      }
    }

    /** What the last exported batch was answered. */
    ghost predicate LastOf(plans: seq<Plan<T>>, n: nat, last: Option<Response>) {
      if n == 0 then last.None?
      else n <= |plans| && last.Some? && plans[n - 1].operation(RoundOf(retry, plans[n - 1]).attempts) == Ok(last.value)
    }

    /**
     * The flush loop up to the last of the given plans; a plan says what the
     * surroundings do while one batch is exported.
     */
    method Flush(plans: seq<Plan<T>>) returns (result: FlushResult)
      requires Valid() && inFlight == []
      modifies this
      ensures Valid() && Model() == Flushed(tuning, old(Model()), RoundsOf(retry, plans))
      ensures |exported| == |old(exported)| + result.exported
      ensures result.dropped == |dropped| && result.queueSize == |queue|
      ensures |result.errors| == (if result.failed > 0 then 1 else 0) && result.failed <= tuning.batchSize
      ensures result.failed <= result.queueSize
      ensures result.batchCount <= |plans| && result.attempts == TotalAttempts(RoundsOf(retry, plans)[..result.batchCount])
      ensures result.failed == 0 && result.batchCount < |plans| && queue != [] ==> plans[result.batchCount].late
      ensures result.failed > 0 ==>
        && result.batchCount < |plans|
        && plans[result.batchCount].operation(Attempts(retry)) == Err(result.errors[0])
      ensures LastOf(plans, result.batchCount, result.last)
    {
      var shipped: nat, failed: nat, batchCount: nat, attempts: nat := 0, 0, 0, 0;
      var errors: seq<string>, last: Option<Response> := [], None;
      ghost var rounds := RoundsOf(retry, plans);
      while |queue| > 0 && batchCount < |plans|
        invariant Valid() && inFlight == [] && batchCount <= |plans| && failed == 0 && errors == []
        invariant Flushed(tuning, old(Model()), rounds) == Flushed(tuning, Model(), rounds[batchCount..])
        invariant |exported| == |old(exported)| + shipped && attempts == TotalAttempts(rounds[..batchCount])
        invariant LastOf(plans, batchCount, last)
        decreases |plans| - batchCount
      {
        var plan := plans[batchCount];
        assert rounds[batchCount] == RoundOf(retry, plan);
        assert rounds[batchCount..][0] == rounds[batchCount] && rounds[batchCount..][1..] == rounds[batchCount + 1..];
        assert rounds[..batchCount + 1][..batchCount] == rounds[..batchCount];
        if plan.late { break; }
        var n, outcome := FlushBatch(plan);
        match outcome {
          case Exported(value, tries) =>
            shipped := shipped + n;
            batchCount := batchCount + 1;
            attempts := attempts + tries;
            last := Some(value);
          case GaveUp(error) =>
            failed := failed + n;
            errors := errors + [error];
            break;
        }
      }
      result := FlushResult(shipped, droppedTotal, failed, batchCount, attempts, |queue|, last, errors);
    }
  }

  lemma SplitsAcross<T>(a: seq<T>, b: seq<T>, k: nat)
    requires k <= |a| + |b|
    ensures k <= |a| ==> (a + b)[..k] == a[..k] && (a + b)[k..] == a[k..] + b
    ensures k > |a| ==> (a + b)[..k] == a + b[..k - |a|] && (a + b)[k..] == b[k - |a|..]
  {
  }

  lemma {:induction false} ArrivedFields<T>(t: Tuning, p: Pipe<T>, arrivals: seq<seq<T>>)
    ensures Arrived(t, p, arrivals).inFlight == p.inFlight && Arrived(t, p, arrivals).exported == p.exported
    decreases |arrivals|
  {
    if arrivals != [] {
      ArrivedFields(t, Offered(t, p, arrivals[0]), arrivals[1..]);
    }
  }
}
