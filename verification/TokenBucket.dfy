/**
 The lazily refilled token bucket of the rate limiter: its arithmetic, the eager bucket it stands
 for, and the optimistic transaction that many clients run on the one Redis hash.
 Tokens and costs are real numbers, as policies may be fractional; times are whole milliseconds.
 */
module TokenBucket {
  import opened Wrappers

  const MAX_OPTIMISTIC_RETRIES: nat := 5

  datatype Policy = Policy(capacity: real, refillTokens: real, refillIntervalMs: int) {
    /** What the policy validator accepts. */
    predicate Valid() {
      capacity > 0.0 && refillTokens >= 0.0 && refillIntervalMs > 0
    }
  }

  datatype Bucket = Bucket(tokens: real, lastRefillAt: int)

  datatype Result = Result(allowed: bool, remaining: real, retryAfterMs: Option<int>)

  function Min(a: real, b: real): real {
    if a <= b then a else b
  }

  function Product(a: real, b: real): real {
    a * b
  }

  /** k refills of x tokens each. */
  function Times(k: int, x: real): real {
    k as real * x
  }

  lemma ProductOrder(a: real, b: real, y: real)
    requires y > 0.0
    ensures a <= b ==> Product(a, y) <= Product(b, y)
    ensures a < b ==> Product(a, y) < Product(b, y)
  {
    assert Product(b, y) - Product(a, y) == (b - a) * y;
  }

  lemma ProductNext(a: real, y: real)
    ensures Product(a + 1.0, y) == Product(a, y) + y
  {
  }

  lemma QuotientTimes(x: real, y: real)
    requires y > 0.0
    ensures Product(x / y, y) == x
  {
  }

  lemma NegativeTimes(k: int, lo: real, y: real)
    requires lo == -(k as real)
    ensures Times(k, y) == -Product(lo, y)
  {
  }

  lemma TimesMono(a: int, b: int, x: real)
    requires a <= b && x >= 0.0
    ensures Times(a, x) <= Times(b, x)
  {
  }

  lemma TimesStep(k: int, x: real)
    ensures Times(k + 1, x) == Times(k, x) + x
  {
  }

  /** Math.ceil of a quotient. */
  function CeilDiv(x: real, y: real): (k: int)
    requires y > 0.0
    ensures Times(k, y) - y < x <= Times(k, y)
  {
    var q := -x / y;
    QuotientTimes(-x, y);
    ProductOrder(q.Floor as real, q, y);
    ProductOrder(q, q.Floor as real + 1.0, y);
    ProductNext(q.Floor as real, y);
    NegativeTimes(-q.Floor, q.Floor as real, y);
    -q.Floor
  }

  // ---- the arithmetic ----------------------------------------------------------------------------

  function Refill(p: Policy, b: Bucket, now: int): Bucket
    requires p.Valid()
  {
    var elapsed := now - b.lastRefillAt;
    if elapsed > 0 then
      var intervals := elapsed / p.refillIntervalMs;
      if intervals > 0 then
        Bucket(Min(p.capacity, b.tokens + Times(intervals, p.refillTokens)),
               b.lastRefillAt + intervals * p.refillIntervalMs)
      else b
    else b
  }

  function Fresh(p: Policy, now: int): Bucket {
    Bucket(p.capacity, now)
  }

  /** The bucket a call at `now` finds: an absent key is a full bucket created now. */
  function Found(p: Policy, stored: Option<Bucket>, now: int): Bucket
    requires p.Valid()
  {
    Refill(p, stored.GetOr(Fresh(p, now)), now)
  }

  function Charge(b: Bucket, cost: real): Bucket {
    if b.tokens >= cost then b.(tokens := b.tokens - cost) else b
  }

  function RetryAfterMs(p: Policy, currentTokens: real, cost: real): int
    requires p.Valid()
  {
    if p.refillTokens <= 0.0 then p.refillIntervalMs
    else CeilDiv(cost - currentTokens, p.refillTokens) * p.refillIntervalMs
  }

  function Answer(p: Policy, found: Bucket, cost: real): Result
    requires p.Valid()
  {
    if found.tokens >= cost then Result(true, found.tokens - cost, None)
    else Result(false, found.tokens, Some(RetryAfterMs(p, found.tokens, cost)))
  }

  function IdleTtlMs(p: Policy): int
    requires p.Valid()
  {
    if p.refillTokens <= 0.0 then p.refillIntervalMs * 2
    else
      var toFull := CeilDiv(p.capacity, p.refillTokens) * p.refillIntervalMs * 2;
      if toFull > p.refillIntervalMs * 2 then toFull else p.refillIntervalMs * 2
  }

  // ---- what Refill means -------------------------------------------------------------------------

  lemma ProductAtLeast(k: int, d: int)
    requires k >= 1 && d > 0
    ensures k * d >= d
  {
    assert (k - 1) * d >= 0;
  }

  lemma ProductsInOrder(j: int, k: int, d: int)
    requires j <= k && d > 0
    ensures j * d <= k * d
  {
    assert (k - j) * d >= 0;
  }

  lemma QuotientsAgree(d: int, q: int, r: int, q': int, r': int)
    requires d > 0 && q * d + r == q' * d + r' && 0 <= r < d && 0 <= r' < d
    ensures q == q'
  {
    if q > q' {
      ProductAtLeast(q - q', d);
    } else if q < q' {
      ProductAtLeast(q' - q, d);
    }
  }

  lemma DivUnique(x: int, d: int, q: int, r: int)
    requires d > 0 && x == q * d + r && 0 <= r < d
    ensures x / d == q
  {
    var q', r' := x / d, x % d;
    assert x == q' * d + r';
    QuotientsAgree(d, q, r, q', r');
  }

  lemma DivStep(x: int, k: int, d: int)
    requires d > 0
    ensures (x + k * d) / d == x / d + k
  {
    var q, r := x / d, x % d;
    assert x == q * d + r;
    assert (q + k) * d == q * d + k * d;
    DivUnique(x + k * d, d, q + k, r);
  }

  lemma DivMono(x: int, y: int, d: int)
    requires d > 0 && x <= y
    ensures x / d <= y / d
  {
    var q, r, q', r' := x / d, x % d, y / d, y % d;
    assert x == q * d + r && y == q' * d + r';
    if q > q' {
      ProductAtLeast(q - q', d);
    }
  }

  /** A time at least n whole intervals past a boundary lies in interval n or later; a time short of
      n intervals lies before interval n. */
  lemma IntervalOf(elapsed: int, n: int, d: int)
    requires d > 0
    ensures elapsed >= n * d ==> elapsed / d >= n
    ensures elapsed < n * d ==> elapsed / d < n
  {
    DivUnique(n * d, d, n, 0);
    if elapsed >= n * d {
      DivMono(n * d, elapsed, d);
    } else {
      assert n * d - 1 == (n - 1) * d + (d - 1);
      DivUnique(n * d - 1, d, n - 1, d - 1);
      DivMono(elapsed, n * d - 1, d);
    }
  }

  /** After a refill at `now` the next boundary is still ahead. */
  lemma RefillCatchesUp(p: Policy, b: Bucket, now: int)
    requires p.Valid() && b.lastRefillAt <= now
    ensures var b' := Refill(p, b, now);
            b.lastRefillAt <= b'.lastRefillAt <= now < b'.lastRefillAt + p.refillIntervalMs
    ensures 0.0 <= b.tokens <= p.capacity ==> 0.0 <= Refill(p, b, now).tokens <= p.capacity
  {
    var k := (now - b.lastRefillAt) / p.refillIntervalMs;
    assert now - b.lastRefillAt == k * p.refillIntervalMs + (now - b.lastRefillAt) % p.refillIntervalMs;
    if k > 0 {
      TimesMono(0, k, p.refillTokens);
    }
  }

  /** One firing of the eager bucket's timer. */
  function Fire(p: Policy, b: Bucket): Bucket {
    Bucket(Min(p.capacity, b.tokens + p.refillTokens), b.lastRefillAt + p.refillIntervalMs)
  }

  /** The eager bucket at `now`: its timer has fired at every interval boundary up to `now`. */
  function FireUntil(p: Policy, b: Bucket, now: int): Bucket
    requires p.Valid()
    decreases now - b.lastRefillAt
  {
    if b.lastRefillAt + p.refillIntervalMs <= now then FireUntil(p, Fire(p, b), now) else b
  }

  lemma {:induction false} LazyIsEager(p: Policy, b: Bucket, now: int)
    requires p.Valid()
    ensures Refill(p, b, now) == FireUntil(p, b, now)
    decreases now - b.lastRefillAt
  {
    var e := now - b.lastRefillAt;
    if b.lastRefillAt + p.refillIntervalMs <= now {
      var b1 := Fire(p, b);
      LazyIsEager(p, b1, now);
      DivStep(e - p.refillIntervalMs, 1, p.refillIntervalMs);
      DivMono(0, e - p.refillIntervalMs, p.refillIntervalMs);
      var k := e / p.refillIntervalMs;
      assert k >= 1;
      TimesStep(k - 1, p.refillTokens);
      TimesMono(0, k - 1, p.refillTokens);
    } else if e > 0 {
      DivUnique(e, p.refillIntervalMs, 0, e);
    }
  }

  datatype Request = Request(now: int, cost: real)

  ghost predicate InOrder(reqs: seq<Request>, from: int) {
    forall i :: 0 <= i < |reqs| ==> from <= reqs[i].now && (i > 0 ==> reqs[i - 1].now <= reqs[i].now)
  }

  /** The answers of a stored bucket that is refilled lazily, call by call. */
  function LazyAnswers(p: Policy, stored: Option<Bucket>, reqs: seq<Request>): seq<Result>
    requires p.Valid()
    decreases |reqs|
  {
    if reqs == [] then []
    else
      var found := Found(p, stored, reqs[0].now);
      [Answer(p, found, reqs[0].cost)] + LazyAnswers(p, Some(Charge(found, reqs[0].cost)), reqs[1..])
  }

  /** The answers of a bucket created full at its first call and refilled by a timer from then on. */
  function EagerAnswers(p: Policy, b: Bucket, reqs: seq<Request>): seq<Result>
    requires p.Valid()
    decreases |reqs|
  {
    if reqs == [] then []
    else
      var found := FireUntil(p, b, reqs[0].now);
      [Answer(p, found, reqs[0].cost)] + EagerAnswers(p, Charge(found, reqs[0].cost), reqs[1..])
  }

  /** The lazy bucket gives the eager bucket's answers and remainders, for every call sequence. */
  lemma {:induction false} LazyRefinesEager(p: Policy, b: Bucket, reqs: seq<Request>)
    requires p.Valid()
    ensures LazyAnswers(p, Some(b), reqs) == EagerAnswers(p, b, reqs)
    decreases |reqs|
  {
    if reqs != [] {
      LazyIsEager(p, b, reqs[0].now);
      LazyRefinesEager(p, Charge(Refill(p, b, reqs[0].now), reqs[0].cost), reqs[1..]);
    }
  }

  lemma LazyRefinesEagerFromCreation(p: Policy, reqs: seq<Request>)
    requires p.Valid() && reqs != []
    ensures LazyAnswers(p, None, reqs) == EagerAnswers(p, Fresh(p, reqs[0].now), reqs)
  {
    LazyRefinesEager(p, Fresh(p, reqs[0].now), reqs);
  }

  // ---- retry hints -------------------------------------------------------------------------------

  /** Tokens after any number of idle intervals. */
  lemma IdleRefill(p: Policy, b: Bucket, later: int, k: int)
    requires p.Valid() && 0.0 <= b.tokens <= p.capacity && b.lastRefillAt <= later
    requires k == (later - b.lastRefillAt) / p.refillIntervalMs
    ensures Refill(p, b, later).tokens == Min(p.capacity, b.tokens + Times(k, p.refillTokens))
  {
    DivMono(0, later - b.lastRefillAt, p.refillIntervalMs);
  }

  lemma DeficitCovered(deficit: real, r: real, n: int, k: int)
    requires r > 0.0 && Times(n, r) - r < deficit <= Times(n, r)
    ensures k >= n <==> Times(k, r) >= deficit
  {
    if k >= n {
      TimesMono(n, k, r);
    } else {
      TimesMono(k, n - 1, r);
      TimesStep(n - 1, r);
    }
  }

  /** When an idle bucket affords a cost: after k whole intervals, if k refills cover the deficit. */
  lemma AffordsAfter(p: Policy, b: Bucket, later: int, cost: real, n: int)
    requires p.Valid() && p.refillTokens > 0.0
    requires 0.0 <= b.tokens < cost <= p.capacity && b.lastRefillAt <= later
    requires n == CeilDiv(cost - b.tokens, p.refillTokens)
    ensures Refill(p, b, later).tokens >= cost <==> (later - b.lastRefillAt) / p.refillIntervalMs >= n
  {
    var k := (later - b.lastRefillAt) / p.refillIntervalMs;
    IdleRefill(p, b, later, k);
    DeficitCovered(cost - b.tokens, p.refillTokens, n, k);
  }

  /** A refused call that waits `retryAfterMs` or longer, with no other traffic, is admitted; waiting
      at least one whole refill interval less, it is refused again. */
  lemma RetryHintIsSufficientAndTight(p: Policy, found: Bucket, now: int, cost: real, later: int)
    requires p.Valid() && p.refillTokens > 0.0
    requires 0.0 <= found.tokens < cost <= p.capacity
    requires found.lastRefillAt <= now < found.lastRefillAt + p.refillIntervalMs
    requires now <= later
    ensures var wait := RetryAfterMs(p, found.tokens, cost);
            && Answer(p, found, cost).retryAfterMs == Some(wait)
            && (later >= now + wait ==> Refill(p, found, later).tokens >= cost)
            && (later <= now + wait - p.refillIntervalMs ==> Refill(p, found, later).tokens < cost)
  {
    var n := CeilDiv(cost - found.tokens, p.refillTokens);
    AffordsAfter(p, found, later, cost, n);
    IntervalOf(later - found.lastRefillAt, n, p.refillIntervalMs);
  }

  /** The TTL is twice the time a refill from empty takes. */
  lemma IdleTtlIsTwiceAFullRefill(p: Policy) returns (full: int)
    requires p.Valid() && p.refillTokens > 0.0
    ensures full >= 1 && Times(full, p.refillTokens) >= p.capacity
    ensures full == CeilDiv(p.capacity, p.refillTokens)
    ensures IdleTtlMs(p) == 2 * (full * p.refillIntervalMs) && full * p.refillIntervalMs >= p.refillIntervalMs
  {
    full := CeilDiv(p.capacity, p.refillTokens);
    DeficitCovered(p.capacity, p.refillTokens, full, 0);
    ProductAtLeast(full, p.refillIntervalMs);
  }

  /** The hint never outlasts the key: an idle bucket is still stored when it falls due. */
  lemma RetryHintFallsDueBeforeExpiry(p: Policy, tokens: real, cost: real)
    requires p.Valid() && p.refillTokens > 0.0 && 0.0 <= tokens < cost <= p.capacity
    ensures 0 < RetryAfterMs(p, tokens, cost) <= IdleTtlMs(p) / 2
  {
    var n := CeilDiv(cost - tokens, p.refillTokens);
    var full := IdleTtlIsTwiceAFullRefill(p);
    DeficitCovered(cost - tokens, p.refillTokens, n, 0);
    DeficitCovered(cost - tokens, p.refillTokens, n, full);
    ProductAtLeast(n, p.refillIntervalMs);
    ProductsInOrder(n, full, p.refillIntervalMs);
  }

  /** What a call is told that finds this bucket, and what it leaves: it is admitted if and only if the
      tokens cover the cost, and then takes exactly that; otherwise it takes nothing and is told to wait the
      fewest whole intervals whose refills cover what is missing. */
  ghost predicate Says(p: Policy, found: Bucket, cost: real, r: Result, left: Bucket) {
    && left.lastRefillAt == found.lastRefillAt && r.remaining == left.tokens && (r.allowed <==> found.tokens >= cost)
    && if found.tokens >= cost then left.tokens == found.tokens - cost && r.retryAfterMs.None?
       else left.tokens == found.tokens && r.retryAfterMs.Some? && Waits(p, cost - found.tokens, r.retryAfterMs.value)
  }

  ghost predicate Waits(p: Policy, missing: real, wait: int) {
    if p.refillTokens <= 0.0 then wait == p.refillIntervalMs
    else exists k: int :: Times(k, p.refillTokens) - p.refillTokens < missing <= Times(k, p.refillTokens) && wait == k * p.refillIntervalMs
  }

  lemma AnswerSays(p: Policy, found: Bucket, cost: real)
    requires p.Valid()
    ensures Says(p, found, cost, Answer(p, found, cost), Charge(found, cost))
  {
    if found.tokens < cost && p.refillTokens > 0.0 {
      var k := CeilDiv(cost - found.tokens, p.refillTokens);
      assert Times(k, p.refillTokens) - p.refillTokens < cost - found.tokens <= Times(k, p.refillTokens);
    }
  }

  // ---- expiry ------------------------------------------------------------------------------------

  /** A bucket idle for its TTL would have refilled completely: expiry forgets no debt. */
  lemma FullAfterIdleTtl(p: Policy, b: Bucket, clock: int, later: int)
    requires p.Valid() && p.refillTokens > 0.0 && 0.0 <= b.tokens <= p.capacity
    requires b.lastRefillAt <= clock && later >= clock + IdleTtlMs(p)
    ensures Refill(p, b, later).tokens == p.capacity
  {
    var full := IdleTtlIsTwiceAFullRefill(p);
    var k := (later - b.lastRefillAt) / p.refillIntervalMs;
    IntervalOf(later - b.lastRefillAt, full, p.refillIntervalMs);
    assert k >= full;
    TimesMono(full, k, p.refillTokens);
    IdleRefill(p, b, later, k);
  }

  ghost predicate AdmitsAll(p: Policy, b: Bucket, reqs: seq<Request>)
    requires p.Valid()
    decreases |reqs|
  {
    reqs == [] ||
    (var found := Refill(p, b, reqs[0].now);
     found.tokens >= reqs[0].cost && AdmitsAll(p, Charge(found, reqs[0].cost), reqs[1..]))
  }

  /** From `from` on, `a` never admits a request sequence that `b` would not admit. */
  ghost predicate NoMoreGenerous(p: Policy, a: Bucket, b: Bucket, from: int)
    requires p.Valid()
  {
    forall reqs :: InOrder(reqs, from) && AdmitsAll(p, a, reqs) ==> AdmitsAll(p, b, reqs)
  }

  /** The two requests that tell a recreated bucket from the old one when their refill boundaries
      differ: the whole capacity just after the old bucket's boundary, then what one refill gives at
      the new bucket's boundary. */
  function TellTale(p: Policy, kept: Bucket, now: int): seq<Request> {
    [Request(kept.lastRefillAt + p.refillIntervalMs, p.capacity),
     Request(now + p.refillIntervalMs, Min(p.capacity, p.refillTokens))]
  }

  lemma FreshAdmitsTellTale(p: Policy, kept: Bucket, now: int)
    requires p.Valid() && p.refillTokens > 0.0
    requires kept.lastRefillAt < now < kept.lastRefillAt + p.refillIntervalMs
    ensures InOrder(TellTale(p, kept, now), now) && AdmitsAll(p, Fresh(p, now), TellTale(p, kept, now))
  {
    var reqs, b := TellTale(p, kept, now), Fresh(p, now);
    DivUnique(reqs[0].now - now, p.refillIntervalMs, 0, reqs[0].now - now);
    var b1 := Charge(b, p.capacity);
    assert Refill(p, b, reqs[0].now) == b && b1 == Bucket(0.0, now);
    DivUnique(p.refillIntervalMs, p.refillIntervalMs, 1, 0);
    assert Refill(p, b1, reqs[1].now).tokens == Min(p.capacity, p.refillTokens);
    assert reqs[1..] == [reqs[1]] && reqs[1..][1..] == [];
    assert AdmitsAll(p, b1, reqs[1..]);
  }

  lemma OldRefusesTellTale(p: Policy, kept: Bucket, now: int)
    requires p.Valid() && p.refillTokens > 0.0 && kept.tokens == p.capacity
    requires kept.lastRefillAt < now < kept.lastRefillAt + p.refillIntervalMs
    ensures !AdmitsAll(p, kept, TellTale(p, kept, now))
  {
    var reqs := TellTale(p, kept, now);
    DivUnique(p.refillIntervalMs, p.refillIntervalMs, 1, 0);
    assert Refill(p, kept, reqs[0].now) == Bucket(p.capacity, reqs[0].now);
    var b1 := Bucket(0.0, reqs[0].now);
    assert Charge(Bucket(p.capacity, reqs[0].now), p.capacity) == b1;
    DivUnique(reqs[1].now - reqs[0].now, p.refillIntervalMs, 0, reqs[1].now - reqs[0].now);
    assert Refill(p, b1, reqs[1].now) == b1;
    assert reqs[1..] == [reqs[1]];
    assert !AdmitsAll(p, b1, reqs[1..]);
  }

  /** Exactly when expiry is invisible: a bucket recreated at `now`, at least the idle TTL after its
      last use, is no more generous than the bucket that expired if and only if `now` lies on the old
      bucket's refill grid. Off the grid the recreated bucket's boundaries are shifted and some request
      sequence is admitted that the old bucket would have refused. */
  lemma ExpiryIsInvisibleExactlyOnTheGrid(p: Policy, b: Bucket, clock: int, now: int)
    requires p.Valid() && p.refillTokens > 0.0 && 0.0 <= b.tokens <= p.capacity
    requires b.lastRefillAt <= clock && now >= clock + IdleTtlMs(p)
    ensures NoMoreGenerous(p, Fresh(p, now), Refill(p, b, now), now)
            <==> (now - b.lastRefillAt) % p.refillIntervalMs == 0
  {
    FullAfterIdleTtl(p, b, clock, now);
    RefillCatchesUp(p, b, now);
    var kept := Refill(p, b, now);
    var k := (now - b.lastRefillAt) / p.refillIntervalMs;
    assert kept.lastRefillAt == b.lastRefillAt + k * p.refillIntervalMs;
    assert now - kept.lastRefillAt == (now - b.lastRefillAt) % p.refillIntervalMs;
    if kept.lastRefillAt < now {
      FreshAdmitsTellTale(p, kept, now);
      OldRefusesTellTale(p, kept, now);
    }
  }

  // ---- the shared key ----------------------------------------------------------------------------

  type ClientId = nat

  /** One committed call: the clock it read, the instant of its EXEC, its cost and its answer. */
  datatype Commit = Commit(clock: int, at: int, cost: real, result: Result)

  /** `version` counts the writes and expiries of the key; `log` is the history of commits. */
  datatype Store = Store(now: int, bucket: Option<Bucket>, expiresAt: int, version: nat, log: seq<Commit>)

  datatype Pc =
    | Idle
    | Watch(cost: real, attempt: nat)
    | Read(cost: real, attempt: nat, v: nat)
    | ReadClock(cost: real, attempt: nat, v: nat, read: Option<Bucket>)
    | Exec(cost: real, attempt: nat, v: nat, read: Option<Bucket>, clock: int)
    | Returned(result: Result)

  function PcAfter(p: Policy, st: Store, pc: Pc): Pc
    requires p.Valid()
  {
    match pc
    case Idle => Idle
    case Returned(_) => pc
    case Watch(cost, n) =>
      if n < MAX_OPTIMISTIC_RETRIES then Read(cost, n, st.version)
      else Returned(Result(false, 0.0, Some(p.refillIntervalMs)))
    case Read(cost, n, v) => ReadClock(cost, n, v, st.bucket)
    case ReadClock(cost, n, v, read) => Exec(cost, n, v, read, st.now)
    case Exec(cost, n, v, read, clock) =>
      if v != st.version then Watch(cost, n + 1) else Returned(Answer(p, Found(p, read, clock), cost))
  }

  function StoreAfter(p: Policy, st: Store, pc: Pc): Store
    requires p.Valid()
  {
    match pc
    case Exec(cost, n, v, read, clock) =>
      if v != st.version then st
      else
        var found := Found(p, read, clock);
        st.(bucket := Some(Charge(found, cost)), expiresAt := st.now + IdleTtlMs(p), version := st.version + 1,
            log := st.log + [Commit(clock, st.now, cost, Answer(p, found, cost))])
    case _ => st
  }

  datatype Machine = Machine(store: Store, calls: map<ClientId, Pc>)

  function PcOf(m: Machine, c: ClientId): Pc {
    if c in m.calls then m.calls[c] else Idle
  }

  datatype Action =
    | Tick(ms: nat)
    | Expire
    | Start(c: ClientId, cost: real)
    | Step(c: ClientId)
    | Crash(c: ClientId)
  {
    predicate By(me: ClientId) {
      (Start? || Step? || Crash?) && c == me
    }
  }

  /** One step of the system; an action that is not enabled changes nothing. The limiter in front
      refuses costs that are not positive. */
  function Next(p: Policy, m: Machine, a: Action): Machine
    requires p.Valid()
  {
    match a
    case Tick(ms) => m.(store := m.store.(now := m.store.now + ms))
    case Expire =>
      if m.store.bucket.Some? && m.store.now >= m.store.expiresAt
      then m.(store := m.store.(bucket := None, version := m.store.version + 1)) else m
    case Start(c, cost) =>
      if (PcOf(m, c).Idle? || PcOf(m, c).Returned?) && cost > 0.0
      then m.(calls := m.calls[c := Watch(cost, 0)]) else m
    case Step(c) =>
      var pc := PcOf(m, c);
      Machine(StoreAfter(p, m.store, pc), m.calls[c := PcAfter(p, m.store, pc)])
    case Crash(c) => m.(calls := m.calls[c := Idle])
  }

  ghost predicate Init(m: Machine) {
    m.store.bucket.None? && m.store.log == [] && m.calls == map[]
  }

  function Last(log: seq<Commit>): Commit
    requires log != []
  {
    log[|log| - 1]
  }

  /** Each call read the clock no later than its own commit and no earlier than any commit before it. */
  ghost predicate Ordered(log: seq<Commit>) {
    && (forall i :: 0 <= i < |log| ==> log[i].clock <= log[i].at)
    && (forall i, j :: 0 <= i < j < |log| ==> log[i].at <= log[j].clock)
  }

  /** The log is ordered, and the bucket is the one the last commit left, or it has
      expired no sooner than the idle TTL after that commit's clock reading. */
  ghost predicate StoreInv(p: Policy, st: Store)
    requires p.Valid()
  {
    && Ordered(st.log) && (st.log != [] ==> Last(st.log).at <= st.now)
    && (st.bucket.Some? ==>
          && st.log != [] && st.expiresAt >= Last(st.log).clock + IdleTtlMs(p)
          && 0.0 <= st.bucket.value.tokens <= p.capacity
          && st.bucket.value.lastRefillAt <= Last(st.log).clock < st.bucket.value.lastRefillAt + p.refillIntervalMs)
    && (st.bucket.None? && st.log != [] ==> st.now >= Last(st.log).clock + IdleTtlMs(p))
  }

  /** A client whose watched version is current holds the current bucket, and its clock reading came
      after the last commit and, if the key was gone, after the key's expiry. */
  ghost predicate PcInv(p: Policy, st: Store, pc: Pc)
    requires p.Valid()
  {
    match pc
    case Watch(cost, _) => cost > 0.0
    case Read(cost, _, v) => cost > 0.0 && v <= st.version
    case ReadClock(cost, _, v, read) => cost > 0.0 && v <= st.version && (v == st.version ==> read == st.bucket)
    case Exec(cost, _, v, read, clock) =>
      && cost > 0.0 && v <= st.version && clock <= st.now
      && (v == st.version ==>
            && read == st.bucket
            && (st.log != [] ==> clock >= Last(st.log).at)
            && (st.log != [] && read.None? ==> clock >= Last(st.log).clock + IdleTtlMs(p)))
    case _ => true
  }

  ghost predicate Inv(p: Policy, m: Machine)
    requires p.Valid()
  {
    StoreInv(p, m.store) && forall c | c in m.calls :: PcInv(p, m.store, m.calls[c])
  }

  lemma FoundIsSound(p: Policy, stored: Option<Bucket>, now: int)
    requires p.Valid()
    requires stored.Some? ==> stored.value.lastRefillAt <= now && 0.0 <= stored.value.tokens <= p.capacity
    ensures var b := Found(p, stored, now);
            0.0 <= b.tokens <= p.capacity && b.lastRefillAt <= now < b.lastRefillAt + p.refillIntervalMs
  {
    RefillCatchesUp(p, stored.GetOr(Fresh(p, now)), now);
  }

  lemma AppendKeepsStoreInv(p: Policy, st: Store, b: Bucket, c: Commit)
    requires p.Valid() && StoreInv(p, st) && c.clock <= c.at == st.now && (st.log != [] ==> Last(st.log).at <= c.clock)
    requires 0.0 <= b.tokens <= p.capacity && b.lastRefillAt <= c.clock < b.lastRefillAt + p.refillIntervalMs
    ensures StoreInv(p, st.(bucket := Some(b), expiresAt := st.now + IdleTtlMs(p), version := st.version + 1, log := st.log + [c]))
  {
  }

  lemma StepKeeps(p: Policy, st: Store, pc: Pc)
    requires p.Valid() && StoreInv(p, st) && PcInv(p, st, pc)
    ensures StoreInv(p, StoreAfter(p, st, pc)) && PcInv(p, StoreAfter(p, st, pc), PcAfter(p, st, pc))
  {
    if pc.Exec? && pc.v == st.version {
      FoundIsSound(p, pc.read, pc.clock);
      var found := Found(p, pc.read, pc.clock);
      AppendKeepsStoreInv(p, st, Charge(found, pc.cost), Commit(pc.clock, st.now, pc.cost, Answer(p, found, pc.cost)));
    }
  }

  lemma NextKeepsInv(p: Policy, m: Machine, a: Action)
    requires p.Valid() && Inv(p, m)
    ensures Inv(p, Next(p, m, a))
  {
    if a.Step? {
      StepKeeps(p, m.store, PcOf(m, a.c));
    }
    var m' := Next(p, m, a);
    forall c | c in m'.calls ensures PcInv(p, m'.store, m'.calls[c]) {
      if c in m.calls && m'.calls[c] == m.calls[c] {
        assert PcInv(p, m.store, m.calls[c]);
      }
    }
  }

  // ---- runs --------------------------------------------------------------------------------------

  /** A run's actions, latest last. */
  datatype Trace = Begin | Then(before: Trace, last: Action)

  function Play(p: Policy, m: Machine, t: Trace): Machine
    requires p.Valid()
  {
    match t
    case Begin => m
    case Then(before, a) => Next(p, Play(p, m, before), a)
  }

  lemma {:induction false} RunKeepsInv(p: Policy, m: Machine, t: Trace)
    requires p.Valid() && Init(m)
    ensures Inv(p, Play(p, m, t))
  {
    if t.Then? {
      RunKeepsInv(p, m, t.before);
      NextKeepsInv(p, Play(p, m, t.before), t.last);
    }
  }

  /** Optimistic retries are atomic: a call that returns from its EXEC has made the decision on the
      very bucket the key held at that instant, and a call whose EXEC aborts or whose retries run out
      has changed nothing. Clock readings are committed in nondecreasing order. */
  lemma CommitsAreAtomic(p: Policy, m: Machine, t: Trace, c: ClientId)
    requires p.Valid() && Init(m)
    ensures var before := Play(p, m, t);
            var after := Play(p, m, Then(t, Step(c)));
            var pc := PcOf(before, c);
            if pc.Exec? && PcOf(after, c).Returned? then
              var found := Found(p, before.store.bucket, pc.clock);
              && PcOf(after, c).result == Answer(p, found, pc.cost)
              && after.store.bucket == Some(Charge(found, pc.cost))
              && (before.store.log != [] ==> Last(before.store.log).at <= pc.clock)
            else after.store == before.store
  {
    RunKeepsInv(p, m, t);
    assert PcInv(p, Play(p, m, t).store, PcOf(Play(p, m, t), c));
  }

  // ---- concurrent runs are eager too -------------------------------------------------------------

  /** No step of the run takes the bucket away. */
  ghost predicate NeverExpires(p: Policy, m: Machine, t: Trace)
    requires p.Valid()
  {
    t.Then? ==>
      && NeverExpires(p, m, t.before)
      && (Play(p, m, t.before).store.bucket.Some? ==> Play(p, m, t).store.bucket.Some?)
  }

  ghost function Requests(log: seq<Commit>): seq<Request> {
    seq(|log|, i requires 0 <= i < |log| => Request(log[i].clock, log[i].cost))
  }

  ghost function Results(log: seq<Commit>): seq<Result> {
    seq(|log|, i requires 0 <= i < |log| => log[i].result)
  }

  /** The bucket left by serving `reqs` one after the other. */
  function LazyBucket(p: Policy, stored: Option<Bucket>, reqs: seq<Request>): Option<Bucket>
    requires p.Valid()
    decreases |reqs|
  {
    if reqs == [] then stored
    else LazyBucket(p, Some(Charge(Found(p, stored, reqs[0].now), reqs[0].cost)), reqs[1..])
  }

  lemma {:induction false} ServeOneMore(p: Policy, stored: Option<Bucket>, reqs: seq<Request>, r: Request)
    requires p.Valid()
    ensures var found := Found(p, LazyBucket(p, stored, reqs), r.now);
            && LazyAnswers(p, stored, reqs + [r]) == LazyAnswers(p, stored, reqs) + [Answer(p, found, r.cost)]
            && LazyBucket(p, stored, reqs + [r]) == Some(Charge(found, r.cost))
    decreases |reqs|
  {
    if reqs != [] {
      var next := Some(Charge(Found(p, stored, reqs[0].now), reqs[0].cost));
      assert (reqs + [r])[1..] == reqs[1..] + [r];
      ServeOneMore(p, next, reqs[1..], r);
    }
  }

  /** The stored bucket and the logged answers are those of serving the logged requests in order. */
  ghost predicate ServesInOrder(p: Policy, st: Store)
    requires p.Valid()
  {
    Results(st.log) == LazyAnswers(p, None, Requests(st.log)) && st.bucket == LazyBucket(p, None, Requests(st.log))
  }

  lemma CommitServesInOrder(p: Policy, st: Store, pc: Pc)
    requires p.Valid() && PcInv(p, st, pc) && ServesInOrder(p, st) && pc.Exec? && pc.v == st.version
    ensures ServesInOrder(p, StoreAfter(p, st, pc))
  {
    var r, log' := Request(pc.clock, pc.cost), StoreAfter(p, st, pc).log;
    ServeOneMore(p, None, Requests(st.log), r);
    assert Requests(log') == Requests(st.log) + [r];
    assert Results(log') == Results(st.log) + [Last(log').result];
  }

  lemma {:induction false} LogServesInOrder(p: Policy, m: Machine, t: Trace)
    requires p.Valid() && Init(m) && NeverExpires(p, m, t)
    ensures ServesInOrder(p, Play(p, m, t).store)
  {
    if t.Then? {
      LogServesInOrder(p, m, t.before);
      var before := Play(p, m, t.before);
      if t.last.Step? && PcOf(before, t.last.c).Exec? && PcOf(before, t.last.c).v == before.store.version {
        RunKeepsInv(p, m, t.before);
        CommitServesInOrder(p, before.store, PcOf(before, t.last.c));
      }
    }
  }

  /** Short of expiry, the answers committed by any number of racing clients are, in commit order, the
      answers of one eager bucket created full at the first commit, asked at nondecreasing times. */
  lemma ConcurrentRunsRefineEagerBucket(p: Policy, m: Machine, t: Trace)
    requires p.Valid() && Init(m) && NeverExpires(p, m, t) && Play(p, m, t).store.log != []
    ensures var log := Play(p, m, t).store.log;
            && InOrder(Requests(log), log[0].clock)
            && Results(log) == EagerAnswers(p, Fresh(p, log[0].clock), Requests(log))
  {
    var log := Play(p, m, t).store.log;
    LogServesInOrder(p, m, t);
    RunKeepsInv(p, m, t);
    LazyRefinesEagerFromCreation(p, Requests(log));
    var reqs := Requests(log);
    forall i | 0 <= i < |reqs| ensures log[0].clock <= reqs[i].now && (i > 0 ==> reqs[i - 1].now <= reqs[i].now) {
      assert log[0].clock <= log[0].at && (i > 0 ==> log[0].at <= log[i].clock);
      assert i > 0 ==> log[i - 1].clock <= log[i - 1].at <= log[i].clock;
    }
  }

  // ---- the admission bound -----------------------------------------------------------------------

  /** Total cost admitted by the commits whose clock reading lies in [from, to]. */
  function Admitted(log: seq<Commit>, from: int, to: int): real
    decreases |log|
  {
    if log == [] then 0.0
    else
      var c := Last(log);
      Admitted(log[..|log| - 1], from, to) + (if c.result.allowed && from <= c.clock <= to then c.cost else 0.0)
  }

  /** Refill boundaries a bucket last refilled at `last` can have crossed since `from`. */
  function Boundaries(p: Policy, last: int, from: int): int
    requires p.Valid()
  {
    (last - from + p.refillIntervalMs - 1) / p.refillIntervalMs
  }

  function Bound(p: Policy, from: int, to: int): real
    requires p.Valid()
  {
    p.capacity + Times((to - from) / p.refillIntervalMs + 1, p.refillTokens)
  }

  /** What is still in the bucket and what the window has admitted are paid for by one full bucket and
      the boundaries crossed since the window opened. */
  ghost predicate Paid(p: Policy, st: Store, from: int, to: int)
    requires p.Valid()
  {
    var spent := Admitted(st.log, from, to);
    if st.log == [] || Last(st.log).clock < from then spent == 0.0
    else if Last(st.log).clock > to then spent <= Bound(p, from, to)
    else if st.bucket.Some? then
      spent + st.bucket.value.tokens <= p.capacity + Times(Boundaries(p, st.bucket.value.lastRefillAt, from), p.refillTokens)
    else
      spent <= p.capacity + Times(Boundaries(p, Last(st.log).clock, from), p.refillTokens)
  }

  lemma TimesSum(j: int, k: int, x: real)
    ensures Times(j + k, x) == Times(j, x) + Times(k, x)
  {
  }

  lemma BoundariesMono(p: Policy, last: int, later: int, from: int)
    requires p.Valid() && last <= later
    ensures Boundaries(p, last, from) <= Boundaries(p, later, from)
    ensures Times(Boundaries(p, last, from), p.refillTokens) <= Times(Boundaries(p, later, from), p.refillTokens)
  {
    DivMono(last - from + p.refillIntervalMs - 1, later - from + p.refillIntervalMs - 1, p.refillIntervalMs);
    TimesMono(Boundaries(p, last, from), Boundaries(p, later, from), p.refillTokens);
  }

  lemma BoundariesAfter(p: Policy, last: int, k: int, from: int)
    requires p.Valid()
    ensures Boundaries(p, last + k * p.refillIntervalMs, from) == Boundaries(p, last, from) + k
    ensures Times(Boundaries(p, last + k * p.refillIntervalMs, from), p.refillTokens)
            == Times(Boundaries(p, last, from), p.refillTokens) + Times(k, p.refillTokens)
  {
    DivStep(last - from + p.refillIntervalMs - 1, k, p.refillIntervalMs);
    TimesSum(Boundaries(p, last, from), k, p.refillTokens);
  }

  /** Inside the window, the boundaries crossed stay within the bound. */
  lemma BoundariesWithinBound(p: Policy, last: int, from: int, to: int)
    requires p.Valid() && from - p.refillIntervalMs < last <= to && from <= to
    ensures 0.0 <= Times(Boundaries(p, last, from), p.refillTokens)
    ensures p.capacity + Times(Boundaries(p, last, from), p.refillTokens) <= Bound(p, from, to)
  {
    DivMono(0, last - from + p.refillIntervalMs - 1, p.refillIntervalMs);
    TimesMono(0, Boundaries(p, last, from), p.refillTokens);
    DivMono(last - from + p.refillIntervalMs - 1, to - from + p.refillIntervalMs, p.refillIntervalMs);
    DivStep(to - from, 1, p.refillIntervalMs);
    TimesMono(Boundaries(p, last, from), (to - from) / p.refillIntervalMs + 1, p.refillTokens);
  }

  lemma PaidWithinBound(p: Policy, st: Store, from: int, to: int)
    requires p.Valid() && StoreInv(p, st) && Paid(p, st, from, to) && from <= to
    ensures Admitted(st.log, from, to) <= Bound(p, from, to)
  {
    if st.log == [] || Last(st.log).clock < from {
      BoundariesWithinBound(p, from, from, to);
    } else if Last(st.log).clock <= to {
      BoundariesWithinBound(p, Last(st.log).clock, from, to);
      if st.bucket.Some? {
        BoundariesWithinBound(p, st.bucket.value.lastRefillAt, from, to);
      }
    }
  }

  /** What the bucket found by a commit inside the window adds is covered. */
  lemma FoundIsPaid(p: Policy, st: Store, clock: int, from: int, to: int)
    requires p.Valid() && p.refillTokens > 0.0 && StoreInv(p, st) && Paid(p, st, from, to)
    requires from <= clock <= to && (st.log != [] ==> Last(st.log).clock <= clock)
    requires st.log != [] && st.bucket.None? ==> clock >= Last(st.log).clock + IdleTtlMs(p)
    ensures var f := Found(p, st.bucket, clock);
            Admitted(st.log, from, to) + f.tokens <= p.capacity + Times(Boundaries(p, f.lastRefillAt, from), p.refillTokens)
  {
    var f := Found(p, st.bucket, clock);
    FoundIsSound(p, st.bucket, clock);
    if st.log == [] || Last(st.log).clock < from {
      BoundariesWithinBound(p, f.lastRefillAt, from, to);
    } else if st.bucket.Some? {
      var b := st.bucket.value;
      var k := (clock - b.lastRefillAt) / p.refillIntervalMs;
      DivMono(0, clock - b.lastRefillAt, p.refillIntervalMs);
      if k > 0 {
        BoundariesAfter(p, b.lastRefillAt, k, from);
      }
    } else {
      var seen := Last(st.log).clock;
      var full := IdleTtlIsTwiceAFullRefill(p);
      BoundariesAfter(p, seen, full, from);
      BoundariesMono(p, seen + full * p.refillIntervalMs, clock, from);
    }
  }

  lemma AdmittedOneMore(log: seq<Commit>, c: Commit, from: int, to: int)
    ensures Admitted(log + [c], from, to)
            == Admitted(log, from, to) + (if c.result.allowed && from <= c.clock <= to then c.cost else 0.0)
  {
    assert (log + [c])[..|log|] == log;
  }

  /** Charging a bucket moves tokens from the bucket to what is spent, or nothing. */
  lemma ChargeConserves(p: Policy, b: Bucket, cost: real)
    requires p.Valid()
    ensures Charge(b, cost).tokens + (if Answer(p, b, cost).allowed then cost else 0.0) == b.tokens
    ensures Charge(b, cost).lastRefillAt == b.lastRefillAt
  {
  }

  lemma CommitKeepsPaid(p: Policy, st: Store, pc: Pc, from: int, to: int)
    requires p.Valid() && p.refillTokens > 0.0 && StoreInv(p, st) && PcInv(p, st, pc) && Paid(p, st, from, to)
    requires pc.Exec? && pc.v == st.version && from <= to
    ensures Paid(p, StoreAfter(p, st, pc), from, to)
  {
    var found := Found(p, pc.read, pc.clock);
    var c := Commit(pc.clock, st.now, pc.cost, Answer(p, found, pc.cost));
    AdmittedOneMore(st.log, c, from, to);
    assert StoreAfter(p, st, pc).log == st.log + [c] && Last(st.log + [c]) == c;
    if pc.clock > to {
      PaidWithinBound(p, st, from, to);
    } else if pc.clock >= from {
      FoundIsPaid(p, st, pc.clock, from, to);
      ChargeConserves(p, found, pc.cost);
    }
  }

  lemma {:induction false} RunKeepsPaid(p: Policy, m: Machine, t: Trace, from: int, to: int)
    requires p.Valid() && p.refillTokens > 0.0 && Init(m) && from <= to
    ensures Paid(p, Play(p, m, t).store, from, to)
  {
    if t.Then? {
      var before, a := Play(p, m, t.before), t.last;
      RunKeepsPaid(p, m, t.before, from, to);
      RunKeepsInv(p, m, t.before);
      var st := before.store;
      if a.Step? && PcOf(before, a.c).Exec? && PcOf(before, a.c).v == st.version {
        CommitKeepsPaid(p, st, PcOf(before, a.c), from, to);
      } else if a.Expire? && st.bucket.Some? {
        BoundariesMono(p, st.bucket.value.lastRefillAt, Last(st.log).clock, from);
      }
    }
  }

  /** In every run, with aborted transactions, crashes and key expiry, the total cost admitted by
      calls that read the clock inside a window of length W is at most the capacity plus
      floor(W / interval) + 1 refills. */
  lemma AdmissionBound(p: Policy, m: Machine, t: Trace, from: int, to: int)
    requires p.Valid() && p.refillTokens > 0.0 && Init(m) && from <= to
    ensures Admitted(Play(p, m, t).store.log, from, to)
            <= p.capacity + Times((to - from) / p.refillIntervalMs + 1, p.refillTokens)
  {
    RunKeepsInv(p, m, t);
    RunKeepsPaid(p, m, t, from, to);
    PaidWithinBound(p, Play(p, m, t).store, from, to);
  }

  // ---- the bound at the instants of the commits --------------------------------------------------

  /** Total cost admitted by the commits made in [from, to]. */
  function AdmittedAt(log: seq<Commit>, from: int, to: int): real
    decreases |log|
  {
    if log == [] then 0.0
    else
      var c := Last(log);
      AdmittedAt(log[..|log| - 1], from, to) + (if c.result.allowed && from <= c.at <= to then c.cost else 0.0)
  }

  /** A call admitted in [from, to] on a clock reading from before it. */
  predicate Straddles(c: Commit, from: int, to: int) {
    c.result.allowed && c.clock < from <= c.at <= to
  }

  /** The cost of the first commit made at or after `from` if it straddles that instant. */
  function Straggler(log: seq<Commit>, from: int, to: int): real
    decreases |log|
  {
    if log == [] || Last(log).at < from then 0.0
    else if |log| == 1 || log[|log| - 2].at < from then (if Straddles(Last(log), from, to) then Last(log).cost else 0.0)
    else Straggler(log[..|log| - 1], from, to)
  }

  /** Admitted calls cost something, and no more than the capacity. */
  ghost predicate Affordable(p: Policy, log: seq<Commit>) {
    forall i :: 0 <= i < |log| && log[i].result.allowed ==> 0.0 < log[i].cost <= p.capacity
  }

  /** Only the first commit of a window can carry a clock reading older than the window, since every other
      call read the clock after the commit before it. */
  lemma {:induction false} OnlyTheFirstIsLate(p: Policy, log: seq<Commit>, from: int, to: int)
    requires Ordered(log) && Affordable(p, log)
    ensures AdmittedAt(log, from, to) <= Admitted(log, from, to) + Straggler(log, from, to)
    ensures log == [] || Last(log).at < from ==> AdmittedAt(log, from, to) == 0.0 == Admitted(log, from, to)
    decreases |log|
  {
    if log != [] {
      var n := |log| - 1;
      OnlyTheFirstIsLate(p, log[..n], from, to);
      if n > 0 {
        assert log[..n][n - 1] == log[n - 1] && log[n - 1].at <= log[n].clock <= log[n].at;
      }
    }
  }

  lemma {:induction false} RunIsAffordable(p: Policy, m: Machine, t: Trace)
    requires p.Valid() && Init(m)
    ensures Affordable(p, Play(p, m, t).store.log)
  {
    if t.Then? {
      RunIsAffordable(p, m, t.before);
      RunKeepsInv(p, m, t.before);
      var before := Play(p, m, t.before);
      if t.last.Step? && PcOf(before, t.last.c).Exec? && PcOf(before, t.last.c).v == before.store.version {
        var pc := PcOf(before, t.last.c);
        assert PcInv(p, before.store, pc);
        FoundIsSound(p, pc.read, pc.clock);
      }
    }
  }

  lemma {:induction false} StragglerWithinCapacity(p: Policy, log: seq<Commit>, from: int, to: int)
    requires p.Valid() && Affordable(p, log)
    ensures 0.0 <= p.capacity && Straggler(log, from, to) <= p.capacity
    decreases |log|
  {
    if log != [] && Last(log).at >= from && |log| > 1 && log[|log| - 2].at >= from {
      StragglerWithinCapacity(p, log[..|log| - 1], from, to);
    }
  }

  lemma {:induction false} StragglerStraddles(p: Policy, log: seq<Commit>, from: int, to: int)
    requires Ordered(log) && Affordable(p, log)
    ensures Straggler(log, from, to) > 0.0 <==> exists i :: 0 <= i < |log| && Straddles(log[i], from, to)
    decreases |log|
  {
    if log != [] {
      var n := |log| - 1;
      if log[n].at >= from && n > 0 && log[n - 1].at >= from {
        StragglerStraddles(p, log[..n], from, to);
        assert forall i :: 0 <= i < n ==> log[..n][i] == log[i];
        assert !Straddles(log[n], from, to);
        if Straggler(log, from, to) > 0.0 {
          var i :| 0 <= i < |log[..n]| && Straddles(log[..n][i], from, to);
          assert Straddles(log[i], from, to);
        }
      } else {
        forall i | 0 <= i < n ensures !Straddles(log[i], from, to) {
          assert i < n - 1 ==> log[i].at <= log[n - 1].clock <= log[n - 1].at;
          assert log[n - 1].at <= log[n].clock <= log[n].at;
        }
      }
    }
  }

  /** Measured at the instants the tokens are taken, one more call can come on top: the window's first
      commit, if it read the clock before the window opened. So at most the capacity is added, and
      nothing at all exactly if no admitted call straddles the opening of the window. */
  lemma AdmissionBoundAtCommits(p: Policy, m: Machine, t: Trace, from: int, to: int)
    requires p.Valid() && p.refillTokens > 0.0 && Init(m) && from <= to
    ensures var log := Play(p, m, t).store.log;
            && AdmittedAt(log, from, to) <= Bound(p, from, to) + Straggler(log, from, to)
            && Straggler(log, from, to) <= p.capacity
            && (Straggler(log, from, to) > 0.0 <==> exists i :: 0 <= i < |log| && Straddles(log[i], from, to))
  {
    RunKeepsInv(p, m, t);
    RunIsAffordable(p, m, t);
    AdmissionBound(p, m, t, from, to);
    StragglerStraddles(p, Play(p, m, t).store.log, from, to);
    OnlyTheFirstIsLate(p, Play(p, m, t).store.log, from, to);
    StragglerWithinCapacity(p, Play(p, m, t).store.log, from, to);
  }

  /** A call by client c from its start up to its EXEC. */
  function UpToExec(t: Trace, c: ClientId, cost: real): Trace {
    Then(Then(Then(Then(t, Start(c, cost)), Step(c)), Step(c)), Step(c))
  }

  lemma ReachesExec(p: Policy, m: Machine, t: Trace, c: ClientId, cost: real)
    requires p.Valid() && cost > 0.0 && PcOf(Play(p, m, t), c).Idle?
    ensures var before, after := Play(p, m, t), Play(p, m, UpToExec(t, c, cost));
            var st := before.store;
            after == Machine(st, before.calls[c := Exec(cost, 0, st.version, st.bucket, st.now)])
  {
    var before := Play(p, m, t);
    var st := before.store;
    var t1 := Then(t, Start(c, cost));
    assert Play(p, m, t1) == Machine(st, before.calls[c := Watch(cost, 0)]);
    var t2 := Then(t1, Step(c));
    assert Play(p, m, t2) == Machine(st, before.calls[c := Read(cost, 0, st.version)]);
    var t3 := Then(t2, Step(c));
    assert Play(p, m, t3) == Machine(st, before.calls[c := ReadClock(cost, 0, st.version, st.bucket)]);
  }

  /** A call at its EXEC commits, some milliseconds after its clock reading. */
  lemma Commits(p: Policy, m: Machine, t: Trace, c: ClientId, cost: real, ms: nat)
    requires p.Valid() && cost > 0.0 && PcOf(Play(p, m, t), c).Idle?
    ensures var st := Play(p, m, t).store;
            var after := Play(p, m, Then(Then(UpToExec(t, c, cost), Tick(ms)), Step(c)));
            var found := Found(p, st.bucket, st.now);
            && after.store == Store(st.now + ms, Some(Charge(found, cost)), st.now + ms + IdleTtlMs(p), st.version + 1,
                                    st.log + [Commit(st.now, st.now + ms, cost, Answer(p, found, cost))])
            && forall d :: d != c ==> PcOf(after, d) == PcOf(Play(p, m, t), d)
  {
    ReachesExec(p, m, t, c, cost);
  }

  /** Without the straggler the bound fails: a bucket of ten tokens, refilled by one each millisecond, gives
      out twenty at one instant, ten of them to a call that read the clock ten milliseconds before. */
  lemma StragglerComesOnTop() returns (p: Policy, m: Machine, t: Trace)
    ensures p.Valid() && p.refillTokens > 0.0 && Init(m)
    ensures AdmittedAt(Play(p, m, t).store.log, 10, 10) == 20.0 && Bound(p, 10, 10) == 11.0
  {
    p := Policy(10.0, 1.0, 1);
    m := Machine(Store(0, None, 0, 0, []), map[]);
    Commits(p, m, Begin, 0, 10.0, 10);
    var t1 := Then(Then(UpToExec(Begin, 0, 10.0), Tick(10)), Step(0));
    var first := Commit(0, 10, 10.0, Result(true, 0.0, None));
    assert Found(p, None, 0) == Bucket(10.0, 0);
    assert Play(p, m, t1).store == Store(10, Some(Bucket(0.0, 0)), 10 + IdleTtlMs(p), 1, [first]);
    t := Then(Then(UpToExec(t1, 1, 10.0), Tick(0)), Step(1));
    SecondTen(p, m, t1, first);
  }

  lemma SecondTen(p: Policy, m: Machine, t1: Trace, first: Commit)
    requires p == Policy(10.0, 1.0, 1) && first == Commit(0, 10, 10.0, Result(true, 0.0, None)) && PcOf(Play(p, m, t1), 1).Idle?
    requires Play(p, m, t1).store == Store(10, Some(Bucket(0.0, 0)), 10 + IdleTtlMs(p), 1, [first])
    ensures AdmittedAt(Play(p, m, Then(Then(UpToExec(t1, 1, 10.0), Tick(0)), Step(1))).store.log, 10, 10) == 20.0
  {
    Commits(p, m, t1, 1, 10.0, 0);
    FullAgain(p);
    TwoAtTen(first, Commit(10, 10, 10.0, Answer(p, Bucket(10.0, 10), 10.0)));
  }

  lemma TwoAtTen(first: Commit, second: Commit)
    requires first.result.allowed && second.result.allowed && first.at == second.at == 10 && first.cost == second.cost == 10.0
    ensures AdmittedAt([first] + [second], 10, 10) == 20.0
  {
    assert [first][..0] == [] && AdmittedAt([first], 10, 10) == 10.0;
    assert ([first] + [second])[..1] == [first];
  }

  lemma FullAgain(p: Policy)
    requires p == Policy(10.0, 1.0, 1)
    ensures Refill(p, Bucket(0.0, 0), 10) == Bucket(10.0, 10)
  {
    assert 10 / 1 == 10;
  }

  // ---- giving up ---------------------------------------------------------------------------------

  /** The step is an EXEC of client c that meets a key written or expired since its WATCH. */
  predicate AbortsAt(m: Machine, a: Action, c: ClientId) {
    a == Step(c) && PcOf(m, c).Exec? && PcOf(m, c).v != m.store.version
  }

  /** How many EXECs of client c were aborted since its call began. */
  ghost function Aborts(p: Policy, m: Machine, t: Trace, c: ClientId): nat
    requires p.Valid()
  {
    match t
    case Begin => 0
    case Then(before, a) =>
      if a.Start? && a.c == c && !InCall(PcOf(Play(p, m, before), c)) then 0
      else Aborts(p, m, before, c) + if AbortsAt(Play(p, m, before), a, c) then 1 else 0
  }

  predicate InCall(pc: Pc) {
    pc.Watch? || pc.Read? || pc.ReadClock? || pc.Exec?
  }

  /** A call has made as many attempts as its EXECs were aborted. */
  lemma {:induction false} AttemptsAreAborts(p: Policy, m: Machine, t: Trace, c: ClientId)
    requires p.Valid() && Init(m)
    ensures var pc := PcOf(Play(p, m, t), c);
            InCall(pc) ==> Aborts(p, m, t, c) == pc.attempt <= MAX_OPTIMISTIC_RETRIES && (pc.attempt == MAX_OPTIMISTIC_RETRIES ==> pc.Watch?)
  {
    if t.Then? {
      AttemptsAreAborts(p, m, t.before, c);
    }
  }

  /** A call that begins no further attempt has had MAX_OPTIMISTIC_RETRIES aborted. */
  lemma LastAttempt(p: Policy, m: Machine, t: Trace, c: ClientId)
    requires p.Valid() && Init(m) && var pc := PcOf(Play(p, m, t), c); pc.Watch? && pc.attempt == MAX_OPTIMISTIC_RETRIES
    ensures Aborts(p, m, Then(t, Step(c)), c) == MAX_OPTIMISTIC_RETRIES
  {
    AttemptsAreAborts(p, m, t, c);
  }

  // ---- the call as written -----------------------------------------------------------------------

  /** One process's limiter. Before each of its own commands everyone else may take any number of
      steps: `others` is arbitrary. The ghost `trace` records all steps since `start`. */
  class RedisTokenBucketAlgorithm {
    const policy: Policy
    const me: ClientId
    const others: nat -> seq<Action>
    const start: Machine
    var redis: Machine
    var turn: nat
    ghost var trace: Trace
    ghost var seen: Machine

    ghost predicate Ok()
      reads this
    {
      policy.Valid() && Init(start) && redis == Play(policy, start, trace)
    }

    function At(): Pc
      reads this
    {
      PcOf(redis, me)
    }

    constructor (policy: Policy, me: ClientId, others: nat -> seq<Action>, start: Machine)
      requires policy.Valid() && Init(start)
      ensures Ok() && trace == Begin && this.policy == policy && this.me == me
    {
      this.policy, this.me, this.others, this.start := policy, me, others, start;
      redis, turn, trace, seen := start, 0, Begin, start;
    }

    method Take(a: Action)
      requires Ok()
      modifies this`redis, this`trace
      ensures Ok() && redis == Next(policy, old(redis), a) && trace == Then(old(trace), a)
    {
      redis := Next(policy, redis, a);
      trace := Then(trace, a);
    }

    /** Nobody else takes a step any more. */
    ghost predicate Alone()
      reads this
    {
      forall k :: k >= turn ==> others(k) == []
    }

    method Others()
      requires Ok()
      modifies this`redis, this`turn, this`trace
      ensures Ok() && At() == old(At()) && (old(Alone()) ==> Alone() && redis == old(redis))
    {
      var acts := others(turn);
      turn := turn + 1;
      for i := 0 to |acts|
        invariant Ok() && At() == old(At()) && (old(Alone()) ==> Alone() && redis == old(redis))
      {
        if !acts[i].By(me) {
          Take(acts[i]);
        }
      }
    }

    /** This process's next command, after whatever the others do first; `seen` is the system state
        the command meets. */
    method Command()
      requires Ok()
      modifies this
      ensures Ok() && trace.Then? && seen == Play(policy, start, trace.before)
      ensures PcOf(seen, me) == old(At()) && redis == Next(policy, seen, Step(me))
      ensures old(Alone()) ==> Alone() && seen == old(redis)
      ensures old(At()) == Watch(CostOf(old(At())), MAX_OPTIMISTIC_RETRIES) ==> Beaten()
    {
      Others();
      seen := redis;
      if At() == Watch(CostOf(At()), MAX_OPTIMISTIC_RETRIES) {
        LastAttempt(policy, start, trace, me);
      }
      Take(Step(me));
    }

    static function CostOf(pc: Pc): real {
      if pc.Watch? then pc.cost else 0.0
    }

    /** MAX_OPTIMISTIC_RETRIES EXECs of the call were aborted. */
    ghost predicate Beaten()
      reads this
    {
      policy.Valid() && Aborts(policy, start, trace, me) == MAX_OPTIMISTIC_RETRIES
    }

    /** The refill step as the source performs it on its two locals. */
    method RefillLocals(stored: Option<Bucket>, now: int) returns (tokens: real, lastRefillAt: int)
      requires policy.Valid()
      ensures Bucket(tokens, lastRefillAt) == Found(policy, stored, now)
    {
      tokens, lastRefillAt := policy.capacity, now;
      if stored.Some? {
        tokens, lastRefillAt := stored.value.tokens, stored.value.lastRefillAt;
      }
      var elapsedMs := now - lastRefillAt;
      if elapsedMs > 0 {
        var intervalsElapsed := elapsedMs / policy.refillIntervalMs;
        if intervalsElapsed > 0 {
          tokens := Min(policy.capacity, tokens + Times(intervalsElapsed, policy.refillTokens));
          lastRefillAt := lastRefillAt + intervalsElapsed * policy.refillIntervalMs;
        }
      }
    }

    /** The bucket a reading of the clock finds: full if the key is absent, and otherwise refilled at every
        interval boundary up to the reading. */
    ghost function BucketAt(clock: int): Bucket
      requires policy.Valid()
      reads this
    {
      match seen.store.bucket
      case None => Bucket(policy.capacity, clock)
      case Some(b) => FireUntil(policy, b, clock)
    }

    /** `r` is what the bucket met by this call's EXEC says, at a clock reading no older than any commit
        before it, and the key now holds what that leaves, for the idle TTL. */
    ghost predicate Committed(cost: real, r: Result)
      requires policy.Valid()
      reads this
    {
      var pc, st := PcOf(seen, me), redis.store;
      && pc.Exec? && pc.clock <= seen.store.now == st.now && (seen.store.log != [] ==> Last(seen.store.log).at <= pc.clock)
      && st.bucket.Some? && Says(policy, BucketAt(pc.clock), cost, r, st.bucket.value)
      && st.expiresAt == st.now + IdleTtlMs(policy)
    }

    /** One WATCH ... EXEC attempt; None means EXEC was aborted. */
    method TryOnce(cost: real, ghost attempt: nat) returns (r: Option<Result>)
      requires Ok() && At() == Watch(cost, attempt) && attempt < MAX_OPTIMISTIC_RETRIES
      modifies this
      ensures Ok()
      ensures if r.Some? then At() == Returned(r.value) && Committed(cost, r.value) else At() == Watch(cost, attempt + 1)
      ensures old(Alone()) ==> r.Some? && seen.store == old(redis).store
    {
      Command();
      ghost var v := redis.store.version;
      assert At() == Read(cost, attempt, v);
      Command();
      var stored := redis.store.bucket;
      assert At() == ReadClock(cost, attempt, v, stored);
      Command();
      var now := redis.store.now;
      assert At() == Exec(cost, attempt, v, stored, now);
      var tokens, lastRefillAt := RefillLocals(stored, now);
      Command();
      if !At().Returned? {
        return None;
      }
      ghost var found := Found(policy, stored, now);
      CommitsAreAtomic(policy, start, trace.before, me);
      ExecSays(trace.before, found, cost);
      if tokens >= cost {
        return Some(Result(true, tokens - cost, None));
      }
      return Some(Result(false, tokens, Some(RetryAfterMs(policy, tokens, cost))));
    }

    /** What an EXEC of this client that commits does. */
    lemma ExecSays(t: Trace, found: Bucket, cost: real)
      requires policy.Valid() && Init(start) && seen == Play(policy, start, t) && redis == Next(policy, seen, Step(me))
      requires PcOf(seen, me).Exec? && PcOf(redis, me).Returned? && PcOf(seen, me).cost == cost
      requires found == Found(policy, seen.store.bucket, PcOf(seen, me).clock)
      ensures Committed(cost, Answer(policy, found, cost))
    {
      RunKeepsInv(policy, start, t);
      assert PcInv(policy, seen.store, PcOf(seen, me));
      AnswerSays(policy, found, cost);
      if seen.store.bucket.Some? {
        LazyIsEager(policy, seen.store.bucket.value, PcOf(seen, me).clock);
      }
    }

    /** The answer is the bucket's own at the instant of this call's EXEC; only a call that loses
        MAX_OPTIMISTIC_RETRIES races is refused without one, and that call consumes nothing. */
    method CheckAndConsume(cost: real) returns (r: Result)
      requires Ok() && (At().Idle? || At().Returned?) && cost > 0.0
      modifies this
      ensures Ok() && At() == Returned(r)
      ensures Committed(cost, r) ||
              (Beaten() && r == Result(false, 0.0, Some(policy.refillIntervalMs)) && redis.store == seen.store)
      ensures old(Alone()) ==> Committed(cost, r) && seen.store == old(redis).store
    {
      Take(Start(me, cost));
      for attempt := 0 to MAX_OPTIMISTIC_RETRIES
        invariant Ok() && At() == Watch(cost, attempt)
        invariant old(Alone()) ==> attempt == 0 && Alone() && redis.store == old(redis).store
      {
        var outcome := TryOnce(cost, attempt);
        if outcome.Some? {
          return outcome.value;
        }
      }
      Command();
      r := Result(false, 0.0, Some(policy.refillIntervalMs));
    }
  }
}
