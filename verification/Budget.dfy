/**
 Budget enforcement for one tenant and period: a Redis counter that requests reserve from and true
 up, an append-only cost ledger, and reconciliations that sum the ledger and later overwrite the
 counter. Every command is one step; requests and reconciliations interleave arbitrarily.
 */
module Budget {
  import opened Wrappers

  const MAX_OPTIMISTIC_RETRIES: nat := 5
  const MIN_TTL_MS: int := 1_000

  datatype Policy = Policy(hardLimit: int, reservation: int, periodEnd: int) {
    /** What the policy validator accepts. */
    predicate Valid() {
      hardLimit > 0 && reservation > 0
    }
  }

  /** Where a request's process is. `v` is the version seen by WATCH, `ttl` the TTL it computed from
      its own clock when the call began. */
  datatype Pc =
    | ReserveWatch(attempt: nat, ttl: int)
    | ReserveGet(attempt: nat, ttl: int, v: nat)
    | ReserveExec(attempt: nat, ttl: int, v: nat, current: int)
    | Denied
    | Running
    | AdjustWatch(attempt: nat, ttl: int)
    | AdjustGet(attempt: nat, ttl: int, v: nat)
    | AdjustExec(attempt: nat, ttl: int, v: nat, raw: int)
    | TruedUp
    | TrueUpLost
    | Crashed

  /** One request: its process, its real cost (which the system learns only when it completes), and the
      steps at which it was granted its reservation, appended to the ledger and debited. */
  datatype Request = Request(pc: Pc, cost: nat, grantedAt: Option<nat>, appendedAt: Option<nat>, debitedAt: Option<nat>)

  datatype Reconcile = Summed(sum: int, sumAt: nat) | Stamped(sum: int, sumAt: nat, ttl: int)

  /** `counter` is the Redis key, `version` counts its writes and expiry, `step` numbers the steps of
      the run. `lastSum` and `lastWrite` are the two steps of the reconciliation that wrote the counter
      last; `lastGrant` is the step of the latest admission. */
  datatype System = System(now: int, counter: Option<int>, expiresAt: int, version: nat, step: nat,
                           requests: seq<Request>, reconciles: map<nat, Reconcile>,
                           lastSum: Option<nat>, lastWrite: Option<nat>, lastGrant: Option<nat>)

  function Remaining(p: Policy, s: System): int {
    s.counter.GetOr(p.hardLimit)
  }

  function TtlFor(p: Policy, now: int): int {
    if p.periodEnd - now > MIN_TTL_MS then p.periodEnd - now else MIN_TTL_MS
  }

  /** A counter lives to the end of its period, and a second at least. */
  lemma TtlReachesPeriodEnd(p: Policy, now: int)
    ensures var ttl := TtlFor(p, now);
            ttl >= p.periodEnd - now && ttl >= 1_000 && (ttl == p.periodEnd - now || ttl == 1_000)
  {
  }

  predicate In(at: Option<nat>, before: Option<nat>) {
    at.Some? && before.Some? && at.value < before.value
  }

  predicate Since(at: Option<nat>, mark: Option<nat>) {
    at.Some? && (mark.None? || at.value > mark.value)
  }

  // ---- the ledger and other sums over requests ---------------------------------------------------

  /** The sum of `weight` over all requests. */
  function Sum(requests: seq<Request>, weight: Request -> int): int
    decreases |requests|
  {
    if requests == [] then 0
    else Sum(requests[..|requests| - 1], weight) + weight(requests[|requests| - 1])
  }

  function AppendedBefore(mark: nat): Request -> int {
    (r: Request) => if In(r.appendedAt, Some(mark)) then r.cost else 0
  }

  /** What SUM over the ledger returned at step `mark`. */
  function LedgerAt(requests: seq<Request>, mark: nat): int {
    Sum(requests, AppendedBefore(mark))
  }

  lemma {:induction false} SumUpdate(requests: seq<Request>, i: nat, r: Request, weight: Request -> int)
    requires i < |requests|
    ensures Sum(requests[i := r], weight) == Sum(requests, weight) - weight(requests[i]) + weight(r)
    decreases |requests|
  {
    var n := |requests| - 1;
    if i < n {
      SumUpdate(requests[..n], i, r, weight);
      assert requests[i := r][..n] == requests[..n][i := r];
    } else {
      assert requests[i := r][..n] == requests[..n];
    }
  }

  lemma SumAppend(requests: seq<Request>, r: Request, weight: Request -> int)
    ensures Sum(requests + [r], weight) == Sum(requests, weight) + weight(r)
  {
    assert (requests + [r])[..|requests|] == requests;
  }

  lemma {:induction false} SumLeq(requests: seq<Request>, w1: Request -> int, w2: Request -> int)
    requires forall i :: 0 <= i < |requests| ==> w1(requests[i]) <= w2(requests[i])
    ensures Sum(requests, w1) <= Sum(requests, w2)
    decreases |requests|
  {
    if requests != [] {
      SumLeq(requests[..|requests| - 1], w1, w2);
    }
  }

  lemma SumEqual(requests: seq<Request>, w1: Request -> int, w2: Request -> int)
    requires forall i :: 0 <= i < |requests| ==> w1(requests[i]) == w2(requests[i])
    ensures Sum(requests, w1) == Sum(requests, w2)
  {
    SumLeq(requests, w1, w2);
    SumLeq(requests, w2, w1);
  }

  lemma {:induction false} SumPlus(requests: seq<Request>, w1: Request -> int, w2: Request -> int, w: Request -> int)
    requires forall i :: 0 <= i < |requests| ==> w(requests[i]) == w1(requests[i]) + w2(requests[i])
    ensures Sum(requests, w) == Sum(requests, w1) + Sum(requests, w2)
    decreases |requests|
  {
    if requests != [] {
      SumPlus(requests[..|requests| - 1], w1, w2, w);
    }
  }

  // ---- steps -------------------------------------------------------------------------------------

  datatype Action =
    | Tick(ms: nat)
    | Expire
    | Arrive(cost: nat)
    | Append(i: nat)
    | StartDebit(i: nat)
    | Step(i: nat)
    | Crash(i: nat)
    | SumLedger(j: nat)
    | Stamp(j: nat)
    | Overwrite(j: nat)
  {
    predicate By(me: nat) {
      (Append? || StartDebit? || Step? || Crash?) && i == me
    }
  }

  function Go(s: System, i: nat, pc: Pc): System
    requires i < |s.requests|
  {
    s.(requests := s.requests[i := s.requests[i].(pc := pc)])
  }

  /** SET of the counter by request `i`, whose new record is `r`. */
  function Write(s: System, i: nat, r: Request, remaining: int, ttl: int): System
    requires i < |s.requests|
  {
    s.(counter := Some(remaining), expiresAt := s.now + ttl, version := s.version + 1, requests := s.requests[i := r])
  }

  /** Where the next command takes a process standing at `pc`. */
  function PcAfter(p: Policy, s: System, pc: Pc): Pc {
    match pc
    case ReserveWatch(n, ttl) => if n < MAX_OPTIMISTIC_RETRIES then ReserveGet(n, ttl, s.version) else Denied
    case ReserveGet(n, ttl, v) =>
      if Remaining(p, s) < p.reservation then Denied else ReserveExec(n, ttl, v, Remaining(p, s))
    case ReserveExec(n, ttl, v, _) => if v != s.version then ReserveWatch(n + 1, ttl) else Running
    case AdjustWatch(n, ttl) => if n < MAX_OPTIMISTIC_RETRIES then AdjustGet(n, ttl, s.version) else TrueUpLost
    case AdjustGet(n, ttl, v) => if s.counter.None? then TrueUpLost else AdjustExec(n, ttl, v, s.counter.value)
    case AdjustExec(n, ttl, v, _) => if v != s.version then AdjustWatch(n + 1, ttl) else TruedUp
    case _ => pc
  }

  /** The next command of request `i`: only an EXEC whose watched version is current writes. */
  function Command(p: Policy, s: System, i: nat): System
    requires i < |s.requests|
  {
    var r := s.requests[i];
    var r' := r.(pc := PcAfter(p, s, r.pc));
    match r.pc
    case ReserveExec(_, ttl, v, current) =>
      if v == s.version
      then Write(s, i, r'.(grantedAt := Some(s.step)), current - p.reservation, ttl).(lastGrant := Some(s.step))
      else Go(s, i, r'.pc)
    case AdjustExec(_, ttl, v, raw) =>
      if v == s.version
      then Write(s, i, r'.(debitedAt := Some(s.step)), raw - (r.cost - p.reservation), ttl)
      else Go(s, i, r'.pc)
    case _ => Go(s, i, r'.pc)
  }

  /** The effect of an action; one that is not enabled changes nothing. */
  function Effect(p: Policy, s: System, a: Action): System {
    match a
    case Tick(ms) => s.(now := s.now + ms)
    case Expire =>
      if s.counter.Some? && s.now >= s.expiresAt then s.(counter := None, version := s.version + 1) else s
    case Arrive(cost) =>
      s.(requests := s.requests + [Request(ReserveWatch(0, TtlFor(p, s.now)), cost, None, None, None)])
    // a completed request's usage is appended and its reservation trued up, in either order
    case Append(i) =>
      if i < |s.requests| && s.requests[i].grantedAt.Some? && s.requests[i].appendedAt.None?
      then s.(requests := s.requests[i := s.requests[i].(appendedAt := Some(s.step))]) else s
    case StartDebit(i) =>
      if i < |s.requests| && s.requests[i].pc.Running? then Go(s, i, AdjustWatch(0, TtlFor(p, s.now))) else s
    case Step(i) => if i < |s.requests| then Command(p, s, i) else s
    case Crash(i) => if i < |s.requests| then Go(s, i, Crashed) else s
    case SumLedger(j) => s.(reconciles := s.reconciles[j := Summed(LedgerAt(s.requests, s.step), s.step)])
    case Stamp(j) =>
      if j in s.reconciles && s.reconciles[j].Summed?
      then s.(reconciles := s.reconciles[j := Stamped(s.reconciles[j].sum, s.reconciles[j].sumAt, TtlFor(p, s.now))]) else s
    case Overwrite(j) =>
      if j in s.reconciles && s.reconciles[j].Stamped? then
        s.(counter := Some(p.hardLimit - s.reconciles[j].sum), expiresAt := s.now + s.reconciles[j].ttl,
           version := s.version + 1, reconciles := s.reconciles - {j},
           lastSum := Some(s.reconciles[j].sumAt), lastWrite := Some(s.step))
      else s
  }

  function Next(p: Policy, s: System, a: Action): System {
    Effect(p, s, a).(step := s.step + 1)
  }

  ghost predicate Init(s: System) {
    s.counter.None? && s.requests == [] && s.reconciles == map[] &&
    s.lastSum.None? && s.lastWrite.None? && s.lastGrant.None?
  }

  datatype Trace = Begin | Then(before: Trace, last: Action)

  function Play(p: Policy, s: System, t: Trace): System {
    match t
    case Begin => s
    case Then(before, a) => Next(p, Play(p, s, before), a)
  }

  // ---- the invariant -----------------------------------------------------------------------------

  /** What a request has taken from the counter's present value: its cost if the sum behind the last
      overwrite contained it, and whatever it reserved or trued up after that overwrite. */
  function Taken(p: Policy, r: Request, lastSum: Option<nat>, lastWrite: Option<nat>): int {
    (if In(r.appendedAt, lastSum) then r.cost else 0) +
    (if Since(r.grantedAt, lastWrite) then p.reservation else 0) +
    (if Since(r.debitedAt, lastWrite) then r.cost - p.reservation else 0)
  }

  function TakenSince(p: Policy, lastSum: Option<nat>, lastWrite: Option<nat>): Request -> int {
    (r: Request) => Taken(p, r, lastSum, lastWrite)
  }

  function TotalTaken(p: Policy, s: System): int {
    Sum(s.requests, TakenSince(p, s.lastSum, s.lastWrite))
  }

  ghost predicate RequestInv(p: Policy, s: System, r: Request) {
    && (r.grantedAt.Some? ==>
          r.grantedAt.value < s.step && s.lastGrant.Some? && r.grantedAt.value <= s.lastGrant.value && r.grantedAt != s.lastWrite)
    && (r.appendedAt.Some? ==> r.grantedAt.Some? && r.grantedAt.value < r.appendedAt.value < s.step)
    && (r.debitedAt.Some? ==> r.grantedAt.Some? && r.grantedAt.value < r.debitedAt.value < s.step)
    && match r.pc
       case ReserveWatch(_, ttl) => r.grantedAt.None? && ttl >= p.periodEnd - s.now
       case ReserveGet(_, ttl, v) => r.grantedAt.None? && ttl >= p.periodEnd - s.now && v <= s.version
       case ReserveExec(_, ttl, v, current) =>
         && r.grantedAt.None? && ttl >= p.periodEnd - s.now && v <= s.version && current >= p.reservation
         && (v == s.version ==> current == Remaining(p, s))
       case Running => r.grantedAt.Some? && r.debitedAt.None?
       case AdjustWatch(_, ttl) => r.grantedAt.Some? && r.debitedAt.None? && ttl >= p.periodEnd - s.now
       case AdjustGet(_, ttl, v) => r.grantedAt.Some? && r.debitedAt.None? && ttl >= p.periodEnd - s.now && v <= s.version
       case AdjustExec(_, ttl, v, raw) =>
         && r.grantedAt.Some? && r.debitedAt.None? && ttl >= p.periodEnd - s.now && v <= s.version
         && (v == s.version ==> s.counter == Some(raw))
       case _ => true
  }

  ghost predicate ReconcileInv(p: Policy, s: System, c: Reconcile) {
    c.sumAt < s.step && c.sum == LedgerAt(s.requests, c.sumAt) && (c.Stamped? ==> c.ttl >= p.periodEnd - s.now)
  }

  /** Until the period ends, the counter is the hard limit less what the requests have taken from it. */
  ghost predicate Inv(p: Policy, s: System) {
    && (s.lastSum.Some? <==> s.lastWrite.Some?)
    && (s.lastSum.Some? ==> s.lastSum.value < s.lastWrite.value < s.step)
    && (s.lastGrant.Some? ==> s.lastGrant.value < s.step)
    && (s.counter.Some? ==> s.expiresAt >= p.periodEnd)
    && (forall i :: 0 <= i < |s.requests| ==> RequestInv(p, s, s.requests[i]))
    && (forall j :: j in s.reconciles ==> ReconcileInv(p, s, s.reconciles[j]))
    && (s.now < p.periodEnd ==> Remaining(p, s) == p.hardLimit - TotalTaken(p, s))
  }

  /** How a step that rewrites only request `i` moves the sums. */
  lemma RequestChanged(p: Policy, s: System, i: nat, r: Request)
    requires i < |s.requests|
    ensures Sum(s.requests[i := r], TakenSince(p, s.lastSum, s.lastWrite))
            == TotalTaken(p, s) - Taken(p, s.requests[i], s.lastSum, s.lastWrite) + Taken(p, r, s.lastSum, s.lastWrite)
  {
    SumUpdate(s.requests, i, r, TakenSince(p, s.lastSum, s.lastWrite));
  }

  /** A ledger sum is unaffected by steps that append nothing before its mark. */
  lemma LedgerUnchanged(s: System, i: nat, r: Request, mark: nat)
    requires i < |s.requests| && AppendedBefore(mark)(r) == AppendedBefore(mark)(s.requests[i])
    ensures LedgerAt(s.requests[i := r], mark) == LedgerAt(s.requests, mark)
  {
    SumUpdate(s.requests, i, r, AppendedBefore(mark));
  }

  /** Replacing one request by a sound successor, with the counter moved by what it takes. */
  lemma UpdateKeepsInv(p: Policy, s: System, i: nat, s': System)
    requires Inv(p, s) && i < |s.requests| && |s'.requests| == |s.requests|
    requires s'.requests == s.requests[i := s'.requests[i]] && s'.reconciles == s.reconciles
    requires s'.lastSum == s.lastSum && s'.lastWrite == s.lastWrite && s'.step == s.step + 1 && s'.now == s.now
    requires s'.version >= s.version && (s'.version == s.version ==> s'.counter == s.counter)
    requires s'.counter.Some? ==> s'.expiresAt >= p.periodEnd
    requires s'.lastGrant == s.lastGrant || s'.lastGrant == Some(s.step)
    requires RequestInv(p, s', s'.requests[i])
    requires s'.requests[i].appendedAt == s.requests[i].appendedAt || s'.requests[i].appendedAt == Some(s.step)
    requires s.requests[i].appendedAt.Some? ==> s'.requests[i].appendedAt == s.requests[i].appendedAt
    requires s'.requests[i].cost == s.requests[i].cost
    requires s.now < p.periodEnd ==>
               Remaining(p, s') == Remaining(p, s) + Taken(p, s.requests[i], s.lastSum, s.lastWrite)
                                   - Taken(p, s'.requests[i], s.lastSum, s.lastWrite)
    ensures Inv(p, s')
  {
    RequestChanged(p, s, i, s'.requests[i]);
    forall k | 0 <= k < |s'.requests| ensures RequestInv(p, s', s'.requests[k]) {
      assert RequestInv(p, s, s.requests[k]);
    }
    forall j | j in s'.reconciles ensures ReconcileInv(p, s', s'.reconciles[j]) {
      assert ReconcileInv(p, s, s.reconciles[j]);
      LedgerUnchanged(s, i, s'.requests[i], s.reconciles[j].sumAt);
    }
  }

  ghost predicate Commits(s: System, pc: Pc) {
    (pc.ReserveExec? || pc.AdjustExec?) && pc.v == s.version
  }

  lemma CommandKeepsRequestInv(p: Policy, s: System, i: nat)
    requires i < |s.requests| && RequestInv(p, s, s.requests[i])
    requires s.lastGrant.Some? ==> s.lastGrant.value < s.step
    requires s.lastWrite.Some? ==> s.lastWrite.value < s.step
    ensures var s' := Command(p, s, i).(step := s.step + 1);
            |s'.requests| == |s.requests| && RequestInv(p, s', s'.requests[i])
  {
  }

  lemma CommandKeepsInv(p: Policy, s: System, i: nat)
    requires p.Valid() && Inv(p, s) && i < |s.requests|
    ensures Inv(p, Command(p, s, i).(step := s.step + 1))
  {
    assert RequestInv(p, s, s.requests[i]);
    CommandKeepsRequestInv(p, s, i);
    var r := s.requests[i];
    if Commits(s, r.pc) {
      UpdateKeepsInv(p, s, i, Command(p, s, i).(step := s.step + 1));
    } else {
      assert Command(p, s, i) == Go(s, i, PcAfter(p, s, r.pc));
      UpdateKeepsInv(p, s, i, Go(s, i, PcAfter(p, s, r.pc)).(step := s.step + 1));
    }
  }

  lemma StepIsCommand(p: Policy, s: System, i: nat)
    ensures Next(p, s, Step(i)) == if i < |s.requests| then Command(p, s, i).(step := s.step + 1) else s.(step := s.step + 1)
  {
  }

  lemma StepKeepsInv(p: Policy, s: System, i: nat)
    requires p.Valid() && Inv(p, s)
    ensures Inv(p, Next(p, s, Step(i)))
  {
    StepIsCommand(p, s, i);
    if i < |s.requests| {
      CommandKeepsInv(p, s, i);
    } else {
      PauseKeepsInv(p, s);
    }
  }

  /** The overwrite makes the counter the hard limit less the ledger as summed, whatever true-ups were
      lost before: every request is now accounted for by its ledger entry alone. */
  lemma OverwriteKeepsInv(p: Policy, s: System, j: nat)
    requires Inv(p, s) && j in s.reconciles && s.reconciles[j].Stamped?
    ensures Inv(p, Next(p, s, Overwrite(j)))
  {
    var s' := Next(p, s, Overwrite(j));
    assert ReconcileInv(p, s, s.reconciles[j]);
    forall k | 0 <= k < |s'.requests|
      ensures RequestInv(p, s', s'.requests[k])
      ensures Taken(p, s.requests[k], s'.lastSum, s'.lastWrite) == AppendedBefore(s.reconciles[j].sumAt)(s.requests[k])
    {
      assert RequestInv(p, s, s.requests[k]);
    }
    SumEqual(s.requests, TakenSince(p, s'.lastSum, s'.lastWrite), AppendedBefore(s.reconciles[j].sumAt));
    forall k | k in s'.reconciles ensures ReconcileInv(p, s', s'.reconciles[k]) {
      assert ReconcileInv(p, s, s.reconciles[k]);
    }
  }

  lemma NewcomerTakesNothing(p: Policy, s: System, r: Request)
    requires r.grantedAt.None? && r.appendedAt.None? && r.debitedAt.None?
    ensures Sum(s.requests + [r], TakenSince(p, s.lastSum, s.lastWrite)) == TotalTaken(p, s)
    ensures forall mark :: LedgerAt(s.requests + [r], mark) == LedgerAt(s.requests, mark)
  {
    SumAppend(s.requests, r, TakenSince(p, s.lastSum, s.lastWrite));
    forall mark ensures LedgerAt(s.requests + [r], mark) == LedgerAt(s.requests, mark) {
      SumAppend(s.requests, r, AppendedBefore(mark));
    }
  }

  lemma ArriveKeepsInv(p: Policy, s: System, cost: nat)
    requires Inv(p, s)
    ensures Inv(p, Next(p, s, Arrive(cost)))
  {
    var s' := Next(p, s, Arrive(cost));
    NewcomerTakesNothing(p, s, s'.requests[|s.requests|]);
    forall k | 0 <= k < |s'.requests| ensures RequestInv(p, s', s'.requests[k]) {
      assert k < |s.requests| ==> RequestInv(p, s, s.requests[k]);
    }
    forall j | j in s'.reconciles ensures ReconcileInv(p, s', s'.reconciles[j]) {
      assert ReconcileInv(p, s, s.reconciles[j]);
    }
  }

  lemma AppendKeepsInv(p: Policy, s: System, i: nat)
    requires Inv(p, s) && i < |s.requests| && s.requests[i].grantedAt.Some? && s.requests[i].appendedAt.None?
    ensures Inv(p, Next(p, s, Append(i)))
  {
    assert RequestInv(p, s, s.requests[i]);
    UpdateKeepsInv(p, s, i, Next(p, s, Append(i)));
  }

  /** The start of a true-up, or a crash: only the request's place changes. */
  lemma GoKeepsInv(p: Policy, s: System, i: nat, pc: Pc)
    requires Inv(p, s) && i < |s.requests|
    requires pc.Crashed? || (s.requests[i].pc.Running? && pc == AdjustWatch(0, TtlFor(p, s.now)))
    ensures Inv(p, Go(s, i, pc).(step := s.step + 1))
  {
    assert RequestInv(p, s, s.requests[i]);
    UpdateKeepsInv(p, s, i, Go(s, i, pc).(step := s.step + 1));
  }

  lemma QuietKeepsInv(p: Policy, s: System, a: Action)
    requires Inv(p, s) && (a.Tick? || a.Expire? || a.SumLedger? || a.Stamp?)
    ensures Inv(p, Next(p, s, a))
  {
    if a.Stamp? && a.j in s.reconciles {
      assert ReconcileInv(p, s, s.reconciles[a.j]);
    }
    IdleKeepsInv(p, s, Next(p, s, a));
  }

  lemma AnyAppendKeepsInv(p: Policy, s: System, i: nat)
    requires Inv(p, s)
    ensures Inv(p, Next(p, s, Append(i)))
  {
    if i < |s.requests| && s.requests[i].grantedAt.Some? && s.requests[i].appendedAt.None? {
      AppendKeepsInv(p, s, i);
    } else {
      assert Next(p, s, Append(i)) == s.(step := s.step + 1);
      PauseKeepsInv(p, s);
    }
  }

  lemma AnyStartDebitKeepsInv(p: Policy, s: System, i: nat)
    requires Inv(p, s)
    ensures Inv(p, Next(p, s, StartDebit(i)))
  {
    if i < |s.requests| && s.requests[i].pc.Running? {
      GoKeepsInv(p, s, i, AdjustWatch(0, TtlFor(p, s.now)));
    } else {
      assert Next(p, s, StartDebit(i)) == s.(step := s.step + 1);
      PauseKeepsInv(p, s);
    }
  }

  lemma AnyCrashKeepsInv(p: Policy, s: System, i: nat)
    requires Inv(p, s)
    ensures Inv(p, Next(p, s, Crash(i)))
  {
    if i < |s.requests| {
      GoKeepsInv(p, s, i, Crashed);
    } else {
      assert Next(p, s, Crash(i)) == s.(step := s.step + 1);
      PauseKeepsInv(p, s);
    }
  }

  lemma AnyOverwriteKeepsInv(p: Policy, s: System, j: nat)
    requires Inv(p, s)
    ensures Inv(p, Next(p, s, Overwrite(j)))
  {
    if j in s.reconciles && s.reconciles[j].Stamped? {
      OverwriteKeepsInv(p, s, j);
    } else {
      assert Next(p, s, Overwrite(j)) == s.(step := s.step + 1);
      PauseKeepsInv(p, s);
    }
  }

  lemma NextKeepsInv(p: Policy, s: System, a: Action)
    requires p.Valid() && Inv(p, s)
    ensures Inv(p, Next(p, s, a))
  {
    match a {
      case Step(i) => StepKeepsInv(p, s, i);
      case Arrive(cost) => ArriveKeepsInv(p, s, cost);
      case Append(i) => AnyAppendKeepsInv(p, s, i);
      case StartDebit(i) => AnyStartDebitKeepsInv(p, s, i);
      case Crash(i) => AnyCrashKeepsInv(p, s, i);
      case Overwrite(j) => AnyOverwriteKeepsInv(p, s, j);
      case _ => QuietKeepsInv(p, s, a);
    }
  }

  /** Steps that touch no request: the clock, expiry, and a reconciliation before its overwrite. */
  lemma IdleKeepsInv(p: Policy, s: System, s': System)
    requires Inv(p, s) && s'.requests == s.requests && s'.step == s.step + 1 && s'.now >= s.now
    requires s'.lastSum == s.lastSum && s'.lastWrite == s.lastWrite && s'.lastGrant == s.lastGrant
    requires (s'.counter == s.counter && s'.expiresAt == s.expiresAt && s'.version == s.version)
             || (s'.counter.None? && s'.version > s.version && s'.now >= p.periodEnd)
    requires forall j :: j in s'.reconciles ==>
               (j in s.reconciles && s'.reconciles[j] == s.reconciles[j]) || ReconcileInv(p, s', s'.reconciles[j])
    ensures Inv(p, s')
  {
    forall k | 0 <= k < |s'.requests| ensures RequestInv(p, s', s'.requests[k]) {
      assert RequestInv(p, s, s.requests[k]);
    }
    forall j | j in s'.reconciles ensures ReconcileInv(p, s', s'.reconciles[j]) {
      assert j in s.reconciles ==> ReconcileInv(p, s, s.reconciles[j]);
    }
  }

  /** An action that is not enabled. */
  lemma PauseKeepsInv(p: Policy, s: System)
    requires Inv(p, s)
    ensures Inv(p, s.(step := s.step + 1))
  {
    IdleKeepsInv(p, s, s.(step := s.step + 1));
  }

  lemma {:induction false} RunKeepsInv(p: Policy, s: System, t: Trace)
    requires p.Valid() && Init(s)
    ensures Inv(p, Play(p, s, t))
  {
    if t.Then? {
      RunKeepsInv(p, s, t.before);
      NextKeepsInv(p, Play(p, s, t.before), t.last);
    }
  }

  // ---- without reconciliation: exact conservation ------------------------------------------------

  /** No reconciliation has written the counter. */
  ghost predicate NeverReconciled(m: System) {
    m.lastWrite.None?
  }

  function DebitedCost(): Request -> int {
    (r: Request) => if r.debitedAt.Some? then r.cost else 0
  }

  function OpenReservation(p: Policy): Request -> int {
    (r: Request) => if r.grantedAt.Some? && r.debitedAt.None? then p.reservation else 0
  }

  /** Costs debited so far. */
  function Debited(s: System): int {
    Sum(s.requests, DebitedCost())
  }

  /** Reservations granted and not yet debited. */
  function Outstanding(p: Policy, s: System): int {
    Sum(s.requests, OpenReservation(p))
  }

  /** With no reconciliation, at every instant of every run before the period ends, the counter is
      exactly the hard limit less the debited costs less the reservations still outstanding. */
  lemma Conservation(p: Policy, s: System, t: Trace)
    requires p.Valid() && Init(s) && NeverReconciled(Play(p, s, t)) && Play(p, s, t).now < p.periodEnd
    ensures var m := Play(p, s, t); Remaining(p, m) == p.hardLimit - Debited(m) - Outstanding(p, m)
  {
    RunKeepsInv(p, s, t);
    var m := Play(p, s, t);
    forall i | 0 <= i < |m.requests|
      ensures TakenSince(p, None, None)(m.requests[i]) == DebitedCost()(m.requests[i]) + OpenReservation(p)(m.requests[i])
    {
      assert RequestInv(p, m, m.requests[i]);
    }
    SumPlus(m.requests, DebitedCost(), OpenReservation(p), TakenSince(p, None, None));
  }

  /** Step `a` of the run grants a reservation. */
  ghost predicate Grants(p: Policy, s: System, a: Action) {
    Next(p, s, a).lastGrant != s.lastGrant
  }

  /** At each admission, debited spend plus all outstanding reservations is within the hard limit. */
  lemma AdmissionWithinLimit(p: Policy, s: System, t: Trace, a: Action)
    requires p.Valid() && Init(s) && NeverReconciled(Play(p, s, Then(t, a))) && Play(p, s, t).now < p.periodEnd
    requires Grants(p, Play(p, s, t), a)
    ensures var m := Play(p, s, Then(t, a)); Debited(m) + Outstanding(p, m) <= p.hardLimit
  {
    var before, after := Play(p, s, t), Play(p, s, Then(t, a));
    RunKeepsInv(p, s, t);
    assert RequestInv(p, before, before.requests[a.i]);
    Conservation(p, s, Then(t, a));
  }

  /** The most a request can overrun its reservation, counted if it was outstanding at the latest
      admission. */
  function OverrunSince(p: Policy, lastGrant: Option<nat>): Request -> int {
    (r: Request) =>
      if r.grantedAt.Some? && Since(r.debitedAt, lastGrant) && r.cost > p.reservation then r.cost - p.reservation
      else if r.grantedAt.Some? && r.debitedAt.None? && r.cost > p.reservation then r.cost - p.reservation
      else 0
  }

  function GrantedCost(): Request -> int {
    (r: Request) => if r.grantedAt.Some? then r.cost else 0
  }

  /** Everything admitted so far, spent or still to be spent, exceeds the hard limit by at most the
      overruns of the requests outstanding at the latest admission. */
  ghost predicate SpendBounded(p: Policy, m: System) {
    Sum(m.requests, GrantedCost()) <= p.hardLimit + Sum(m.requests, OverrunSince(p, m.lastGrant))
  }

  lemma GrantBoundsSpend(p: Policy, m: System)
    requires Inv(p, m) && m.lastGrant.Some? && m.lastGrant.value == m.step - 1
    requires Debited(m) + Outstanding(p, m) <= p.hardLimit
    ensures SpendBounded(p, m)
  {
    var reserved := (r: Request) => DebitedCost()(r) + OpenReservation(p)(r);
    var allowed := (r: Request) => reserved(r) + OverrunSince(p, m.lastGrant)(r);
    SumPlus(m.requests, DebitedCost(), OpenReservation(p), reserved);
    SumPlus(m.requests, reserved, OverrunSince(p, m.lastGrant), allowed);
    forall i | 0 <= i < |m.requests| ensures GrantedCost()(m.requests[i]) <= allowed(m.requests[i]) {
      assert RequestInv(p, m, m.requests[i]);
    }
    SumLeq(m.requests, GrantedCost(), allowed);
  }

  lemma {:induction false} SpendBoundedAlways(p: Policy, s: System, t: Trace)
    requires p.Valid() && Init(s) && NeverReconciled(Play(p, s, t)) && Play(p, s, t).now < p.periodEnd
    ensures SpendBounded(p, Play(p, s, t))
  {
    if t.Then? {
      var before := Play(p, s, t.before);
      ClockOnlyAdvances(p, before, t.last);
      SpendBoundedAlways(p, s, t.before);
      RunKeepsInv(p, s, t.before);
      if Grants(p, before, t.last) {
        RunKeepsInv(p, s, t);
        ClockOnlyAdvances(p, before, t.last);
        AdmissionWithinLimit(p, s, t.before, t.last);
        GrantBoundsSpend(p, Play(p, s, t));
      } else {
        NoGrantKeepsBound(p, before, t.last);
      }
    }
  }

  lemma ClockOnlyAdvances(p: Policy, m: System, a: Action)
    ensures m.now <= Next(p, m, a).now
    ensures Grants(p, m, a) ==> Next(p, m, a).lastGrant == Some(m.step) && Next(p, m, a).step == m.step + 1
  {
  }

  /** One request's history is as before, except perhaps for being debited now. */
  ghost predicate SameHistory(m: System, r: Request, r': Request) {
    && r'.cost == r.cost && r'.grantedAt == r.grantedAt
    && (r'.debitedAt == r.debitedAt || (r.debitedAt.None? && r'.debitedAt == Some(m.step)))
  }

  lemma StepWithoutGrant(p: Policy, m: System, i: nat)
    requires p.Valid() && Inv(p, m) && i < |m.requests| && !Grants(p, m, Step(i))
    ensures var m' := Next(p, m, Step(i));
            && |m'.requests| == |m.requests| && m'.requests == m.requests[i := m'.requests[i]]
            && SameHistory(m, m.requests[i], m'.requests[i])
  {
    assert RequestInv(p, m, m.requests[i]);
    assert m.lastGrant != Some(m.step);
  }

  /** A step that grants nothing changes at most one request, and of its history at most the debit. */
  lemma WithoutGrant(p: Policy, m: System, a: Action)
    requires p.Valid() && Inv(p, m) && !Grants(p, m, a) && !a.Arrive? && Next(p, m, a).requests != m.requests
    ensures (a.Step? || a.Append? || a.StartDebit? || a.Crash?) && a.i < |m.requests|
    ensures var m' := Next(p, m, a);
            && |m'.requests| == |m.requests| && m'.requests == m.requests[a.i := m'.requests[a.i]]
            && SameHistory(m, m.requests[a.i], m'.requests[a.i])
  {
    if a.Step? && a.i < |m.requests| {
      StepWithoutGrant(p, m, a.i);
    }
  }

  lemma NoGrantKeepsBound(p: Policy, m: System, a: Action)
    requires p.Valid() && Inv(p, m) && SpendBounded(p, m) && !Grants(p, m, a)
    ensures SpendBounded(p, Next(p, m, a))
  {
    var m' := Next(p, m, a);
    var w := OverrunSince(p, m.lastGrant);
    if a.Arrive? {
      SumAppend(m.requests, m'.requests[|m.requests|], GrantedCost());
      SumAppend(m.requests, m'.requests[|m.requests|], w);
    } else if m'.requests != m.requests {
      WithoutGrant(p, m, a);
      SumUpdate(m.requests, a.i, m'.requests[a.i], GrantedCost());
      SumUpdate(m.requests, a.i, m'.requests[a.i], w);
    }
  }

  /** With no reconciliation, the spend debited by any later instant, in particular the final one,
      exceeds the hard limit by at most the sum of (cost - reservation) over the requests that were
      outstanding at the latest admission and cost more than their reservation. */
  lemma FinalSpendBound(p: Policy, s: System, t: Trace)
    requires p.Valid() && Init(s) && NeverReconciled(Play(p, s, t)) && Play(p, s, t).now < p.periodEnd
    ensures var m := Play(p, s, t); Debited(m) <= p.hardLimit + Sum(m.requests, OverrunSince(p, m.lastGrant))
  {
    SpendBoundedAlways(p, s, t);
    RunKeepsInv(p, s, t);
    var m := Play(p, s, t);
    forall i | 0 <= i < |m.requests| ensures DebitedCost()(m.requests[i]) <= GrantedCost()(m.requests[i]) {
      assert RequestInv(p, m, m.requests[i]);
    }
    SumLeq(m.requests, DebitedCost(), GrantedCost());
  }

  // ---- with reconciliation: the drift ------------------------------------------------------------

  /** The request overlaps the reconciliation that wrote the counter last: it was granted before the
      overwrite and its ledger entry or its true-up came after the ledger was summed. */
  predicate Overlaps(r: Request, lastSum: Option<nat>, lastWrite: Option<nat>) {
    In(r.grantedAt, lastWrite) && !(In(r.appendedAt, lastSum) && (r.debitedAt.None? || In(r.debitedAt, lastSum)))
  }

  /** The request has spent and been accounted for: its cost is in the ledger and its reservation was
      trued up, unless it was granted before the last overwrite, which replaces a lost true-up. */
  predicate Settled(r: Request, lastWrite: Option<nat>) {
    r.grantedAt.Some? ==> r.appendedAt.Some? && (r.debitedAt.Some? || In(r.grantedAt, lastWrite))
  }

  function DriftBound(p: Policy, lastSum: Option<nat>, lastWrite: Option<nat>): Request -> int {
    (r: Request) => if !Overlaps(r, lastSum, lastWrite) then 0 else if r.cost > p.reservation then r.cost else p.reservation
  }

  lemma DriftOf(p: Policy, m: System, r: Request)
    requires p.Valid() && Inv(p, m) && RequestInv(p, m, r) && Settled(r, m.lastWrite)
    ensures var taken, bound := Taken(p, r, m.lastSum, m.lastWrite), DriftBound(p, m.lastSum, m.lastWrite)(r);
            GrantedCost()(r) - bound <= taken <= GrantedCost()(r) + bound
  {
  }

  /** Once the requests have settled, the counter differs from the hard limit less the true spend by at
      most max(cost, reservation) per request overlapping the last reconciliation. */
  lemma DriftIsBounded(p: Policy, s: System, t: Trace)
    requires p.Valid() && Init(s) && Play(p, s, t).now < p.periodEnd
    requires var m := Play(p, s, t); forall i :: 0 <= i < |m.requests| ==> Settled(m.requests[i], m.lastWrite)
    ensures var m := Play(p, s, t);
            var drift := Remaining(p, m) - (p.hardLimit - Sum(m.requests, GrantedCost()));
            var bound := Sum(m.requests, DriftBound(p, m.lastSum, m.lastWrite));
            -bound <= drift <= bound
  {
    RunKeepsInv(p, s, t);
    var m := Play(p, s, t);
    var taken, bound := TakenSince(p, m.lastSum, m.lastWrite), DriftBound(p, m.lastSum, m.lastWrite);
    var high := (r: Request) => taken(r) + bound(r);
    var low := (r: Request) => GrantedCost()(r) + bound(r);
    SumPlus(m.requests, taken, bound, high);
    SumPlus(m.requests, GrantedCost(), bound, low);
    forall i | 0 <= i < |m.requests|
      ensures GrantedCost()(m.requests[i]) <= high(m.requests[i]) && taken(m.requests[i]) <= low(m.requests[i])
    {
      DriftOf(p, m, m.requests[i]);
    }
    SumLeq(m.requests, GrantedCost(), high);
    SumLeq(m.requests, taken, low);
  }

  /** A reconciliation that overlaps no request leaves the counter exact: the hard limit less the whole
      ledger, whatever true-ups were lost before. */
  lemma QuietReconcileIsExact(p: Policy, s: System, t: Trace, j: nat)
    requires p.Valid() && Init(s) && Play(p, s, t).now < p.periodEnd
    requires j in Play(p, s, t).reconciles && Play(p, s, t).reconciles[j].Stamped?
    requires var m := Play(p, s, t);
             forall i :: 0 <= i < |m.requests| ==>
               !Overlaps(m.requests[i], Some(m.reconciles[j].sumAt), Some(m.step))
    ensures var m := Play(p, s, Then(t, Overwrite(j)));
            Remaining(p, m) == p.hardLimit - Sum(m.requests, GrantedCost()) == p.hardLimit - LedgerAt(m.requests, m.step)
  {
    var before, m := Play(p, s, t), Play(p, s, Then(t, Overwrite(j)));
    RunKeepsInv(p, s, t);
    RunKeepsInv(p, s, Then(t, Overwrite(j)));
    forall i | 0 <= i < |m.requests|
      ensures AppendedBefore(before.reconciles[j].sumAt)(m.requests[i]) == GrantedCost()(m.requests[i])
      ensures AppendedBefore(m.step)(m.requests[i]) == GrantedCost()(m.requests[i])
    {
      assert RequestInv(p, before, before.requests[i]);
    }
    assert ReconcileInv(p, before, before.reconciles[j]);
    SumEqual(m.requests, AppendedBefore(before.reconciles[j].sumAt), GrantedCost());
    SumEqual(m.requests, AppendedBefore(m.step), GrantedCost());
  }

  // ---- refusals and lost true-ups ----------------------------------------------------------------

  predicate Reserving(pc: Pc) {
    pc.ReserveWatch? || pc.ReserveGet? || pc.ReserveExec?
  }

  predicate Adjusting(pc: Pc) {
    pc.AdjustWatch? || pc.AdjustGet? || pc.AdjustExec?
  }

  function PcOf(s: System, i: nat): Pc {
    if i < |s.requests| then s.requests[i].pc else Crashed
  }

  /** The step is an EXEC of request `i` that meets a counter written or expired since its WATCH. */
  predicate AbortsAt(m: System, a: Action, i: nat) {
    var pc := PcOf(m, i);
    a == Step(i) && (pc.ReserveExec? || pc.AdjustExec?) && pc.v != m.version
  }

  /** How many EXECs of request `i` were aborted so far while it was reserving, or while it adjusted. */
  ghost function Aborts(p: Policy, s: System, t: Trace, i: nat, reserving: bool): nat {
    match t
    case Begin => 0
    case Then(before, a) =>
      var m := Play(p, s, before);
      Aborts(p, s, before, i, reserving) + if AbortsAt(m, a, i) && PcOf(m, i).ReserveExec? == reserving then 1 else 0
  }

  /** A command of request `i`, sent while it was reserving, met a counter short of the reservation. */
  ghost predicate MetShort(p: Policy, s: System, t: Trace, i: nat) {
    t.Then? &&
    var m := Play(p, s, t.before);
    (t.last == Step(i) && Reserving(PcOf(m, i)) && Remaining(p, m) < p.reservation) || MetShort(p, s, t.before, i)
  }

  /** A command of request `i`, sent while it was adjusting, met no counter. */
  ghost predicate MetNoCounter(p: Policy, s: System, t: Trace, i: nat) {
    t.Then? &&
    var m := Play(p, s, t.before);
    (t.last == Step(i) && Adjusting(PcOf(m, i)) && m.counter.None?) || MetNoCounter(p, s, t.before, i)
  }

  /** A request makes a new attempt for each aborted EXEC. It is refused only if it met a counter short of
      the reservation, and its true-up is lost only if it met no counter, or if MAX_OPTIMISTIC_RETRIES of
      its EXECs were aborted. */
  ghost predicate Explained(p: Policy, s: System, t: Trace, i: nat) {
    var reserves, adjusts := Aborts(p, s, t, i, true), Aborts(p, s, t, i, false);
    var pc := PcOf(Play(p, s, t), i);
    && (Reserving(pc) ==> reserves == pc.attempt <= MAX_OPTIMISTIC_RETRIES)
    && (pc.ReserveGet? || pc.ReserveExec? ==> pc.attempt < MAX_OPTIMISTIC_RETRIES)
    && (Adjusting(pc) ==> adjusts == pc.attempt <= MAX_OPTIMISTIC_RETRIES)
    && (pc.AdjustGet? || pc.AdjustExec? ==> pc.attempt < MAX_OPTIMISTIC_RETRIES)
    && (Reserving(pc) || pc.Running? ==> adjusts == 0)
    && (i >= |Play(p, s, t).requests| ==> reserves == adjusts == 0)
    && (pc.Denied? ==> MetShort(p, s, t, i) || reserves == MAX_OPTIMISTIC_RETRIES)
    && (pc.TrueUpLost? ==> MetNoCounter(p, s, t, i) || adjusts == MAX_OPTIMISTIC_RETRIES)
  }

  lemma {:induction false} RefusalsAreExplained(p: Policy, s: System, t: Trace, i: nat)
    requires Init(s)
    ensures Explained(p, s, t, i)
  {
    if t.Then? {
      RefusalsAreExplained(p, s, t.before, i);
      var m := Play(p, s, t.before);
      if t.last != Step(i) {
        PlaceChanges(p, m, t.last, i);
      } else {
        CommandIsExplained(p, s, t, i);
      }
    }
  }

  /** A call that begins no further attempt has had MAX_OPTIMISTIC_RETRIES aborted. */
  lemma LastAttempt(p: Policy, s: System, t: Trace, i: nat)
    requires Init(s) && var pc := PcOf(Play(p, s, t), i); (pc.ReserveWatch? || pc.AdjustWatch?) && pc.attempt == MAX_OPTIMISTIC_RETRIES
    ensures Aborts(p, s, Then(t, Step(i)), i, PcOf(Play(p, s, t), i).ReserveWatch?) == MAX_OPTIMISTIC_RETRIES
  {
    RefusalsAreExplained(p, s, t, i);
  }

  lemma CommandIsExplained(p: Policy, s: System, t: Trace, i: nat)
    requires Init(s) && t.Then? && t.last == Step(i) && Explained(p, s, t.before, i)
    ensures Explained(p, s, t, i)
  {
    var m := Play(p, s, t.before);
    StepIsCommand(p, m, i);
    assert PcOf(Play(p, s, t), i) == PcAfter(p, m, PcOf(m, i));
  }

  /** Without a command of its own a request only arrives, starts its true-up or crashes. */
  lemma PlaceChanges(p: Policy, m: System, a: Action, i: nat)
    requires a != Step(i)
    ensures var pc, pc' := PcOf(m, i), PcOf(Next(p, m, a), i);
            || pc' == pc || (i == |m.requests| && pc'.ReserveWatch? && pc'.attempt == 0)
            || (i < |m.requests| && pc.Running? && pc'.AdjustWatch? && pc'.attempt == 0) || pc'.Crashed?
    ensures |m.requests| <= |Next(p, m, a).requests|
  {
  }

  // ---- the calls as written ----------------------------------------------------------------------

  lemma OthersLeaveMe(p: Policy, s: System, a: Action, i: nat)
    requires i < |s.requests| && !a.By(i)
    ensures i < |Next(p, s, a).requests| && Next(p, s, a).requests[i].pc == s.requests[i].pc
    ensures Next(p, s, a).requests[i].cost == s.requests[i].cost
  {
  }

  /** What one command of request `i` does to its place and to the counter. */
  lemma CommandMoves(p: Policy, m: System, i: nat)
    requires i < |m.requests| && RequestInv(p, m, m.requests[i])
    ensures var m' := Next(p, m, Step(i));
            var pc := m.requests[i].pc;
            && |m'.requests| == |m.requests| && m'.requests[i].pc == PcAfter(p, m, pc) && m'.requests[i].cost == m.requests[i].cost
            && (!Commits(m, pc) ==> m'.counter == m.counter && m'.version == m.version)
            && (Commits(m, pc) ==> m'.expiresAt == m.now + pc.ttl)
            && (Commits(m, pc) && pc.ReserveExec? ==>
                  pc.current == Remaining(p, m) >= p.reservation && m'.counter == Some(pc.current - p.reservation))
            && (Commits(m, pc) && pc.AdjustExec? ==>
                  m.counter == Some(pc.raw) && m'.counter == Some(pc.raw - (m.requests[i].cost - p.reservation)))
  {
  }

  /** What request `i`'s next command does in a reachable state. */
  lemma ReachableCommand(p: Policy, s: System, t: Trace, i: nat)
    requires p.Valid() && Init(s) && i < |Play(p, s, t).requests|
    ensures RequestInv(p, Play(p, s, t), Play(p, s, t).requests[i])
  {
    RunKeepsInv(p, s, t);
  }

  lemma ReachableReconcile(p: Policy, s: System, t: Trace, j: nat)
    requires p.Valid() && Init(s) && j in Play(p, s, t).reconciles
    ensures ReconcileInv(p, Play(p, s, t), Play(p, s, t).reconciles[j])
  {
    RunKeepsInv(p, s, t);
  }

  /** What an overwrite leaves: the hard limit less the ledger as it was summed. */
  lemma OverwriteIsLedger(p: Policy, m: System, j: nat)
    requires j in m.reconciles && m.reconciles[j].Stamped? && ReconcileInv(p, m, m.reconciles[j])
    ensures var m', mark := Next(p, m, Overwrite(j)), m.reconciles[j].sumAt;
            && m'.counter == Some(p.hardLimit - LedgerAt(m'.requests, mark)) && mark < m.step
            && m'.lastSum == Some(mark) && m'.lastWrite == Some(m.step)
  {
  }

  /** The counter store as one process uses it. Before each of its own commands everyone else may take
      any number of steps: `others` is arbitrary. `seen` is the state its latest command met. */
  class RedisBudgetCounterStore {
    const policy: Policy
    const others: nat -> seq<Action>
    const start: System
    var sys: System
    var turn: nat
    ghost var trace: Trace
    ghost var seen: System

    ghost predicate Ok()
      reads this
    {
      policy.Valid() && Init(start) && sys == Play(policy, start, trace)
    }

    ghost predicate At(i: nat, pc: Pc)
      reads this
    {
      i < |sys.requests| && sys.requests[i].pc == pc
    }

    /** Nobody else takes a step any more. */
    ghost predicate Alone()
      reads this
    {
      forall k :: k >= turn ==> others(k) == []
    }

    constructor (policy: Policy, others: nat -> seq<Action>, start: System)
      requires policy.Valid() && Init(start)
      ensures Ok() && sys == start && this.policy == policy
    {
      this.policy, this.others, this.start := policy, others, start;
      sys, turn, trace, seen := start, 0, Begin, start;
    }

    method Take(a: Action)
      requires Ok()
      modifies this`sys, this`trace
      ensures Ok() && sys == Next(policy, old(sys), a) && trace == Then(old(trace), a)
    {
      sys := Next(policy, sys, a);
      trace := Then(trace, a);
    }

    method Others(i: nat, ghost pc: Pc)
      requires Ok() && At(i, pc)
      modifies this`sys, this`turn, this`trace
      ensures Ok() && At(i, pc) && sys.requests[i].cost == old(sys).requests[i].cost
      ensures old(Alone()) ==> Alone() && sys == old(sys)
    {
      var acts := others(turn);
      turn := turn + 1;
      for k := 0 to |acts|
        invariant Ok() && At(i, pc) && sys.requests[i].cost == old(sys).requests[i].cost
        invariant old(Alone()) ==> Alone() && sys == old(sys)
      {
        if !acts[k].By(i) {
          OthersLeaveMe(policy, sys, acts[k], i);
          Take(acts[k]);
        }
      }
    }

    /** MAX_OPTIMISTIC_RETRIES EXECs of the request's call were aborted. */
    ghost predicate Beaten(i: nat, reserving: bool)
      reads this
    {
      Aborts(policy, start, trace, i, reserving) == MAX_OPTIMISTIC_RETRIES
    }

    /** The next command of request `i`'s process, after whatever the others do first. */
    method Do(i: nat, ghost pc: Pc)
      requires Ok() && At(i, pc)
      modifies this
      ensures Ok() && At(i, PcAfter(policy, seen, pc)) && sys.requests[i].cost == old(sys).requests[i].cost
      ensures (pc.ReserveWatch? || pc.AdjustWatch?) && pc.attempt == MAX_OPTIMISTIC_RETRIES ==> Beaten(i, pc.ReserveWatch?)
      ensures old(Alone()) ==> Alone() && seen == old(sys)
      ensures Commits(seen, pc) ==> sys.expiresAt == seen.now + pc.ttl
      ensures !Commits(seen, pc) ==> sys.counter == seen.counter && sys.version == seen.version
      ensures Commits(seen, pc) && pc.ReserveExec? ==>
                pc.current == Remaining(policy, seen) >= policy.reservation && sys.counter == Some(pc.current - policy.reservation)
      ensures Commits(seen, pc) && pc.AdjustExec? ==>
                seen.counter == Some(pc.raw) && sys.counter == Some(pc.raw - (sys.requests[i].cost - policy.reservation))
    {
      Others(i, pc);
      seen := sys;
      ReachableCommand(policy, start, trace, i);
      CommandMoves(policy, sys, i);
      if (pc.ReserveWatch? || pc.AdjustWatch?) && pc.attempt == MAX_OPTIMISTIC_RETRIES {
        LastAttempt(policy, start, trace, i);
      }
      Take(Step(i));
    }

    /** An admission takes exactly the reservation from a counter that could afford it at that instant;
        a refusal changes nothing and reports a counter that could not, unless MAX_OPTIMISTIC_RETRIES
        races were lost. With nobody else about the answer is that of the counter met. */
    method Reserve(i: nat, ghost ttl: int) returns (allowed: bool, remaining: int)
      requires Ok() && At(i, ReserveWatch(0, ttl))
      modifies this
      ensures Ok() && At(i, if allowed then Running else Denied)
      ensures allowed ==>
                && Remaining(policy, seen) >= policy.reservation && sys.counter == Some(remaining)
                && remaining == Remaining(policy, seen) - policy.reservation && sys.expiresAt == seen.now + ttl
      ensures !allowed ==> sys.counter == seen.counter && sys.version == seen.version
      ensures !allowed ==>
                || remaining == Remaining(policy, seen) < policy.reservation
                || (remaining == 0 && Beaten(i, true))
      ensures old(Alone()) ==>
                var had := Remaining(policy, old(sys));
                if had >= policy.reservation then allowed && remaining == had - policy.reservation
                else !allowed && remaining == had
    {
      for attempt := 0 to MAX_OPTIMISTIC_RETRIES
        invariant Ok() && At(i, ReserveWatch(attempt, ttl))
        invariant old(Alone()) ==> Alone() && attempt == 0 && Remaining(policy, sys) == Remaining(policy, old(sys))
      {
        Do(i, ReserveWatch(attempt, ttl));
        ghost var v := sys.version;
        Do(i, ReserveGet(attempt, ttl, v));
        var current := Remaining(policy, sys);
        if current < policy.reservation {
          return false, current;
        }
        Do(i, ReserveExec(attempt, ttl, v, current));
        if sys.requests[i].pc.Running? {
          return true, current - policy.reservation;
        }
      }
      Do(i, ReserveWatch(MAX_OPTIMISTIC_RETRIES, ttl));
      return false, 0;
    }

    /** One WATCH ... EXEC attempt of a true-up; None means EXEC was aborted. */
    method TryAdjust(i: nat, ghost ttl: int, ghost attempt: nat, delta: int) returns (done: Option<Option<int>>)
      requires Ok() && At(i, AdjustWatch(attempt, ttl)) && attempt < MAX_OPTIMISTIC_RETRIES
      requires delta == sys.requests[i].cost - policy.reservation
      modifies this
      ensures Ok() && i < |sys.requests| && sys.requests[i].cost == old(sys).requests[i].cost
      ensures match done
              case None => At(i, AdjustWatch(attempt + 1, ttl))
              case Some(None) => At(i, TrueUpLost) && seen.counter.None? && sys.counter == seen.counter && sys.version == seen.version
              case Some(Some(left)) =>
                && At(i, TruedUp) && seen.counter == Some(left + delta) && sys.counter == Some(left)
                && sys.expiresAt == seen.now + ttl
      ensures old(Alone()) ==>
                done == match old(sys).counter
                        case None => Some(None)
                        case Some(had) => Some(Some(had - delta))
    {
      Do(i, AdjustWatch(attempt, ttl));
      ghost var v := sys.version;
      Do(i, AdjustGet(attempt, ttl, v));
      var raw := sys.counter;
      if raw.None? {
        return Some(None);
      }
      Do(i, AdjustExec(attempt, ttl, v, raw.value));
      if sys.requests[i].pc.TruedUp? {
        return Some(Some(raw.value - delta));
      }
      return None;
    }

    /** The true-up moves the counter by exactly cost - reservation at one instant, or it is lost and
        the counter is as it was: the key is gone or MAX_OPTIMISTIC_RETRIES races were lost. With nobody
        else about it is lost only if there is no counter. */
    method Adjust(i: nat, ghost ttl: int) returns (remaining: Option<int>)
      requires Ok() && At(i, AdjustWatch(0, ttl))
      modifies this
      ensures Ok() && At(i, if remaining.Some? then TruedUp else TrueUpLost)
      ensures remaining.Some? ==>
                && seen.counter.Some? && sys.counter == remaining && sys.expiresAt == seen.now + ttl
                && remaining.value == seen.counter.value - (old(sys).requests[i].cost - policy.reservation)
      ensures remaining.None? ==> sys.counter == seen.counter && sys.version == seen.version
      ensures remaining.None? ==>
                seen.counter.None? || Beaten(i, false)
      ensures old(Alone()) ==>
                remaining == match old(sys).counter
                             case None => None
                             case Some(had) => Some(had - (old(sys).requests[i].cost - policy.reservation))
    {
      for attempt := 0 to MAX_OPTIMISTIC_RETRIES
        invariant Ok() && At(i, AdjustWatch(attempt, ttl)) && sys.requests[i].cost == old(sys).requests[i].cost
        invariant old(Alone()) ==> attempt == 0 && sys == old(sys) && Alone()
      {
        var done := TryAdjust(i, ttl, attempt, sys.requests[i].cost - policy.reservation);
        if done.Some? {
          return done.value;
        }
      }
      Do(i, AdjustWatch(MAX_OPTIMISTIC_RETRIES, ttl));
      return None;
    }

    /** Everyone else's steps, leaving this reconciliation's own record alone. */
    method OthersThan(j: nat)
      requires Ok()
      modifies this`sys, this`turn, this`trace
      ensures Ok() && (j in old(sys).reconciles ==> j in sys.reconciles && sys.reconciles[j] == old(sys).reconciles[j])
    {
      var acts := others(turn);
      turn := turn + 1;
      for k := 0 to |acts|
        invariant Ok() && (j in old(sys).reconciles ==> j in sys.reconciles && sys.reconciles[j] == old(sys).reconciles[j])
      {
        if (acts[k].SumLedger? || acts[k].Stamp? || acts[k].Overwrite?) && acts[k].j == j {
          continue;
        }
        Take(acts[k]);
      }
    }

    /** The ledger is summed at one step (`mark`) and the counter overwritten at a later one, to the hard
        limit less exactly what the ledger held at the first. */
    method Reconcile(j: nat) returns (ghost mark: nat)
      requires Ok()
      modifies this
      ensures Ok() && sys.counter == Some(policy.hardLimit - LedgerAt(sys.requests, mark))
      ensures mark < seen.step && sys.lastSum == Some(mark) && sys.lastWrite == Some(seen.step)
    {
      OthersThan(j);
      mark := sys.step;
      Take(SumLedger(j));
      OthersThan(j);
      Take(Stamp(j));
      OthersThan(j);
      seen := sys;
      ReachableReconcile(policy, start, trace, j);
      OverwriteIsLedger(policy, sys, j);
      Take(Overwrite(j));
    }
  }
}
