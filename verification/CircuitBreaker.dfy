/**
 The Redis circuit breaker as a protocol: four keys shared by any number of clients, each client
 somewhere inside one of the breaker's calls. One step is one Redis command, one clock reading, one
 EXEC, one key expiry, one clock advance, or the crash of a client.
 */
module CircuitBreaker {
  import opened Wrappers

  const MAX_OPTIMISTIC_RETRIES: nat := 5

  datatype Config = Config(failureThreshold: int, cooldownMs: int, trialLockTtlMs: int,
                           failureCounterTtlMs: int, stateTtlMs: int)

  type ClientId = nat
  type Token = nat

  // ---- the four keys of one breaker ------------------------------------------------------------

  datatype StateKey = Absent | Closed | Open
  datatype FailureCounter = NoCounter | Counter(count: nat, expiresAt: Option<int>)
  datatype TrialLock = NoLock | Held(token: Token, expiresAt: int)

  /** `version` counts the writes and expiries of the four keys: what WATCH on all of them detects.
      `nextToken` is the source of fresh trial tokens. */
  datatype Store = Store(now: int,
                         state: StateKey, stateExpiresAt: int, openedAt: Option<int>,
                         failures: FailureCounter, lock: TrialLock,
                         version: nat, nextToken: Token)
  {
    ghost predicate CooledDown(cfg: Config) {
      openedAt.Some? && now - openedAt.value >= cfg.cooldownMs
    }

    ghost predicate HeldBy(t: Token) {
      lock.Held? && lock.token == t
    }

    /** A commit that closes: state to "closed", counter and timestamp deleted. */
    function Close(cfg: Config): Store {
      this.(state := Closed, stateExpiresAt := now + cfg.stateTtlMs, openedAt := None,
            failures := NoCounter, version := version + 1)
    }

    /** A commit that opens, dated by a clock reading the client took earlier. */
    function OpenAs(cfg: Config, stamp: int): Store {
      this.(state := Open, stateExpiresAt := now + cfg.stateTtlMs, openedAt := Some(stamp),
            version := version + 1)
    }
  }

  // ---- the calls ---------------------------------------------------------------------------------

  datatype Outcome = TrialSucceeded | TrialFailed

  datatype Call = CheckAndReserve | RecordSuccess(trialToken: Option<Token>) | RecordFailure(trialToken: Option<Token>)

  /** What checkAndReserve reports. `Exhausted` is the fail-closed answer after five aborted
      transactions, which the source also reports as an open breaker. */
  datatype Answer = AllowedClosed | DeniedOpen | Granted(token: Token) | DeniedHalfOpen | Exhausted

  // Places inside each transaction, with what has been read so far; `v` is the version WATCH saw.
  datatype CheckPc = ReadState | ReadOpenedAt | CompareClock(readOpenedAt: int)
  datatype ClaimPc =
    | ClaimWatch | ClaimGetState(v: nat) | ClaimGetOpenedAt(v: nat, readOpen: bool)
    | ClaimDecide(v: nat, readOpen: bool, readOpenedAt: int) | ClaimExec(v: nat)
  datatype ResolvePc = ResolveWatch | ResolveGet(v: nat) | ResolveStamp(v: nat) | ResolveExec(v: nat, stamp: int)
  datatype ClosePc = CloseWatch | CloseGet(v: nat) | CloseExec(v: nat)
  datatype OpenPc =
    | OpenWatch | OpenGetState(v: nat) | OpenGetFailures(v: nat, readOpen: bool)
    | OpenDecide(v: nat, readOpen: bool, readCount: nat) | OpenExec(v: nat, stamp: int)

  /** Where a client is: between calls, or inside one of the breaker's methods. */
  datatype Pc =
    | Idle
    | Returned(answer: Answer)
    | Checking(check: CheckPc)                                              // checkAndReserve
    | Claiming(attempt: nat, claim: ClaimPc)                                // tryClaimTrial
    | Resolving(token: Token, outcome: Outcome, attempt: nat, resolve: ResolvePc)  // resolveTrial
    | Closing(attempt: nat, close: ClosePc)                                 // closeIfNotOpen
    | FailIncr | FailExpire(readCount: nat)                                 // recordFailure
    | Opening(attempt: nat, opening: OpenPc)                                // openIfThresholdStillCrossed
  {
    /** Inside recordSuccess or recordFailure without a trial token. */
    predicate NormalPath() {
      Closing? || FailIncr? || FailExpire? || Opening?
    }
  }

  function Entry(call: Call): Pc {
    match call
    case CheckAndReserve => Checking(ReadState)
    case RecordSuccess(Some(t)) => Resolving(t, TrialSucceeded, 0, ResolveWatch)
    case RecordSuccess(None) => Closing(0, CloseWatch)
    case RecordFailure(Some(t)) => Resolving(t, TrialFailed, 0, ResolveWatch)
    case RecordFailure(None) => FailIncr
  }

  function CountOf(failures: FailureCounter): nat {
    match failures
    case NoCounter => 0
    case Counter(n, _) => n
  }

  function CheckAfter(cfg: Config, st: Store, p: CheckPc): Pc {
    match p
    case ReadState => if st.state.Open? then Checking(ReadOpenedAt) else Returned(AllowedClosed)
    case ReadOpenedAt => Checking(CompareClock(st.openedAt.GetOr(0)))
    case CompareClock(oa) => if st.now - oa < cfg.cooldownMs then Returned(DeniedOpen) else Claiming(0, ClaimWatch)
  }

  function ClaimAfter(cfg: Config, st: Store, n: nat, p: ClaimPc): Pc {
    match p
    case ClaimWatch => if n < MAX_OPTIMISTIC_RETRIES then Claiming(n, ClaimGetState(st.version)) else Returned(Exhausted)
    case ClaimGetState(v) => Claiming(n, ClaimGetOpenedAt(v, st.state.Open?))
    case ClaimGetOpenedAt(v, open) => Claiming(n, ClaimDecide(v, open, st.openedAt.GetOr(0)))
    case ClaimDecide(v, open, oa) =>
      if !open then Returned(AllowedClosed)
      else if st.now - oa < cfg.cooldownMs then Returned(DeniedOpen)
      else Claiming(n, ClaimExec(v))
    case ClaimExec(v) =>
      if v != st.version then Claiming(n + 1, ClaimWatch)
      else if st.lock.NoLock? then Returned(Granted(st.nextToken))
      else Returned(DeniedHalfOpen)
  }

  function ResolveAfter(st: Store, t: Token, out: Outcome, n: nat, p: ResolvePc): Pc {
    match p
    case ResolveWatch => if n < MAX_OPTIMISTIC_RETRIES then Resolving(t, out, n, ResolveGet(st.version)) else Idle
    case ResolveGet(v) => if st.lock.Held? && st.lock.token == t then Resolving(t, out, n, ResolveStamp(v)) else Idle
    case ResolveStamp(v) => Resolving(t, out, n, ResolveExec(v, st.now))
    case ResolveExec(v, _) => if v != st.version then Resolving(t, out, n + 1, ResolveWatch) else Idle
  }

  function CloseAfter(st: Store, n: nat, p: ClosePc): Pc {
    match p
    case CloseWatch => if n < MAX_OPTIMISTIC_RETRIES then Closing(n, CloseGet(st.version)) else Idle
    case CloseGet(v) => if st.state.Open? then Idle else Closing(n, CloseExec(v))
    case CloseExec(v) => if v != st.version then Closing(n + 1, CloseWatch) else Idle
  }

  function OpenAfter(cfg: Config, st: Store, n: nat, p: OpenPc): Pc {
    match p
    case OpenWatch => if n < MAX_OPTIMISTIC_RETRIES then Opening(n, OpenGetState(st.version)) else Idle
    case OpenGetState(v) => Opening(n, OpenGetFailures(v, st.state.Open?))
    case OpenGetFailures(v, open) => Opening(n, OpenDecide(v, open, CountOf(st.failures)))
    case OpenDecide(v, open, count) =>
      if open || count < cfg.failureThreshold then Idle else Opening(n, OpenExec(v, st.now))
    case OpenExec(v, _) => if v != st.version then Opening(n + 1, OpenWatch) else Idle
  }

  /** Where the next command takes a client standing at `pc`. */
  function PcAfter(cfg: Config, st: Store, pc: Pc): Pc {
    match pc
    case Idle => Idle
    case Returned(_) => pc
    case Checking(p) => CheckAfter(cfg, st, p)
    case Claiming(n, p) => ClaimAfter(cfg, st, n, p)
    case Resolving(t, out, n, p) => ResolveAfter(st, t, out, n, p)
    case Closing(n, p) => CloseAfter(st, n, p)
    case FailIncr => FailExpire(CountOf(st.failures) + 1)
    case FailExpire(n) => if n >= cfg.failureThreshold then Opening(0, OpenWatch) else Idle
    case Opening(n, p) => OpenAfter(cfg, st, n, p)
  }

  /** Only INCR, PEXPIRE and an EXEC whose watched version is still current write anything. */
  function ClaimWrites(cfg: Config, st: Store, p: ClaimPc): Store {
    if p.ClaimExec? && p.v == st.version && st.lock.NoLock? then
      st.(lock := Held(st.nextToken, st.now + cfg.trialLockTtlMs),
          nextToken := st.nextToken + 1, version := st.version + 1)
    else st
  }

  function ResolveWrites(cfg: Config, st: Store, out: Outcome, p: ResolvePc): Store {
    if !p.ResolveExec? || p.v != st.version then st
    else if out.TrialSucceeded? then st.(lock := NoLock).Close(cfg)
    else st.(lock := NoLock).OpenAs(cfg, p.stamp)
  }

  function CloseWrites(cfg: Config, st: Store, p: ClosePc): Store {
    if p.CloseExec? && p.v == st.version then st.Close(cfg) else st
  }

  function OpenWrites(cfg: Config, st: Store, p: OpenPc): Store {
    if p.OpenExec? && p.v == st.version then st.OpenAs(cfg, p.stamp) else st
  }

  function IncrWrites(st: Store): Store {
    st.(failures := Counter(CountOf(st.failures) + 1, if st.failures.Counter? then st.failures.expiresAt else None),
        version := st.version + 1)
  }

  function ExpireWrites(cfg: Config, st: Store): Store {
    if st.failures.NoCounter? then st
    else st.(failures := st.failures.(expiresAt := Some(st.now + cfg.failureCounterTtlMs)), version := st.version + 1)
  }

  /** What the next command of a client standing at `pc` leaves in the four keys. */
  function StoreAfter(cfg: Config, st: Store, pc: Pc): Store {
    match pc
    case FailIncr => IncrWrites(st)
    case FailExpire(_) => ExpireWrites(cfg, st)
    case Claiming(_, p) => ClaimWrites(cfg, st, p)
    case Resolving(_, out, _, p) => ResolveWrites(cfg, st, out, p)
    case Closing(_, p) => CloseWrites(cfg, st, p)
    case Opening(_, p) => OpenWrites(cfg, st, p)
    case _ => st
  }

  // ---- the whole system --------------------------------------------------------------------------

  datatype Machine = Machine(store: Store, calls: map<ClientId, Pc>)

  function PcOf(m: Machine, c: ClientId): Pc {
    if c in m.calls then m.calls[c] else Idle
  }

  datatype Action =
    | Tick(ms: nat)
    | ExpireState
    | ExpireFailures
    | ExpireLock
    | Start(c: ClientId, call: Call)
    | Step(c: ClientId)
    | Crash(c: ClientId)
  {
    predicate By(me: ClientId) {
      (Start? || Step? || Crash?) && c == me
    }
  }

  /** `state` and `openedAt` are always set together with one TTL, so they expire in one step. */
  function EnvStep(st: Store, a: Action): Store {
    match a
    case Tick(ms) => st.(now := st.now + ms)
    case ExpireState =>
      if !st.state.Absent? && st.now >= st.stateExpiresAt
      then st.(state := Absent, openedAt := None, version := st.version + 1) else st
    case ExpireFailures =>
      if st.failures.Counter? && st.failures.expiresAt.Some? && st.now >= st.failures.expiresAt.value
      then st.(failures := NoCounter, version := st.version + 1) else st
    case ExpireLock =>
      if st.lock.Held? && st.now >= st.lock.expiresAt
      then st.(lock := NoLock, version := st.version + 1) else st
    case _ => st
  }

  /** One step of the system; an action that is not enabled changes nothing. */
  function Next(cfg: Config, m: Machine, a: Action): Machine {
    match a
    case Start(c, call) =>
      if PcOf(m, c).Idle? || PcOf(m, c).Returned? then m.(calls := m.calls[c := Entry(call)]) else m
    case Step(c) =>
      var pc := PcOf(m, c);
      Machine(StoreAfter(cfg, m.store, pc), m.calls[c := PcAfter(cfg, m.store, pc)])
    case Crash(c) => m.(calls := m.calls[c := Idle])
    case _ => m.(store := EnvStep(m.store, a))
  }

  /** No key set, nobody calling. The clock counts from an epoch more than one cooldown ago. */
  ghost predicate Init(cfg: Config, m: Machine) {
    && m.store.now >= cfg.cooldownMs
    && m.store.state.Absent? && m.store.openedAt.None?
    && m.store.failures.NoCounter? && m.store.lock.NoLock?
    && m.calls == map[]
  }

  // ---- the inductive invariant -------------------------------------------------------------------

  ghost predicate StoreInv(cfg: Config, st: Store) {
    && st.now >= cfg.cooldownMs
    && (st.state.Open? <==> st.openedAt.Some?)
    && (st.openedAt.Some? ==> st.openedAt.value <= st.now)
    && (st.lock.Held? ==> st.lock.token < st.nextToken)
  }

  ghost predicate ClaimInv(cfg: Config, st: Store, p: ClaimPc) {
    match p
    case ClaimWatch => true
    case ClaimGetState(v) => v <= st.version
    case ClaimGetOpenedAt(v, open) => v <= st.version && (v == st.version ==> open == st.state.Open?)
    case ClaimDecide(v, open, oa) =>
      v <= st.version && (v == st.version ==> open == st.state.Open? && oa == st.openedAt.GetOr(0))
    case ClaimExec(v) => v <= st.version && (v == st.version ==> st.state.Open? && st.CooledDown(cfg))
  }

  ghost predicate ResolveInv(st: Store, t: Token, p: ResolvePc) {
    match p
    case ResolveWatch => true
    case ResolveGet(v) => v <= st.version
    case ResolveStamp(v) => v <= st.version && (v == st.version ==> st.HeldBy(t))
    case ResolveExec(v, stamp) => v <= st.version && stamp <= st.now && (v == st.version ==> st.HeldBy(t))
  }

  ghost predicate CloseInv(st: Store, p: ClosePc) {
    match p
    case CloseWatch => true
    case CloseGet(v) => v <= st.version
    case CloseExec(v) => v <= st.version && (v == st.version ==> !st.state.Open?)
  }

  ghost predicate OpenInv(cfg: Config, st: Store, p: OpenPc) {
    match p
    case OpenWatch => true
    case OpenGetState(v) => v <= st.version
    case OpenGetFailures(v, open) => v <= st.version && (v == st.version ==> open == st.state.Open?)
    case OpenDecide(v, open, count) =>
      v <= st.version && (v == st.version ==> open == st.state.Open? && count == CountOf(st.failures))
    case OpenExec(v, stamp) =>
      v <= st.version && stamp <= st.now &&
      (v == st.version ==> !st.state.Open? && CountOf(st.failures) >= cfg.failureThreshold)
  }

  /** A client whose watched version is still current has read the current values. */
  ghost predicate PcInv(cfg: Config, st: Store, pc: Pc) {
    match pc
    case Claiming(_, p) => ClaimInv(cfg, st, p)
    case Resolving(t, _, _, p) => ResolveInv(st, t, p)
    case Closing(_, p) => CloseInv(st, p)
    case Opening(_, p) => OpenInv(cfg, st, p)
    case _ => true
  }

  ghost predicate Inv(cfg: Config, m: Machine) {
    StoreInv(cfg, m.store) && forall c | c in m.calls :: PcInv(cfg, m.store, m.calls[c])
  }

  /** What every step of anyone does to the store: time and versions only grow, and the four keys
      change only together with the version. */
  ghost predicate Evolves(a: Store, b: Store) {
    && a.now <= b.now && a.version <= b.version && a.nextToken <= b.nextToken
    && (a.version == b.version ==>
          a.state == b.state && a.openedAt == b.openedAt && a.failures == b.failures && a.lock == b.lock)
  }

  /** Where a step leaves the store sound and grown, it leaves the client that took it sound too. */
  ghost predicate Keeps(cfg: Config, st: Store, st': Store, pc': Pc) {
    StoreInv(cfg, st') && Evolves(st, st') && PcInv(cfg, st', pc')
  }

  lemma ClaimKeeps(cfg: Config, st: Store, n: nat, p: ClaimPc)
    requires StoreInv(cfg, st) && ClaimInv(cfg, st, p)
    ensures Keeps(cfg, st, ClaimWrites(cfg, st, p), ClaimAfter(cfg, st, n, p))
  {
  }

  lemma ResolveKeeps(cfg: Config, st: Store, t: Token, out: Outcome, n: nat, p: ResolvePc)
    requires StoreInv(cfg, st) && ResolveInv(st, t, p)
    ensures Keeps(cfg, st, ResolveWrites(cfg, st, out, p), ResolveAfter(st, t, out, n, p))
  {
  }

  lemma CloseKeeps(cfg: Config, st: Store, n: nat, p: ClosePc)
    requires StoreInv(cfg, st) && CloseInv(st, p)
    ensures Keeps(cfg, st, CloseWrites(cfg, st, p), CloseAfter(st, n, p))
  {
  }

  lemma OpenKeeps(cfg: Config, st: Store, n: nat, p: OpenPc)
    requires StoreInv(cfg, st) && OpenInv(cfg, st, p)
    ensures Keeps(cfg, st, OpenWrites(cfg, st, p), OpenAfter(cfg, st, n, p))
  {
  }

  lemma CallStepKeeps(cfg: Config, st: Store, pc: Pc)
    requires StoreInv(cfg, st) && PcInv(cfg, st, pc)
    ensures Keeps(cfg, st, StoreAfter(cfg, st, pc), PcAfter(cfg, st, pc))
  {
    match pc
    case Claiming(n, p) => ClaimKeeps(cfg, st, n, p);
    case Resolving(t, out, n, p) => ResolveKeeps(cfg, st, t, out, n, p);
    case Closing(n, p) => CloseKeeps(cfg, st, n, p);
    case Opening(n, p) => OpenKeeps(cfg, st, n, p);
    case _ =>
  }

  lemma NextKeepsInv(cfg: Config, m: Machine, a: Action)
    requires Inv(cfg, m)
    ensures Inv(cfg, Next(cfg, m, a)) && Evolves(m.store, Next(cfg, m, a).store)
  {
    if a.Step? {
      CallStepKeeps(cfg, m.store, PcOf(m, a.c));
    }
    var m' := Next(cfg, m, a);
    assert Evolves(m.store, m'.store);
    forall c | c in m'.calls ensures PcInv(cfg, m'.store, m'.calls[c]) {
      if c in m.calls && m'.calls[c] == m.calls[c] {
        assert PcInv(cfg, m.store, m.calls[c]);
      }
    }
  }

  // ---- runs --------------------------------------------------------------------------------------

  datatype Run = Run(states: seq<Machine>, acts: seq<Action>)

  ghost predicate Follows(cfg: Config, r: Run, i: nat)
    requires i < |r.acts| && |r.states| == |r.acts| + 1
  {
    r.states[i + 1] == Next(cfg, r.states[i], r.acts[i])
  }

  ghost predicate Valid(cfg: Config, r: Run) {
    && |r.states| == |r.acts| + 1
    && Init(cfg, r.states[0])
    && forall i :: 0 <= i < |r.acts| ==> Follows(cfg, r, i)
  }

  lemma {:induction false} InvAt(cfg: Config, r: Run, i: nat)
    requires Valid(cfg, r) && i < |r.states|
    ensures Inv(cfg, r.states[i])
  {
    if i > 0 {
      InvAt(cfg, r, i - 1);
      assert Follows(cfg, r, i - 1);
      NextKeepsInv(cfg, r.states[i - 1], r.acts[i - 1]);
    }
  }

  lemma {:induction false} EvolvesBetween(cfg: Config, r: Run, i: nat, j: nat)
    requires Valid(cfg, r) && i <= j < |r.states|
    ensures r.states[i].store.now <= r.states[j].store.now
    ensures r.states[i].store.nextToken <= r.states[j].store.nextToken
    decreases j
  {
    if i < j {
      EvolvesBetween(cfg, r, i, j - 1);
      InvAt(cfg, r, j - 1);
      assert Follows(cfg, r, j - 1);
      NextKeepsInv(cfg, r.states[j - 1], r.acts[j - 1]);
    }
  }

  /** The place from which step `i` of the run was taken; Idle for a step of the environment. */
  function Taken(r: Run, i: nat): Pc
    requires i < |r.acts| && |r.states| == |r.acts| + 1
  {
    if r.acts[i].Step? then PcOf(r.states[i], r.acts[i].c) else Idle
  }

  // ---- the three transitions ---------------------------------------------------------------------

  /** Step `i` is a trial report with this outcome whose token is the one in the lock. */
  ghost predicate TrialReportAt(r: Run, i: nat, outcome: Outcome)
    requires i < |r.acts| && |r.states| == |r.acts| + 1
  {
    var pc := Taken(r, i);
    var lock := r.states[i].store.lock;
    pc.Resolving? && pc.resolve.ResolveExec? && pc.outcome == outcome && lock.Held? && lock.token == pc.token &&
    r.states[i + 1].store.lock.NoLock?
  }

  /** Step `k` is the EXEC of a success, with or without a token, and nothing was written since its WATCH. */
  ghost predicate ClosesAt(r: Run, k: nat)
    requires k < |r.acts| && |r.states| == |r.acts| + 1
  {
    var pc, version := Taken(r, k), r.states[k].store.version;
    || (pc.Closing? && pc.close.CloseExec? && pc.close.v == version)
    || (pc.Resolving? && pc.resolve.ResolveExec? && pc.outcome.TrialSucceeded? && pc.resolve.v == version)
  }

  /** Step `k` is the expiry of the failure counter, whose TTL has run. */
  ghost predicate CounterExpiresAt(r: Run, k: nat)
    requires k < |r.acts| && |r.states| == |r.acts| + 1
  {
    var st := r.states[k].store;
    r.acts[k].ExpireFailures? && st.failures.Counter? && st.failures.expiresAt.Some? && st.now >= st.failures.expiresAt.value
  }

  /** Failures INCRed since a success last closed the breaker or the counter's TTL last ran out, counted
      off the steps of the run. */
  ghost function FailuresSinceReset(r: Run, i: nat): nat
    requires |r.states| == |r.acts| + 1 && i < |r.states|
  {
    if i == 0 then 0
    else if ClosesAt(r, i - 1) || CounterExpiresAt(r, i - 1) then 0
    else FailuresSinceReset(r, i - 1) + (if Taken(r, i - 1).FailIncr? then 1 else 0)
  }

  lemma {:induction false} CounterCountsFailures(cfg: Config, r: Run, i: nat)
    requires Valid(cfg, r) && i < |r.states|
    ensures CountOf(r.states[i].store.failures) == FailuresSinceReset(r, i)
  {
    if i > 0 {
      CounterCountsFailures(cfg, r, i - 1);
      assert Follows(cfg, r, i - 1);
    }
  }

  /** The breaker changes state in three ways only, besides the expiry of `state`. (A failing trial
      can also open a breaker that is not open: see LateTrialMeetsLapsedState.) */
  lemma OnlyThreeTransitions(cfg: Config, r: Run, i: nat)
    requires Valid(cfg, r) && i < |r.acts|
    ensures var a, b := r.states[i].store, r.states[i + 1].store;
            && (!a.state.Open? && b.state.Open? ==>
                  || (Taken(r, i).Opening? && Taken(r, i).opening.OpenExec? && FailuresSinceReset(r, i) >= cfg.failureThreshold)
                  || TrialReportAt(r, i, TrialFailed))
            && (a.state.Open? && !b.state.Open? ==>
                  if b.state.Closed? then TrialReportAt(r, i, TrialSucceeded)
                  else r.acts[i].ExpireState? && a.now >= a.stateExpiresAt)
            && (a.state.Open? && b.state.Open? && a.openedAt != b.openedAt ==> TrialReportAt(r, i, TrialFailed))
  {
    InvAt(cfg, r, i);
    CounterCountsFailures(cfg, r, i);
    assert Follows(cfg, r, i);
    assert PcInv(cfg, r.states[i].store, Taken(r, i));
  }

  /** A report without a token, however stale, neither closes nor re-dates an open breaker, nor
      touches the trial lock. */
  lemma NormalReportsLeaveOpenBreakerAlone(cfg: Config, r: Run, i: nat)
    requires Valid(cfg, r) && i < |r.acts| && Taken(r, i).NormalPath() && r.states[i].store.state.Open?
    ensures var a, b := r.states[i].store, r.states[i + 1].store;
            b.state == a.state && b.openedAt == a.openedAt && b.lock == a.lock
  {
    InvAt(cfg, r, i);
    assert Follows(cfg, r, i);
    assert PcInv(cfg, r.states[i].store, Taken(r, i));
  }

  // ---- trial tokens ------------------------------------------------------------------------------

  ghost predicate Holds(m: Machine, t: Token) {
    m.store.HeldBy(t)
  }

  /** Step `i` hands out trial token `t`. */
  ghost predicate GrantAt(r: Run, i: nat, t: Token)
    requires i < |r.acts| && |r.states| == |r.acts| + 1
  {
    r.states[i].store.lock.NoLock? && Holds(r.states[i + 1], t)
  }

  /** Step `i` spends trial token `t`: a report carrying it commits. */
  ghost predicate SpendAt(r: Run, i: nat, t: Token)
    requires i < |r.acts| && |r.states| == |r.acts| + 1
  {
    Taken(r, i).Resolving? && Taken(r, i).resolve.ResolveExec? && Taken(r, i).token == t && Holds(r.states[i], t) && r.states[i + 1].store.lock.NoLock?
  }

  /** What one step can do to the trial lock. */
  lemma LockStep(cfg: Config, r: Run, i: nat)
    requires Valid(cfg, r) && i < |r.acts|
    ensures var a, b := r.states[i].store, r.states[i + 1].store;
            || b.lock == a.lock
            || (a.lock.NoLock? && b.lock == Held(a.nextToken, a.now + cfg.trialLockTtlMs) && b.nextToken > a.nextToken &&
                Taken(r, i).Claiming? && Taken(r, i).claim.ClaimExec? && a.state.Open? && a.CooledDown(cfg) && b.now == a.now &&
                b.state == a.state && b.openedAt == a.openedAt)
            || (a.lock.Held? && SpendAt(r, i, a.lock.token))
            || (a.lock.Held? && b.lock.NoLock? && r.acts[i].ExpireLock? && a.now >= a.lock.expiresAt)
  {
    InvAt(cfg, r, i);
    assert Follows(cfg, r, i);
    assert PcInv(cfg, r.states[i].store, Taken(r, i));
  }

  /** No trial is granted unless the breaker is open and the cooldown has passed since the opening
      in force. */
  lemma GrantsWaitForCooldown(cfg: Config, r: Run, i: nat, t: Token)
    requires Valid(cfg, r) && i < |r.acts| && GrantAt(r, i, t)
    ensures r.states[i].store.state.Open? && r.states[i].store.CooledDown(cfg)
    ensures r.states[i + 1].store.openedAt == r.states[i].store.openedAt
    ensures r.states[i + 1].store.lock.expiresAt == r.states[i].store.now + cfg.trialLockTtlMs
    ensures t == r.states[i].store.nextToken
  {
    LockStep(cfg, r, i);
  }

  /** After a grant the lock keeps that token until it is spent or its TTL has run. */
  lemma {:induction false} LockLastsUntilSpent(cfg: Config, r: Run, i: nat, t: Token, j: nat)
    requires Valid(cfg, r) && i < |r.acts| && GrantAt(r, i, t) && i < j < |r.states|
    ensures || r.states[j].store.lock == Held(t, r.states[i].store.now + cfg.trialLockTtlMs)
            || (exists k :: i < k < j && SpendAt(r, k, t))
            || r.states[j].store.now >= r.states[i].store.now + cfg.trialLockTtlMs
    decreases j
  {
    if j == i + 1 {
      LockStep(cfg, r, i);
    } else {
      LockLastsUntilSpent(cfg, r, i, t, j - 1);
      LockStep(cfg, r, j - 1);
      EvolvesBetween(cfg, r, j - 1, j);
      if r.states[j - 1].store.lock == Held(t, r.states[i].store.now + cfg.trialLockTtlMs)
         && r.states[j].store.lock != r.states[j - 1].store.lock && SpendAt(r, j - 1, t) {
        assert i < j - 1 < j && SpendAt(r, j - 1, t);
      }
    }
  }

  /** Between two half-open grants the first token was spent or trialLockTtlMs passed. */
  lemma GrantsAreSeparated(cfg: Config, r: Run, i: nat, t: Token, j: nat, u: Token)
    requires Valid(cfg, r) && i < j < |r.acts| && GrantAt(r, i, t) && GrantAt(r, j, u)
    ensures || (exists k :: i < k < j && SpendAt(r, k, t))
            || r.states[j].store.now >= r.states[i].store.now + cfg.trialLockTtlMs
  {
    LockLastsUntilSpent(cfg, r, i, t, j);
  }

  /** A token that has left the lock never comes back. */
  lemma {:induction false} TokensNeverReturn(cfg: Config, r: Run, i: nat, t: Token, j: nat)
    requires Valid(cfg, r) && i <= j < |r.states|
    requires t < r.states[i].store.nextToken && !Holds(r.states[i], t)
    ensures !Holds(r.states[j], t)
    decreases j
  {
    if i < j {
      TokensNeverReturn(cfg, r, i, t, j - 1);
      LockStep(cfg, r, j - 1);
      EvolvesBetween(cfg, r, i, j - 1);
    }
  }

  /** Each token drives at most one transition. */
  lemma TokenSpentOnce(cfg: Config, r: Run, i: nat, j: nat, t: Token)
    requires Valid(cfg, r) && i < j < |r.acts| && SpendAt(r, i, t)
    ensures !SpendAt(r, j, t)
  {
    InvAt(cfg, r, i);
    EvolvesBetween(cfg, r, i, i + 1);
    TokensNeverReturn(cfg, r, i + 1, t, j);
  }

  /** A report carrying a token that is not in the lock leaves all four keys as they are. */
  lemma SupersededReportChangesNothing(cfg: Config, r: Run, i: nat)
    requires Valid(cfg, r) && i < |r.acts|
    requires var pc := Taken(r, i);
             pc.Resolving? && !Holds(r.states[i], pc.token)
    ensures r.states[i + 1].store == r.states[i].store
  {
    InvAt(cfg, r, i);
    assert Follows(cfg, r, i);
    assert PcInv(cfg, r.states[i].store, Taken(r, i));
  }

  lemma {:induction false} HeldTokenWasGranted(cfg: Config, r: Run, j: nat, t: Token) returns (i: nat)
    requires Valid(cfg, r) && j < |r.states| && Holds(r.states[j], t)
    ensures i < j && GrantAt(r, i, t)
    ensures forall k :: i < k <= j ==> Holds(r.states[k], t)
  {
    LockStep(cfg, r, j - 1);
    if Holds(r.states[j - 1], t) {
      i := HeldTokenWasGranted(cfg, r, j - 1, t);
    } else {
      i := j - 1;
    }
  }

  // ---- when the opening outlives its trial -------------------------------------------------------

  /** Step `k` is the expiry of an open `state`. */
  ghost predicate Lapses(r: Run, k: nat)
    requires k < |r.acts| && |r.states| == |r.acts| + 1
  {
    r.states[k].store.state.Open? && r.states[k + 1].store.state.Absent?
  }

  /** Step `k` is a commit of openIfThresholdStillCrossed, on a counter at or above the threshold. */
  ghost predicate ThresholdOpens(cfg: Config, r: Run, k: nat)
    requires k < |r.acts| && |r.states| == |r.acts| + 1
  {
    && !r.states[k].store.state.Open? && r.states[k + 1].store.state.Open?
    && Taken(r, k).Opening? && Taken(r, k).opening.OpenExec? && FailuresSinceReset(r, k) >= cfg.failureThreshold
  }

  /** Between steps `g` and `j` an open `state` expired and was not opened again. */
  ghost predicate LapsedSince(cfg: Config, r: Run, g: nat, j: nat)
    requires j < |r.states| == |r.acts| + 1
  {
    exists k :: g < k < j && Lapses(r, k) && forall l :: k < l < j ==> !ThresholdOpens(cfg, r, l)
  }

  /** While the lock holds a token, one step changes the opening only by the expiry of `state` or by a
      threshold commit after it. */
  lemma HeldStep(cfg: Config, r: Run, k: nat, t: Token)
    requires Valid(cfg, r) && k < |r.acts| && Holds(r.states[k], t) && Holds(r.states[k + 1], t)
    ensures var a, b := r.states[k].store, r.states[k + 1].store;
            if a.state.Open? then
              if b.state.Open? then b.openedAt == a.openedAt && b.stateExpiresAt == a.stateExpiresAt
              else Lapses(r, k) && a.now >= a.stateExpiresAt
            else !Lapses(r, k) && (b.state.Open? <==> ThresholdOpens(cfg, r, k))
  {
    OnlyThreeTransitions(cfg, r, k);
    InvAt(cfg, r, k);
    assert Follows(cfg, r, k);
    assert PcInv(cfg, r.states[k].store, Taken(r, k));
  }

  /** While the lock holds the token granted at step `i`, the opening it was issued for is in force, unless
      `state` expired meanwhile; it does not before the instant it was due to expire at the grant. */
  lemma {:induction false} LiveLockPinsOpening(cfg: Config, r: Run, i: nat, t: Token, j: nat)
    requires Valid(cfg, r) && i < |r.acts| && GrantAt(r, i, t) && i < j < |r.states|
    requires forall k :: i < k <= j ==> Holds(r.states[k], t)
    requires (forall k :: i < k < j ==> !Lapses(r, k)) || r.states[j].store.now < r.states[i].store.stateExpiresAt
    ensures var a, b := r.states[i].store, r.states[j].store;
            b.state.Open? && b.openedAt == a.openedAt && b.stateExpiresAt == a.stateExpiresAt
    decreases j
  {
    if j == i + 1 {
      LockStep(cfg, r, i);
      InvAt(cfg, r, i);
      assert Follows(cfg, r, i);
    } else {
      EvolvesBetween(cfg, r, j - 1, j);
      LiveLockPinsOpening(cfg, r, i, t, j - 1);
      HeldStep(cfg, r, j - 1, t);
    }
  }

  lemma {:induction false} NotOpenIffLapsed(cfg: Config, r: Run, i: nat, t: Token, j: nat)
    requires Valid(cfg, r) && i < |r.acts| && GrantAt(r, i, t) && i < j < |r.states|
    requires forall k :: i < k <= j ==> Holds(r.states[k], t)
    ensures !r.states[j].store.state.Open? <==> LapsedSince(cfg, r, i, j)
    decreases j
  {
    if j == i + 1 {
      LockStep(cfg, r, i);
    } else {
      NotOpenIffLapsed(cfg, r, i, t, j - 1);
      HeldStep(cfg, r, j - 1, t);
      if LapsedSince(cfg, r, i, j - 1) && !ThresholdOpens(cfg, r, j - 1) {
        var k :| i < k < j - 1 && Lapses(r, k) && forall l :: k < l < j - 1 ==> !ThresholdOpens(cfg, r, l);
        assert forall l :: k < l < j ==> !ThresholdOpens(cfg, r, l);
      }
      if LapsedSince(cfg, r, i, j) && !Lapses(r, j - 1) {
        var k :| i < k < j && Lapses(r, k) && forall l :: k < l < j ==> !ThresholdOpens(cfg, r, l);
        assert i < k < j - 1;
      }
    }
  }

  /** A trial reports on a breaker that is not open if and only if the breaker's `state` key expired while
      the trial held the lock and no threshold commit has opened it since. A report before the instant at
      which `state` was due to expire when the trial was granted meets the opening it was granted for. */
  lemma LateTrialMeetsLapsedState(cfg: Config, r: Run, i: nat, outcome: Outcome) returns (g: nat)
    requires Valid(cfg, r) && i < |r.acts| && TrialReportAt(r, i, outcome)
    ensures g < i && GrantAt(r, g, Taken(r, i).token)
    ensures !r.states[i].store.state.Open? <==> LapsedSince(cfg, r, g, i)
    ensures r.states[i].store.now < r.states[g].store.stateExpiresAt ==>
              r.states[i].store.state.Open? && r.states[i].store.openedAt == r.states[g].store.openedAt
  {
    var t := Taken(r, i).token;
    g := HeldTokenWasGranted(cfg, r, i, t);
    NotOpenIffLapsed(cfg, r, g, t, i);
    if r.states[i].store.now < r.states[g].store.stateExpiresAt {
      LiveLockPinsOpening(cfg, r, g, t, i);
    }
  }

  /** Unless an open `state` has expired, the threshold is the only way from not open to open, the reports
      of trials the only ways to close or re-date. */
  lemma ThresholdAloneOpens(cfg: Config, r: Run, i: nat)
    requires Valid(cfg, r) && i < |r.acts| && forall k :: 0 <= k <= i ==> !Lapses(r, k)
    ensures var a, b := r.states[i].store, r.states[i + 1].store;
            && (!a.state.Open? && b.state.Open? ==> ThresholdOpens(cfg, r, i))
            && (a.state.Open? && !b.state.Open? ==> TrialReportAt(r, i, TrialSucceeded))
            && (a.state.Open? && b.state.Open? && a.openedAt != b.openedAt ==> TrialReportAt(r, i, TrialFailed))
  {
    OnlyThreeTransitions(cfg, r, i);
    InvAt(cfg, r, i);
    assert Follows(cfg, r, i) && !Lapses(r, i);
    if !r.states[i].store.state.Open? && TrialReportAt(r, i, TrialFailed) {
      var g := LateTrialMeetsLapsedState(cfg, r, i, TrialFailed);
    }
  }

  // ---- every answer was true at some instant of its call -----------------------------------------

  ghost predicate Justified(cfg: Config, r: Run, k: nat, answer: Answer)
    requires k < |r.states|
  {
    var st := r.states[k].store;
    match answer
    case AllowedClosed => !st.state.Open?
    case DeniedOpen => st.state.Open? && st.openedAt.Some? && st.now - st.openedAt.value < cfg.cooldownMs
    case Granted(t) =>
      && st.state.Open? && st.CooledDown(cfg) && Holds(r.states[k], t)
      && k > 0 && r.states[k - 1].store.lock.NoLock?
    case DeniedHalfOpen => st.state.Open? && st.CooledDown(cfg) && st.lock.Held?
    case Exhausted => true
  }

  /** What the locals of a checkAndReserve begun at step `i` say about the instants since. */
  ghost predicate Observed(cfg: Config, r: Run, i: nat, j: nat, pc: Pc)
    requires i <= j < |r.states|
  {
    match pc
    case Returned(answer) => exists k :: i < k <= j && Justified(cfg, r, k, answer)
    case Checking(CompareClock(oa)) => oa == 0 || exists k :: i < k <= j && r.states[k].store.openedAt == Some(oa)
    case Claiming(_, ClaimGetOpenedAt(_, open)) => open || exists k :: i < k <= j && !r.states[k].store.state.Open?
    case Claiming(_, ClaimDecide(_, open, oa)) =>
      && (open || exists k :: i < k <= j && !r.states[k].store.state.Open?)
      && (oa == 0 || exists k :: i < k <= j && r.states[k].store.openedAt == Some(oa))
    case _ => pc.Checking? || pc.Claiming?
  }

  /** If a timestamp read during the call is still cooling now, the breaker was open and cooling at
      the instant of that read. */
  lemma CoolingWhenRead(cfg: Config, r: Run, i: nat, j: nat, oa: int)
    requires Valid(cfg, r) && i < j < |r.states|
    requires oa == 0 || exists k :: i < k <= j && r.states[k].store.openedAt == Some(oa)
    requires r.states[j].store.now - oa < cfg.cooldownMs
    ensures exists k :: i < k <= j && Justified(cfg, r, k, DeniedOpen)
  {
    InvAt(cfg, r, j);
    var k :| i < k <= j && r.states[k].store.openedAt == Some(oa);
    InvAt(cfg, r, k);
    EvolvesBetween(cfg, r, k, j);
    assert Justified(cfg, r, k, DeniedOpen);
  }

  lemma {:induction false} LocalsAreObservations(cfg: Config, r: Run, c: ClientId, i: nat, j: nat)
    requires Valid(cfg, r) && i < j < |r.states| && r.acts[i] == Start(c, CheckAndReserve)
    requires PcOf(r.states[i], c).Idle? || PcOf(r.states[i], c).Returned?
    requires forall k :: i < k < j ==> !r.acts[k].By(c) || r.acts[k].Step?
    ensures Observed(cfg, r, i, j, PcOf(r.states[j], c))
    decreases j
  {
    assert Follows(cfg, r, j - 1);
    if j > i + 1 {
      LocalsAreObservations(cfg, r, c, i, j - 1);
      ObservationStep(cfg, r, c, i, j - 1);
    }
  }

  lemma ObservationStep(cfg: Config, r: Run, c: ClientId, i: nat, j: nat)
    requires Valid(cfg, r) && i < j < |r.acts|
    requires Observed(cfg, r, i, j, PcOf(r.states[j], c))
    requires !r.acts[j].By(c) || r.acts[j].Step?
    ensures Observed(cfg, r, i, j + 1, PcOf(r.states[j + 1], c))
  {
    var m, m' := r.states[j], r.states[j + 1];
    var pc, pc' := PcOf(m, c), PcOf(m', c);
    assert Follows(cfg, r, j);
    InvAt(cfg, r, j);
    assert PcInv(cfg, m.store, pc);
    if r.acts[j] != Step(c) {
      assert pc' == pc;
    } else {
      match pc {
        case Checking(CompareClock(oa)) =>
          if m.store.now - oa < cfg.cooldownMs { CoolingWhenRead(cfg, r, i, j, oa); }
        case Claiming(_, ClaimDecide(_, open, oa)) =>
          if !open {
            var k :| i < k <= j && !r.states[k].store.state.Open?;
            assert Justified(cfg, r, k, AllowedClosed);
          } else if m.store.now - oa < cfg.cooldownMs {
            CoolingWhenRead(cfg, r, i, j, oa);
          }
        case Checking(ReadState) => assert pc'.Returned? ==> Justified(cfg, r, j + 1, AllowedClosed);
        case Checking(ReadOpenedAt) => assert r.states[j + 1].store == m.store;
        case Claiming(_, ClaimGetState(_)) => assert r.states[j + 1].store == m.store;
        case Claiming(_, ClaimGetOpenedAt(_, _)) => assert r.states[j + 1].store == m.store;
        case Claiming(_, ClaimExec(_)) => assert pc'.Returned? ==> Justified(cfg, r, j + 1, pc'.answer);
        case Claiming(_, ClaimWatch) => assert pc'.Returned? ==> Justified(cfg, r, j + 1, Exhausted);
        case _ =>
      }
    }
  }

  /** Despite its separate reads, the answer of checkAndReserve is true of the breaker at some
      instant between the call's start and its return; only the retry-exhausted answer claims
      nothing. */
  lemma AnswersAreTrueInsideTheCall(cfg: Config, r: Run, c: ClientId, i: nat, j: nat, answer: Answer)
    requires Valid(cfg, r) && i < j < |r.states| && r.acts[i] == Start(c, CheckAndReserve)
    requires PcOf(r.states[i], c).Idle? || PcOf(r.states[i], c).Returned?
    requires forall k :: i < k < j ==> !r.acts[k].By(c) || r.acts[k].Step?
    requires PcOf(r.states[j], c) == Returned(answer)
    ensures exists k :: i < k <= j && Justified(cfg, r, k, answer)
  {
    LocalsAreObservations(cfg, r, c, i, j);
  }

  /** `state` is "open" exactly when `openedAt` is present, and it is never dated in the future. */
  lemma OpenExactlyWhenDated(cfg: Config, r: Run, i: nat)
    requires Valid(cfg, r) && i < |r.states|
    ensures var st := r.states[i].store;
            (st.state.Open? <==> st.openedAt.Some?) && (st.openedAt.Some? ==> st.openedAt.value <= st.now)
  {
    InvAt(cfg, r, i);
  }

  // ---- two runs that show where the promises end -------------------------------------------------

  ghost function Last(r: Run): Machine
    requires |r.states| > 0
  {
    r.states[|r.states| - 1]
  }

  /** A valid run followed by one more step. */
  lemma Extend(cfg: Config, r: Run, a: Action) returns (r': Run)
    requires Valid(cfg, r)
    ensures Valid(cfg, r') && r'.acts == r.acts + [a] && r'.states == r.states + [Last(r')]
    ensures Last(r') == Next(cfg, Last(r), a)
  {
    r' := Run(r.states + [Next(cfg, Last(r), a)], r.acts + [a]);
    forall i: nat | i < |r'.acts| ensures Follows(cfg, r', i) {
      assert i < |r.acts| ==> Follows(cfg, r, i);
    }
  }

  /** One step of client `c`, seen through its own place and the store. */
  lemma Advance(cfg: Config, r: Run, c: ClientId) returns (r': Run)
    requires Valid(cfg, r)
    ensures Valid(cfg, r') && r'.acts == r.acts + [Step(c)] && r'.states == r.states + [Last(r')]
    ensures Last(r').store == StoreAfter(cfg, Last(r).store, PcOf(Last(r), c))
    ensures PcOf(Last(r'), c) == PcAfter(cfg, Last(r).store, PcOf(Last(r), c))
    ensures forall d :: d != c ==> PcOf(Last(r'), d) == PcOf(Last(r), d)
  {
    r' := Extend(cfg, r, Step(c));
  }

  /** A client that is let run alone from its normal-path failure up to the EXEC that opens. */
  lemma FailUpToExec(cfg: Config, r: Run, c: ClientId) returns (r': Run)
    requires Valid(cfg, r) && cfg.failureThreshold == 1
    requires !Last(r).store.state.Open? && PcOf(Last(r), c).Idle?
    ensures Valid(cfg, r') && r.states <= r'.states && r.acts <= r'.acts
    ensures PcOf(Last(r'), c) == Opening(0, OpenExec(Last(r').store.version, Last(r').store.now))
    ensures Last(r').store.failures == Counter(CountOf(Last(r).store.failures) + 1, Some(Last(r).store.now + cfg.failureCounterTtlMs))
    ensures Last(r').store.(failures := NoCounter, version := 0) == Last(r).store.(failures := NoCounter, version := 0)
    ensures forall d :: d != c ==> PcOf(Last(r'), d) == PcOf(Last(r), d)
  {
    r' := Extend(cfg, r, Start(c, RecordFailure(None)));
    r' := Advance(cfg, r', c);
    r' := Advance(cfg, r', c);
    assert PcOf(Last(r'), c) == Opening(0, OpenWatch);
    r' := Advance(cfg, r', c);
    r' := Advance(cfg, r', c);
    r' := Advance(cfg, r', c);
    r' := Advance(cfg, r', c);
  }

  /** A client that is let run alone through a checkAndReserve that is granted the trial. */
  lemma CheckUpToGrant(cfg: Config, r: Run, c: ClientId) returns (r': Run)
    requires Valid(cfg, r) && PcOf(Last(r), c).Idle?
    requires var st := Last(r).store; st.state.Open? && st.CooledDown(cfg) && st.lock.NoLock?
    ensures Valid(cfg, r') && r.states <= r'.states && r.acts <= r'.acts
    ensures var st, st' := Last(r).store, Last(r').store;
            st' == st.(lock := Held(st.nextToken, st.now + cfg.trialLockTtlMs), nextToken := st.nextToken + 1, version := st.version + 1)
    ensures |r'.acts| > |r.acts| && GrantAt(r', |r'.acts| - 1, Last(r).store.nextToken)
    ensures r'.states[|r'.acts| - 1].store == Last(r).store
    ensures forall d :: d != c ==> PcOf(Last(r'), d) == PcOf(Last(r), d)
    ensures PcOf(Last(r'), c) == Returned(Granted(Last(r).store.nextToken))
  {
    r' := Extend(cfg, r, Start(c, CheckAndReserve));
    r' := Advance(cfg, r', c);
    r' := Advance(cfg, r', c);
    r' := Advance(cfg, r', c);
    r' := Advance(cfg, r', c);
    r' := Advance(cfg, r', c);
    r' := Advance(cfg, r', c);
    r' := Advance(cfg, r', c);
    r' := Advance(cfg, r', c);
  }

  /** A client that is let run alone from the start of a trial report up to its EXEC. */
  lemma ReportUpToExec(cfg: Config, r: Run, c: ClientId, t: Token) returns (r': Run)
    requires Valid(cfg, r) && PcOf(Last(r), c).Returned? && Holds(Last(r), t)
    ensures Valid(cfg, r') && r.states <= r'.states && r.acts <= r'.acts
    ensures PcOf(Last(r'), c) == Resolving(t, TrialFailed, 0, ResolveExec(Last(r').store.version, Last(r').store.now))
    ensures Last(r').store == Last(r).store
  {
    r' := Extend(cfg, r, Start(c, RecordFailure(Some(t))));
    r' := Advance(cfg, r', c);
    r' := Advance(cfg, r', c);
    r' := Advance(cfg, r', c);
  }

  /** A step of the environment leaves every client where it is. */
  lemma Elapse(cfg: Config, r: Run, a: Action) returns (r': Run)
    requires Valid(cfg, r) && (a.Tick? || a.ExpireState? || a.ExpireFailures? || a.ExpireLock?)
    ensures Valid(cfg, r') && r'.acts == r.acts + [a] && r'.states == r.states + [Last(r')]
    ensures Last(r').calls == Last(r).calls && Last(r').store == EnvStep(Last(r).store, a)
  {
    r' := Extend(cfg, r, a);
  }

  function Fresh(now: int): Machine {
    Machine(Store(now, Absent, 0, None, NoCounter, NoLock, 0, 0), map[])
  }

  /** The cooldown runs from the clock reading taken before the opening's EXEC. A grant comes at
      least cooldownMs after that reading, hence at least cooldownMs minus the reading's age after
      the commit. */
  lemma CooldownFromCommit(cfg: Config, r: Run, i: nat, j: nat, t: Token)
    requires Valid(cfg, r) && i < j < |r.acts|
    requires r.states[i].store.openedAt != r.states[i + 1].store.openedAt && r.states[i + 1].store.openedAt.Some?
    requires GrantAt(r, j, t) && r.states[j].store.openedAt == r.states[i + 1].store.openedAt
    ensures var age := r.states[i].store.now - r.states[i + 1].store.openedAt.value;
            age >= 0 && r.states[j].store.now - r.states[i].store.now >= cfg.cooldownMs - age
  {
    GrantsWaitForCooldown(cfg, r, j, t);
    InvAt(cfg, r, i + 1);
    InvAt(cfg, r, i);
    assert Follows(cfg, r, i);
    assert PcInv(cfg, r.states[i].store, Taken(r, i));
  }

  /** CooldownFromCommit is tight: for every cooldown there is a run in which a trial is granted at
      the very millisecond the opening was committed. */
  lemma GrantCanFollowOpeningAtOnce(cooldown: nat) returns (cfg: Config, r: Run, i: nat, j: nat, t: Token)
    ensures cfg.cooldownMs == cooldown && Valid(cfg, r) && i < j < |r.acts|
    ensures !r.states[i].store.state.Open? && r.states[i + 1].store.state.Open?
    ensures GrantAt(r, j, t) && r.states[j].store.now == r.states[i].store.now
    ensures r.states[j].store.openedAt == r.states[i + 1].store.openedAt
  {
    cfg := Config(1, cooldown, 10_000, cooldown + 1, 86_400_000);
    r := Run([Fresh(cooldown)], []);
    r := FailUpToExec(cfg, r, 1);
    assert PcOf(Last(r), 2).Idle?;
    r := Extend(cfg, r, Tick(cooldown));
    assert PcOf(Last(r), 2).Idle?;
    var before := r;
    i := |r.acts|;
    r := Advance(cfg, r, 1);
    var after := r;
    assert after.states[i] == Last(before) && after.states[i + 1] == Last(after);
    r := CheckUpToGrant(cfg, r, 2);
    assert r.states[i] == after.states[i] && r.states[i + 1] == after.states[i + 1];
    j := |r.acts| - 1;
    t := 0;
  }

  /** The case of LateTrialMeetsLapsedState is real: when `state` expires under a held trial lock,
      that trial's failure opens a breaker that is not open, with no failure counted against it. */
  lemma LateTrialCanOpen() returns (cfg: Config, r: Run, i: nat)
    ensures Valid(cfg, r) && i < |r.acts| && TrialReportAt(r, i, TrialFailed)
    ensures !r.states[i].store.state.Open? && r.states[i + 1].store.state.Open?
    ensures FailuresSinceReset(r, i) < cfg.failureThreshold
  {
    cfg := Config(1, 0, 10, 5, 5);
    r := Run([Fresh(0)], []);
    r := FailUpToExec(cfg, r, 1);
    assert PcOf(Last(r), 2).Idle?;
    r := Advance(cfg, r, 1);
    r := CheckUpToGrant(cfg, r, 2);
    r := Elapse(cfg, r, Tick(5));
    r := Elapse(cfg, r, ExpireState);
    r := Elapse(cfg, r, ExpireFailures);
    r := ReportUpToExec(cfg, r, 2, 0);
    var before := r;
    i := |r.acts|;
    r := Advance(cfg, r, 2);
    assert r.states[i] == Last(before) && r.states[i + 1] == Last(r);
    CounterCountsFailures(cfg, r, i);
  }

  // ---- how every report ends ---------------------------------------------------------------------

  /** The version watched by a client inside a transaction. */
  function Watched(pc: Pc): Option<nat> {
    match pc
    case Claiming(_, ClaimGetState(v)) => Some(v)
    case Claiming(_, ClaimGetOpenedAt(v, _)) => Some(v)
    case Claiming(_, ClaimDecide(v, _, _)) => Some(v)
    case Claiming(_, ClaimExec(v)) => Some(v)
    case Resolving(_, _, _, ResolveGet(v)) => Some(v)
    case Resolving(_, _, _, ResolveStamp(v)) => Some(v)
    case Resolving(_, _, _, ResolveExec(v, _)) => Some(v)
    case Closing(_, CloseGet(v)) => Some(v)
    case Closing(_, CloseExec(v)) => Some(v)
    case Opening(_, OpenGetState(v)) => Some(v)
    case Opening(_, OpenGetFailures(v, _)) => Some(v)
    case Opening(_, OpenDecide(v, _, _)) => Some(v)
    case Opening(_, OpenExec(v, _)) => Some(v)
    case _ => None
  }

  predicate AtExec(pc: Pc) {
    || (pc.Claiming? && pc.claim.ClaimExec?) || (pc.Resolving? && pc.resolve.ResolveExec?)
    || (pc.Closing? && pc.close.CloseExec?) || (pc.Opening? && pc.opening.OpenExec?)
  }

  /** Step `k` is an EXEC of client `c` that meets keys written or expired since its WATCH. */
  ghost predicate AbortsAt(r: Run, c: ClientId, k: nat)
    requires k < |r.acts| < |r.states|
  {
    var pc := PcOf(r.states[k], c);
    r.acts[k] == Step(c) && AtExec(pc) && Watched(pc) != Some(r.states[k].store.version)
  }

  ghost function Aborts(r: Run, c: ClientId, i: nat, j: nat): nat
    requires i <= j <= |r.acts| < |r.states|
    decreases j
  {
    if i == j then 0 else Aborts(r, c, i, j - 1) + if AbortsAt(r, c, j - 1) then 1 else 0
  }

  /** Step `i` begins this call of client `c`, which by step `j` has neither crashed nor begun another. */
  ghost predicate Calls(r: Run, c: ClientId, call: Call, i: nat, j: nat) {
    && i < j < |r.states| == |r.acts| + 1 && r.acts[i] == Start(c, call)
    && (PcOf(r.states[i], c).Idle? || PcOf(r.states[i], c).Returned?)
    && forall k :: i < k < j ==> !r.acts[k].By(c) || r.acts[k].Step?
  }

  function AttemptOf(pc: Pc): nat {
    match pc
    case Claiming(n, _) => n
    case Resolving(_, _, n, _) => n
    case Closing(n, _) => n
    case Opening(n, _) => n
    case _ => 0
  }

  /** A call has made as many attempts as its EXECs were aborted, and only after MAX_OPTIMISTIC_RETRIES
      aborts does checkAndReserve give the answer that claims nothing. */
  lemma {:induction false} AttemptsAreAborts(cfg: Config, r: Run, c: ClientId, call: Call, i: nat, j: nat)
    requires Valid(cfg, r) && Calls(r, c, call, i, j)
    ensures var pc := PcOf(r.states[j], c);
            && (!pc.Idle? && !pc.Returned? ==> Aborts(r, c, i, j) == AttemptOf(pc) <= MAX_OPTIMISTIC_RETRIES)
            && (Watched(pc).Some? ==> AttemptOf(pc) < MAX_OPTIMISTIC_RETRIES)
            && (pc == Returned(Exhausted) ==> Aborts(r, c, i, j) == MAX_OPTIMISTIC_RETRIES)
    decreases j
  {
    assert Follows(cfg, r, j - 1);
    assert Aborts(r, c, i, i) == 0;
    if j > i + 1 {
      AttemptsAreAborts(cfg, r, c, call, i, j - 1);
    }
  }

  /** Between steps `i` and `j` nobody but client `c` writes a key, and none expires. */
  ghost predicate Undisturbed(r: Run, c: ClientId, i: nat, j: nat)
    requires j < |r.states| == |r.acts| + 1
  {
    forall k :: i <= k < j && !r.acts[k].By(c) ==> r.states[k + 1].store.version == r.states[k].store.version
  }

  /** A call that nobody disturbs is never aborted. */
  lemma {:induction false} UndisturbedNeverAborts(cfg: Config, r: Run, c: ClientId, call: Call, i: nat, j: nat)
    requires Valid(cfg, r) && Calls(r, c, call, i, j) && Undisturbed(r, c, i, j)
    ensures Aborts(r, c, i, j) == 0
    ensures var v := Watched(PcOf(r.states[j], c)); v.Some? ==> v.value == r.states[j].store.version
    decreases j
  {
    assert Follows(cfg, r, j - 1);
    assert Aborts(r, c, i, i) == 0;
    if j > i + 1 {
      UndisturbedNeverAborts(cfg, r, c, call, i, j - 1);
    }
  }

  /** One commit closed the breaker: the failures are forgotten, and the opening with them. */
  ghost predicate Closes(cfg: Config, st: Store, st': Store) {
    && st'.state.Closed? && st'.stateExpiresAt == st.now + cfg.stateTtlMs && st'.openedAt.None? && st'.failures.NoCounter?
    && st'.now == st.now && st'.version > st.version && st'.nextToken == st.nextToken
  }

  /** One commit opened the breaker, dated by a clock reading; the failures stay counted. */
  ghost predicate Opens(cfg: Config, st: Store, st': Store, stamp: int) {
    && st'.state.Open? && st'.stateExpiresAt == st.now + cfg.stateTtlMs && st'.openedAt == Some(stamp) && st'.failures == st.failures
    && st'.now == st.now && st'.version > st.version && st'.nextToken == st.nextToken
  }

  /** The store gives this report nothing to do. */
  ghost predicate Needless(cfg: Config, call: Call, st: Store) {
    match call
    case RecordSuccess(None) => st.state.Open?
    case RecordFailure(None) => st.state.Open? || CountOf(st.failures) < cfg.failureThreshold
    case RecordSuccess(Some(t)) => !st.HeldBy(t)
    case RecordFailure(Some(t)) => !st.HeldBy(t)
    case CheckAndReserve => false
  }

  /** What a report does when it takes effect, an opening being dated between `since` and now. */
  ghost predicate TakesEffect(cfg: Config, call: Call, st: Store, st': Store, since: int) {
    match call
    case RecordSuccess(None) => Closes(cfg, st, st') && st'.lock == st.lock
    case RecordSuccess(Some(t)) => Closes(cfg, st, st') && st.HeldBy(t) && st'.lock.NoLock?
    case RecordFailure(None) =>
      && st'.openedAt.Some? && Opens(cfg, st, st', st'.openedAt.value) && since <= st'.openedAt.value <= st.now && st'.lock == st.lock
    case RecordFailure(Some(t)) =>
      && st'.openedAt.Some? && Opens(cfg, st, st', st'.openedAt.value) && since <= st'.openedAt.value <= st.now
      && st.HeldBy(t) && st'.lock.NoLock?
    case CheckAndReserve => false
  }

  ghost predicate EffectAt(cfg: Config, r: Run, c: ClientId, call: Call, i: nat, k: nat)
    requires i <= k < |r.acts| && |r.states| == |r.acts| + 1
  {
    r.acts[k] == Step(c) && TakesEffect(cfg, call, r.states[k].store, r.states[k + 1].store, r.states[i].store.now)
      && !Needless(cfg, call, r.states[k].store)
  }

  /** Step `k` of client `c` counts one more failure. */
  ghost predicate CountsAt(r: Run, c: ClientId, k: nat)
    requires k < |r.acts| && |r.states| == |r.acts| + 1
  {
    r.acts[k] == Step(c) && CountOf(r.states[k + 1].store.failures) == CountOf(r.states[k].store.failures) + 1
  }

  /** Step `k` of client `c` lets the counter, if it is still there, live failureCounterTtlMs from then. */
  ghost predicate RenewsAt(cfg: Config, r: Run, c: ClientId, k: nat)
    requires k < |r.acts| && |r.states| == |r.acts| + 1
  {
    var a, b := r.states[k].store, r.states[k + 1].store;
    && r.acts[k] == Step(c) && CountOf(b.failures) == CountOf(a.failures)
    && (a.failures.Counter? ==> b.failures.Counter? && b.failures.expiresAt == Some(a.now + cfg.failureCounterTtlMs))
  }

  /** A failure reported without a token is counted, and the counter's TTL renewed after that, before
      anything is decided. */
  ghost predicate Counted(cfg: Config, r: Run, c: ClientId, i: nat, j: nat, pc: Pc)
    requires i <= j < |r.states| == |r.acts| + 1
  {
    && (!pc.FailIncr? ==> exists k :: i < k < j && CountsAt(r, c, k))
    && (!pc.FailIncr? && !pc.FailExpire? ==> exists k, l :: i < k < l < j && CountsAt(r, c, k) && RenewsAt(cfg, r, c, l))
  }

  lemma {:induction false} FailuresAreCounted(cfg: Config, r: Run, c: ClientId, i: nat, j: nat)
    requires Valid(cfg, r) && Calls(r, c, RecordFailure(None), i, j)
    ensures Counted(cfg, r, c, i, j, PcOf(r.states[j], c))
    decreases j
  {
    assert Follows(cfg, r, j - 1);
    if j > i + 1 {
      FailuresAreCounted(cfg, r, c, i, j - 1);
      var pc := PcOf(r.states[j - 1], c);
      if r.acts[j - 1] == Step(c) && pc.FailIncr? {
        assert CountsAt(r, c, j - 1);
      } else if r.acts[j - 1] == Step(c) && pc.FailExpire? {
        assert RenewsAt(cfg, r, c, j - 1);
      }
    }
  }

  /** State `k` gives the report nothing to do; for a failure without a token, once it has been counted. */
  ghost predicate NeedlessAt(cfg: Config, r: Run, c: ClientId, call: Call, i: nat, k: nat)
    requires k < |r.states| == |r.acts| + 1
  {
    Needless(cfg, call, r.states[k].store) && (call == RecordFailure(None) ==> exists l :: i < l < k && CountsAt(r, c, l))
  }

  ghost predicate SeenNeedless(cfg: Config, r: Run, c: ClientId, call: Call, i: nat, j: nat)
    requires j < |r.states| == |r.acts| + 1
  {
    exists k :: i < k <= j && NeedlessAt(cfg, r, c, call, i, k)
  }

  /** Where a report stands, and what its locals say about the instants since it began. */
  ghost predicate Reporting(cfg: Config, r: Run, c: ClientId, call: Call, i: nat, j: nat, pc: Pc)
    requires i <= j < |r.states| == |r.acts| + 1
  {
    match pc
    case Resolving(t, out, _, p) =>
      && call == (if out.TrialSucceeded? then RecordSuccess(Some(t)) else RecordFailure(Some(t)))
      && (p.ResolveExec? ==> r.states[i].store.now <= p.stamp)
    case Closing(_, _) => call == RecordSuccess(None)
    case FailIncr => call == RecordFailure(None)
    case FailExpire(n) => call == RecordFailure(None) && (n < cfg.failureThreshold ==> SeenNeedless(cfg, r, c, call, i, j))
    case Opening(_, p) =>
      && call == RecordFailure(None)
      && (p.OpenGetFailures? && p.readOpen ==> SeenNeedless(cfg, r, c, call, i, j))
      && (p.OpenDecide? && (p.readOpen || p.readCount < cfg.failureThreshold) ==> SeenNeedless(cfg, r, c, call, i, j))
      && (p.OpenExec? ==> r.states[i].store.now <= p.stamp)
    case _ => pc.Idle?
  }

  /** A report that has ended took effect, or met a store that gave it nothing to do, or was aborted
      MAX_OPTIMISTIC_RETRIES times. */
  ghost predicate Concluded(cfg: Config, r: Run, c: ClientId, call: Call, i: nat, j: nat)
    requires i <= j < |r.states| == |r.acts| + 1
  {
    || (exists k :: i <= k < j && EffectAt(cfg, r, c, call, i, k))
    || SeenNeedless(cfg, r, c, call, i, j)
    || Aborts(r, c, i, j) == MAX_OPTIMISTIC_RETRIES
  }

  lemma ConcludedStays(cfg: Config, r: Run, c: ClientId, call: Call, i: nat, j: nat)
    requires Valid(cfg, r) && i <= j < |r.acts| && Concluded(cfg, r, c, call, i, j) && !AbortsAt(r, c, j)
    ensures Concluded(cfg, r, c, call, i, j + 1)
  {
    if k :| i <= k < j && EffectAt(cfg, r, c, call, i, k) {
      assert EffectAt(cfg, r, c, call, i, k);
    } else if SeenNeedless(cfg, r, c, call, i, j) {
      NeedlessStays(cfg, r, c, call, i, j);
    }
  }

  lemma NeedlessStays(cfg: Config, r: Run, c: ClientId, call: Call, i: nat, j: nat)
    requires i <= j < |r.acts| == |r.states| - 1 && SeenNeedless(cfg, r, c, call, i, j)
    ensures SeenNeedless(cfg, r, c, call, i, j + 1)
  {
    var k :| i < k <= j && NeedlessAt(cfg, r, c, call, i, k);
  }

  /** Step `j` is the next one of a report that is under way. */
  ghost predicate Goes(cfg: Config, r: Run, c: ClientId, call: Call, i: nat, j: nat) {
    && Valid(cfg, r) && Calls(r, c, call, i, j) && j < |r.acts| && r.acts[j] == Step(c)
    && Reporting(cfg, r, c, call, i, j, PcOf(r.states[j], c)) && !PcOf(r.states[j], c).Idle?
  }

  ghost predicate Went(cfg: Config, r: Run, c: ClientId, call: Call, i: nat, j: nat)
    requires i <= j < |r.states| == |r.acts| + 1
  {
    Reporting(cfg, r, c, call, i, j, PcOf(r.states[j], c)) && (PcOf(r.states[j], c).Idle? ==> Concluded(cfg, r, c, call, i, j))
  }

  lemma TrialReportStep(cfg: Config, r: Run, c: ClientId, call: Call, i: nat, j: nat)
    requires Goes(cfg, r, c, call, i, j) && PcOf(r.states[j], c).Resolving?
    ensures Went(cfg, r, c, call, i, j + 1)
  {
    var pc := PcOf(r.states[j], c);
    assert Follows(cfg, r, j);
    InvAt(cfg, r, j);
    EvolvesBetween(cfg, r, i, j);
    AttemptsAreAborts(cfg, r, c, call, i, j);
    assert PcInv(cfg, r.states[j].store, pc);
    if NeedlessAt(cfg, r, c, call, i, j) {
      assert SeenNeedless(cfg, r, c, call, i, j + 1);
    } else if AtExec(pc) && !AbortsAt(r, c, j) {
      assert EffectAt(cfg, r, c, call, i, j);
    }
  }

  lemma SuccessReportStep(cfg: Config, r: Run, c: ClientId, call: Call, i: nat, j: nat)
    requires Goes(cfg, r, c, call, i, j) && PcOf(r.states[j], c).Closing?
    ensures Went(cfg, r, c, call, i, j + 1)
  {
    var pc := PcOf(r.states[j], c);
    assert Follows(cfg, r, j);
    InvAt(cfg, r, j);
    AttemptsAreAborts(cfg, r, c, call, i, j);
    assert PcInv(cfg, r.states[j].store, pc);
    if NeedlessAt(cfg, r, c, call, i, j) {
      assert SeenNeedless(cfg, r, c, call, i, j + 1);
    } else if AtExec(pc) && !AbortsAt(r, c, j) {
      assert EffectAt(cfg, r, c, call, i, j);
    }
  }

  lemma CountingStep(cfg: Config, r: Run, c: ClientId, call: Call, i: nat, j: nat)
    requires Goes(cfg, r, c, call, i, j) && (PcOf(r.states[j], c).FailIncr? || PcOf(r.states[j], c).FailExpire?)
    ensures Went(cfg, r, c, call, i, j + 1)
  {
    assert Follows(cfg, r, j);
    if SeenNeedless(cfg, r, c, call, i, j) { NeedlessStays(cfg, r, c, call, i, j); }
    if PcOf(r.states[j], c).FailIncr? {
      assert CountsAt(r, c, j);
      if NeedlessAt(cfg, r, c, call, i, j + 1) {
        assert SeenNeedless(cfg, r, c, call, i, j + 1);
      }
    }
  }

  lemma OpeningStep(cfg: Config, r: Run, c: ClientId, call: Call, i: nat, j: nat)
    requires Goes(cfg, r, c, call, i, j) && PcOf(r.states[j], c).Opening?
    ensures Went(cfg, r, c, call, i, j + 1)
  {
    var pc := PcOf(r.states[j], c);
    assert Follows(cfg, r, j);
    InvAt(cfg, r, j);
    EvolvesBetween(cfg, r, i, j);
    AttemptsAreAborts(cfg, r, c, call, i, j);
    FailuresAreCounted(cfg, r, c, i, j);
    assert PcInv(cfg, r.states[j].store, pc);
    if SeenNeedless(cfg, r, c, call, i, j) { NeedlessStays(cfg, r, c, call, i, j); }
    if NeedlessAt(cfg, r, c, call, i, j) {
      assert SeenNeedless(cfg, r, c, call, i, j + 1);
    } else if AtExec(pc) && !AbortsAt(r, c, j) {
      assert EffectAt(cfg, r, c, call, i, j);
    }
  }

  lemma ReportStep(cfg: Config, r: Run, c: ClientId, call: Call, i: nat, j: nat)
    requires Goes(cfg, r, c, call, i, j)
    ensures Went(cfg, r, c, call, i, j + 1)
  {
    match PcOf(r.states[j], c) {
      case Resolving(_, _, _, _) => TrialReportStep(cfg, r, c, call, i, j);
      case Closing(_, _) => SuccessReportStep(cfg, r, c, call, i, j);
      case Opening(_, _) => OpeningStep(cfg, r, c, call, i, j);
      case FailIncr => CountingStep(cfg, r, c, call, i, j);
      case FailExpire(_) => CountingStep(cfg, r, c, call, i, j);
      case _ =>
    }
  }

  /** Every report takes effect in one commit, or meets at some instant within it a store that gives it
      nothing to do, or is aborted MAX_OPTIMISTIC_RETRIES times, which takes somebody else's writes
      (UndisturbedNeverAborts). */
  lemma {:induction false} ReportsConclude(cfg: Config, r: Run, c: ClientId, call: Call, i: nat, j: nat)
    requires Valid(cfg, r) && Calls(r, c, call, i, j) && !call.CheckAndReserve?
    ensures Reporting(cfg, r, c, call, i, j, PcOf(r.states[j], c))
    ensures PcOf(r.states[j], c).Idle? ==> Concluded(cfg, r, c, call, i, j)
    decreases j
  {
    assert Follows(cfg, r, j - 1);
    if j > i + 1 {
      ReportsConclude(cfg, r, c, call, i, j - 1);
      var pc := PcOf(r.states[j - 1], c);
      if r.acts[j - 1] == Step(c) && !pc.Idle? {
        ReportStep(cfg, r, c, call, i, j - 1);
      } else {
        assert PcOf(r.states[j], c) == pc;
        if SeenNeedless(cfg, r, c, call, i, j - 1) { NeedlessStays(cfg, r, c, call, i, j - 1); }
        if pc.Idle? { ConcludedStays(cfg, r, c, call, i, j - 1); }
      }
    }
  }

  // ---- the calls as written ----------------------------------------------------------------------

  /** How a transaction ended: its EXEC committed, it found nothing to do, or every retry was aborted. */
  datatype Ended = Committed | Declined | GaveUp

  /** One process's view of the breaker. Before each of its own commands, every other client and the
      environment may take any number of steps: `others` is arbitrary. The ghost `run` records the
      whole history, and the methods are proved to take exactly the protocol's steps in it. */
  class RedisCircuitBreaker {
    const cfg: Config
    const me: ClientId
    const others: nat -> seq<Action>
    var redis: Machine
    var turn: nat
    ghost var run: Run
    ghost var seen: Store

    ghost predicate Ok()
      reads this
    {
      Valid(cfg, run) && redis == Last(run)
    }

    ghost predicate Busy(b: nat, call: Call)
      reads this
    {
      Ok() && Calls(run, me, call, b, |run.acts|)
    }

    function At(): Pc
      reads this
    {
      PcOf(redis, me)
    }

    constructor (cfg: Config, me: ClientId, others: nat -> seq<Action>, start: Machine)
      requires Init(cfg, start)
      ensures Ok() && redis == start && this.cfg == cfg && this.me == me && this.others == others
    {
      this.cfg, this.me, this.others, redis, turn := cfg, me, others, start, 0;
      run, seen := Run([start], []), start.store;
    }

    method Take(a: Action)
      requires Ok()
      modifies this`redis, this`run
      ensures Ok() && redis == Next(cfg, old(redis), a)
      ensures run == Run(old(run).states + [redis], old(run).acts + [a])
    {
      redis := Next(cfg, redis, a);
      run := Extend(cfg, run, a);
    }

    method Begin(call: Call)
      requires Ok() && (At().Idle? || At().Returned?)
      modifies this
      ensures Busy(|old(run).acts|, call) && At() == Entry(call)
    {
      Take(Start(me, call));
    }

    method Others(ghost b: nat, ghost call: Call)
      requires Busy(b, call)
      modifies this`redis, this`turn, this`run
      ensures Busy(b, call) && At() == old(At())
    {
      var acts := others(turn);
      turn := turn + 1;
      for i := 0 to |acts|
        invariant Busy(b, call) && At() == old(At())
      {
        if !acts[i].By(me) {
          Take(acts[i]);
        }
      }
    }

    /** This process's next command, after whatever the others do first. `seen` is the store the
        command meets. */
    method Command(ghost b: nat, ghost call: Call)
      requires Busy(b, call)
      modifies this
      ensures Busy(b, call) && redis.store == StoreAfter(cfg, seen, old(At())) && At() == PcAfter(cfg, seen, old(At()))
      ensures PcInv(cfg, seen, old(At()))
    {
      Others(b, call);
      seen := redis.store;
      InvAt(cfg, run, |run.acts|);
      assert PcInv(cfg, seen, At());
      Take(Step(me));
    }

    /** A grant takes the free lock of an open, cooled breaker and changes nothing else; every other answer
        changes nothing. */
    method TryClaimTrial(ghost b: nat, ghost call: Call) returns (answer: Answer)
      requires Busy(b, call) && At() == Claiming(0, ClaimWatch)
      modifies this
      ensures Busy(b, call) && At() == Returned(answer)
      ensures answer.Granted? ==>
                && seen.state.Open? && seen.CooledDown(cfg) && seen.lock.NoLock? && answer.token == seen.nextToken
                && redis.store == seen.(lock := Held(answer.token, seen.now + cfg.trialLockTtlMs),
                                        nextToken := seen.nextToken + 1, version := seen.version + 1)
      ensures !answer.Granted? ==> redis.store == seen
    {
      for attempt := 0 to MAX_OPTIMISTIC_RETRIES
        invariant Busy(b, call) && At() == Claiming(attempt, ClaimWatch)
      {
        Command(b, call);
        var v := redis.store.version;
        Command(b, call);
        var currentState := redis.store.state;
        Command(b, call);
        var currentOpenedAt := redis.store.openedAt.GetOr(0);
        Command(b, call);
        if !currentState.Open? {
          return AllowedClosed;
        }
        if redis.store.now - currentOpenedAt < cfg.cooldownMs {
          return DeniedOpen;
        }
        assert At() == Claiming(attempt, ClaimExec(v));
        Command(b, call);
        if At().Returned? {
          return At().answer;
        }
      }
      Command(b, call);
      return Exhausted;
    }

    /** The answer is true of the breaker at some instant of this call; only after MAX_OPTIMISTIC_RETRIES
        aborted transactions does it claim nothing. */
    method CheckAndReserve() returns (answer: Answer)
      requires Ok() && (At().Idle? || At().Returned?)
      modifies this
      ensures Busy(|old(run).acts|, Call.CheckAndReserve) && At() == Returned(answer)
      ensures exists k :: |old(run).acts| < k < |run.states| && Justified(cfg, run, k, answer)
      ensures answer == Exhausted ==> Aborts(run, me, |old(run).acts|, |run.acts|) == MAX_OPTIMISTIC_RETRIES
    {
      ghost var b, call := |run.acts|, Call.CheckAndReserve;
      Begin(Call.CheckAndReserve);
      Command(b, call);
      if !redis.store.state.Open? {
        answer := AllowedClosed;
      } else {
        Command(b, call);
        var openedAt := redis.store.openedAt.GetOr(0);
        Command(b, call);
        if redis.store.now - openedAt < cfg.cooldownMs {
          answer := DeniedOpen;
        } else {
          answer := TryClaimTrial(b, call);
        }
      }
      AnswersAreTrueInsideTheCall(cfg, run, me, b, |run.acts|, answer);
      AttemptsAreAborts(cfg, run, me, call, b, |run.acts|);
    }

    /** The outcome is applied, and the lock freed, in one commit that meets the token in the lock; without
        such a commit nothing changes. A reopening is dated by a clock reading of this call. */
    method ResolveTrial(ghost b: nat, ghost call: Call, token: Token, outcome: Outcome) returns (ghost ended: Ended, ghost stamp: int)
      requires Busy(b, call) && At() == Resolving(token, outcome, 0, ResolveWatch)
      modifies this
      ensures Busy(b, call) && At().Idle?
      ensures ended.Committed? ==>
                && seen.HeldBy(token) && redis.store.lock.NoLock?
                && match outcome
                   case TrialSucceeded => Closes(cfg, seen, redis.store)
                   case TrialFailed => Opens(cfg, seen, redis.store, stamp) && stamp <= seen.now
      ensures !ended.Committed? ==> redis.store == seen && (ended.Declined? ==> !seen.HeldBy(token))
    {
      stamp := 0;
      for attempt := 0 to MAX_OPTIMISTIC_RETRIES
        invariant Busy(b, call) && At() == Resolving(token, outcome, attempt, ResolveWatch)
      {
        Command(b, call);
        Command(b, call);
        var currentValue := redis.store.lock;
        if currentValue.NoLock? || currentValue.token != token {
          ended := Declined;
          return;
        }
        Command(b, call);
        stamp := redis.store.now;
        Command(b, call);
        if At().Idle? {
          ended := Committed;
          return;
        }
      }
      Command(b, call);
      ended := GaveUp;
    }

    /** The breaker is closed in one commit that meets it not open; without such a commit nothing changes. */
    method CloseIfNotOpen(ghost b: nat, ghost call: Call) returns (ghost ended: Ended)
      requires Busy(b, call) && At() == Closing(0, CloseWatch)
      modifies this
      ensures Busy(b, call) && At().Idle?
      ensures ended.Committed? ==> !seen.state.Open? && Closes(cfg, seen, redis.store) && redis.store.lock == seen.lock
      ensures !ended.Committed? ==> redis.store == seen && (ended.Declined? ==> seen.state.Open?)
    {
      for attempt := 0 to MAX_OPTIMISTIC_RETRIES
        invariant Busy(b, call) && At() == Closing(attempt, CloseWatch)
      {
        Command(b, call);
        Command(b, call);
        if redis.store.state.Open? {
          ended := Declined;
          return;
        }
        Command(b, call);
        if At().Idle? {
          ended := Committed;
          return;
        }
      }
      Command(b, call);
      ended := GaveUp;
    }

    /** The breaker is opened in one commit that meets it not open and its failure counter at or above the
        threshold; without such a commit nothing changes. */
    method OpenIfThresholdStillCrossed(ghost b: nat, ghost call: Call) returns (ghost ended: Ended, ghost stamp: int)
      requires Busy(b, call) && At() == Opening(0, OpenWatch)
      modifies this
      ensures Busy(b, call) && At().Idle?
      ensures ended.Committed? ==>
                && !seen.state.Open? && CountOf(seen.failures) >= cfg.failureThreshold
                && stamp <= seen.now && Opens(cfg, seen, redis.store, stamp) && redis.store.lock == seen.lock
      ensures !ended.Committed? ==> redis.store == seen
    {
      stamp := 0;
      for attempt := 0 to MAX_OPTIMISTIC_RETRIES
        invariant Busy(b, call) && At() == Opening(attempt, OpenWatch)
      {
        Command(b, call);
        Command(b, call);
        var state := redis.store.state;
        Command(b, call);
        var currentFailures := CountOf(redis.store.failures);
        Command(b, call);
        if state.Open? || currentFailures < cfg.failureThreshold {
          ended := Declined;
          return;
        }
        stamp := redis.store.now;
        Command(b, call);
        if At().Idle? {
          ended := Committed;
          return;
        }
      }
      Command(b, call);
      ended := GaveUp;
    }

    /** With a token the report is a trial's and nothing else; without one it closes a breaker that is not
        open. */
    method RecordSuccess(trialToken: Option<Token>) returns (ghost ended: Ended)
      requires Ok() && (At().Idle? || At().Returned?)
      modifies this
      ensures Busy(|old(run).acts|, Call.RecordSuccess(trialToken)) && At().Idle?
      ensures ended.Committed? ==>
                && Closes(cfg, seen, redis.store)
                && if trialToken.Some? then seen.HeldBy(trialToken.value) && redis.store.lock.NoLock?
                   else !seen.state.Open? && redis.store.lock == seen.lock
      ensures !ended.Committed? ==> redis.store == seen
      ensures Concluded(cfg, run, me, Call.RecordSuccess(trialToken), |old(run).acts|, |run.acts|)
    {
      ghost var b, call := |run.acts|, Call.RecordSuccess(trialToken);
      Begin(Call.RecordSuccess(trialToken));
      if trialToken.Some? {
        ghost var stamp;
        ended, stamp := ResolveTrial(b, call, trialToken.value, TrialSucceeded);
      } else {
        ended := CloseIfNotOpen(b, call);
      }
      ReportsConclude(cfg, run, me, call, b, |run.acts|);
    }

    /** With a token the report is a trial's and nothing else; without one it counts a failure and opens the
        breaker if the threshold is still crossed. */
    method RecordFailure(trialToken: Option<Token>) returns (ghost ended: Ended, ghost stamp: int)
      requires Ok() && (At().Idle? || At().Returned?)
      modifies this
      ensures Busy(|old(run).acts|, Call.RecordFailure(trialToken)) && At().Idle?
      ensures ended.Committed? && trialToken.Some? ==>
                && seen.HeldBy(trialToken.value) && redis.store.lock.NoLock?
                && stamp <= seen.now && Opens(cfg, seen, redis.store, stamp)
      ensures ended.Committed? && trialToken.None? ==>
                && !seen.state.Open? && CountOf(seen.failures) >= cfg.failureThreshold
                && stamp <= seen.now && Opens(cfg, seen, redis.store, stamp) && redis.store.lock == seen.lock
      ensures !ended.Committed? ==> redis.store.state == seen.state && redis.store.openedAt == seen.openedAt && redis.store.lock == seen.lock
      ensures Concluded(cfg, run, me, Call.RecordFailure(trialToken), |old(run).acts|, |run.acts|)
      ensures trialToken.None? ==> Counted(cfg, run, me, |old(run).acts|, |run.acts|, Idle)
    {
      ghost var b, call := |run.acts|, Call.RecordFailure(trialToken);
      Begin(Call.RecordFailure(trialToken));
      if trialToken.Some? {
        ended, stamp := ResolveTrial(b, call, trialToken.value, TrialFailed);
        ReportsConclude(cfg, run, me, call, b, |run.acts|);
        return;
      }
      Command(b, call);
      var failures := CountOf(redis.store.failures);
      Command(b, call);
      ended, stamp := Declined, 0;
      if failures >= cfg.failureThreshold {
        ended, stamp := OpenIfThresholdStillCrossed(b, call);
      }
      ReportsConclude(cfg, run, me, call, b, |run.acts|);
      FailuresAreCounted(cfg, run, me, b, |run.acts|);
    }
  }
}
