/**
 The Postgres job scheduler: rows leased by a claim statement, lock tokens, attempts, the sweep of
 exhausted leases and the reports of workers that may have been superseded. One step is one SQL
 statement, the start of a handler, a clock advance or the loss of a worker.
 */
module JobScheduler {
  import opened Wrappers

  type JobId = nat
  type Token = nat

  datatype Status = Pending | Running | Succeeded | Failed

  datatype Job = Job(status: Status, attempts: nat, maxAttempts: int, runAt: int,
                     lockToken: Option<Token>, lockedUntil: Option<int>)
  {
    predicate Terminal() {
      status.Succeeded? || status.Failed?
    }

    /** The WHERE clause of the claim. */
    predicate Claimable(now: int) {
      (status.Pending? && runAt <= now && attempts < maxAttempts) ||
      (status.Running? && lockedUntil.Some? && lockedUntil.value < now && attempts < maxAttempts)
    }

    /** The WHERE clause of the sweep. */
    predicate Sweepable(now: int) {
      status.Running? && lockedUntil.Some? && lockedUntil.value < now && attempts >= maxAttempts
    }

    function Leased(token: Token, until: int): Job {
      this.(status := Running, attempts := attempts + 1, lockToken := Some(token), lockedUntil := Some(until))
    }

    function Released(next: Status): Job {
      this.(status := next, lockToken := None, lockedUntil := None)
    }
  }

  /** What a worker holds of a claimed row: a copy taken when it was claimed. */
  datatype Claim = Claim(job: JobId, attempts: nat, maxAttempts: int, started: bool, reported: bool, lost: bool)

  /** `claims` remembers every claim ever made, by its lock token; tokens are fresh. */
  datatype System = System(now: int, jobs: map<JobId, Job>, claims: map<Token, Claim>, nextToken: Token)

  datatype Report = HandlerSucceeded | HandlerFailed(nextRunAt: int)

  datatype Action =
    | Tick(ms: nat)
    | Enqueue(id: JobId, maxAttempts: int, runAt: int)
    | Sweep
    | ClaimBatch(rows: seq<JobId>, limit: nat, locked: set<JobId>, until: int)
    | StartHandler(token: Token)
    | Mark(token: Token, report: Report)
    | LoseWorker(token: Token)

  function SweepRows(jobs: map<JobId, Job>, now: int): map<JobId, Job> {
    map id | id in jobs :: if jobs[id].Sweepable(now) then jobs[id].Released(Failed) else jobs[id]
  }

  /** The rows one claim statement picks: the first `limit` claimable rows by runAt, not counting rows
      that concurrent claims have `locked`, which SKIP LOCKED passes over. */
  predicate MayClaim(s: System, rows: seq<JobId>, limit: nat, locked: set<JobId>) {
    && |rows| <= limit
    && InOrder(s, rows)
    && (forall k :: 0 <= k < |rows| ==> Due(s, rows[k], locked))
    && (forall id :: id in s.jobs && Due(s, id, locked) && id !in rows ==>
          |rows| == limit && NoneLater(s, rows, s.jobs[id].runAt))
  }

  predicate Due(s: System, id: JobId, locked: set<JobId>) {
    id in s.jobs && s.jobs[id].Claimable(s.now) && id !in locked
  }

  predicate InOrder(s: System, rows: seq<JobId>) {
    forall k, l :: 0 <= k < l < |rows| ==>
      rows[k] in s.jobs && rows[l] in s.jobs && rows[k] != rows[l] && s.jobs[rows[k]].runAt <= s.jobs[rows[l]].runAt
  }

  predicate NoneLater(s: System, rows: seq<JobId>, runAt: int) {
    forall k :: 0 <= k < |rows| ==> rows[k] in s.jobs && s.jobs[rows[k]].runAt <= runAt
  }

  function NewClaim(s: System, id: JobId): Claim
    requires id in s.jobs
  {
    Claim(id, s.jobs[id].attempts + 1, s.jobs[id].maxAttempts, false, false, false)
  }

  function LeaseRow(s: System, id: JobId, until: int): System
    requires id in s.jobs
  {
    s.(jobs := s.jobs[id := s.jobs[id].Leased(s.nextToken, until)],
       claims := s.claims[s.nextToken := NewClaim(s, id)],
       nextToken := s.nextToken + 1)
  }

  function LeaseRows(s: System, rows: seq<JobId>, until: int): (s': System)
    requires forall k :: 0 <= k < |rows| ==> rows[k] in s.jobs
    ensures s'.jobs.Keys == s.jobs.Keys
    decreases |rows|
  {
    if rows == [] then s else LeaseRow(LeaseRows(s, rows[..|rows| - 1], until), rows[|rows| - 1], until)
  }

  /** markSucceeded and markFailed: an UPDATE filtered on (id, lockToken), decided by the claim's own
      copy of the attempts. */
  function MarkRow(job: Job, token: Token, c: Claim, report: Report): Job {
    if job.lockToken != Some(token) then job
    else match report
      case HandlerSucceeded => job.Released(Succeeded)
      case HandlerFailed(nextRunAt) =>
        if c.attempts >= c.maxAttempts then job.Released(Failed) else job.Released(Pending).(runAt := nextRunAt)
  }

  function Next(s: System, a: Action): System {
    match a
    case Tick(ms) => s.(now := s.now + ms)
    case Enqueue(id, maxAttempts, runAt) =>
      if id in s.jobs then s else s.(jobs := s.jobs[id := Job(Pending, 0, maxAttempts, runAt, None, None)])
    case Sweep => s.(jobs := SweepRows(s.jobs, s.now))
    case ClaimBatch(rows, limit, locked, until) => if MayClaim(s, rows, limit, locked) then LeaseRows(s, rows, until) else s
    case StartHandler(t) =>
      if t in s.claims && !s.claims[t].started && !s.claims[t].reported && !s.claims[t].lost
      then s.(claims := s.claims[t := s.claims[t].(started := true)]) else s
    case Mark(t, report) =>
      if t in s.claims && !s.claims[t].lost && s.claims[t].job in s.jobs then
        var c := s.claims[t];
        s.(jobs := s.jobs[c.job := MarkRow(s.jobs[c.job], t, c, report)], claims := s.claims[t := c.(reported := true)])
      else s
    case LoseWorker(t) => if t in s.claims then s.(claims := s.claims[t := s.claims[t].(lost := true)]) else s
  }

  ghost predicate Init(s: System) {
    s.jobs == map[] && s.claims == map[]
  }

  datatype Trace = Begin | Then(before: Trace, last: Action)

  function Play(s: System, t: Trace): System {
    match t
    case Begin => s
    case Then(before, a) => Next(Play(s, before), a)
  }

  // ---- the invariant -----------------------------------------------------------------------------

  ghost predicate JobInv(s: System, id: JobId, job: Job) {
    && (job.status.Running? <==> job.lockToken.Some?)
    && (job.status.Running? <==> job.lockedUntil.Some?)
    && (job.attempts == 0 || job.attempts <= job.maxAttempts)
    && (job.attempts == 0 ==> job.status.Pending?)
    && (job.status.Pending? && job.maxAttempts >= 1 ==> job.attempts < job.maxAttempts)
    && (job.status.Failed? ==> job.attempts == job.maxAttempts)
    && (job.lockToken.Some? ==> job.lockToken.value in s.claims && s.claims[job.lockToken.value].job == id)
  }

  /** A claim's copy is current exactly as long as its token is in the row. */
  ghost predicate ClaimInv(s: System, t: Token, c: Claim) {
    && t < s.nextToken && c.job in s.jobs
    && 1 <= c.attempts <= s.jobs[c.job].attempts && c.maxAttempts == s.jobs[c.job].maxAttempts
    && (s.jobs[c.job].lockToken == Some(t) ==> c.attempts == s.jobs[c.job].attempts)
  }

  /** Each claim of a job used up an attempt of its own. */
  ghost predicate AttemptsDiffer(s: System, t: Token, u: Token)
    requires t in s.claims && u in s.claims
  {
    t != u && s.claims[t].job == s.claims[u].job ==> s.claims[t].attempts != s.claims[u].attempts
  }

  ghost predicate Inv(s: System) {
    && (forall id :: id in s.jobs ==> JobInv(s, id, s.jobs[id]))
    && (forall t :: t in s.claims ==> ClaimInv(s, t, s.claims[t]))
    && (forall t, u :: t in s.claims && u in s.claims ==> AttemptsDiffer(s, t, u))
  }

  lemma LeaseRowKeepsInv(s: System, id: JobId, until: int)
    requires Inv(s) && id in s.jobs && s.jobs[id].attempts < s.jobs[id].maxAttempts
    ensures Inv(LeaseRow(s, id, until))
  {
    var s' := LeaseRow(s, id, until);
    forall t | t in s.claims ensures t in s'.claims && s'.claims[t] == s.claims[t] {
      assert ClaimInv(s, t, s.claims[t]);
    }
    forall k | k in s'.jobs ensures JobInv(s', k, s'.jobs[k]) {
      assert JobInv(s, k, s.jobs[k]);
    }
    forall t | t in s'.claims ensures ClaimInv(s', t, s'.claims[t]) {
      assert t in s.claims ==> ClaimInv(s, t, s.claims[t]);
    }
    forall t, u | t in s'.claims && u in s'.claims ensures AttemptsDiffer(s', t, u) {
      assert t in s.claims ==> ClaimInv(s, t, s.claims[t]);
      assert u in s.claims ==> ClaimInv(s, u, s.claims[u]);
      assert t in s.claims && u in s.claims ==> AttemptsDiffer(s, t, u);
    }
  }

  /** Leasing touches no row and no claim but those it hands out. */
  lemma {:induction false} LeaseRowsFrame(s: System, rows: seq<JobId>, until: int)
    requires forall k :: 0 <= k < |rows| ==> rows[k] in s.jobs
    ensures var s' := LeaseRows(s, rows, until);
            && s'.nextToken == s.nextToken + |rows| && s'.now == s.now
            && (forall id :: id in s.jobs && id !in rows ==> s'.jobs[id] == s.jobs[id])
            && (forall t :: t in s.claims && t < s.nextToken ==> t in s'.claims && s'.claims[t] == s.claims[t])
    decreases |rows|
  {
    if rows != [] {
      LeaseRowsFrame(s, rows[..|rows| - 1], until);
    }
  }

  /** The row and the claim that the k-th token went to. */
  ghost predicate LeasedAs(s: System, s': System, id: JobId, token: Token, until: int)
    requires id in s.jobs
  {
    && id in s'.jobs && s'.jobs[id] == s.jobs[id].Leased(token, until)
    && token in s'.claims && s'.claims[token] == NewClaim(s, id)
  }

  lemma StaysLeased(s: System, mid: System, row: JobId, until: int, id: JobId, token: Token)
    requires id in s.jobs && row in mid.jobs && LeasedAs(s, mid, id, token, until) && id != row && token < mid.nextToken
    ensures LeasedAs(s, LeaseRow(mid, row, until), id, token, until)
  {
  }

  /** Leasing hands out the next tokens in order. */
  lemma {:induction false} LeasedRow(s: System, rows: seq<JobId>, until: int, k: nat)
    requires k < |rows| && (forall i :: 0 <= i < |rows| ==> rows[i] in s.jobs) && rows[k] !in rows[k + 1..]
    requires rows[k] !in rows[..k]
    ensures LeasedAs(s, LeaseRows(s, rows, until), rows[k], s.nextToken + k, until)
    decreases |rows|
  {
    var n := |rows| - 1;
    var mid := LeaseRows(s, rows[..n], until);
    LeaseRowsFrame(s, rows[..n], until);
    if k < n {
      assert rows[..n][k + 1..] == rows[k + 1..][..n - k - 1] && rows[..n][..k] == rows[..k] && rows[..n][k] == rows[k];
      LeasedRow(s, rows[..n], until, k);
      assert rows[n] == rows[k + 1..][n - k - 1];
      StaysLeased(s, mid, rows[n], until, rows[k], s.nextToken + k);
    } else {
      assert mid.jobs[rows[n]] == s.jobs[rows[n]];
    }
  }

  lemma {:induction false} LeaseRowsKeepInv(s: System, rows: seq<JobId>, until: int)
    requires Inv(s)
    requires forall k :: 0 <= k < |rows| ==> rows[k] in s.jobs && s.jobs[rows[k]].attempts < s.jobs[rows[k]].maxAttempts
    requires forall k, l :: 0 <= k < l < |rows| ==> rows[k] != rows[l]
    ensures Inv(LeaseRows(s, rows, until))
    decreases |rows|
  {
    if rows != [] {
      var n := |rows| - 1;
      LeaseRowsKeepInv(s, rows[..n], until);
      LeaseRowsFrame(s, rows[..n], until);
      assert rows[n] !in rows[..n];
      LeaseRowKeepsInv(LeaseRows(s, rows[..n], until), rows[n], until);
    }
  }

  ghost predicate SameClaim(c: Claim, c': Claim) {
    c'.job == c.job && c'.attempts == c.attempts && c'.maxAttempts == c.maxAttempts
  }

  /** Steps that leave every claim's job and attempts as they are, and every row sound. */
  lemma SameClaimsKeepInv(s: System, s': System)
    requires Inv(s) && s'.claims.Keys == s.claims.Keys && s'.nextToken == s.nextToken
    requires forall t :: t in s.claims ==> SameClaim(s.claims[t], s'.claims[t])
    requires s.jobs.Keys <= s'.jobs.Keys
    requires forall id :: id in s.jobs ==>
               && s'.jobs[id].attempts == s.jobs[id].attempts && s'.jobs[id].maxAttempts == s.jobs[id].maxAttempts
               && (s'.jobs[id].lockToken.None? || s'.jobs[id].lockToken == s.jobs[id].lockToken)
    requires forall id :: id in s'.jobs ==> JobInv(s', id, s'.jobs[id])
    ensures Inv(s')
  {
    forall t | t in s'.claims ensures ClaimInv(s', t, s'.claims[t]) {
      assert ClaimInv(s, t, s.claims[t]);
    }
    forall t, u | t in s'.claims && u in s'.claims ensures AttemptsDiffer(s', t, u) {
      assert AttemptsDiffer(s, t, u);
    }
  }

  lemma SoundRowStaysSound(s: System, s': System, id: JobId, job: Job)
    requires JobInv(s, id, job) && s'.claims.Keys == s.claims.Keys
    requires forall t :: t in s.claims ==> SameClaim(s.claims[t], s'.claims[t])
    ensures JobInv(s', id, job)
  {
  }

  lemma SameRowsKeepInv(s: System, s': System)
    requires Inv(s) && s'.claims.Keys == s.claims.Keys && s'.nextToken == s.nextToken && s'.jobs == s.jobs
    requires forall t :: t in s.claims ==> SameClaim(s.claims[t], s'.claims[t])
    ensures Inv(s')
  {
    forall k | k in s'.jobs ensures JobInv(s', k, s'.jobs[k]) {
      assert JobInv(s, k, s.jobs[k]);
      SoundRowStaysSound(s, s', k, s.jobs[k]);
    }
    SameClaimsKeepInv(s, s');
  }

  lemma MarkRowKeepsJobInv(s: System, id: JobId, t: Token, report: Report)
    requires id in s.jobs && JobInv(s, id, s.jobs[id])
    requires t in s.claims && s.claims[t].job == id && ClaimInv(s, t, s.claims[t])
    ensures JobInv(s, id, MarkRow(s.jobs[id], t, s.claims[t], report))
  {
  }

  lemma MarkKeepsInv(s: System, t: Token, report: Report)
    requires Inv(s)
    ensures Inv(Next(s, Mark(t, report)))
  {
    var s' := Next(s, Mark(t, report));
    if s' != s {
      var id := s.claims[t].job;
      assert ClaimInv(s, t, s.claims[t]);
      assert JobInv(s, id, s.jobs[id]);
      MarkRowKeepsJobInv(s, id, t, report);
      var marked := MarkRow(s.jobs[id], t, s.claims[t], report);
      SoundRowStaysSound(s, s', id, marked);
      forall k | k in s'.jobs ensures JobInv(s', k, s'.jobs[k]) {
        if k != id {
          assert JobInv(s, k, s.jobs[k]);
          SoundRowStaysSound(s, s', k, s.jobs[k]);
        }
      }
      SameClaimsKeepInv(s, s');
    }
  }

  lemma RowStepKeepsInv(s: System, a: Action)
    requires Inv(s) && (a.Enqueue? || a.Sweep?)
    ensures Inv(Next(s, a))
  {
    var s' := Next(s, a);
    forall k | k in s'.jobs ensures JobInv(s', k, s'.jobs[k]) {
      assert k in s.jobs ==> JobInv(s, k, s.jobs[k]);
    }
    SameClaimsKeepInv(s, s');
  }

  lemma WorkerStepKeepsInv(s: System, a: Action)
    requires Inv(s) && (a.Tick? || a.StartHandler? || a.LoseWorker?)
    ensures Inv(Next(s, a)) && Next(s, a).jobs == s.jobs
  {
    SameRowsKeepInv(s, Next(s, a));
  }

  lemma NextKeepsInv(s: System, a: Action)
    requires Inv(s)
    ensures Inv(Next(s, a))
  {
    match a {
      case ClaimBatch(rows, limit, locked, until) =>
        if MayClaim(s, rows, limit, locked) { LeaseRowsKeepInv(s, rows, until); }
      case Mark(t, report) => MarkKeepsInv(s, t, report);
      case Enqueue(_, _, _) => RowStepKeepsInv(s, a);
      case Sweep => RowStepKeepsInv(s, a);
      case _ => WorkerStepKeepsInv(s, a);
    }
  }

  lemma {:induction false} RunKeepsInv(s: System, t: Trace)
    requires Init(s)
    ensures Inv(Play(s, t))
  {
    if t.Then? {
      RunKeepsInv(s, t.before);
      NextKeepsInv(Play(s, t.before), t.last);
    }
  }

  // ---- what every reachable row satisfies --------------------------------------------------------

  /** RUNNING holds exactly when the row carries a lock token and a lease; attempts never exceed
      maxAttempts; FAILED means every attempt was used. */
  lemma RowsAreSound(s: System, t: Trace, id: JobId)
    requires Init(s) && id in Play(s, t).jobs
    ensures var job := Play(s, t).jobs[id];
            && (job.status.Running? <==> job.lockToken.Some?) && (job.status.Running? <==> job.lockedUntil.Some?)
            && (job.maxAttempts >= 0 ==> job.attempts <= job.maxAttempts)
            && (job.status.Failed? ==> job.attempts == job.maxAttempts)
  {
    RunKeepsInv(s, t);
    assert JobInv(Play(s, t), id, Play(s, t).jobs[id]);
  }

  /** A due PENDING row and a RUNNING row whose lease has expired are each acted on by exactly one of
      the claim and the sweep, if and only if the row has been leased or was enqueued with at least one
      attempt. A PENDING row enqueued with maxAttempts below one is acted on by neither, for ever. */
  lemma ClaimAndSweepPartitionDueRows(s: System, t: Trace, id: JobId)
    requires Init(s) && id in Play(s, t).jobs
    requires var m, job := Play(s, t), Play(s, t).jobs[id];
             (job.status.Pending? && job.runAt <= m.now) || (job.status.Running? && job.lockedUntil.Some? && job.lockedUntil.value < m.now)
    ensures var m, job := Play(s, t), Play(s, t).jobs[id];
            && !(job.Claimable(m.now) && job.Sweepable(m.now))
            && (job.Claimable(m.now) || job.Sweepable(m.now) <==> job.status.Running? || job.maxAttempts >= 1)
  {
    RunKeepsInv(s, t);
    assert JobInv(Play(s, t), id, Play(s, t).jobs[id]);
  }

  lemma {:induction false} HopelessJobIsStuck(s: System, t: Trace, id: JobId, more: Trace)
    requires Init(s) && Extends(more, t) && id in Play(s, t).jobs
    requires Play(s, t).jobs[id].status.Pending? && Play(s, t).jobs[id].maxAttempts < 1
    ensures id in Play(s, more).jobs && Play(s, more).jobs[id] == Play(s, t).jobs[id]
  {
    RunKeepsInv(s, t);
    assert JobInv(Play(s, t), id, Play(s, t).jobs[id]);
    if more != t {
      HopelessJobIsStuck(s, t, id, more.before);
      RunKeepsInv(s, more.before);
      RowStep(Play(s, more.before), more.last, id);
    }
  }

  ghost predicate Extends(more: Trace, t: Trace) {
    more == t || (more.Then? && Extends(more.before, t))
  }

  /** Everything a step can do to a row. */
  lemma RowStep(s: System, a: Action, id: JobId)
    requires Inv(s) && id in s.jobs
    ensures id in Next(s, a).jobs
    ensures var job, job' := s.jobs[id], Next(s, a).jobs[id];
            || job' == job
            || (a.ClaimBatch? && job.Claimable(s.now) && job'.lockToken.Some? && job'.lockToken.value >= s.nextToken
                && job' == job.Leased(job'.lockToken.value, a.until))
            || (a.Sweep? && job.Sweepable(s.now) && job' == job.Released(Failed))
            || (a.Mark? && job.status.Running? && job.lockToken == Some(a.token) && a.token in s.claims
                && job' == MarkRow(job, a.token, s.claims[a.token], a.report)
                && s.claims[a.token].attempts == job.attempts && s.claims[a.token].maxAttempts == job.maxAttempts)
  {
    assert JobInv(s, id, s.jobs[id]);
    match a {
      case ClaimBatch(rows, limit, locked, until) =>
        if MayClaim(s, rows, limit, locked) {
          LeaseRowsFrame(s, rows, until);
          if id in rows {
            var k :| 0 <= k < |rows| && rows[k] == id;
            LeasedRow(s, rows, until, k);
          }
        }
      case Mark(t, report) =>
        if t in s.claims { assert ClaimInv(s, t, s.claims[t]); }
      case _ =>
    }
  }

  /** The lease of a running row has run out. */
  predicate LeaseOver(job: Job, now: int) {
    job.status.Running? && job.lockedUntil.Some? && job.lockedUntil.value < now
  }

  /** The row ran out of its claim: no token, no lease, and nothing else changed but what is given. */
  ghost predicate Ends(job: Job, job': Job, status: Status, runAt: int) {
    job' == Job(status, job.attempts, job.maxAttempts, runAt, None, None)
  }

  /** A row after the report of its current claim. */
  ghost predicate Settles(job: Job, job': Job, succeeded: bool, nextRunAt: int) {
    if succeeded then Ends(job, job', Succeeded, job.runAt)
    else if job.attempts >= job.maxAttempts then Ends(job, job', Failed, job.runAt)
    else Ends(job, job', Pending, nextRunAt)
  }

  /** Every change of a row is a claim of a row that is due or whose lease has run out, with an attempt
      left; the failing of one whose lease has run out without an attempt left; or the report of the token
      in it, whose outcome it takes over. In particular nobody but its holder touches a row whose lease
      runs, and nobody a pending row that is not due. */
  lemma RowChanges(s: System, a: Action, id: JobId)
    requires Inv(s) && id in s.jobs && Next(s, a).jobs[id] != s.jobs[id]
    ensures var job, job' := s.jobs[id], Next(s, a).jobs[id];
            match a
            case ClaimBatch(_, _, _, until) =>
              && ((job.status.Pending? && job.runAt <= s.now) || LeaseOver(job, s.now)) && job.attempts < job.maxAttempts
              && job'.lockToken.Some? && job'.lockToken.value >= s.nextToken
              && job' == Job(Running, job.attempts + 1, job.maxAttempts, job.runAt, job'.lockToken, Some(until))
            case Sweep => LeaseOver(job, s.now) && job.attempts >= job.maxAttempts && Ends(job, job', Failed, job.runAt)
            case Mark(token, report) =>
              && job.status.Running? && job.lockToken == Some(token)
              && Settles(job, job', report.HandlerSucceeded?, if report.HandlerFailed? then report.nextRunAt else 0)
            case _ => false
  {
    RowStep(s, a, id);
  }

  /** Where claims come from: a claim keeps its job and what has happened to it, or it is new, on a row
      that could be claimed. */
  lemma ClaimStep(s: System, a: Action, t: Token)
    requires Inv(s) && t in Next(s, a).claims
    ensures var c' := Next(s, a).claims[t];
            if t in s.claims then
              var c := s.claims[t];
              c'.job == c.job && (c.started ==> c'.started) && (c.reported ==> c'.reported) && (c.lost ==> c'.lost)
            else c'.job in s.jobs && s.jobs[c'.job].Claimable(s.now)
  {
    if t in s.claims { assert ClaimInv(s, t, s.claims[t]); }
    if a.ClaimBatch? && MayClaim(s, a.rows, a.limit, a.locked) {
      LeaseRowsFrame(s, a.rows, a.until);
      if t !in s.claims {
        NewClaims(s, a.rows, a.until, t);
        var k :| 0 <= k < |a.rows| && a.rows[k] == Next(s, a).claims[t].job;
        assert Due(s, a.rows[k], a.locked);
      }
    }
  }

  lemma {:induction false} NewClaims(s: System, rows: seq<JobId>, until: int, t: Token)
    requires forall k :: 0 <= k < |rows| ==> rows[k] in s.jobs
    requires t in LeaseRows(s, rows, until).claims && t !in s.claims
    ensures LeaseRows(s, rows, until).claims[t].job in rows
    decreases |rows|
  {
    if rows != [] {
      var n := |rows| - 1;
      if t in LeaseRows(s, rows[..n], until).claims && t != LeaseRows(s, rows[..n], until).nextToken {
        NewClaims(s, rows[..n], until, t);
      }
    }
  }

  /** SUCCEEDED and FAILED never change. */
  lemma {:induction false} TerminalForever(s: System, t: Trace, more: Trace, id: JobId)
    requires Init(s) && Extends(more, t) && id in Play(s, t).jobs && Play(s, t).jobs[id].Terminal()
    ensures id in Play(s, more).jobs && Play(s, more).jobs[id] == Play(s, t).jobs[id]
  {
    if more != t {
      TerminalForever(s, t, more.before, id);
      RunKeepsInv(s, more.before);
      RowStep(Play(s, more.before), more.last, id);
    }
  }

  // ---- lock tokens -------------------------------------------------------------------------------

  ghost predicate Superseded(s: System, t: Token) {
    t < s.nextToken && forall id :: id in s.jobs ==> s.jobs[id].lockToken != Some(t)
  }

  /** A worker whose token is in no row changes no row, whatever it reports. */
  lemma SupersededReportChangesNoRow(s: System, t: Token, report: Report)
    requires Superseded(s, t)
    ensures Next(s, Mark(t, report)).jobs == s.jobs
  {
  }

  lemma StaysSuperseded(s: System, a: Action, t: Token)
    requires Inv(s) && Superseded(s, t)
    ensures Superseded(Next(s, a), t)
  {
    var s' := Next(s, a);
    if a.ClaimBatch? && MayClaim(s, a.rows, a.limit, a.locked) {
      LeaseRowsFrame(s, a.rows, a.until);
    }
    forall id | id in s'.jobs ensures s'.jobs[id].lockToken != Some(t) {
      if id in s.jobs {
        RowStep(s, a, id);
      }
    }
  }

  lemma {:induction false} SupersededForever(s: System, t: Trace, more: Trace, token: Token)
    requires Init(s) && Extends(more, t) && Superseded(Play(s, t), token)
    ensures Superseded(Play(s, more), token)
  {
    if more != t {
      SupersededForever(s, t, more.before, token);
      RunKeepsInv(s, more.before);
      StaysSuperseded(Play(s, more.before), more.last, token);
    }
  }

  /** At most one outcome is recorded per claim: once a report with a token has changed a row, no later
      report with that token changes any row, even if the report is repeated. */
  lemma OneOutcomePerClaim(s: System, t: Trace, token: Token, report: Report, more: Trace, again: Report)
    requires Init(s) && Extends(more, Then(t, Mark(token, report)))
    requires Play(s, Then(t, Mark(token, report))).jobs != Play(s, t).jobs
    ensures Play(s, Then(more, Mark(token, again))).jobs == Play(s, more).jobs
  {
    RunKeepsInv(s, t);
    var m := Play(s, t);
    assert ClaimInv(m, token, m.claims[token]);
    forall id | id in m.jobs && id != m.claims[token].job ensures m.jobs[id].lockToken != Some(token) {
      assert JobInv(m, id, m.jobs[id]);
    }
    SupersededForever(s, Then(t, Mark(token, report)), more, token);
    SupersededReportChangesNoRow(Play(s, more), token, again);
  }

  // ---- handler starts ----------------------------------------------------------------------------

  ghost function StartedClaims(s: System, id: JobId): set<Token> {
    set t | t in s.claims && s.claims[t].job == id && s.claims[t].started
  }

  /** How often the run has started the handler for a job. */
  ghost function HandlerStarts(s: System, t: Trace, id: JobId): nat {
    match t
    case Begin => 0
    case Then(before, a) =>
      HandlerStarts(s, before, id) +
      (if a.StartHandler? && Next(Play(s, before), a) != Play(s, before) && Play(s, before).claims[a.token].job == id then 1 else 0)
  }

  lemma StartedStep(s: System, a: Action, id: JobId)
    requires Inv(s)
    ensures StartedClaims(Next(s, a), id) ==
            StartedClaims(s, id) + (if a.StartHandler? && Next(s, a) != s && s.claims[a.token].job == id then {a.token} else {})
    ensures a.StartHandler? && Next(s, a) != s ==> a.token in s.claims && a.token !in StartedClaims(s, id)
  {
    if a.ClaimBatch? && MayClaim(s, a.rows, a.limit, a.locked) {
      NewClaimsNotStarted(s, a.rows, a.until, id);
    }
  }

  lemma {:induction false} StartsAreClaims(s: System, t: Trace, id: JobId)
    requires Init(s)
    ensures HandlerStarts(s, t, id) == |StartedClaims(Play(s, t), id)|
  {
    match t
    case Begin => assert StartedClaims(s, id) == {};
    case Then(before, a) =>
      StartsAreClaims(s, before, id);
      RunKeepsInv(s, before);
      StartedStep(Play(s, before), a, id);
  }

  lemma NewClaimNotStarted(s: System, row: JobId, until: int, id: JobId)
    requires Inv(s) && row in s.jobs
    ensures StartedClaims(LeaseRow(s, row, until), id) == StartedClaims(s, id)
  {
    var s' := LeaseRow(s, row, until);
    forall t | t in s.claims ensures t in s'.claims && s'.claims[t] == s.claims[t] {
      assert ClaimInv(s, t, s.claims[t]);
    }
  }

  lemma {:induction false} NewClaimsNotStarted(s: System, rows: seq<JobId>, until: int, id: JobId)
    requires Inv(s)
    requires forall k :: 0 <= k < |rows| ==> rows[k] in s.jobs && s.jobs[rows[k]].attempts < s.jobs[rows[k]].maxAttempts
    requires forall k, l :: 0 <= k < l < |rows| ==> rows[k] != rows[l]
    ensures StartedClaims(LeaseRows(s, rows, until), id) == StartedClaims(s, id)
    decreases |rows|
  {
    if rows != [] {
      var n := |rows| - 1;
      NewClaimsNotStarted(s, rows[..n], until, id);
      LeaseRowsKeepInv(s, rows[..n], until);
      NewClaimNotStarted(LeaseRows(s, rows[..n], until), rows[n], until, id);
    }
  }

  /** Tokens of one job whose attempt numbers lie in 1..n are at most n. */
  lemma {:induction false} AtMostOnePerAttempt(s: System, tokens: set<Token>, id: JobId, n: nat)
    requires Inv(s)
    requires forall t :: t in tokens ==> t in s.claims && s.claims[t].job == id && 1 <= s.claims[t].attempts <= n
    ensures |tokens| <= n
    decreases n
  {
    if n == 0 {
      assert forall t :: t !in tokens;
      assert tokens == {};
    } else if exists t :: t in tokens && s.claims[t].attempts == n {
      var t :| t in tokens && s.claims[t].attempts == n;
      forall u | u in tokens - {t} ensures s.claims[u].attempts <= n - 1 {
        assert AttemptsDiffer(s, t, u);
      }
      AtMostOnePerAttempt(s, tokens - {t}, id, n - 1);
    } else {
      AtMostOnePerAttempt(s, tokens, id, n - 1);
    }
  }

  /** A job's handler is started at most maxAttempts times, however many workers, crashes and lease
      expiries there are. */
  lemma HandlerStartsBounded(s: System, t: Trace, id: JobId)
    requires Init(s) && id in Play(s, t).jobs
    ensures HandlerStarts(s, t, id) <= Play(s, t).jobs[id].attempts
    ensures Play(s, t).jobs[id].maxAttempts >= 0 ==> HandlerStarts(s, t, id) <= Play(s, t).jobs[id].maxAttempts
  {
    var m := Play(s, t);
    StartsAreClaims(s, t, id);
    RunKeepsInv(s, t);
    assert JobInv(m, id, m.jobs[id]);
    forall u | u in StartedClaims(m, id) ensures 1 <= m.claims[u].attempts <= m.jobs[id].attempts {
      assert ClaimInv(m, u, m.claims[u]);
    }
    AtMostOnePerAttempt(m, StartedClaims(m, id), id, m.jobs[id].attempts);
  }

  // ---- settling ----------------------------------------------------------------------------------

  /** What a job has left: two steps per unused attempt, and one if it is running. */
  function Rank(job: Job): int {
    2 * (job.maxAttempts - job.attempts) + (if job.status.Running? then 1 else 0)
  }

  /** Every change of a row that leaves it unsettled lowers its rank; the rank is never negative. */
  lemma RankFalls(s: System, a: Action, id: JobId)
    requires Inv(s) && id in s.jobs && Next(s, a).jobs[id] != s.jobs[id]
    ensures Next(s, a).jobs[id].maxAttempts == s.jobs[id].maxAttempts && !s.jobs[id].Terminal()
    ensures Next(s, a).jobs[id].Terminal() || 0 <= Rank(Next(s, a).jobs[id]) < Rank(s.jobs[id])
    ensures Rank(s.jobs[id]) >= 0
  {
    RowStep(s, a, id);
    assert JobInv(s, id, s.jobs[id]);
  }

  /** How often the run has changed a row. */
  ghost function Changes(s: System, t: Trace, id: JobId): nat {
    match t
    case Begin => 0
    case Then(before, a) =>
      Changes(s, before, id) +
      (if id in Play(s, before).jobs && id in Play(s, t).jobs && Play(s, t).jobs[id] != Play(s, before).jobs[id] then 1 else 0)
  }

  /** Each job settles within a bounded number of steps: its row changes at most 2 * maxAttempts times in
      any run, and while it is not settled the changes so far and its rank add up to at most that. */
  lemma {:induction false} JobSettles(s: System, t: Trace, id: JobId)
    requires Init(s) && id in Play(s, t).jobs && Play(s, t).jobs[id].maxAttempts >= 0
    ensures var job := Play(s, t).jobs[id];
            && Changes(s, t, id) <= 2 * job.maxAttempts
            && (!job.Terminal() ==> Changes(s, t, id) + Rank(job) <= 2 * job.maxAttempts)
  {
    if t.Then? {
      var m, m' := Play(s, t.before), Play(s, t);
      RunKeepsInv(s, t.before);
      if id in m.jobs {
        RowStep(m, t.last, id);
        JobSettles(s, t.before, id);
        assert JobInv(m, id, m.jobs[id]);
        if m'.jobs[id] != m.jobs[id] {
          RankFalls(m, t.last, id);
        }
      } else {
        NoChangesBefore(s, t.before, id);
      }
    }
  }

  lemma {:induction false} NoChangesBefore(s: System, t: Trace, id: JobId)
    requires Init(s) && id !in Play(s, t).jobs
    ensures Changes(s, t, id) == 0
  {
    if t.Then? {
      RunKeepsInv(s, t.before);
      if id in Play(s, t.before).jobs {
        RowStep(Play(s, t.before), t.last, id);
      }
      NoChangesBefore(s, t.before, id);
    }
  }

  // ---- the poll as written -----------------------------------------------------------------------

  /** What became of a statement: it took effect, it did not, or it did and its reply was lost. Both
      failures surface as a thrown error, which every caller below swallows. */
  datatype Reply = Answered | Rejected | ReplyLost

  lemma OthersLeaveMyClaim(s: System, a: Action, t: Token)
    requires Inv(s) && t in s.claims
    requires (a.StartHandler? || a.Mark? || a.LoseWorker?) ==> a.token != t
    ensures t in Next(s, a).claims && Next(s, a).claims[t] == s.claims[t]
  {
    if a.ClaimBatch? {
      LeasesLeaveClaims(s, a, t);
    }
  }

  lemma LeasesLeaveClaims(s: System, a: Action, t: Token)
    requires Inv(s) && t in s.claims && a.ClaimBatch?
    ensures t in Next(s, a).claims && Next(s, a).claims[t] == s.claims[t]
  {
    assert ClaimInv(s, t, s.claims[t]);
    if MayClaim(s, a.rows, a.limit, a.locked) {
      LeaseRowsFrame(s, a.rows, a.until);
    }
  }

  lemma ClaimsAreOld(s: System, t: Trace)
    requires Init(s)
    ensures forall u :: u in Play(s, t).claims ==> u < Play(s, t).nextToken
  {
    RunKeepsInv(s, t);
    forall u | u in Play(s, t).claims ensures u < Play(s, t).nextToken {
      assert ClaimInv(Play(s, t), u, Play(s, t).claims[u]);
    }
  }

  ghost predicate Idle(s: System, t: Token) {
    t in s.claims && !s.claims[t].started && !s.claims[t].reported && !s.claims[t].lost
  }

  /** The token stands for its row in the list, counting from the first token, and is idle. */
  ghost predicate IdleOn(s: System, t: Token, rows: seq<JobId>, first: Token) {
    Idle(s, t) && first <= t < first + |rows| && s.claims[t].job == rows[t - first]
  }

  /** The next tokens are idle claims on these rows, and earlier claims are as they were. */
  ghost predicate HandsOut(s: System, s': System, rows: seq<JobId>) {
    && (forall t :: s.nextToken <= t < s.nextToken + |rows| ==> IdleOn(s', t, rows, s.nextToken))
    && (forall t :: t in s.claims && t < s.nextToken ==> t in s'.claims && s'.claims[t] == s.claims[t])
  }

  lemma LeasedIdle(s: System, rows: seq<JobId>, until: int, t: Token)
    requires forall i :: 0 <= i < |rows| ==> rows[i] in s.jobs
    requires forall i, j :: 0 <= i < j < |rows| ==> rows[i] != rows[j]
    requires s.nextToken <= t < s.nextToken + |rows|
    ensures IdleOn(LeaseRows(s, rows, until), t, rows, s.nextToken)
  {
    LeasedRow(s, rows, until, t - s.nextToken);
  }

  lemma ClaimLeases(s: System, rows: seq<JobId>, limit: nat, locked: set<JobId>, until: int)
    requires MayClaim(s, rows, limit, locked)
    ensures var s' := Next(s, ClaimBatch(rows, limit, locked, until)); s' == LeaseRows(s, rows, until) && HandsOut(s, s', rows)
  {
    LeaseRowsFrame(s, rows, until);
    forall t | s.nextToken <= t < s.nextToken + |rows| ensures IdleOn(LeaseRows(s, rows, until), t, rows, s.nextToken) {
      LeasedIdle(s, rows, until, t);
    }
  }

  /** The row that carries the token has taken the outcome over; no other row has changed. */
  ghost predicate TakesOver(jobs: map<JobId, Job>, jobs': map<JobId, Job>, t: Token, succeeded: bool, nextRunAt: int) {
    jobs'.Keys == jobs.Keys && forall id :: id in jobs ==>
      if jobs[id].lockToken == Some(t) then Settles(jobs[id], jobs'[id], succeeded, nextRunAt) else jobs'[id] == jobs[id]
  }

  /** What a report does: exactly the row carrying the claim's token changes, as its own attempts say. */
  lemma ReportSettles(s: System, t: Token, succeeded: bool, nextRunAt: int)
    requires Inv(s) && t in s.claims && !s.claims[t].lost
    ensures var s' := Next(s, Mark(t, if succeeded then HandlerSucceeded else HandlerFailed(nextRunAt)));
            s'.claims == s.claims[t := s.claims[t].(reported := true)] && TakesOver(s.jobs, s'.jobs, t, succeeded, nextRunAt)
  {
    var c := s.claims[t];
    assert ClaimInv(s, t, c);
    forall id | id in s.jobs && s.jobs[id].lockToken == Some(t) ensures id == c.job && c.attempts == s.jobs[id].attempts {
      assert JobInv(s, id, s.jobs[id]);
    }
  }

  /** ORDER BY "runAt" LIMIT batchSize over the claimable rows that nobody has locked. */
  method SelectDue(s: System, limit: nat, skip: set<JobId>) returns (rows: seq<JobId>)
    ensures MayClaim(s, rows, limit, skip)
  {
    var left := set id | id in s.jobs && Due(s, id, skip);
    rows := [];
    while |rows| < limit && left != {}
      invariant |rows| <= limit && InOrder(s, rows)
      invariant forall id :: id in left ==> Due(s, id, skip) && id !in rows && NoneLater(s, rows, s.jobs[id].runAt)
      invariant forall k :: 0 <= k < |rows| ==> Due(s, rows[k], skip)
      invariant forall id :: id in s.jobs && Due(s, id, skip) ==> id in left || id in rows
      decreases |left|
    {
      var id := Earliest(s, left);
      rows, left := rows + [id], left - {id};
    }
  }

  method Earliest(s: System, ids: set<JobId>) returns (first: JobId)
    requires ids != {} && forall id :: id in ids ==> id in s.jobs
    ensures first in ids && forall id :: id in ids ==> s.jobs[first].runAt <= s.jobs[id].runAt
  {
    first :| first in ids;
    var left := ids - {first};
    while left != {}
      invariant left <= ids && first in ids
      invariant forall id :: id in ids && id !in left ==> s.jobs[first].runAt <= s.jobs[id].runAt
      decreases |left|
    {
      var id :| id in left;
      if s.jobs[id].runAt < s.jobs[first].runAt {
        first := id;
      }
      left := left - {id};
    }
  }

  /** One worker process. Before each of its own statements everyone else may take any number of steps;
      `others`, the rows that concurrent claims hold `locked`, the database's `replies` and what the
      handlers do are all arbitrary. `mine` are the claims this process holds; `seen` is the state its
      latest statement met. */
  class PostgresJobScheduler {
    const others: nat -> seq<Action>
    const locked: nat -> set<JobId>
    const replies: nat -> Reply
    const registered: JobId -> bool
    const completes: Token -> bool
    const batchSize: nat
    const leaseDurationMs: nat
    const retryBackoffMs: nat
    const start: System
    var sys: System
    var turn: nat
    var mine: set<Token>
    ghost var trace: Trace
    ghost var seen: System

    ghost predicate Ok()
      reads this
    {
      Init(start) && sys == Play(start, trace) && forall t :: t in mine ==> t in sys.claims
    }

    constructor (start: System, others: nat -> seq<Action>, locked: nat -> set<JobId>, replies: nat -> Reply,
                 registered: JobId -> bool, completes: Token -> bool)
      requires Init(start)
      ensures Ok() && sys == start && mine == {} && batchSize == 10 && leaseDurationMs == 30_000 && retryBackoffMs == 5_000
    {
      this.start, this.others, this.locked, this.replies := start, others, locked, replies;
      this.registered, this.completes := registered, completes;
      batchSize, leaseDurationMs, retryBackoffMs := 10, 30_000, 5_000;
      sys, turn, mine, trace, seen := start, 0, {}, Begin, start;
    }

    /** No step of anyone else disturbs a claim of this process. */
    method Others()
      requires Ok()
      modifies this`sys, this`turn, this`trace, this`seen
      ensures Ok() && seen == sys && turn == old(turn) + 1
      ensures forall t :: t in mine ==> sys.claims[t] == old(sys.claims)[t]
    {
      var acts := others(turn);
      turn := turn + 1;
      for k := 0 to |acts|
        invariant Ok() && turn == old(turn) + 1
        invariant forall t :: t in mine ==> sys.claims[t] == old(sys.claims)[t]
      {
        if (acts[k].StartHandler? || acts[k].Mark? || acts[k].LoseWorker?) && acts[k].token in mine {
          continue;
        }
        Take(acts[k]);
      }
      seen := sys;
    }

    method Take(a: Action)
      requires Ok()
      modifies this`sys, this`trace
      ensures Ok() && sys == Next(old(sys), a)
      ensures forall t :: t in mine && !((a.StartHandler? || a.Mark? || a.LoseWorker?) && a.token == t) ==>
                t in sys.claims && sys.claims[t] == old(sys.claims)[t]
    {
      RunKeepsInv(start, trace);
      forall t | t in mine ensures t in Next(sys, a).claims {
        if !((a.StartHandler? || a.Mark? || a.LoseWorker?) && a.token == t) { OthersLeaveMyClaim(sys, a, t); }
      }
      forall t | t in mine && !((a.StartHandler? || a.Mark? || a.LoseWorker?) && a.token == t)
        ensures Next(sys, a).claims[t] == sys.claims[t]
      {
        OthersLeaveMyClaim(sys, a, t);
      }
      sys := Next(sys, a);
      trace := Then(trace, a);
    }

    /** Unless the database rejects it, the sweep fails exactly the exhausted rows whose lease has run out. */
    method FailExhaustedExpiredJobs()
      requires Ok()
      modifies this`sys, this`turn, this`trace, this`seen
      ensures Ok() && sys.claims == seen.claims && sys.nextToken == seen.nextToken && turn == old(turn) + 1
      ensures forall t :: t in mine ==> sys.claims[t] == old(sys.claims)[t]
      ensures sys.jobs.Keys == seen.jobs.Keys
      ensures forall id :: id in seen.jobs ==>
                var job := seen.jobs[id];
                if !replies(turn).Rejected? && LeaseOver(job, seen.now) && job.attempts >= job.maxAttempts
                then Ends(job, sys.jobs[id], Failed, job.runAt) else sys.jobs[id] == job
    {
      Others();
      if !replies(turn).Rejected? {
        Take(Sweep);
      }
    }

    /** The process holds the claim and has neither run the handler nor reported. */
    ghost predicate Held(t: Token)
      reads this
    {
      t in mine && Idle(sys, t)
    }

    /** The claim statement itself, passing over the rows that are locked. */
    method Lease(skip: set<JobId>) returns (rows: seq<JobId>)
      requires Ok() && seen == sys && forall t :: t in mine ==> t < sys.nextToken
      modifies this`sys, this`trace
      ensures Ok() && Claimed(rows, skip) && HandsOut(seen, sys, rows)
    {
      var s, until := sys, sys.now + leaseDurationMs;
      rows := SelectDue(s, batchSize, skip);
      ClaimLeases(s, rows, batchSize, skip, until);
      sys := LeaseRows(s, rows, until);
      trace := Then(trace, Action.ClaimBatch(rows, batchSize, skip, until));
    }

    /** The latest statement leased exactly these rows, the first batchSize due ones nobody had locked. */
    ghost predicate Claimed(rows: seq<JobId>, skip: set<JobId>)
      reads this`sys, this`seen
    {
      MayClaim(seen, rows, batchSize, skip) && sys == LeaseRows(seen, rows, seen.now + leaseDurationMs)
    }

    /** The process holds these tokens, for these rows in their order, and has run none of them. */
    ghost predicate Holds(tokens: seq<Token>, rows: seq<JobId>, first: Token)
      reads this`sys, this`mine
    {
      |tokens| == |rows| && forall k :: 0 <= k < |rows| ==> tokens[k] == first + k && tokens[k] in mine && IdleOn(sys, tokens[k], rows, first)
    }

    method Keep(first: Token, rows: seq<JobId>) returns (tokens: seq<Token>)
      requires forall t :: first <= t < first + |rows| ==> IdleOn(sys, t, rows, first)
      modifies this`mine
      ensures Holds(tokens, rows, first) && old(mine) <= mine
      ensures forall t :: t in mine - old(mine) ==> t in tokens && t in sys.claims
    {
      tokens := [];
      for k := 0 to |rows|
        invariant |tokens| == k && old(mine) <= mine
        invariant forall l :: 0 <= l < k ==> tokens[l] == first + l && tokens[l] in mine && IdleOn(sys, tokens[l], rows, first)
        invariant forall t :: t in mine - old(mine) ==> t in tokens && t in sys.claims
      {
        assert IdleOn(sys, first + k, rows, first);
        tokens, mine := tokens + [first + k], mine + {first + k};
      }
    }

    /** A claim hands this process one fresh token per row it leases. If the database rejects it no row is
        leased; if only the reply is lost, the rows are leased with nobody to run them. */
    method ClaimBatch() returns (claimed: Option<seq<Token>>, ghost rows: seq<JobId>)
      requires Ok()
      modifies this`sys, this`turn, this`trace, this`seen, this`mine
      ensures Ok() && old(mine) <= mine && turn == old(turn) + 1
      ensures forall t :: t in old(mine) ==> sys.claims[t] == old(sys.claims)[t]
      ensures if replies(turn).Rejected? then sys == seen else Claimed(rows, locked(turn))
      ensures claimed.Some? <==> replies(turn).Answered?
      ensures claimed.None? ==> mine == old(mine)
      ensures claimed.Some? ==> Holds(claimed.value, rows, seen.nextToken) && forall t :: t in mine - old(mine) ==> t in claimed.value
    {
      Others();
      rows := [];
      ClaimsAreOld(start, trace);
      if replies(turn).Rejected? {
        return None, rows;
      }
      var first := sys.nextToken;
      var due := Lease(locked(turn));
      rows := due;
      if replies(turn).ReplyLost? {
        return None, rows;
      }
      var tokens := Keep(first, due);
      return Some(tokens), rows;
    }

    /** The handler was started exactly once if one is registered, and not at all otherwise. */
    ghost predicate StartedIfRegistered(t: Token)
      reads this
    {
      t in sys.claims && sys.claims[t].started == registered(sys.claims[t].job)
    }

    /** The latest statement reported token `t`, and took effect unless the database rejected it. */
    ghost predicate Reported(t: Token, succeeded: bool)
      reads this
    {
      && t in sys.claims && (sys.claims[t].reported <==> !replies(turn).Rejected?)
      && if replies(turn).Rejected? then sys.jobs == seen.jobs
         else TakesOver(seen.jobs, sys.jobs, t, succeeded, seen.now + retryBackoffMs)
    }

    /** Nothing has happened to this process's claims but to `t`, which was only reported, if at all. */
    twostate predicate OnlyReports(t: Token)
      reads this
    {
      && (forall u :: u in mine && u != t ==> u in sys.claims && u in old(sys).claims && sys.claims[u] == old(sys).claims[u])
      && t in sys.claims && t in old(sys).claims && sys.claims[t].(reported := false) == old(sys).claims[t].(reported := false)
    }

    method MarkSucceeded(t: Token)
      requires Ok() && t in mine && !sys.claims[t].lost && !sys.claims[t].reported
      modifies this`sys, this`turn, this`trace, this`seen
      ensures Ok() && turn == old(turn) + 1 && Reported(t, true) && OnlyReports(t)
    {
      Others();
      RunKeepsInv(start, trace);
      ReportSettles(sys, t, true, sys.now + retryBackoffMs);
      if !replies(turn).Rejected? {
        Take(Mark(t, HandlerSucceeded));
      }
    }

    method MarkFailed(t: Token)
      requires Ok() && t in mine && !sys.claims[t].lost && !sys.claims[t].reported
      modifies this`sys, this`turn, this`trace, this`seen
      ensures Ok() && turn == old(turn) + 1 && Reported(t, false) && OnlyReports(t)
    {
      Others();
      RunKeepsInv(start, trace);
      var nextRunAt := sys.now + retryBackoffMs;
      ReportSettles(sys, t, false, nextRunAt);
      if !replies(turn).Rejected? {
        Take(Mark(t, HandlerFailed(nextRunAt)));
      }
    }

    /** Running a claimed job starts its handler once if one is registered, and then makes one report:
        success if the handler is registered and returns normally, failure otherwise. */
    method RunClaimedJob(t: Token)
      requires Ok() && Held(t)
      modifies this`sys, this`turn, this`trace, this`seen
      ensures Ok() && turn > old(turn)
      ensures StartedIfRegistered(t) && sys.claims[t].job == old(sys.claims)[t].job
      ensures Reported(t, registered(sys.claims[t].job) && completes(t))
      ensures forall u :: u in mine && u != t ==> u in sys.claims && sys.claims[u] == old(sys.claims)[u]
    {
      if !registered(sys.claims[t].job) {
        MarkFailed(t);
        return;
      }
      Others();
      Take(StartHandler(t));
      if completes(t) {
        MarkSucceeded(t);
      } else {
        MarkFailed(t);
      }
    }

    /** The claim is on this row; its handler was started once if one is registered, and not otherwise; and
        it was reported by one statement after `since`, unless the database rejected that. */
    ghost predicate Ran(t: Token, id: JobId, since: nat)
      reads this
    {
      && t in sys.claims && sys.claims[t].job == id && sys.claims[t].started == registered(id)
      && exists n :: since < n <= turn && (sys.claims[t].reported <==> !replies(n).Rejected?)
    }

    /** The first k tokens have been run, the others not. */
    ghost predicate RanFirst(ran: seq<Token>, rows: seq<JobId>, first: Token, k: nat, since: nat)
      reads this
    {
      && |ran| == |rows| && (forall l :: 0 <= l < |ran| ==> ran[l] == first + l && ran[l] in mine)
      && (forall l :: 0 <= l < k && l < |ran| ==> Ran(ran[l], rows[l], since))
      && (forall l :: k <= l < |ran| ==> IdleOn(sys, ran[l], rows, first))
    }

    method RunNext(ran: seq<Token>, ghost rows: seq<JobId>, ghost first: Token, k: nat, ghost since: nat)
      requires Ok() && RanFirst(ran, rows, first, k, since) && k < |ran| && turn >= since
      modifies this`sys, this`turn, this`trace, this`seen
      ensures Ok() && RanFirst(ran, rows, first, k + 1, since) && turn >= since
    {
      assert IdleOn(sys, ran[k], rows, first);
      RunClaimedJob(ran[k]);
      assert Ran(ran[k], rows[k], since);
      forall l | 0 <= l < k ensures Ran(ran[l], rows[l], since) {
        assert old(Ran(ran[l], rows[l], since));
      }
    }

    /** One poll: the sweep, then the claim, then every claimed job in turn. If the claim is answered, each
        row it leased has been run and reported, in order; otherwise nothing has. `met` is the state the
        claim met. */
    method PollOnce() returns (ran: seq<Token>, ghost met: System, ghost rows: seq<JobId>)
      requires Ok()
      modifies this`sys, this`turn, this`trace, this`seen, this`mine
      ensures Ok() && forall t :: t in mine - old(mine) ==> t in ran
      ensures !replies(old(turn) + 2).Answered? ==> ran == []
      ensures replies(old(turn) + 2).Answered? ==>
                && MayClaim(met, rows, batchSize, locked(old(turn) + 2))
                && RanFirst(ran, rows, met.nextToken, |ran|, old(turn) + 2)
    {
      FailExhaustedExpiredJobs();
      var claimed;
      claimed, rows := ClaimBatch();
      met := seen;
      if claimed.None? {
        return [], met, rows;
      }
      ran := claimed.value;
      for k := 0 to |ran|
        invariant forall t :: t in mine - old(mine) ==> t in ran
        invariant Ok() && turn >= old(turn) + 2 && RanFirst(ran, rows, met.nextToken, k, old(turn) + 2)
      {
        RunNext(ran, rows, met.nextToken, k, old(turn) + 2);
      }
    }
  }
}
