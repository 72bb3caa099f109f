/**
 The batch pipeline: tickets in the Redis queue, the drain loop that turns them into jobs, the job
 table with its re-claims, the process_scheduled_request handler with its idempotency guard, and the
 tracking row that records the outcome. One step is one Redis command, SQL statement or routing call;
 any of them may throw, with or without having taken effect, and any process may die at any point.
 */
module BatchPipeline {
  import opened Wrappers
  import J = JobScheduler

  type Ticket = nat

  const PERSIST_ATTEMPTS: nat := 3
  const DEFAULT_MAX_ATTEMPTS: int := 5

  datatype Status = Pending | Processing | Succeeded | Failed {
    predicate Terminal() {
      Succeeded? || Failed?
    }
  }

  type Outcome = s: Status | s.Terminal() witness Succeeded

  /** Where one execution of the handler stands. `tries` counts the failed writes of the outcome. */
  datatype Pc =
    | Marking
    | Skipped
    | Routing
    | Persisting(outcome: Outcome, tries: nat)
    | Finished(outcome: Outcome, persisted: bool)
  {
    /** The execution has called route(). */
    predicate Routed() {
      Routing? || Persisting? || Finished?
    }

    predicate Carries(status: Status) {
      (Persisting? || Finished?) && outcome == status
    }
  }

  datatype Handler = Handler(batch: Ticket, pc: Pc, crashed: bool)

  /** What a drainer holds: the tickets of a first ZPOPMIN, those still to hand over, or one whose
      hand-over failed. */
  datatype Drainer = Idle | Popped(first: seq<Ticket>) | Handing(rest: seq<Ticket>) | Requeuing(ticket: Ticket, rest: seq<Ticket>) {
    function Hand(): seq<Ticket> {
      match this
      case Idle => []
      case Popped(first) => first
      case Handing(rest) => rest
      case Requeuing(ticket, rest) => [ticket] + rest
    }

    /** Between two ticks. */
    predicate Ready() {
      Idle? || this == Handing([])
    }
  }

  /** `payload` is the ticket in each process_scheduled_request job, `handlers` every execution so far
      by the token of its claim, `rows` the tracking rows. */
  datatype System = System(sched: J.System, payload: map<J.JobId, Ticket>, queue: set<Ticket>, submitted: set<Ticket>,
                           drainers: map<nat, Drainer>, rows: map<Ticket, Status>, handlers: map<J.Token, Handler>)

  datatype Reply = Answered | Rejected | ReplyLost

  datatype Action =
    | Submit(ticket: Ticket)
    | CreateRow(ticket: Ticket)
    | Pop(d: nat, good: seq<Ticket>, bad: set<Ticket>)
    | PopReplyLost(d: nat, gone: set<Ticket>)
    | PopMore(d: nat, good: seq<Ticket>, bad: set<Ticket>)
    | PopThrows(d: nat, gone: set<Ticket>)
    | HandOff(d: nat, id: J.JobId, reply: Reply)
    | Requeue(d: nat, reply: Reply)
    | DrainerCrash(d: nat)
    | Sched(step: J.Action)
    | StartHandler(token: J.Token)
    | MarkProcessing(token: J.Token, reply: Reply)
    | Route(token: J.Token, ok: bool)
    | Persist(token: J.Token, reply: Reply)
    | HandlerCrash(token: J.Token)
  {
    predicate ByDrainer(me: nat) {
      (Pop? || PopReplyLost? || PopMore? || PopThrows? || HandOff? || Requeue? || DrainerCrash?) && d == me
    }

    predicate ByHandler(me: J.Token) {
      (StartHandler? || MarkProcessing? || Route? || Persist? || HandlerCrash?) && token == me
    }
  }

  function DrainerAt(s: System, d: nat): Drainer {
    if d in s.drainers then s.drainers[d] else Idle
  }

  function Elements(ts: seq<Ticket>): set<Ticket> {
    set t | t in ts
  }

  /** ZPOPMIN: the members leave the queue; those that do not parse are dropped. */
  predicate MayPop(s: System, good: seq<Ticket>, bad: set<Ticket>) {
    Elements(good) <= s.queue && bad <= s.queue && Elements(good) !! bad
  }

  predicate Unused(s: System, id: J.JobId) {
    id !in s.sched.jobs && id !in s.payload
  }

  function DrainStep(s: System, a: Action): System
    requires a.Pop? || a.PopReplyLost? || a.PopMore? || a.PopThrows? || a.HandOff? || a.Requeue? || a.DrainerCrash?
  {
    var dr := DrainerAt(s, a.d);
    match a
    case Pop(d, good, bad) =>
      if dr.Ready() && MayPop(s, good, bad)
      then s.(queue := s.queue - Elements(good) - bad, drainers := s.drainers[d := Popped(good)]) else s
    // the first ZPOPMIN took effect but its reply was lost
    case PopReplyLost(d, gone) => if dr.Ready() then s.(queue := s.queue - gone) else s
    case PopMore(d, good, bad) =>
      if dr.Popped? && MayPop(s, good, bad)
      then s.(queue := s.queue - Elements(good) - bad, drainers := s.drainers[d := Handing(dr.first + good)]) else s
    // the second ZPOPMIN throws: whatever the first one popped is forgotten
    case PopThrows(d, gone) =>
      if dr.Popped? then s.(queue := s.queue - gone, drainers := s.drainers[d := Idle]) else s
    case HandOff(d, id, reply) =>
      if dr.Handing? && dr.rest != [] then
        // an insert under an id that exists throws
        var created := !reply.Rejected? && Unused(s, id);
        var s' := if !created then s
                  else s.(sched := J.Next(s.sched, J.Enqueue(id, DEFAULT_MAX_ATTEMPTS, s.sched.now)), payload := s.payload[id := dr.rest[0]]);
        s'.(drainers := s.drainers[d := if created && reply.Answered? then Handing(dr.rest[1..])
                                        else Requeuing(dr.rest[0], dr.rest[1..])])
      else s
    case Requeue(d, reply) =>
      if dr.Requeuing?
      then s.(queue := if reply.Rejected? then s.queue else s.queue + {dr.ticket}, drainers := s.drainers[d := Handing(dr.rest)]) else s
    case DrainerCrash(d) => s.(drainers := s.drainers[d := Idle])
  }

  function SetPc(s: System, t: J.Token, pc: Pc): System
    requires t in s.handlers
  {
    s.(handlers := s.handlers[t := s.handlers[t].(pc := pc)])
  }

  /** UPDATE ... WHERE id = b AND status = 'PENDING' */
  function ClaimRow(rows: map<Ticket, Status>, b: Ticket): map<Ticket, Status> {
    if b in rows && rows[b].Pending? then rows[b := Processing] else rows
  }

  /** The idempotency guard. A call that throws is taken as a claim: the handler proceeds. */
  function Mark(s: System, t: J.Token, reply: Reply): System
    requires t in s.handlers
  {
    var b := s.handlers[t].batch;
    match reply
    case Answered => SetPc(s, t, if b in s.rows && s.rows[b].Pending? then Routing else Skipped).(rows := ClaimRow(s.rows, b))
    case Rejected => SetPc(s, t, Routing)
    case ReplyLost => SetPc(s, t, Routing).(rows := ClaimRow(s.rows, b))
  }

  /** One attempt to record the outcome; an update of a missing row throws. */
  function Record(s: System, t: J.Token, reply: Reply): System
    requires t in s.handlers && s.handlers[t].pc.Persisting?
  {
    var h := s.handlers[t];
    var written := h.batch in s.rows && !reply.Rejected?;
    var pc := if written && reply.Answered? then Finished(h.pc.outcome, true)
              else if h.pc.tries + 1 >= PERSIST_ATTEMPTS then Finished(h.pc.outcome, false)
              else Persisting(h.pc.outcome, h.pc.tries + 1);
    SetPc(s, t, pc).(rows := if written then s.rows[h.batch := h.pc.outcome] else s.rows)
  }

  predicate Live(s: System, t: J.Token) {
    t in s.handlers && !s.handlers[t].crashed
  }

  function Next(s: System, a: Action): System {
    match a
    case Submit(b) => if b in s.submitted then s else s.(queue := s.queue + {b}, submitted := s.submitted + {b})
    case CreateRow(b) => if b in s.submitted && b !in s.rows then s.(rows := s.rows[b := Pending]) else s
    case Sched(step) => if step.StartHandler? then s else s.(sched := J.Next(s.sched, step))
    case StartHandler(t) =>
      var sched := J.Next(s.sched, J.StartHandler(t));
      if sched != s.sched && t !in s.handlers && s.sched.claims[t].job in s.payload
      then s.(sched := sched, handlers := s.handlers[t := Handler(s.payload[s.sched.claims[t].job], Marking, false)])
      else s.(sched := sched)
    case MarkProcessing(t, reply) => if Live(s, t) && s.handlers[t].pc.Marking? then Mark(s, t, reply) else s
    case Route(t, ok) =>
      if Live(s, t) && s.handlers[t].pc.Routing? then SetPc(s, t, Persisting(if ok then Succeeded else Failed, 0)) else s
    case Persist(t, reply) => if Live(s, t) && s.handlers[t].pc.Persisting? then Record(s, t, reply) else s
    case HandlerCrash(t) => if t in s.handlers then s.(handlers := s.handlers[t := s.handlers[t].(crashed := true)]) else s
    case _ => DrainStep(s, a)
  }

  ghost predicate Init(s: System) {
    && J.Init(s.sched) && s.payload == map[] && s.queue == {} && s.submitted == {}
    && s.drainers == map[] && s.rows == map[] && s.handlers == map[]
  }

  datatype Trace = Begin | Then(before: Trace, last: Action)

  function Play(s: System, t: Trace): System {
    match t
    case Begin => s
    case Then(before, a) => Next(Play(s, before), a)
  }

  ghost predicate Extends(more: Trace, t: Trace) {
    more == t || (more.Then? && Extends(more.before, t))
  }

  // ---- how often a batch is routed ---------------------------------------------------------------

  predicate Concerns(m: System, a: Action, b: Ticket) {
    && a.MarkProcessing? && Live(m, a.token)
    && m.handlers[a.token].pc.Marking? && m.handlers[a.token].batch == b
  }

  /** How often route() has been entered for a batch. */
  function RoutingRuns(s: System, t: Trace, b: Ticket): nat {
    match t
    case Begin => 0
    case Then(before, a) =>
      RoutingRuns(s, before, b) +
      (if Concerns(Play(s, before), a, b) && Play(s, t).handlers[a.token].pc.Routing? then 1 else 0)
  }

  /** How many of its markProcessing calls have thrown. */
  function MarkThrows(s: System, t: Trace, b: Ticket): nat {
    match t
    case Begin => 0
    case Then(before, a) => MarkThrows(s, before, b) + (if Concerns(Play(s, before), a, b) && !a.reply.Answered? then 1 else 0)
  }

  predicate LeftPending(m: System, b: Ticket) {
    b in m.rows && !m.rows[b].Pending?
  }

  /** What a step may do to a tracking row. */
  lemma RowStep(m: System, a: Action, b: Ticket)
    ensures b in m.rows ==> b in Next(m, a).rows
    ensures LeftPending(m, b) ==> LeftPending(Next(m, a), b)
    ensures b !in m.rows && b in Next(m, a).rows ==> a.CreateRow? && Next(m, a).rows[b].Pending?
    ensures b in m.rows && Next(m, a).rows[b] != m.rows[b] ==>
              || (Concerns(m, a, b) && m.rows[b].Pending? && Next(m, a).rows[b].Processing?)
              || (a.Persist? && Live(m, a.token) && m.handlers[a.token].batch == b
                  && m.handlers[a.token].pc.Persisting? && Next(m, a).rows[b] == m.handlers[a.token].pc.outcome
                  && Next(m, a).handlers[a.token].pc.Carries(Next(m, a).rows[b]))
  {
  }

  /** Routing runs for a batch are at most one more than its markProcessing calls that threw, and none
      more while its row is still pending or was never created. */
  lemma {:induction false} RoutingRunsBounded(s: System, t: Trace, b: Ticket)
    requires Init(s)
    ensures RoutingRuns(s, t, b) <= MarkThrows(s, t, b) + (if LeftPending(Play(s, t), b) then 1 else 0)
  {
    if t.Then? {
      RoutingRunsBounded(s, t.before, b);
      RowStep(Play(s, t.before), t.last, b);
    }
  }


  // ---- with no throwing markProcessing call ------------------------------------------------------

  predicate HasRouted(m: System, u: J.Token, b: Ticket) {
    u in m.handlers && m.handlers[u].batch == b && m.handlers[u].pc.Routed()
  }

  /** One execution owns the row: it alone has routed the batch, and a settled row holds its outcome. */
  ghost predicate SoleOwner(m: System, b: Ticket) {
    && (forall u, v :: HasRouted(m, u, b) && HasRouted(m, v, b) ==> u == v)
    && (forall u :: HasRouted(m, u, b) ==> LeftPending(m, b) && (m.rows[b].Terminal() ==> m.handlers[u].pc.Carries(m.rows[b])))
    && (LeftPending(m, b) ==> exists u :: HasRouted(m, u, b))
  }

  /** A step concerning some other execution leaves this one's claim on the batch as it was. */
  lemma HandlerStep(m: System, a: Action, u: J.Token)
    ensures u in m.handlers ==> u in Next(m, a).handlers && Next(m, a).handlers[u].batch == m.handlers[u].batch
    ensures u in m.handlers && !a.ByHandler(u) ==> Next(m, a).handlers[u] == m.handlers[u]
    ensures u in m.handlers && m.handlers[u].pc.Routed() ==> Next(m, a).handlers[u].pc.Routed()
    ensures u in m.handlers && m.handlers[u].pc.Persisting? ==> Next(m, a).handlers[u].pc.Carries(m.handlers[u].pc.outcome)
    ensures u in m.handlers && m.handlers[u].pc.Finished? ==> Next(m, a).handlers[u].pc == m.handlers[u].pc
    ensures u in m.handlers && m.handlers[u].crashed ==> Next(m, a).handlers[u] == m.handlers[u]
    ensures u !in m.handlers && u in Next(m, a).handlers ==> a.StartHandler? && Next(m, a).handlers[u].pc.Marking?
    ensures u in m.handlers && !m.handlers[u].pc.Routed() && Next(m, a).handlers[u].pc.Routed() ==>
              a.MarkProcessing? && a.token == u && Concerns(m, a, m.handlers[u].batch)
  {
  }

  lemma SoleOwnerStep(m: System, a: Action, b: Ticket)
    requires SoleOwner(m, b) && !(Concerns(m, a, b) && !a.reply.Answered?)
    ensures SoleOwner(Next(m, a), b)
  {
    var m' := Next(m, a);
    RowStep(m, a, b);
    forall u | HasRouted(m', u, b) ensures HasRouted(m, u, b) || (Concerns(m, a, b) && a.token == u && !LeftPending(m, b)) {
      HandlerStep(m, a, u);
    }
    forall u | HasRouted(m, u, b) ensures HasRouted(m', u, b) {
      HandlerStep(m, a, u);
    }
    forall u | HasRouted(m', u, b)
      ensures LeftPending(m', b) && (m'.rows[b].Terminal() ==> m'.handlers[u].pc.Carries(m'.rows[b]))
    {
      HandlerStep(m, a, u);
      if HasRouted(m, u, b) && m'.rows[b] != m.rows[b] && a.Persist? {
        assert HasRouted(m, a.token, b);
      }
    }
    if LeftPending(m', b) && !LeftPending(m, b) {
      OwnerAppears(m, a, b);
    }
  }

  lemma OwnerAppears(m: System, a: Action, b: Ticket)
    requires SoleOwner(m, b) && !LeftPending(m, b) && LeftPending(Next(m, a), b)
    ensures exists u :: HasRouted(Next(m, a), u, b)
  {
    RowStep(m, a, b);
    if a.Persist? {
      assert HasRouted(m, a.token, b);
    } else {
      assert HasRouted(Next(m, a), a.token, b);
    }
  }

  lemma {:induction false} SoleOwnerAlways(s: System, t: Trace, b: Ticket)
    requires Init(s) && MarkThrows(s, t, b) == 0
    ensures SoleOwner(Play(s, t), b)
  {
    if t.Then? {
      SoleOwnerAlways(s, t.before, b);
      SoleOwnerStep(Play(s, t.before), t.last, b);
    }
  }

  /** If none of its markProcessing calls threw, a batch is routed by at most one execution and its row
      only ever goes from pending to processing and from there to the one outcome of that execution,
      both times by that execution's own statement. */
  lemma StatusPath(s: System, t: Trace, a: Action, b: Ticket)
    requires Init(s) && MarkThrows(s, Then(t, a), b) == 0
    requires b in Play(s, t).rows && Next(Play(s, t), a).rows[b] != Play(s, t).rows[b]
    ensures RoutingRuns(s, Then(t, a), b) <= 1
    ensures var m, m' := Play(s, t), Next(Play(s, t), a);
            && (a.MarkProcessing? || a.Persist?)
            && HasRouted(m', a.token, b) && (forall u :: HasRouted(m', u, b) ==> u == a.token)
            && ((m.rows[b].Pending? && m'.rows[b].Processing? && m'.handlers[a.token].pc.Routing?) ||
                (m.rows[b].Processing? && m'.rows[b].Terminal() && m'.handlers[a.token].pc.Carries(m'.rows[b])))
  {
    RoutingRunsBounded(s, Then(t, a), b);
    SoleOwnerAlways(s, t, b);
    SoleOwnerAlways(s, Then(t, a), b);
    var m := Play(s, t);
    RowStep(m, a, b);
    if a.Persist? {
      assert HasRouted(m, a.token, b);
    }
    assert HasRouted(Next(m, a), a.token, b);
  }

  lemma {:induction false} ThrowsOnlyGrow(s: System, t: Trace, more: Trace, b: Ticket)
    requires Extends(more, t)
    ensures MarkThrows(s, t, b) <= MarkThrows(s, more, b)
  {
    if more != t { ThrowsOnlyGrow(s, t, more.before, b); }
  }

  /** A terminal status set without such a throw never changes again, short of a later throw. */
  lemma {:induction false} OutcomeIsFinal(s: System, t: Trace, more: Trace, b: Ticket)
    requires Init(s) && Extends(more, t) && MarkThrows(s, more, b) == 0
    requires b in Play(s, t).rows && Play(s, t).rows[b].Terminal()
    ensures b in Play(s, more).rows && Play(s, more).rows[b] == Play(s, t).rows[b]
  {
    if more != t {
      ThrowsOnlyGrow(s, more.before, more, b);
      OutcomeIsFinal(s, t, more.before, b);
      RowStep(Play(s, more.before), more.last, b);
      if Next(Play(s, more.before), more.last).rows[b] != Play(s, more.before).rows[b] {
        StatusPath(s, more.before, more.last, b);
      }
    }
  }

  /** The price of the guard: if the one execution that claimed a batch dies before recording its
      outcome, the batch stays "processing" however often its job is claimed again. */
  lemma {:induction false} CrashedClaimStaysProcessing(s: System, t: Trace, more: Trace, b: Ticket, u: J.Token)
    requires Init(s) && Extends(more, t) && MarkThrows(s, more, b) == 0
    requires b in Play(s, t).rows && Play(s, t).rows[b].Processing?
    requires HasRouted(Play(s, t), u, b) && Play(s, t).handlers[u].crashed
    ensures b in Play(s, more).rows && Play(s, more).rows[b].Processing?
    ensures HasRouted(Play(s, more), u, b) && Play(s, more).handlers[u].crashed
  {
    if more != t {
      ThrowsOnlyGrow(s, more.before, more, b);
      CrashedClaimStaysProcessing(s, t, more.before, b, u);
      var m := Play(s, more.before);
      HandlerStep(m, more.last, u);
      RowStep(m, more.last, b);
      assert HasRouted(Next(m, more.last), u, b);
      if Next(m, more.last).rows[b] != m.rows[b] {
        StatusPath(s, more.before, more.last, b);
      }
    }
  }

  // ---- where a ticket is -------------------------------------------------------------------------

  predicate InHand(m: System, d: nat, b: Ticket) {
    d in m.drainers && b in m.drainers[d].Hand()
  }

  predicate InJob(m: System, id: J.JobId, b: Ticket) {
    id in m.payload && id in m.sched.jobs && m.payload[id] == b
  }

  /** In the queue, in a drainer's hand, or in a job. */
  ghost predicate Tracked(m: System, b: Ticket) {
    b in m.queue || (exists d :: InHand(m, d, b)) || (exists id :: InJob(m, id, b))
  }

  /** The named losses: a member that does not parse, a pop whose reply is lost, a second pop that
      throws, a drainer that dies, and a hand-over whose requeue also fails. */
  predicate Drops(m: System, a: Action, b: Ticket) {
    match a
    case Pop(d, _, bad) => b in bad
    case PopMore(d, _, bad) => b in bad
    case PopReplyLost(d, gone) => b in gone
    case PopThrows(d, gone) => b in gone || InHand(m, d, b)
    case DrainerCrash(d) => InHand(m, d, b)
    case Requeue(d, reply) => reply.Rejected? && DrainerAt(m, d).Requeuing? && DrainerAt(m, d).ticket == b
    case _ => false
  }

  ghost predicate DroppedIn(s: System, t: Trace, b: Ticket) {
    t.Then? && (DroppedIn(s, t.before, b) || Drops(Play(s, t.before), t.last, b))
  }

  lemma {:induction false} JobsKept(j: J.System, a: J.Action)
    ensures j.jobs.Keys <= J.Next(j, a).jobs.Keys
  {
  }

  lemma JobKept(m: System, a: Action, id: J.JobId, b: Ticket)
    requires InJob(m, id, b)
    ensures InJob(Next(m, a), id, b)
  {
    if a.Sched? { JobsKept(m.sched, a.step); }
    if a.StartHandler? { JobsKept(m.sched, J.StartHandler(a.token)); }
  }

  lemma HandOffKeeps(m: System, a: Action, b: Ticket)
    requires a.HandOff? && InHand(m, a.d, b)
    ensures Tracked(Next(m, a), b)
  {
    var m', dr := Next(m, a), m.drainers[a.d];
    if dr.Handing? && dr.rest[0] == b && a.reply.Answered? && Unused(m, a.id) {
      assert InJob(m', a.id, b);
    } else {
      assert InHand(m', a.d, b);
    }
  }

  lemma RequeueKeeps(m: System, a: Action, b: Ticket)
    requires a.Requeue? && InHand(m, a.d, b) && !Drops(m, a, b)
    ensures Tracked(Next(m, a), b)
  {
    var m', dr := Next(m, a), m.drainers[a.d];
    if !(dr.Requeuing? && b == dr.ticket && b in m'.queue) {
      assert InHand(m', a.d, b);
    }
  }

  lemma HandKept(m: System, a: Action, d: nat, b: Ticket)
    requires InHand(m, d, b) && !Drops(m, a, b)
    ensures Tracked(Next(m, a), b)
  {
    if a.HandOff? && a.d == d {
      HandOffKeeps(m, a, b);
    } else if a.Requeue? && a.d == d {
      RequeueKeeps(m, a, b);
    } else {
      assert InHand(Next(m, a), d, b);
    }
  }

  lemma QueueKept(m: System, a: Action, b: Ticket)
    requires b in m.queue && !Drops(m, a, b)
    ensures Tracked(Next(m, a), b)
  {
    var m' := Next(m, a);
    if b !in m'.queue {
      assert InHand(m', a.d, b);
    }
  }

  lemma TrackedStep(m: System, a: Action, b: Ticket)
    requires Tracked(m, b) && !Drops(m, a, b)
    ensures Tracked(Next(m, a), b)
  {
    if b in m.queue {
      QueueKept(m, a, b);
    } else if d :| InHand(m, d, b) {
      HandKept(m, a, d, b);
    } else {
      var id :| InJob(m, id, b);
      JobKept(m, a, id, b);
    }
  }

  /** A submitted ticket is in the queue, in a drainer's hand or in a job, unless a named loss step of
      the run dropped it. */
  lemma {:induction false} TicketsAreConserved(s: System, t: Trace, b: Ticket)
    requires Init(s) && b in Play(s, t).submitted && !DroppedIn(s, t, b)
    ensures Tracked(Play(s, t), b)
  {
    if t.Then? {
      if b in Play(s, t.before).submitted {
        TicketsAreConserved(s, t.before, b);
        TrackedStep(Play(s, t.before), t.last, b);
      }
    }
  }

  // ---- a batch drained before its row exists -----------------------------------------------------

  lemma {:induction false} SchedulerInv(s: System, t: Trace)
    requires Init(s)
    ensures J.Inv(Play(s, t).sched)
  {
    if t.Then? {
      SchedulerInv(s, t.before);
      SchedulerStep(Play(s, t.before), t.last);
    }
  }

  /** What a pipeline step does to the job table. */
  function SchedStep(m: System, a: Action): Option<J.Action> {
    match a
    case Sched(step) => if step.StartHandler? then None else Some(step)
    case StartHandler(t) => Some(J.StartHandler(t))
    case HandOff(d, id, reply) =>
      if DrainerAt(m, d).Handing? && DrainerAt(m, d).rest != [] && Unused(m, id) && !reply.Rejected?
      then Some(J.Enqueue(id, DEFAULT_MAX_ATTEMPTS, m.sched.now)) else None
    case _ => None
  }

  lemma SchedulerStep(m: System, a: Action)
    requires J.Inv(m.sched)
    ensures Next(m, a).sched == if SchedStep(m, a).Some? then J.Next(m.sched, SchedStep(m, a).value) else m.sched
    ensures J.Inv(Next(m, a).sched)
  {
    if SchedStep(m, a).Some? {
      J.NextKeepsInv(m.sched, SchedStep(m, a).value);
    }
  }

  /** Nothing is left that could ever process the batch: its ticket is nowhere, its jobs have ended and
      every claim on them has run or been given up. */
  ghost predicate Abandoned(m: System, b: Ticket) {
    && b in m.submitted && b !in m.queue && (forall d :: !InHand(m, d, b))
    && (forall id :: InJob(m, id, b) ==> m.sched.jobs[id].Terminal())
    && (forall t :: t in m.sched.claims && InJob(m, m.sched.claims[t].job, b) ==>
          m.sched.claims[t].started || m.sched.claims[t].reported || m.sched.claims[t].lost)
    && (forall u :: u in m.handlers && m.handlers[u].batch == b ==> m.handlers[u].pc.Skipped?)
  }

  lemma HandNotGained(m: System, a: Action, d: nat, b: Ticket)
    requires b !in m.queue && !InHand(m, d, b)
    ensures !InHand(Next(m, a), d, b)
  {
  }

  lemma TicketNotGained(m: System, a: Action, b: Ticket)
    requires b in m.submitted && b !in m.queue && forall d :: !InHand(m, d, b)
    ensures b in Next(m, a).submitted && b !in Next(m, a).queue && forall d :: !InHand(Next(m, a), d, b)
    ensures forall id :: id in Next(m, a).payload && Next(m, a).payload[id] == b ==> id in m.payload && m.payload[id] == b
    ensures m.payload.Keys <= Next(m, a).payload.Keys
  {
    if a.HandOff? || a.Requeue? { assert !InHand(m, a.d, b); }
    forall d ensures !InHand(Next(m, a), d, b) {
      HandNotGained(m, a, d, b);
    }
  }

  lemma AbandonedJobsStep(m: System, a: Action, b: Ticket)
    requires Abandoned(m, b) && J.Inv(m.sched)
    requires forall id :: id in m.payload ==> id in m.sched.jobs
    ensures var m' := Next(m, a);
            && (forall id :: InJob(m', id, b) ==> m'.sched.jobs[id].Terminal())
            && (forall t :: t in m'.sched.claims && InJob(m', m'.sched.claims[t].job, b) ==>
                  m'.sched.claims[t].started || m'.sched.claims[t].reported || m'.sched.claims[t].lost)
  {
    var m' := Next(m, a);
    TicketNotGained(m, a, b);
    SchedulerStep(m, a);
    forall id | InJob(m', id, b) ensures InJob(m, id, b) && m'.sched.jobs[id].Terminal() {
      if SchedStep(m, a).Some? { J.RowStep(m.sched, SchedStep(m, a).value, id); }
    }
    forall t | t in m'.sched.claims && InJob(m', m'.sched.claims[t].job, b)
      ensures m'.sched.claims[t].started || m'.sched.claims[t].reported || m'.sched.claims[t].lost
    {
      if SchedStep(m, a).Some? { J.ClaimStep(m.sched, SchedStep(m, a).value, t); }
    }
  }

  lemma AbandonedStep(m: System, a: Action, b: Ticket)
    requires Abandoned(m, b) && J.Inv(m.sched)
    requires forall id :: id in m.payload ==> id in m.sched.jobs
    ensures Abandoned(Next(m, a), b)
  {
    var m' := Next(m, a);
    TicketNotGained(m, a, b);
    AbandonedJobsStep(m, a, b);
    forall u | u in m'.handlers && m'.handlers[u].batch == b ensures m'.handlers[u].pc.Skipped? {
      HandlerStep(m, a, u);
    }
  }

  lemma {:induction false} PayloadsAreJobs(s: System, t: Trace)
    requires Init(s)
    ensures forall id :: id in Play(s, t).payload ==> id in Play(s, t).sched.jobs
  {
    if t.Then? {
      PayloadsAreJobs(s, t.before);
      PayloadsStayJobs(Play(s, t.before), t.last);
    }
  }

  lemma PayloadsStayJobs(m: System, a: Action)
    requires forall id :: id in m.payload ==> id in m.sched.jobs
    ensures forall id :: id in Next(m, a).payload ==> id in Next(m, a).sched.jobs
  {
    forall id | id in Next(m, a).payload ensures id in Next(m, a).sched.jobs {
      if id in m.payload { JobKept(m, a, id, m.payload[id]); }
    }
  }

  /** An abandoned batch stays abandoned: its row never changes again and it is never routed. */
  lemma {:induction false} AbandonedForever(s: System, t: Trace, more: Trace, b: Ticket)
    requires Init(s) && Extends(more, t) && Abandoned(Play(s, t), b)
    ensures Abandoned(Play(s, more), b) && RoutingRuns(s, more, b) == RoutingRuns(s, t, b)
    ensures b in Play(s, t).rows ==> b in Play(s, more).rows && Play(s, more).rows[b] == Play(s, t).rows[b]
  {
    if more != t {
      AbandonedForever(s, t, more.before, b);
      SchedulerInv(s, more.before);
      PayloadsAreJobs(s, more.before);
      AbandonedStep(Play(s, more.before), more.last, b);
      RowStep(Play(s, more.before), more.last, b);
    }
  }

  /** A run without any failure: the ticket is drained, its job claimed ... */
  function Drained(b: Ticket): Trace {
    Then(Then(Then(Then(Begin, Submit(b)), Pop(0, [b], {})), PopMore(0, [], {})), HandOff(0, 0, Answered))
  }

  function Claimed(b: Ticket): Trace {
    Then(Drained(b), Sched(J.ClaimBatch([0], 10, {}, 30_000)))
  }

  /** ... and run before POST /v1/batches has created the row, so the handler skips it and the job succeeds. */
  function EarlyDrain(b: Ticket): Trace {
    Then(Then(Then(Then(Claimed(b), StartHandler(0)), MarkProcessing(0, Answered)), Sched(J.Mark(0, J.HandlerSucceeded))), CreateRow(b))
  }

  const FRESH_JOB := J.Job(J.Pending, 0, DEFAULT_MAX_ATTEMPTS, 0, None, None)

  lemma PlayDrained(s: System, b: Ticket)
    requires Init(s) && s.sched.now == 0 && s.sched.nextToken == 0
    ensures Play(s, Drained(b)) ==
            Stage(b, J.System(0, map[0 := FRESH_JOB], map[], 0), map[], map[])
  {
    var t := Drained(b);
    var submitted := Next(s, Submit(b));
    var popped := Next(submitted, Pop(0, [b], {}));
    assert Elements([b]) == {b} && Elements([]) == {};
    assert popped == submitted.(queue := {}, drainers := map[0 := Popped([b])]);
    var more := Next(popped, PopMore(0, [], {}));
    assert [b] + [] == [b] && more.queue == {};
    assert more == popped.(drainers := map[0 := Handing([b])]);
    assert Play(s, t.before.before.before) == submitted;
    assert Play(s, t.before.before) == popped;
    assert Play(s, t) == Next(more, HandOff(0, 0, Answered));
  }

  lemma PlayClaimed(s: System, b: Ticket)
    requires Init(s) && s.sched.now == 0 && s.sched.nextToken == 0
    ensures Play(s, Claimed(b)) == Stage(b, LEASED, map[], map[])
  {
    PlayDrained(s, b);
    ClaimFreshJob(J.System(0, map[0 := FRESH_JOB], map[], 0));
    var m := Play(s, Drained(b));
    assert Play(s, Claimed(b)) == m.(sched := J.Next(m.sched, J.ClaimBatch([0], 10, {}, 30_000)));
  }

  const LEASED := J.System(0, map[0 := J.Job(J.Running, 1, DEFAULT_MAX_ATTEMPTS, 0, Some(0), Some(30_000))],
                           map[0 := J.Claim(0, 1, DEFAULT_MAX_ATTEMPTS, false, false, false)], 1)

  lemma ClaimFreshJob(j: J.System)
    requires j == J.System(0, map[0 := FRESH_JOB], map[], 0)
    ensures J.Next(j, J.ClaimBatch([0], 10, {}, 30_000)) == LEASED
  {
    assert J.Due(j, 0, {});
    assert J.MayClaim(j, [0], 10, {});
    assert [0][..0] == [];
    assert J.LeaseRows(j, [0], 30_000) == J.LeaseRow(j, 0, 30_000);
  }

  lemma PlayEarlyDrain(s: System, b: Ticket)
    requires Init(s) && s.sched.now == 0 && s.sched.nextToken == 0
    ensures Play(s, EarlyDrain(b)) ==
            Stage(b, SETTLED, map[b := Pending], map[0 := Handler(b, Skipped, false)])
  {
    PlayClaimed(s, b);
    RunFreshJob();
    var t := EarlyDrain(b);
    StartDrained(b);
    SkipDrained(b);
    assert Play(s, t.before.before.before) == Stage(b, STARTED, map[], map[0 := Handler(b, Marking, false)]);
    assert Play(s, t.before.before) == Stage(b, STARTED, map[], map[0 := Handler(b, Skipped, false)]);
    assert Play(s, t.before) == Stage(b, SETTLED, map[], map[0 := Handler(b, Skipped, false)]);
  }

  /** The ticket has left the queue and is in job 0. */
  function Stage(b: Ticket, sched: J.System, rows: map<Ticket, Status>, handlers: map<J.Token, Handler>): System {
    System(sched, map[0 := b], {}, {b}, map[0 := Handing([])], rows, handlers)
  }

  lemma StartDrained(b: Ticket)
    ensures Next(Stage(b, LEASED, map[], map[]), StartHandler(0)) == Stage(b, STARTED, map[], map[0 := Handler(b, Marking, false)])
  {
    RunFreshJob();
  }

  lemma SkipDrained(b: Ticket)
    ensures Next(Stage(b, STARTED, map[], map[0 := Handler(b, Marking, false)]), MarkProcessing(0, Answered))
            == Stage(b, STARTED, map[], map[0 := Handler(b, Skipped, false)])
  {
  }

  const STARTED := J.System(0, LEASED.jobs, map[0 := J.Claim(0, 1, DEFAULT_MAX_ATTEMPTS, true, false, false)], 1)
  const SETTLED := J.System(0, map[0 := J.Job(J.Succeeded, 1, DEFAULT_MAX_ATTEMPTS, 0, None, None)],
                            map[0 := J.Claim(0, 1, DEFAULT_MAX_ATTEMPTS, true, true, false)], 1)

  lemma RunFreshJob()
    ensures J.Next(LEASED, J.StartHandler(0)) == STARTED && STARTED != LEASED
    ensures J.Next(STARTED, J.Mark(0, J.HandlerSucceeded)) == SETTLED
  {
    assert J.Next(LEASED, J.StartHandler(0)).claims == STARTED.claims;
    assert STARTED.claims[0].started && !LEASED.claims[0].started;
  }

  /** So an accepted batch may stay "pending" for ever: every step of this run succeeds and leaves the
      batch abandoned with its row pending. */
  lemma EarlyDrainStrandsBatch(s: System, b: Ticket, more: Trace)
    requires Init(s) && s.sched.now == 0 && s.sched.nextToken == 0 && Extends(more, EarlyDrain(b))
    ensures b in Play(s, more).rows && Play(s, more).rows[b].Pending? && RoutingRuns(s, more, b) == 0
  {
    PlayEarlyDrain(s, b);
    AnsweredEarlyDrain(b);
    AnsweredNeverThrows(s, EarlyDrain(b), b);
    RoutingRunsBounded(s, EarlyDrain(b), b);
    AbandonedForever(s, EarlyDrain(b), more, b);
  }

  lemma AnsweredEarlyDrain(b: Ticket)
    ensures AllAnswered(EarlyDrain(b))
  {
    assert AllAnswered(Drained(b).before.before);
    assert AllAnswered(Claimed(b));
    assert AllAnswered(EarlyDrain(b).before.before);
  }

  predicate AllAnswered(t: Trace) {
    t.Then? ==> AllAnswered(t.before) && (t.last.MarkProcessing? ==> t.last.reply.Answered?)
  }

  lemma {:induction false} AnsweredNeverThrows(s: System, t: Trace, b: Ticket)
    requires AllAnswered(t)
    ensures MarkThrows(s, t, b) == 0
  {
    if t.Then? { AnsweredNeverThrows(s, t.before, b); }
  }

  // ---- the handler and the drain loop as written -------------------------------------------------

  /** The write at turn n, of the outcome of batch b, meets this state and succeeds. */
  predicate Writes(replies: nat -> Reply, n: nat, b: Ticket, met: System) {
    replies(n).Answered? && b in met.rows
  }

  predicate NoneWrote(replies: nat -> Reply, from: nat, b: Ticket, met: seq<System>) {
    forall k :: 0 <= k < |met| ==> !Writes(replies, from + k + 1, b, met[k])
  }

  /** The attempts made from turn `from` on and the states they met: each but the last threw, and the last
      one too unless the outcome was persisted, which alone ends them early. */
  predicate Attempted(replies: nat -> Reply, from: nat, b: Ticket, met: seq<System>, persisted: bool) {
    if persisted then
      && 1 <= |met| <= PERSIST_ATTEMPTS && NoneWrote(replies, from, b, met[..|met| - 1])
      && Writes(replies, from + |met|, b, met[|met| - 1])
    else |met| == PERSIST_ATTEMPTS && NoneWrote(replies, from, b, met)
  }

  lemma AnotherAttempt(replies: nat -> Reply, from: nat, b: Ticket, met: seq<System>, m: System, persisted: bool)
    requires NoneWrote(replies, from, b, met) && (persisted <==> Writes(replies, from + |met| + 1, b, m)) && |met| < PERSIST_ATTEMPTS
    ensures persisted ==> Attempted(replies, from, b, met + [m], true)
    ensures !persisted ==> NoneWrote(replies, from, b, met + [m])
  {
    assert (met + [m])[..|met|] == met;
  }

  /** One execution of the handler. Before each of its statements everyone else may take any number of
      steps; `others`, the database's `replies` and the result of route() are arbitrary. `seen` is the
      state its latest statement met. */
  class ProcessScheduledRequest {
    const others: nat -> seq<Action>
    const replies: nat -> Reply
    const routeSucceeds: bool
    const start: System
    const token: J.Token
    var sys: System
    var turn: nat
    ghost var trace: Trace
    ghost var seen: System

    ghost predicate Ok()
      reads this
    {
      Init(start) && sys == Play(start, trace)
    }

    ghost predicate At(pc: Pc)
      reads this
    {
      Live(sys, token) && sys.handlers[token].pc == pc
    }

    constructor (start: System, ghost trace: Trace, sys: System, token: J.Token,
                 others: nat -> seq<Action>, replies: nat -> Reply, routeSucceeds: bool)
      requires Init(start) && sys == Play(start, trace)
      ensures Ok() && this.sys == sys && this.token == token
    {
      this.start, this.trace, this.sys, this.token, this.seen := start, trace, sys, token, sys;
      this.others, this.replies, this.routeSucceeds, this.turn := others, replies, routeSucceeds, 0;
    }

    method Take(a: Action)
      requires Ok()
      modifies this`sys, this`trace
      ensures Ok() && sys == Next(old(sys), a)
    {
      sys, trace := Next(sys, a), Then(trace, a);
    }

    method Others()
      requires Ok() && token in sys.handlers
      modifies this`sys, this`turn, this`trace, this`seen
      ensures Ok() && seen == sys && token in sys.handlers && sys.handlers[token] == old(sys).handlers[token]
      ensures turn == old(turn) + 1
    {
      var acts := others(turn);
      turn := turn + 1;
      for k := 0 to |acts|
        invariant turn == old(turn) + 1
        invariant Ok() && token in sys.handlers && sys.handlers[token] == old(sys).handlers[token]
      {
        if !acts[k].ByHandler(token) {
          HandlerStep(sys, acts[k], token);
          Take(acts[k]);
        }
      }
      seen := sys;
    }

    /** retryWithBackoff around the outcome write: at most PERSIST_ATTEMPTS attempts. True means that the
        last one was answered and the row now holds the outcome; false that every attempt threw. */
    method RetryWithBackoff(outcome: Outcome) returns (persisted: bool, ghost met: seq<System>)
      requires Ok() && At(Persisting(outcome, 0))
      modifies this`sys, this`turn, this`trace, this`seen
      ensures Ok() && At(Finished(outcome, persisted))
      ensures sys.handlers[token].batch == old(sys).handlers[token].batch
      ensures Attempted(replies, old(turn), sys.handlers[token].batch, met, persisted)
      ensures var b := sys.handlers[token].batch;
              && (persisted ==> b in seen.rows && sys.rows == seen.rows[b := outcome])
              && (!persisted ==> sys.rows == seen.rows || (b in seen.rows && sys.rows == seen.rows[b := outcome]))
    {
      ghost var b := sys.handlers[token].batch;
      persisted, met := false, [];
      for attempt := 0 to PERSIST_ATTEMPTS
        invariant Ok() && token in sys.handlers && sys.handlers[token].batch == b && |met| == attempt && turn == old(turn) + attempt
        invariant NoneWrote(replies, old(turn), b, met)
        invariant At(if attempt < PERSIST_ATTEMPTS then Persisting(outcome, attempt) else Finished(outcome, false))
        invariant attempt > 0 ==> sys.rows == seen.rows || (b in seen.rows && sys.rows == seen.rows[b := outcome])
      {
        persisted := TryPersist(outcome, attempt);
        AnotherAttempt(replies, old(turn), b, met, seen, persisted);
        met := met + [seen];
        if persisted {
          return;
        }
      }
      return false, met;
    }

    /** One attempt to write the outcome. */
    method TryPersist(outcome: Outcome, ghost attempt: nat) returns (answered: bool)
      requires Ok() && At(Persisting(outcome, attempt)) && attempt < PERSIST_ATTEMPTS
      modifies this`sys, this`turn, this`trace, this`seen
      ensures Ok() && turn == old(turn) + 1
      ensures At(if answered then Finished(outcome, true)
                 else if attempt + 1 < PERSIST_ATTEMPTS then Persisting(outcome, attempt + 1) else Finished(outcome, false))
      ensures var b := sys.handlers[token].batch;
              && b == old(sys).handlers[token].batch && (answered <==> Writes(replies, turn, b, seen))
              && if b in seen.rows && !replies(turn).Rejected? then sys.rows == seen.rows[b := outcome] else sys.rows == seen.rows
    {
      Others();
      answered := replies(turn).Answered? && sys.handlers[token].batch in sys.rows;
      Take(Persist(token, replies(turn)));
    }

    /** The idempotency guard: a markProcessing call that was answered and matched no pending row. */
    method Guard() returns (claimed: bool, ghost guard: System)
      requires Ok() && At(Marking)
      modifies this`sys, this`turn, this`trace, this`seen
      ensures Ok() && turn == old(turn) + 1 && At(if claimed then Routing else Skipped)
      ensures var b := sys.handlers[token].batch;
              && b == old(sys).handlers[token].batch
              && (claimed <==> !replies(turn).Answered? || (b in guard.rows && guard.rows[b].Pending?))
      ensures !claimed ==> sys == guard.(handlers := sys.handlers)
    {
      Others();
      guard := sys;
      Take(MarkProcessing(token, replies(turn)));
      claimed := sys.handlers[token].pc.Routing?;
    }

    /** The handler routes the batch unless its markProcessing call was answered and matched no row; it
        routes it at most once. Then it records the outcome that route() gave. `guard` is the state in
        which markProcessing took effect, `met` those that the attempts to record the outcome met. */
    method Handle() returns (routed: bool, persisted: bool, ghost guard: System, ghost met: seq<System>)
      requires Ok() && At(Marking)
      modifies this`sys, this`turn, this`trace, this`seen
      ensures Ok() && Live(sys, token) && sys.handlers[token].batch == old(sys).handlers[token].batch
      ensures var b := sys.handlers[token].batch;
              routed <==> !replies(old(turn) + 1).Answered? || (b in guard.rows && guard.rows[b].Pending?)
      ensures !routed ==> At(Skipped) && sys == guard.(handlers := sys.handlers)
      ensures routed ==>
                && At(Finished(if routeSucceeds then Succeeded else Failed, persisted))
                && Attempted(replies, old(turn) + 2, sys.handlers[token].batch, met, persisted)
                && (persisted ==> sys.rows == seen.rows[sys.handlers[token].batch := if routeSucceeds then Succeeded else Failed])
    {
      persisted, met := false, [];
      routed, guard := Guard();
      if !routed {
        return;
      }
      Others();
      var outcome: Outcome := if routeSucceeds then Succeeded else Failed;
      Take(Route(token, outcome.Succeeded?));
      persisted, met := RetryWithBackoff(outcome);
    }
  }

  datatype HandOver = HandedOver | Requeued | Lost

  function Least(a: nat, b: nat): nat {
    if a < b then a else b
  }

  predicate NoRepeats(ts: seq<Ticket>) {
    forall i, j :: 0 <= i < j < |ts| ==> ts[i] != ts[j]
  }

  lemma OthersLeaveMyHand(m: System, a: Action, d: nat)
    requires !a.ByDrainer(d)
    ensures DrainerAt(Next(m, a), d) == DrainerAt(m, d)
  {
  }

  /** One drain loop. `uuid` gives the ids of the jobs it creates, `parses` tells which queue members
      are well formed. */
  class DrainLoop {
    const others: nat -> seq<Action>
    const replies: nat -> Reply
    const uuid: nat -> J.JobId
    const parses: Ticket -> bool
    const start: System
    const me: nat
    const batchSize: nat
    var sys: System
    var turn: nat
    ghost var trace: Trace

    ghost predicate Ok()
      reads this
    {
      Init(start) && sys == Play(start, trace)
    }

    constructor (start: System, ghost trace: Trace, sys: System, me: nat, others: nat -> seq<Action>,
                 replies: nat -> Reply, uuid: nat -> J.JobId, parses: Ticket -> bool)
      requires Init(start) && sys == Play(start, trace)
      ensures Ok() && this.sys == sys && this.me == me && batchSize == 10
    {
      this.start, this.trace, this.sys, this.me, this.turn := start, trace, sys, me, 0;
      this.others, this.replies, this.uuid, this.parses, this.batchSize := others, replies, uuid, parses, 10;
    }

    method Take(a: Action)
      requires Ok()
      modifies this`sys, this`trace
      ensures Ok() && sys == Next(old(sys), a)
      ensures forall id, b :: InJob(old(sys), id, b) ==> InJob(sys, id, b)
    {
      forall id, b | InJob(sys, id, b) ensures InJob(Next(sys, a), id, b) {
        JobKept(sys, a, id, b);
      }
      sys, trace := Next(sys, a), Then(trace, a);
    }

    method Others()
      requires Ok()
      modifies this`sys, this`turn, this`trace
      ensures Ok() && DrainerAt(sys, me) == DrainerAt(old(sys), me) && turn == old(turn) + 1
      ensures forall id, b :: InJob(old(sys), id, b) ==> InJob(sys, id, b)
    {
      var acts := others(turn);
      turn := turn + 1;
      for k := 0 to |acts|
        invariant turn == old(turn) + 1
        invariant Ok() && DrainerAt(sys, me) == DrainerAt(old(sys), me)
        invariant forall id, b :: InJob(old(sys), id, b) ==> InJob(sys, id, b)
      {
        if !acts[k].ByDrainer(me) {
          OthersLeaveMyHand(sys, acts[k], me);
          Take(acts[k]);
        }
      }
    }

    /** Hand-over of the next ticket: it ends up in a job if the insert, under an id not yet used, is
        answered; otherwise back in the queue if the requeue is answered; and is lost if both threw. `met`
        is the state the insert met. */
    method ScheduleProcessing() returns (result: HandOver, ghost met: System)
      requires Ok() && DrainerAt(sys, me).Handing? && DrainerAt(sys, me).rest != []
      modifies this`sys, this`turn, this`trace
      ensures Ok() && DrainerAt(sys, me) == Handing(DrainerAt(old(sys), me).rest[1..])
      ensures forall id, b :: InJob(old(sys), id, b) ==> InJob(sys, id, b)
      ensures var handed := replies(old(turn) + 1).Answered? && Unused(met, uuid(old(turn) + 1));
              result == if handed then HandedOver else if replies(old(turn) + 2).Answered? then Requeued else Lost
      ensures var b := DrainerAt(old(sys), me).rest[0];
              && (result.HandedOver? ==> InJob(sys, uuid(old(turn) + 1), b))
              && (result.Requeued? ==> b in sys.queue)
    {
      Others();
      met := sys;
      var reply, id, b := replies(turn), uuid(turn), DrainerAt(sys, me).rest[0];
      Take(HandOff(me, id, reply));
      if DrainerAt(sys, me).Handing? {
        assert InJob(sys, id, b);
        return HandedOver, met;
      }
      Others();
      var again := replies(turn);
      Take(Requeue(me, again));
      return if again.Answered? then Requeued else Lost, met;
    }

    /** One ZPOPMIN of up to n: as many members leave the queue as there are, those that parse in `good`. */
    ghost predicate Pops(met: System, n: nat, good: seq<Ticket>, bad: set<Ticket>)
      reads this
    {
      && MayPop(met, good, bad) && |good| + |bad| == Least(n, |met.queue|) && NoRepeats(good)
      && (forall b :: b in good ==> parses(b)) && (forall b :: b in bad ==> !parses(b))
    }

    /** dequeueNext: two ZPOPMINs, the second only for what the first left over; what they popped is to be
        handed over, in that order. If one of them throws nothing is handed over, and whatever the first
        one popped is lost. */
    method DequeueNext()
      returns (ok: bool, ghost met: System, ghost first: seq<Ticket>, ghost bad: set<Ticket>,
               ghost met2: System, ghost second: seq<Ticket>, ghost bad2: set<Ticket>)
      requires Ok() && DrainerAt(sys, me).Ready()
      modifies this`sys, this`turn, this`trace
      ensures Ok() && (if ok then DrainerAt(sys, me) == Handing(first + second) else DrainerAt(sys, me).Ready())
      ensures ok <==> replies(old(turn) + 1).Answered? && (|first| == batchSize || replies(old(turn) + 2).Answered?)
      ensures replies(old(turn) + 1).Answered? ==> Pops(met, batchSize, first, bad) && |first| <= batchSize
      ensures ok ==> Pops(met2, batchSize - |first|, second, bad2) && sys.queue == met2.queue - Elements(second) - bad2
    {
      met2, second, bad2 := sys, [], {};
      ok, met, first, bad := PopBatch();
      if ok {
        ok, met2, second, bad2 := PopBackground();
      }
    }

    method PopBatch() returns (ok: bool, ghost met: System, ghost good: seq<Ticket>, ghost bad: set<Ticket>)
      requires Ok() && DrainerAt(sys, me).Ready()
      modifies this`sys, this`turn, this`trace
      ensures Ok() && turn == old(turn) + 1 && (ok <==> replies(turn).Answered?) && Pops(met, batchSize, good, bad)
      ensures if ok then DrainerAt(sys, me) == Popped(good) && sys.queue == met.queue - Elements(good) - bad
              else DrainerAt(sys, me).Ready()
    {
      Others();
      met := sys;
      var popped, dropped := ZPopMin(sys, batchSize);
      good, bad := popped, dropped;
      ok := replies(turn).Answered?;
      if ok {
        Take(Pop(me, popped, dropped));
      } else {
        Take(PopReplyLost(me, if replies(turn).ReplyLost? then Elements(popped) + dropped else {}));
      }
    }

    method PopBackground() returns (ok: bool, ghost met: System, ghost good: seq<Ticket>, ghost bad: set<Ticket>)
      requires Ok() && DrainerAt(sys, me).Popped? && |DrainerAt(sys, me).first| <= batchSize
      modifies this`sys, this`turn, this`trace
      ensures Ok() && turn == old(turn) + 1
      ensures var first := DrainerAt(old(sys), me).first;
              && (ok <==> |first| == batchSize || replies(turn).Answered?) && Pops(met, batchSize - |first|, good, bad)
              && if ok then DrainerAt(sys, me) == Handing(first + good) && sys.queue == met.queue - Elements(good) - bad
                 else DrainerAt(sys, me).Ready()
    {
      Others();
      met := sys;
      var left := batchSize - |DrainerAt(sys, me).first|;
      var popped, dropped := ZPopMin(sys, left);
      good, bad := popped, dropped;
      ok := left == 0 || replies(turn).Answered?;
      if ok {
        Take(PopMore(me, popped, dropped));
      } else {
        Take(PopThrows(me, if replies(turn).ReplyLost? then Elements(popped) + dropped else {}));
      }
    }

    /** Takes up to n members off the queue and sorts out those that do not parse. */
    method ZPopMin(s: System, n: nat) returns (good: seq<Ticket>, bad: set<Ticket>)
      ensures Pops(s, n, good, bad)
    {
      var left := s.queue;
      good, bad := [], {};
      while left != {} && |good| + |bad| < n
        invariant left <= s.queue && left !! bad && left !! Elements(good) && |good| + |bad| <= n
        invariant MayPop(s, good, bad) && NoRepeats(good) && |good| + |bad| + |left| == |s.queue|
        invariant (forall b :: b in good ==> parses(b)) && (forall b :: b in bad ==> !parses(b))
        decreases |left|
      {
        var b :| b in left;
        left := left - {b};
        if parses(b) {
          assert Elements(good + [b]) == Elements(good) + {b};
          assert b !in Elements(good);
          good := good + [b];
        } else {
          bad := bad + {b};
        }
      }
    }

    /** One tick: every ticket it dequeues is handed over in turn, and each one reported as handed over is
        in a job when the tick ends. */
    method Tick()
      returns (taken: seq<Ticket>, results: seq<HandOver>,
               ghost met: System, ghost first: seq<Ticket>, ghost bad: set<Ticket>, ghost second: seq<Ticket>)
      requires Ok() && DrainerAt(sys, me).Ready()
      modifies this`sys, this`turn, this`trace
      ensures Ok() && DrainerAt(sys, me).Ready() && |results| == |taken|
      ensures replies(old(turn) + 1).Answered? ==> Pops(met, batchSize, first, bad)
      ensures taken == if replies(old(turn) + 1).Answered? && (|first| == batchSize || replies(old(turn) + 2).Answered?)
                       then first + second else []
      ensures forall k :: 0 <= k < |taken| && results[k].HandedOver? ==> exists id :: InJob(sys, id, taken[k])
    {
      var ok;
      ghost var met2, bad2;
      ok, met, first, bad, met2, second, bad2 := DequeueNext();
      if !ok {
        return [], [], met, first, bad, second;
      }
      taken, results := DrainerAt(sys, me).rest, [];
      for k := 0 to |taken|
        invariant Ok() && |results| == k && DrainerAt(sys, me) == Handing(taken[k..])
        invariant forall l :: 0 <= l < k && results[l].HandedOver? ==> exists id :: InJob(sys, id, taken[l])
      {
        var result, _ := ScheduleProcessing();
        results := results + [result];
      }
    }
  }
}
