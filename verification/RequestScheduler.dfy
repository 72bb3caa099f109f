/**
 The request scheduler: inline admission by a plain INCR with a corrective DECR, and two sorted-set
 queues that are drained in strict priority. One step is one Redis command; any command may throw,
 with or without having taken effect.
 */
module RequestScheduler {
  import opened Wrappers

  // ---- inline admission on one counter -----------------------------------------------------------

  type Caller = nat

  datatype Reply = Answered | Rejected | ReplyLost

  /** The counter, and the callers by what became of their increment: `admitted` and not yet released,
      `rejecting` with the corrective decrement still to come, `leaked` for good. */
  datatype Inflight = Inflight(counter: int, admitted: set<Caller>, rejecting: set<Caller>, leaked: set<Caller>, done: set<Caller>)
  {
    predicate Knows(c: Caller) {
      c in admitted || c in rejecting || c in leaked || c in done
    }
  }

  datatype Step =
    | Incr(c: Caller, reply: Reply)
    | Correct(c: Caller, reply: Reply)
    | Release(c: Caller, reply: Reply)
    | Crash(c: Caller)

  /** Each caller increments once and releases at most once, if it was admitted. */
  function Next(limit: int, s: Inflight, a: Step): Inflight {
    match a
    case Incr(c, reply) =>
      if s.Knows(c) || reply.Rejected? then s
      else if reply.ReplyLost? then s.(counter := s.counter + 1, leaked := s.leaked + {c})
      else if s.counter + 1 > limit then s.(counter := s.counter + 1, rejecting := s.rejecting + {c})
      else s.(counter := s.counter + 1, admitted := s.admitted + {c})
    case Correct(c, reply) =>
      if c !in s.rejecting then s
      else if reply.Rejected? then s.(rejecting := s.rejecting - {c}, leaked := s.leaked + {c})
      else s.(counter := s.counter - 1, rejecting := s.rejecting - {c}, done := s.done + {c})
    case Release(c, reply) =>
      if c !in s.admitted then s
      else if reply.Rejected? then s.(admitted := s.admitted - {c}, leaked := s.leaked + {c})
      else s.(counter := s.counter - 1, admitted := s.admitted - {c}, done := s.done + {c})
    case Crash(c) =>
      if c in s.admitted || c in s.rejecting
      then s.(admitted := s.admitted - {c}, rejecting := s.rejecting - {c}, leaked := s.leaked + {c}) else s
  }

  ghost predicate Init(s: Inflight) {
    s == Inflight(0, {}, {}, {}, {})
  }

  datatype Trace = Begin | Then(before: Trace, last: Step)

  function Play(limit: int, s: Inflight, t: Trace): Inflight {
    match t
    case Begin => s
    case Then(before, a) => Next(limit, Play(limit, s, before), a)
  }

  ghost predicate Disjoint(s: Inflight) {
    && s.admitted !! s.rejecting && s.admitted !! s.leaked && s.rejecting !! s.leaked
    && s.done !! s.admitted && s.done !! s.rejecting && s.done !! s.leaked
  }

  ghost predicate Inv(limit: int, s: Inflight) {
    Disjoint(s) && s.counter == |s.admitted| + |s.rejecting| + |s.leaked| && (s.admitted != {} ==> |s.admitted| <= limit)
  }

  lemma Grow(s: set<Caller>, c: Caller)
    requires c !in s
    ensures |s + {c}| == |s| + 1
  {
  }

  lemma Shrink(s: set<Caller>, c: Caller)
    requires c in s
    ensures |s - {c}| == |s| - 1
  {
    Grow(s - {c}, c);
    assert s - {c} + {c} == s;
  }

  lemma IncrKeepsInv(limit: int, s: Inflight, c: Caller, reply: Reply)
    requires Inv(limit, s)
    ensures Inv(limit, Next(limit, s, Incr(c, reply)))
  {
    if !s.Knows(c) {
      Grow(s.admitted, c);
      Grow(s.rejecting, c);
      Grow(s.leaked, c);
    }
  }

  /** A caller that leaves `from` for the leaked or the done. */
  lemma LeaveKeepsInv(limit: int, s: Inflight, s': Inflight, c: Caller)
    requires Inv(limit, s) && (c in s.admitted || c in s.rejecting)
    requires s'.admitted == s.admitted - {c} && s'.rejecting == s.rejecting - {c}
    requires || (s'.leaked == s.leaked + {c} && s'.done == s.done && s'.counter == s.counter)
             || (s'.leaked == s.leaked && s'.done == s.done + {c} && s'.counter == s.counter - 1)
    ensures Inv(limit, s')
  {
    Grow(s.leaked, c);
    if c in s.admitted {
      Shrink(s.admitted, c);
      assert s.rejecting - {c} == s.rejecting;
    } else {
      Shrink(s.rejecting, c);
      assert s.admitted - {c} == s.admitted;
    }
  }

  lemma CorrectKeepsInv(limit: int, s: Inflight, c: Caller, reply: Reply)
    requires Inv(limit, s) && c in s.rejecting
    ensures Inv(limit, Next(limit, s, Correct(c, reply)))
  {
    assert s.admitted - {c} == s.admitted;
    LeaveKeepsInv(limit, s, Next(limit, s, Correct(c, reply)), c);
  }

  lemma ReleaseKeepsInv(limit: int, s: Inflight, c: Caller, reply: Reply)
    requires Inv(limit, s) && c in s.admitted
    ensures Inv(limit, Next(limit, s, Release(c, reply)))
  {
    assert s.rejecting - {c} == s.rejecting;
    LeaveKeepsInv(limit, s, Next(limit, s, Release(c, reply)), c);
  }

  lemma NextKeepsInv(limit: int, s: Inflight, a: Step)
    requires Inv(limit, s)
    ensures Inv(limit, Next(limit, s, a))
  {
    match a {
      case Incr(c, reply) => IncrKeepsInv(limit, s, c, reply);
      case Correct(c, reply) => if c in s.rejecting { CorrectKeepsInv(limit, s, c, reply); }
      case Release(c, reply) => if c in s.admitted { ReleaseKeepsInv(limit, s, c, reply); }
      case Crash(c) => if c in s.admitted || c in s.rejecting { LeaveKeepsInv(limit, s, Next(limit, s, a), c); }
    }
  }

  lemma {:induction false} RunKeepsInv(limit: int, s: Inflight, t: Trace)
    requires Init(s)
    ensures Inv(limit, Play(limit, s, t))
  {
    if t.Then? {
      RunKeepsInv(limit, s, t.before);
      NextKeepsInv(limit, Play(limit, s, t.before), t.last);
    }
  }

  /** The counter is exactly the admitted, the rejected not yet corrected and the leaked, so the admitted
      never exceed the limit. */
  lemma AdmittedWithinLimit(limit: int, s: Inflight, t: Trace)
    requires Init(s)
    ensures var m := Play(limit, s, t);
            && m.counter == |m.admitted| + |m.rejecting| + |m.leaked|
            && |m.admitted| <= if limit > 0 then limit else 0
  {
    RunKeepsInv(limit, s, t);
  }

  predicate Admits(limit: int, m: Inflight, c: Caller) {
    c !in m.admitted && c in Next(limit, m, Incr(c, Answered)).admitted
  }

  /** A new caller is admitted if and only if the admitted, uncorrected and leaked leave room: a failed
      correction only ever lowers later admissions. */
  lemma AdmissionLeavesRoom(limit: int, s: Inflight, t: Trace, c: Caller)
    requires Init(s) && !Play(limit, s, t).Knows(c)
    ensures var m := Play(limit, s, t);
            Admits(limit, m, c) <==> |m.admitted| + |m.rejecting| + |m.leaked| < limit
  {
    RunKeepsInv(limit, s, t);
  }

  ghost predicate Extends(more: Trace, t: Trace) {
    more == t || (more.Then? && Extends(more.before, t))
  }

  /** What a step does to the admitted and the leaked. */
  lemma AdmissionStep(limit: int, m: Inflight, a: Step)
    requires Inv(limit, m)
    ensures var m' := Next(limit, m, a);
            && m.leaked <= m'.leaked
            && (m'.admitted <= m.admitted || |m'.admitted| + |m'.leaked| <= limit)
  {
    NextKeepsInv(limit, m, a);
  }

  /** Leaks are permanent: whoever is admitted after one, the admitted and the leaked together fit the
      limit. */
  lemma {:induction false} LeaksLowerTheCeiling(limit: int, s: Inflight, t: Trace, more: Trace)
    requires Init(s) && Extends(more, t)
    ensures var m, m' := Play(limit, s, t), Play(limit, s, more);
            m.leaked <= m'.leaked && (m'.admitted <= m.admitted || |m'.admitted| + |m.leaked| <= limit)
  {
    if more != t {
      LeaksLowerTheCeiling(limit, s, t, more.before);
      RunKeepsInv(limit, s, more.before);
      var m, before, m' := Play(limit, s, t), Play(limit, s, more.before), Play(limit, s, more);
      AdmissionStep(limit, before, more.last);
      SubsetSize(m.leaked, m'.leaked);
      if m'.admitted <= before.admitted { SubsetSize(m'.admitted, before.admitted); }
    }
  }

  lemma {:induction false} SubsetSize(a: set<Caller>, b: set<Caller>)
    requires a <= b
    ensures |a| <= |b|
  {
    assert b == a + (b - a);
  }

  /** Released once per admission, the counter never falls below zero, so the clamp never acts. */
  lemma ReleaseNeverClamps(limit: int, s: Inflight, t: Trace, c: Caller)
    requires Init(s) && c in Play(limit, s, t).admitted
    ensures Play(limit, s, t).counter - 1 >= 0
  {
    RunKeepsInv(limit, s, t);
    assert |Play(limit, s, t).admitted| > 0;
  }

  /** Every increment in force is somebody's: an admitted caller's, a rejected one's, or leaked. */
  predicate Accounted(m: Inflight) {
    m.counter == |m.admitted| + |m.rejecting| + |m.leaked|
  }

  /** What a caller's increment comes to. */
  lemma IncrDoes(limit: int, s: Inflight, c: Caller, reply: Reply)
    requires !s.Knows(c)
    ensures var s' := Next(limit, s, Incr(c, reply));
            match reply
            case Answered => if s.counter < limit then c in s'.admitted else c in s'.rejecting
            case Rejected => s' == s
            case ReplyLost => c in s'.leaked
  {
  }

  datatype Decision = AdmitInline | Reject

  lemma OthersKeepCaller(limit: int, s: Inflight, a: Step, c: Caller)
    requires a.c != c
    ensures var s' := Next(limit, s, a);
            && (c in s'.admitted <==> c in s.admitted) && (c in s'.rejecting <==> c in s.rejecting)
            && (c in s'.leaked <==> c in s.leaked) && (c in s'.done <==> c in s.done)
  {
  }

  /** admit and release on one counter. Before each command everyone else may take any number of steps;
      `others` and the `replies` are arbitrary. `seen` is the state the latest command met. */
  class InflightCounter {
    const limit: int
    const others: nat -> seq<Step>
    const replies: nat -> Reply
    const start: Inflight
    var sys: Inflight
    var turn: nat
    ghost var trace: Trace
    ghost var seen: Inflight

    ghost predicate Ok()
      reads this
    {
      Init(start) && sys == Play(limit, start, trace)
    }

    constructor (limit: int, start: Inflight, others: nat -> seq<Step>, replies: nat -> Reply)
      requires Init(start)
      ensures Ok() && sys == start && this.limit == limit
    {
      this.limit, this.start, this.others, this.replies := limit, start, others, replies;
      this.sys, this.turn, this.trace, this.seen := start, 0, Begin, start;
    }

    method Take(a: Step)
      requires Ok()
      modifies this`sys, this`trace
      ensures Ok() && sys == Next(limit, old(sys), a)
    {
      sys, trace := Next(limit, sys, a), Then(trace, a);
    }

    twostate predicate SameFate(c: Caller)
      reads this
    {
      && (c in sys.admitted <==> c in old(sys).admitted) && (c in sys.rejecting <==> c in old(sys).rejecting)
      && (c in sys.leaked <==> c in old(sys).leaked) && (c in sys.done <==> c in old(sys).done)
    }

    method Others(c: Caller)
      requires Ok()
      modifies this`sys, this`turn, this`trace, this`seen
      ensures Ok() && seen == sys && SameFate(c) && turn == old(turn) + 1
    {
      var acts := others(turn);
      turn := turn + 1;
      for k := 0 to |acts|
        invariant Ok() && SameFate(c) && turn == old(turn) + 1
      {
        if acts[k].c != c {
          OthersKeepCaller(limit, sys, acts[k], c);
          Take(acts[k]);
        }
      }
      seen := sys;
    }

    /** Admitted exactly if, at the instant of the increment (`met`), the admitted, uncorrected and leaked
        left room. A rejected caller's increment is taken back, and leaked only if that command failed;
        None stands for the exception of a failed increment. */
    method Admit(c: Caller) returns (decision: Option<Decision>, ghost met: Inflight)
      requires Ok() && !sys.Knows(c)
      modifies this`sys, this`turn, this`trace, this`seen
      ensures Ok() && Accounted(met)
      ensures decision.Some? ==>
                (decision.value.AdmitInline? <==> |met.admitted| + |met.rejecting| + |met.leaked| < limit)
      ensures decision == Some(AdmitInline) ==> c in sys.admitted
      ensures decision == Some(Reject) ==>
                if replies(old(turn) + 2).Rejected? then c in sys.leaked && sys.counter == seen.counter
                else c in sys.done && sys.counter == seen.counter - 1
      ensures decision.None? <==> !replies(old(turn) + 1).Answered?
      ensures decision.None? ==> if replies(old(turn) + 1).Rejected? then !sys.Knows(c) else c in sys.leaked
    {
      var current;
      current, met := Increment(c);
      if current.None? {
        return None, met;
      }
      if current.value > limit {
        TakeBack(c);
        return Some(Reject), met;
      }
      return Some(AdmitInline), met;
    }

    /** The increment and the count it answers; None if it throws. */
    method Increment(c: Caller) returns (current: Option<int>, ghost met: Inflight)
      requires Ok() && !sys.Knows(c)
      modifies this`sys, this`turn, this`trace, this`seen
      ensures Ok() && turn == old(turn) + 1 && Accounted(met)
      ensures current == if replies(turn).Answered? then Some(met.counter + 1) else None
      ensures match replies(turn)
              case Answered => if met.counter < limit then c in sys.admitted else c in sys.rejecting
              case Rejected => !sys.Knows(c)
              case ReplyLost => c in sys.leaked
    {
      Others(c);
      met := sys;
      RunKeepsInv(limit, start, trace);
      IncrDoes(limit, sys, c, replies(turn));
      var count := sys.counter + 1;
      Take(Incr(c, replies(turn)));
      return if replies(turn).Answered? then Some(count) else None, met;
    }

    /** The corrective decrement of a rejected caller. */
    method TakeBack(c: Caller)
      requires Ok() && c in sys.rejecting
      modifies this`sys, this`turn, this`trace, this`seen
      ensures Ok() && turn == old(turn) + 1
      ensures if replies(turn).Rejected? then c in sys.leaked && sys.counter == seen.counter
              else c in sys.done && sys.counter == seen.counter - 1
    {
      Others(c);
      Take(Correct(c, replies(turn)));
    }

    /** Releasing an admitted caller never drives the counter below zero, so the corrective increment is
        never needed. */
    method Free(c: Caller) returns (clamped: bool)
      requires Ok() && c in sys.admitted
      modifies this`sys, this`turn, this`trace, this`seen
      ensures Ok() && !clamped
      ensures if replies(old(turn) + 1).Rejected? then c in sys.leaked && sys.counter == seen.counter
              else c in sys.done && sys.counter == seen.counter - 1
    {
      Others(c);
      RunKeepsInv(limit, start, trace);
      ReleaseNeverClamps(limit, start, trace, c);
      var reply := replies(turn);
      var current := sys.counter - 1;
      Take(Release(c, reply));
      return reply.Answered? && current < 0;
    }
  }

  // ---- the queues --------------------------------------------------------------------------------

  datatype RequestClass = Interactive | HighPriority | Batch | Background

  datatype Request = Request(requestClass: RequestClass, body: string)

  datatype Member = Envelope(ticketId: nat, request: Request) | Malformed(raw: string)

  datatype Scored = Scored(score: nat, member: Member)

  /** A sorted set, by score. */
  predicate Sorted(z: seq<Scored>) {
    forall i, j :: 0 <= i < j < |z| ==> z[i].score < z[j].score && z[i].member != z[j].member
  }

  function Without(z: seq<Scored>, m: Member): seq<Scored> {
    if z == [] then [] else (if z[0].member == m then [] else [z[0]]) + Without(z[1..], m)
  }

  function Placed(z: seq<Scored>, e: Scored): seq<Scored> {
    if z == [] || e.score < z[0].score then [e] + z else [z[0]] + Placed(z[1..], e)
  }

  /** ZADD: a member already present only changes its score. */
  function ZAdd(z: seq<Scored>, e: Scored): seq<Scored> {
    Placed(Without(z, e.member), e)
  }

  function Members(z: seq<Scored>): seq<Member> {
    seq(|z|, i requires 0 <= i < |z| => z[i].member)
  }

  /** The members that parse, in order. */
  function Parsed(ms: seq<Member>): seq<Member> {
    if ms == [] then [] else (if ms[0].Envelope? then [ms[0]] else []) + Parsed(ms[1..])
  }

  lemma {:induction false} WithoutKeeps(z: seq<Scored>, m: Member)
    ensures forall e :: e in Without(z, m) <==> e in z && e.member != m
  {
    if z != [] { WithoutKeeps(z[1..], m); }
  }

  lemma {:induction false} WithoutSorted(z: seq<Scored>, m: Member)
    requires Sorted(z)
    ensures Sorted(Without(z, m))
  {
    if z != [] {
      var tail := Without(z[1..], m);
      WithoutSorted(z[1..], m);
      WithoutKeeps(z[1..], m);
      forall j | 0 <= j < |tail| ensures z[0].score < tail[j].score && z[0].member != tail[j].member {
        assert tail[j] in tail;
        var k :| 0 <= k < |z[1..]| && z[1..][k] == tail[j];
        assert z[k + 1] == tail[j];
      }
    }
  }

  lemma {:induction false} WithoutAbsent(z: seq<Scored>, m: Member)
    requires forall e :: e in z ==> e.member != m
    ensures Without(z, m) == z
  {
    if z != [] { WithoutAbsent(z[1..], m); }
  }

  lemma {:induction false} PlacedKeeps(z: seq<Scored>, e: Scored)
    ensures forall x :: x in Placed(z, e) <==> x in z || x == e
  {
    if z != [] && !(e.score < z[0].score) { PlacedKeeps(z[1..], e); }
  }

  lemma {:induction false} PlacedSorted(z: seq<Scored>, e: Scored)
    requires Sorted(z) && forall x :: x in z ==> x.score != e.score && x.member != e.member
    ensures Sorted(Placed(z, e))
  {
    if z != [] && !(e.score < z[0].score) {
      PlacedSorted(z[1..], e);
      PlacedKeeps(z[1..], e);
      var tail := Placed(z[1..], e);
      forall x | x in tail ensures z[0].score < x.score && z[0].member != x.member {
        if x != e {
          var k :| 0 <= k < |z[1..]| && z[1..][k] == x;
        }
      }
    } else if z != [] {
      assert forall i :: 0 < i < |z| ==> z[0].score < z[i].score;
    }
  }

  lemma {:induction false} PlacedLast(z: seq<Scored>, e: Scored)
    requires forall x :: x in z ==> x.score < e.score
    ensures Placed(z, e) == z + [e]
  {
    if z != [] { PlacedLast(z[1..], e); }
  }

  /** A sorted set stays one, and holds what it held with the added member at its new score. */
  lemma ZAddKeepsSorted(z: seq<Scored>, e: Scored)
    requires Sorted(z) && forall x :: x in z ==> x.score != e.score
    ensures Sorted(ZAdd(z, e))
    ensures forall x :: x in ZAdd(z, e) <==> x == e || (x in z && x.member != e.member)
  {
    WithoutKeeps(z, e.member);
    WithoutSorted(z, e.member);
    PlacedSorted(Without(z, e.member), e);
    PlacedKeeps(Without(z, e.member), e);
  }

  lemma {:induction false} ParsedAppend(a: seq<Member>, b: seq<Member>)
    ensures Parsed(a + b) == Parsed(a) + Parsed(b)
  {
    if a == [] {
      assert a + b == b;
    } else {
      ParsedAppend(a[1..], b);
      assert (a + b)[0] == a[0] && (a + b)[1..] == a[1..] + b;
      var first := if a[0].Envelope? then [a[0]] else [];
      assert first + (Parsed(a[1..]) + Parsed(b)) == (first + Parsed(a[1..])) + Parsed(b);
    }
  }

  /** Parsed is determined by this and ParsedAppend. */
  lemma ParsedOne(m: Member)
    ensures Parsed([m]) == match m case Envelope(_, _) => [m] case Malformed(_) => []
    ensures Parsed([]) == []
  {
  }

  lemma {:induction false} ParsedAll(a: seq<Member>)
    requires forall m :: m in a ==> m.Envelope?
    ensures Parsed(a) == a
  {
    if a != [] { ParsedAll(a[1..]); }
  }

  lemma {:induction false} ParsedShort(a: seq<Member>)
    ensures |Parsed(a)| <= |a|
  {
    if a != [] { ParsedShort(a[1..]); }
  }

  /** One class's queue: the sorted set and the sequence its scores come from. */
  datatype Queue = Queue(items: seq<Scored>, sequence: nat) {
    ghost predicate Valid() {
      Sorted(items) && forall e :: e in items ==> e.score <= sequence
    }
  }

  /** What dequeueNext(n) returns: the first n members of batch, less those that do not parse, and from
      background as many as are then missing. */
  function Dequeued(batch: seq<Member>, background: seq<Member>, n: nat): seq<Member> {
    var first := Parsed(batch[..Least(n, |batch|)]);
    first + if |first| >= n then [] else Parsed(background[..Least(n - |first|, |background|)])
  }

  function Least(a: nat, b: nat): nat {
    if a < b then a else b
  }

  /** When every member parses, that is the first n of the batch queue followed by the background queue. */
  lemma DequeuesInPriorityOrder(batch: seq<Member>, background: seq<Member>, n: nat)
    requires forall m :: m in batch + background ==> m.Envelope?
    ensures Dequeued(batch, background, n) == (batch + background)[..Least(n, |batch| + |background|)]
  {
    var k := Least(n, |batch|);
    assert forall m :: m in batch[..k] ==> m in batch + background;
    assert forall m :: m in background ==> m in batch + background;
    ParsedAll(batch[..k]);
    if k < n {
      ParsedAll(background[..Least(n - k, |background|)]);
      assert batch[..k] == batch;
    }
  }

  /** What somebody else may do to a queue: insert a member, or pop some. */
  datatype Other = Inserts(member: Member) | Pops(n: nat)

  /** The queues as one process uses them, with nobody else between its commands except inside an
      insertion, between the INCR that gives the score and the ZADD that uses it. */
  class RequestQueues {
    var batch: Queue
    var background: Queue
    const meanwhile: nat -> seq<Other>
    var turn: nat

    ghost predicate Valid()
      reads this
    {
      batch.Valid() && background.Valid()
    }

    constructor (meanwhile: nat -> seq<Other>)
      ensures Valid() && batch.items == [] && background.items == []
    {
      this.meanwhile, turn := meanwhile, 0;
      batch, background := Queue([], 0), Queue([], 0);
    }

    /** A whole insertion by somebody else. */
    static method Insert(q: Queue, m: Member) returns (q': Queue)
      requires q.Valid()
      ensures q'.Valid() && q'.sequence == q.sequence + 1
      ensures q'.items == Without(q.items, m) + [Scored(q'.sequence, m)]
      ensures forall e :: e in q'.items ==> e in q.items || e.score > q.sequence
    {
      var e := Scored(q.sequence + 1, m);
      ZAddKeepsSorted(q.items, e);
      WithoutKeeps(q.items, m);
      PlacedLast(Without(q.items, m), e);
      q' := Queue(ZAdd(q.items, e), q.sequence + 1);
    }

    /** The insertion keeps the queue in the order of the sequence numbers: whatever was queued when it
        took its number and has not been popped since stays ahead of it, and whatever others queued
        meanwhile is behind. If nobody else was at the queue, the new member is last. Only batch and background requests can be queued. */
    method InsertIntoQueue(ticketId: nat, request: Request) returns (accepted: bool, ghost score: nat)
      requires Valid()
      modifies this
      ensures Valid() && accepted == (request.requestClass.Batch? || request.requestClass.Background?)
      ensures !accepted ==> batch == old(batch) && background == old(background)
      ensures accepted && request.requestClass.Batch? ==>
                && background == old(background) && InOrder(old(batch), batch, Scored(score, Envelope(ticketId, request)))
                && Holds(batch, old(batch), Scored(score, Envelope(ticketId, request)), meanwhile(old(turn)))
      ensures accepted && request.requestClass.Background? ==>
                && batch == old(batch) && InOrder(old(background), background, Scored(score, Envelope(ticketId, request)))
                && Holds(background, old(background), Scored(score, Envelope(ticketId, request)), meanwhile(old(turn)))
      ensures accepted && meanwhile(old(turn)) == [] ==>
                var m := Envelope(ticketId, request);
                if request.requestClass.Batch? then batch.items == Without(old(batch).items, m) + [Scored(score, m)]
                else background.items == Without(old(background).items, m) + [Scored(score, m)]
    {
      var queued := request.requestClass.Batch? || request.requestClass.Background?;
      if !queued {
        return false, 0;
      }
      var others := meanwhile(turn);
      turn := turn + 1;
      var m := Envelope(ticketId, request);
      if request.requestClass.Batch? {
        score := batch.sequence + 1;
        batch := InsertAmong(batch, m, others);
      } else {
        score := background.sequence + 1;
        background := InsertAmong(background, m, others);
      }
      return true, score;
    }

    /** The queue holds the new member and, of the rest, what the others' steps in between have left. */
    ghost predicate Holds(q': Queue, q: Queue, e: Scored, others: seq<Other>) {
      forall x :: x in q'.items <==> x == e || (x in After(q.(sequence := e.score), others).items && x.member != e.member)
    }

    /** What the others make of a queue. */
    static function After(q: Queue, others: seq<Other>): Queue {
      if others == [] then q
      else
        var before, n := After(q, others[..|others| - 1]), |others| - 1;
        match others[n]
        case Inserts(m) => Queue(Without(before.items, m) + [Scored(before.sequence + 1, m)], before.sequence + 1)
        case Pops(n) => Queue(before.items[Least(n, |before.items|)..], before.sequence)
    }

    ghost predicate InOrder(q: Queue, q': Queue, e: Scored) {
      && e in q'.items && e.score == q.sequence + 1
      && (forall x :: x in q'.items && x.score < e.score ==> x in q.items)
      && (forall x :: x in q.items ==> x.score < e.score)
    }

    /** The others' steps: nothing that was not there gets in front of the sequence number taken before. */
    static method Meanwhile(q: Queue, others: seq<Other>) returns (q': Queue)
      requires q.Valid()
      ensures q'.Valid() && q' == After(q, others) && q'.sequence >= q.sequence
      ensures forall x :: x in q'.items ==> x in q.items || x.score > q.sequence
    {
      var popped: seq<Member>;
      q' := q;
      for i := 0 to |others|
        invariant q'.Valid() && q'.sequence >= q.sequence && q' == After(q, others[..i])
        invariant forall x :: x in q'.items ==> x in q.items || x.score > q.sequence
      {
        assert others[..i + 1][..i] == others[..i];
        match others[i] {
          case Inserts(other) => q' := Insert(q', other);
          case Pops(n) => q', popped := PopMin(q', n);
        }
      }
      assert others[..|others|] == others;
    }

    static method InsertAmong(q: Queue, m: Member, others: seq<Other>) returns (q': Queue)
      requires q.Valid()
      ensures q'.Valid()
      ensures var e := Scored(q.sequence + 1, m);
              && e in q'.items && (forall x :: x in q'.items && x.score < e.score ==> x in q.items)
              && (forall x :: x in q'.items <==> x == e || (x in After(q.(sequence := q.sequence + 1), others).items && x.member != m))
              && (others == [] ==> q'.items == Without(q.items, m) + [e])
    {
      var score := q.sequence + 1;
      q' := Meanwhile(q.(sequence := score), others);
      var e := Scored(score, m);
      ZAddKeepsSorted(q'.items, e);
      if others == [] {
        WithoutKeeps(q.items, m);
        PlacedLast(Without(q.items, m), e);
      }
      q' := q'.(items := ZAdd(q'.items, e));
    }

    /** ZPOPMIN */
    static method PopMin(q: Queue, n: nat) returns (q': Queue, popped: seq<Member>)
      requires q.Valid()
      ensures q'.Valid() && q'.items == q.items[Least(n, |q.items|)..] && q'.sequence == q.sequence
      ensures popped == Members(q.items)[..Least(n, |q.items|)]
    {
      var k := Least(n, |q.items|);
      popped := Members(q.items)[..k];
      q' := q.(items := q.items[k..]);
    }

    /** dequeueNext: exactly what is returned is removed, with the members in between that do not parse. */
    method DequeueNext(maxJobs: nat) returns (results: seq<Member>)
      requires Valid()
      modifies this`batch, this`background
      ensures Valid() && |results| <= maxJobs
      ensures results == Dequeued(Members(old(batch).items), Members(old(background).items), maxJobs)
      ensures var fromBatch := Parsed(Members(old(batch).items)[..Least(maxJobs, |old(batch).items|)]);
              var left := if |fromBatch| >= maxJobs then 0 else maxJobs - |fromBatch|;
              results == fromBatch + Parsed(Members(old(background).items)[..Least(left, |old(background).items|)])
      ensures batch.items == old(batch).items[Least(maxJobs, |old(batch).items|)..]
      ensures var fromBatch := |Parsed(Members(old(batch).items)[..Least(maxJobs, |old(batch).items|)])|;
              background.items == if fromBatch >= maxJobs then old(background).items
                                  else old(background).items[Least(maxJobs - fromBatch, |old(background).items|)..]
    {
      var popped: seq<Member>;
      batch, popped := PopMin(batch, maxJobs);
      results := Collect([], popped);
      assert results == Parsed(popped);
      ParsedShort(popped);
      if |results| < maxJobs {
        var remaining := maxJobs - |results|;
        background, popped := PopMin(background, remaining);
        ParsedShort(popped);
        results := Collect(results, popped);
      }
    }

    static method Collect(results: seq<Member>, popped: seq<Member>) returns (r: seq<Member>)
      ensures r == results + Parsed(popped)
    {
      r := results;
      for i := 0 to |popped|
        invariant r == results + Parsed(popped[..i])
      {
        assert popped[..i + 1] == popped[..i] + [popped[i]];
        ParsedAppend(popped[..i], [popped[i]]);
        if popped[i].Envelope? {
          r := r + [popped[i]];
        }
      }
      assert popped[..|popped|] == popped;
    }
  }
}
