/**
 The routing engine: candidates in stable descending order of score, each resolved, admitted by its
 circuit breaker, and called under the retry policy, until one succeeds. Registry, breaker, providers
 and bookkeeping may behave in any way at all: what each port answers is an arbitrary input.
 */
module Routing {
  import opened Wrappers

  // ---- ranking -----------------------------------------------------------------------------------

  /** A listing is a position in the list of candidates; the same candidate may be listed twice. */
  datatype Candidate = Candidate(providerId: string, modelId: string, score: int)

  /** Listing i is to be tried before listing j: it scores higher, or as high and is listed earlier. */
  predicate Before(cs: seq<Candidate>, i: nat, j: nat)
    requires i < |cs| && j < |cs|
  {
    cs[i].score > cs[j].score || (cs[i].score == cs[j].score && i < j)
  }

  predicate Listings(cs: seq<Candidate>, order: seq<nat>) {
    forall k :: 0 <= k < |order| ==> order[k] < |cs|
  }

  predicate InOrder(cs: seq<Candidate>, order: seq<nat>)
    requires Listings(cs, order)
  {
    forall i, j :: 0 <= i < j < |order| ==> Before(cs, order[i], order[j])
  }

  /** Puts listing o behind every listing that scores at least as much. */
  function Place(cs: seq<Candidate>, o: nat, order: seq<nat>): (placed: seq<nat>)
    requires o < |cs| && Listings(cs, order)
    ensures |placed| == |order| + 1 && Listings(cs, placed) && forall x: nat :: x in placed <==> x == o || x in order
  {
    if order == [] || cs[o].score > cs[order[0]].score then [o] + order
    else
      var placed := [order[0]] + Place(cs, o, order[1..]);
      assert order == [order[0]] + order[1..];
      placed
  }

  /** The first n listings, sorted by (a, b) => b.score - a.score, which is stable. */
  function RankFirst(cs: seq<Candidate>, n: nat): (order: seq<nat>)
    requires n <= |cs|
    ensures |order| == n && Listings(cs, order) && forall x: nat :: x in order <==> x < n
  {
    if n == 0 then [] else Place(cs, n - 1, RankFirst(cs, n - 1))
  }

  function Rank(cs: seq<Candidate>): (order: seq<nat>)
    ensures |order| == |cs| && Listings(cs, order)
  {
    RankFirst(cs, |cs|)
  }

  lemma {:induction false} PlaceInOrder(cs: seq<Candidate>, o: nat, order: seq<nat>)
    requires o < |cs| && Listings(cs, order) && InOrder(cs, order)
    requires forall k :: 0 <= k < |order| ==> order[k] < o
    ensures InOrder(cs, Place(cs, o, order))
  {
    if order != [] && cs[o].score <= cs[order[0]].score {
      PlaceInOrder(cs, o, order[1..]);
      var tail := Place(cs, o, order[1..]);
      forall j | 0 <= j < |tail| ensures Before(cs, order[0], tail[j]) {
        assert tail[j] in tail;
      }
    }
  }

  lemma {:induction false} RankFirstInOrder(cs: seq<Candidate>, n: nat)
    requires n <= |cs|
    ensures InOrder(cs, RankFirst(cs, n))
  {
    if n > 0 {
      var order := RankFirst(cs, n - 1);
      RankFirstInOrder(cs, n - 1);
      forall k | 0 <= k < |order| ensures order[k] < n - 1 {
        assert order[k] in order;
      }
      PlaceInOrder(cs, n - 1, order);
    }
  }

  /** Ranking lists every candidate once, by descending score, and candidates of equal score as they were
      listed. */
  lemma RankIsStableSort(cs: seq<Candidate>)
    ensures InOrder(cs, Rank(cs)) && |Rank(cs)| == |cs| && forall o: nat :: o < |cs| <==> o in Rank(cs)
  {
    RankFirstInOrder(cs, |cs|);
  }

  /** Listing o stands in one of the first n places. */
  ghost predicate Placed(cs: seq<Candidate>, o: nat, n: nat)
    requires n <= |cs|
  {
    exists k :: 0 <= k < n && Rank(cs)[k] == o
  }

  lemma OneMorePlace(cs: seq<Candidate>, o: nat, d: nat)
    requires d < |cs|
    ensures Placed(cs, o, d + 1) <==> Placed(cs, o, d) || o == Rank(cs)[d]
    ensures o == Rank(cs)[d] ==> !Placed(cs, o, d)
  {
    RankIsStableSort(cs);
    if k :| 0 <= k < d && Rank(cs)[k] == o {
      assert Before(cs, Rank(cs)[k], Rank(cs)[d]);
    }
  }

  /** In the first d + 1 places stand the listing in place d and those to be tried before it. */
  lemma FirstPlaces(cs: seq<Candidate>, d: nat, o: nat)
    requires d < |cs| && o < |cs|
    ensures Placed(cs, o, d + 1) <==> o == Rank(cs)[d] || Before(cs, o, Rank(cs)[d])
    ensures Placed(cs, o, |cs|)
  {
    RankIsStableSort(cs);
    var order := Rank(cs);
    assert o in order;
    var k :| 0 <= k < |order| && order[k] == o;
    if k <= d { assert Placed(cs, o, d + 1); }
  }

  // ---- the retry policy --------------------------------------------------------------------------

  datatype Error = Error(code: string, retryable: bool)

  datatype CallResult<R> = Success(response: R) | Failure(error: Error)

  predicate Final<R>(r: CallResult<R>, attempt: nat, maxAttempts: nat) {
    r.Success? || !r.error.retryable || attempt + 1 >= maxAttempts
  }

  /** How many calls the policy makes, given what call number 0, 1, ... would answer. */
  function Attempts<R>(calls: nat -> CallResult<R>, maxAttempts: nat, from: nat): (n: nat)
    requires from < maxAttempts
    ensures from < n <= maxAttempts
    ensures Final(calls(n - 1), n - 1, maxAttempts)
    ensures forall k :: from <= k < n - 1 ==> !Final(calls(k), k, maxAttempts)
    decreases maxAttempts - from
  {
    if Final(calls(from), from, maxAttempts) then from + 1 else Attempts(calls, maxAttempts, from + 1)
  }

  /** ExponentialBackoffRetryPolicy.execute: the answer is that of the first call that succeeds, fails in
      a way not worth retrying, or is the last one allowed. Every call of the operation leaves `call` in
      the log. */
  method Execute<R>(calls: nat -> CallResult<R>, maxAttempts: nat, call: Effect, before: seq<Effect>)
    returns (result: CallResult<R>, log: seq<Effect>)
    requires maxAttempts >= 1
    ensures var made := Attempts(calls, maxAttempts, 0);
            result == calls(made - 1) && log == before + Repeat(call, made)
  {
    log := before;
    for attempt := 0 to maxAttempts
      invariant attempt < maxAttempts
      invariant Attempts(calls, maxAttempts, 0) == Attempts(calls, maxAttempts, attempt)
      invariant log == before + Repeat(call, attempt)
    {
      result := calls(attempt);
      log := log + [call];
      if result.Success? {
        return;
      }
      var isLastAttempt := attempt == maxAttempts - 1;
      if isLastAttempt || !result.error.retryable {
        return;
      }
    }
    assert false;
  }

  // ---- one candidate -----------------------------------------------------------------------------

  datatype Check = Denied | Closed | HalfOpen(token: nat) | BreakerDown(error: Error)

  /** What the ports answer for one listing: the registry, the breaker, the provider's calls. */
  datatype Behaviour<R> = Behaviour(resolves: bool, resolveError: Error, check: Check, calls: nat -> CallResult<R>)

  const CIRCUIT_OPEN := Error("PROVIDER_CIRCUIT_OPEN", true)

  predicate Admitted<R>(b: Behaviour<R>) {
    b.resolves && (b.check.Closed? || b.check.HalfOpen?)
  }

  /** The breaker itself fails: the exception leaves route(). */
  predicate Aborts<R>(b: Behaviour<R>) {
    b.resolves && b.check.BreakerDown?
  }

  /** A half-open trial is a single call; only a closed breaker gets the retries. */
  function CallsMade<R>(b: Behaviour<R>, maxAttempts: nat): nat
    requires maxAttempts >= 1
  {
    if !Admitted(b) then 0 else if b.check.HalfOpen? then 1 else Attempts(b.calls, maxAttempts, 0)
  }

  function Answer<R>(b: Behaviour<R>, maxAttempts: nat): CallResult<R>
    requires maxAttempts >= 1 && Admitted(b)
  {
    b.calls(CallsMade(b, maxAttempts) - 1)
  }

  predicate Works<R>(b: Behaviour<R>, maxAttempts: nat)
    requires maxAttempts >= 1
  {
    Admitted(b) && Answer(b, maxAttempts).Success?
  }

  /** The listing neither works nor ends the routing. */
  predicate Passes<R>(b: Behaviour<R>, maxAttempts: nat)
    requires maxAttempts >= 1
  {
    !Works(b, maxAttempts) && !Aborts(b)
  }

  /** Why a listing did not work. */
  function Cause<R>(b: Behaviour<R>, maxAttempts: nat): Error
    requires maxAttempts >= 1 && Passes(b, maxAttempts)
  {
    if !b.resolves then b.resolveError else if b.check.Denied? then CIRCUIT_OPEN else Answer(b, maxAttempts).error
  }

  /** The trial token the breaker handed out, which the report carries back. */
  function TokenOf(check: Check): Option<nat> {
    if check.HalfOpen? then Some(check.token) else None
  }

  /** What the engine does to the outside: calls of a provider's model and outcomes reported on it. */
  datatype Effect =
    | Called(listing: nat, candidate: Candidate)
    | Reported(listing: nat, candidate: Candidate, token: Option<nat>, success: bool)

  function Repeat(e: Effect, n: nat): seq<Effect> {
    if n == 0 then [] else Repeat(e, n - 1) + [e]
  }

  function Effects<R>(o: nat, c: Candidate, b: Behaviour<R>, maxAttempts: nat): seq<Effect>
    requires maxAttempts >= 1
  {
    if !Admitted(b) then []
    else Repeat(Called(o, c), CallsMade(b, maxAttempts)) + [Reported(o, c, TokenOf(b.check), Answer(b, maxAttempts).Success?)]
  }

  /** How often listing o was reported on, or called. */
  function Tally(log: seq<Effect>, o: nat, reports: bool): nat {
    if log == [] then 0 else (if log[0].listing == o && log[0].Reported? == reports then 1 else 0) + Tally(log[1..], o, reports)
  }

  lemma {:induction false} TallyAppend(a: seq<Effect>, b: seq<Effect>, o: nat, reports: bool)
    ensures Tally(a + b, o, reports) == Tally(a, o, reports) + Tally(b, o, reports)
  {
    if a == [] {
      assert a + b == b;
    } else {
      TallyAppend(a[1..], b, o, reports);
      assert (a + b)[1..] == a[1..] + b;
    }
  }

  lemma {:induction false} TallyRepeat(e: Effect, n: nat, o: nat, reports: bool)
    ensures Tally(Repeat(e, n), o, reports) == if e.listing == o && e.Reported? == reports then n else 0
  {
    if n > 0 {
      TallyRepeat(e, n - 1, o, reports);
      TallyAppend(Repeat(e, n - 1), [e], o, reports);
    }
  }

  /** Trying a listing adds its calls and, if it is admitted, one report. */
  lemma TallyEffects<R>(log: seq<Effect>, o: nat, c: Candidate, b: Behaviour<R>, maxAttempts: nat, x: nat)
    requires maxAttempts >= 1
    ensures var log' := log + Effects(o, c, b, maxAttempts);
            && Tally(log', x, true) == Tally(log, x, true) + (if x == o && Admitted(b) then 1 else 0)
            && Tally(log', x, false) == Tally(log, x, false) + if x == o then CallsMade(b, maxAttempts) else 0
  {
    TallyAppend(log, Effects(o, c, b, maxAttempts), x, true);
    TallyAppend(log, Effects(o, c, b, maxAttempts), x, false);
    if Admitted(b) {
      var calls := Repeat(Called(o, c), CallsMade(b, maxAttempts));
      var report := [Reported(o, c, TokenOf(b.check), Answer(b, maxAttempts).Success?)];
      TallyRepeat(Called(o, c), CallsMade(b, maxAttempts), x, true);
      TallyRepeat(Called(o, c), CallsMade(b, maxAttempts), x, false);
      TallyAppend(calls, report, x, true);
      TallyAppend(calls, report, x, false);
    }
  }

  /** Call number k is made and is the last: every call before it failed in a way worth retrying, and it
      succeeds, fails otherwise, or is the last one allowed. A half-open trial is allowed one. */
  ghost predicate EndsAt<R>(b: Behaviour<R>, maxAttempts: nat, k: nat) {
    && k < (if b.check.HalfOpen? then 1 else maxAttempts)
    && (forall j :: 0 <= j < k ==> b.calls(j).Failure? && b.calls(j).error.retryable)
    && (b.calls(k).Failure? && b.calls(k).error.retryable && !b.check.HalfOpen? ==> k == maxAttempts - 1)
  }

  lemma EndsOnce<R>(b: Behaviour<R>, maxAttempts: nat, k: nat, l: nat)
    requires EndsAt(b, maxAttempts, k) && EndsAt(b, maxAttempts, l)
    ensures k == l
  {
  }

  /** A candidate that does not resolve, or that its breaker denies, is passed over without a call, for that
      reason; an exception of the breaker check ends the routing. */
  lemma NotCalled<R>(b: Behaviour<R>, maxAttempts: nat)
    requires maxAttempts >= 1 && (!b.resolves || b.check.Denied? || b.check.BreakerDown?)
    ensures CallsMade(b, maxAttempts) == 0 && !Works(b, maxAttempts) && (Aborts(b) <==> b.resolves && b.check.BreakerDown?)
    ensures !b.resolves ==> Passes(b, maxAttempts) && Cause(b, maxAttempts) == b.resolveError
    ensures b.resolves && b.check.Denied? ==>
              Passes(b, maxAttempts) && Cause(b, maxAttempts) == Error("PROVIDER_CIRCUIT_OPEN", true)
  {
  }

  /** An admitted candidate is called up to the call that ends it: it works if and only if that call
      succeeds, with its response, and otherwise that call's error is the cause. */
  lemma LastCallDecides<R>(b: Behaviour<R>, maxAttempts: nat, k: nat)
    requires maxAttempts >= 1 && b.resolves && (b.check.Closed? || b.check.HalfOpen?) && EndsAt(b, maxAttempts, k)
    ensures CallsMade(b, maxAttempts) == k + 1 && (Works(b, maxAttempts) <==> b.calls(k).Success?)
    ensures if b.calls(k).Success? then Answer(b, maxAttempts).response == b.calls(k).response
            else Cause(b, maxAttempts) == b.calls(k).error
  {
    SomeCallEnds(b, maxAttempts);
    EndsOnce(b, maxAttempts, k, CallsMade(b, maxAttempts) - 1);
  }

  lemma SomeCallEnds<R>(b: Behaviour<R>, maxAttempts: nat)
    requires maxAttempts >= 1 && Admitted(b)
    ensures CallsMade(b, maxAttempts) >= 1 && EndsAt(b, maxAttempts, CallsMade(b, maxAttempts) - 1)
  {
    if !b.check.HalfOpen? {
      var n := Attempts(b.calls, maxAttempts, 0);
      forall k | 0 <= k < n - 1 ensures b.calls(k).Failure? && b.calls(k).error.retryable {
        assert !Final(b.calls(k), k, maxAttempts);
      }
    }
  }

  /** The calls the policy says: none unless admitted, one for a trial, else at least one, at most
      maxAttempts, and every call but the last a failure worth retrying. */
  lemma CallsAreBounded<R>(b: Behaviour<R>, maxAttempts: nat)
    requires maxAttempts >= 1
    ensures var n := CallsMade(b, maxAttempts);
            && n <= maxAttempts && (Admitted(b) <==> n > 0) && (b.check.HalfOpen? ==> n <= 1)
            && (forall k :: 0 <= k < n - 1 ==> b.calls(k).Failure? && b.calls(k).error.retryable)
            && (0 < n < maxAttempts && b.check.Closed? ==> b.calls(n - 1).Success? || !b.calls(n - 1).error.retryable)
  {
    if Admitted(b) { SomeCallEnds(b, maxAttempts); }
  }

  /** A closed candidate works exactly if one of its first maxAttempts calls succeeds after nothing but
      failures worth retrying, and with the response of that call; a half-open one exactly if its first
      call succeeds. */
  lemma WorksExactlyIf<R>(b: Behaviour<R>, maxAttempts: nat)
    requires maxAttempts >= 1 && b.resolves && (b.check.Closed? || b.check.HalfOpen?)
    ensures Works(b, maxAttempts) <==>
            exists k: nat :: 0 <= k < (if b.check.HalfOpen? then 1 else maxAttempts) && b.calls(k).Success?
                        && forall j :: 0 <= j < k ==> b.calls(j).Failure? && b.calls(j).error.retryable
    ensures forall k :: 0 <= k < (if b.check.HalfOpen? then 1 else maxAttempts) && b.calls(k).Success?
                        && (forall j :: 0 <= j < k ==> b.calls(j).Failure? && b.calls(j).error.retryable) ==>
              Answer(b, maxAttempts) == b.calls(k)
  {
    SomeCallEnds(b, maxAttempts);
    LastCallDecides(b, maxAttempts, CallsMade(b, maxAttempts) - 1);
    forall k | 0 <= k < (if b.check.HalfOpen? then 1 else maxAttempts) && b.calls(k).Success?
               && (forall j :: 0 <= j < k ==> b.calls(j).Failure? && b.calls(j).error.retryable)
      ensures Works(b, maxAttempts) && Answer(b, maxAttempts) == b.calls(k)
    {
      LastCallDecides(b, maxAttempts, k);
    }
  }

  // ---- along the ranking -------------------------------------------------------------------------

  /** The effects of trying the listings in the first n places. */
  function EffectsUpTo<R>(cs: seq<Candidate>, ports: nat -> Behaviour<R>, n: nat, maxAttempts: nat): seq<Effect>
    requires maxAttempts >= 1 && n <= |cs|
  {
    if n == 0 then []
    else
      var o := Rank(cs)[n - 1];
      EffectsUpTo(cs, ports, n - 1, maxAttempts) + Effects(o, cs[o], ports(o), maxAttempts)
  }

  lemma {:induction false} OneReportPerAdmitted<R>(cs: seq<Candidate>, ports: nat -> Behaviour<R>, n: nat, maxAttempts: nat, o: nat)
    requires maxAttempts >= 1 && n <= |cs|
    ensures TalliesAt(ports(o), maxAttempts, o, Placed(cs, o, n), EffectsUpTo(cs, ports, n, maxAttempts))
  {
    if n > 0 {
      var last := Rank(cs)[n - 1];
      OneReportPerAdmitted(cs, ports, n - 1, maxAttempts, o);
      OneMorePlace(cs, o, n - 1);
      TallyEffects(EffectsUpTo(cs, ports, n - 1, maxAttempts), last, cs[last], ports(last), maxAttempts, o);
    }
  }

  /** Entry i of the log names its listing's candidate, and a report follows a call of the same listing:
      the last of the calls that were made, whose success it states, and it carries the token that the
      breaker handed out. */
  ghost predicate TruthfulAt<R>(cs: seq<Candidate>, ports: nat -> Behaviour<R>, log: seq<Effect>, i: nat)
    requires i < |log|
  {
    var e := log[i];
    && e.listing < |cs| && e.candidate == cs[e.listing]
    && (e.Reported? ==>
          var b, made := ports(e.listing), Tally(log, e.listing, false);
          && i > 0 && log[i - 1] == Called(e.listing, e.candidate) && made >= 1
          && (e.success <==> b.calls(made - 1).Success?)
          && e.token == match b.check { case HalfOpen(token) => Some(token) case _ => None })
  }

  ghost predicate Truthful<R>(cs: seq<Candidate>, ports: nat -> Behaviour<R>, log: seq<Effect>) {
    forall i :: 0 <= i < |log| ==> TruthfulAt(cs, ports, log, i)
  }

  lemma {:induction false} RepeatIs(e: Effect, n: nat)
    ensures |Repeat(e, n)| == n && forall i :: 0 <= i < n ==> Repeat(e, n)[i] == e
  {
    if n > 0 { RepeatIs(e, n - 1); }
  }

  /** Trying a further listing keeps the log truthful. */
  lemma TriedTruthfully<R>(cs: seq<Candidate>, ports: nat -> Behaviour<R>, log: seq<Effect>, o: nat, maxAttempts: nat)
    requires maxAttempts >= 1 && o < |cs| && Truthful(cs, ports, log) && Tally(log, o, false) == Tally(log, o, true) == 0
    ensures Truthful(cs, ports, log + Effects(o, cs[o], ports(o), maxAttempts))
  {
    var b, more := ports(o), Effects(o, cs[o], ports(o), maxAttempts);
    var log' := log + more;
    RepeatIs(Called(o, cs[o]), CallsMade(b, maxAttempts));
    forall i | 0 <= i < |log'| ensures TruthfulAt(cs, ports, log', i) {
      if i < |log| {
        assert TruthfulAt(cs, ports, log, i);
        TallyEffects(log, o, cs[o], b, maxAttempts, log[i].listing);
        if log[i].Reported? { ReportIsTallied(log, i); }
      } else {
        TallyEffects(log, o, cs[o], b, maxAttempts, o);
        assert log'[i] == more[i - |log|];
      }
    }
  }

  lemma {:induction false} ReportIsTallied(log: seq<Effect>, i: nat)
    requires i < |log| && log[i].Reported?
    ensures Tally(log, log[i].listing, true) >= 1
  {
    if i > 0 {
      ReportIsTallied(log[1..], i - 1);
    }
  }

  /** The engine's log is truthful as far as it has got. */
  lemma {:induction false} LogIsTruthful<R>(cs: seq<Candidate>, ports: nat -> Behaviour<R>, n: nat, maxAttempts: nat)
    requires maxAttempts >= 1 && n <= |cs|
    ensures Truthful(cs, ports, EffectsUpTo(cs, ports, n, maxAttempts))
  {
    if n > 0 {
      LogIsTruthful(cs, ports, n - 1, maxAttempts);
      var o := Rank(cs)[n - 1];
      OneMorePlace(cs, o, n - 1);
      OneReportPerAdmitted(cs, ports, n - 1, maxAttempts, o);
      TriedTruthfully(cs, ports, EffectsUpTo(cs, ports, n - 1, maxAttempts), o, maxAttempts);
    }
  }

  /** The providers reported on, in the order of the reports. */
  function ReportedProviders(log: seq<Effect>): seq<string> {
    if log == [] then []
    else (if log[0].Reported? then [log[0].candidate.providerId] else []) + ReportedProviders(log[1..])
  }

  lemma {:induction false} ReportedAppend(a: seq<Effect>, b: seq<Effect>)
    ensures ReportedProviders(a + b) == ReportedProviders(a) + ReportedProviders(b)
  {
    if a == [] {
      assert a + b == b;
    } else {
      ReportedAppend(a[1..], b);
      assert (a + b)[0] == a[0] && (a + b)[1..] == a[1..] + b;
      var first := if a[0].Reported? then [a[0].candidate.providerId] else [];
      assert first + (ReportedProviders(a[1..]) + ReportedProviders(b)) == (first + ReportedProviders(a[1..])) + ReportedProviders(b);
    }
  }

  lemma {:induction false} CallsReportNothing(e: Effect, n: nat)
    requires e.Called?
    ensures ReportedProviders(Repeat(e, n)) == []
  {
    if n > 0 {
      CallsReportNothing(e, n - 1);
      ReportedAppend(Repeat(e, n - 1), [e]);
    }
  }

  /** Trying a listing adds its provider to those reported on if it is admitted. */
  lemma TriedIsReported<R>(log: seq<Effect>, o: nat, c: Candidate, b: Behaviour<R>, maxAttempts: nat)
    requires maxAttempts >= 1
    ensures ReportedProviders(log + Effects(o, c, b, maxAttempts))
            == ReportedProviders(log) + if Admitted(b) then [c.providerId] else []
  {
    ReportedAppend(log, Effects(o, c, b, maxAttempts));
    if Admitted(b) {
      var calls, report := Repeat(Called(o, c), CallsMade(b, maxAttempts)), Reported(o, c, TokenOf(b.check), Answer(b, maxAttempts).Success?);
      CallsReportNothing(Called(o, c), CallsMade(b, maxAttempts));
      ReportedAppend(calls, [report]);
      assert ReportedProviders([report]) == [c.providerId];
    }
  }

  // ---- route -------------------------------------------------------------------------------------

  datatype Routed<R> =
    | Returned(response: R)
    | Propagated(error: Error)
    | NoAvailableProvider(attempted: seq<string>, causes: seq<Error>)

  /** Listing o works or its breaker check throws, and no other listing that does is to be tried before
      it: none scores higher, and none that scores as much is listed earlier. */
  predicate Decides<R>(cs: seq<Candidate>, ports: nat -> Behaviour<R>, maxAttempts: nat, o: nat)
    requires maxAttempts >= 1 && o < |cs|
  {
    !Passes(ports(o), maxAttempts) && forall x: nat :: x < |cs| && x != o && !Passes(ports(x), maxAttempts) ==> Before(cs, o, x)
  }

  /** Listing o was reported on once if it was tried and admitted, and never otherwise; if tried, it was
      called as the policy says. */
  predicate TalliesAt<R>(b: Behaviour<R>, maxAttempts: nat, o: nat, tried: bool, log: seq<Effect>)
    requires maxAttempts >= 1
  {
    && Tally(log, o, true) == (if tried && Admitted(b) then 1 else 0)
    && Tally(log, o, false) == if tried then CallsMade(b, maxAttempts) else 0
  }

  /** Everything up to and including the deciding listing has been tried, or everything if none decides. */
  predicate Tallies<R>(cs: seq<Candidate>, ports: nat -> Behaviour<R>, maxAttempts: nat, deciding: Option<nat>, log: seq<Effect>)
    requires maxAttempts >= 1 && (deciding.Some? ==> deciding.value < |cs|)
  {
    forall o: nat | o < |cs| ::
      TalliesAt(ports(o), maxAttempts, o, deciding.None? || o == deciding.value || Before(cs, o, deciding.value), log)
  }

  /** What routing comes to. `deciding` is the first listing in stable descending order of score that works
      or whose check throws; without one, every listing gives one cause, in that order. */
  ghost predicate Routes<R>(cs: seq<Candidate>, ports: nat -> Behaviour<R>, maxAttempts: nat, deciding: Option<nat>, routed: Routed<R>)
    requires maxAttempts >= 1
  {
    match deciding
    case Some(o) =>
      && o < |cs| && Decides(cs, ports, maxAttempts, o)
      && routed == if Aborts(ports(o)) then Propagated(ports(o).check.error) else Returned(Answer(ports(o), maxAttempts).response)
    case None =>
      && routed.NoAvailableProvider? && CausesOf(cs, ports, routed.causes, |cs|, maxAttempts)
      && routed.attempted == ReportedProviders(EffectsUpTo(cs, ports, |cs|, maxAttempts))
  }

  /** The causes collected in the first n places, all of which pass. */
  predicate CausesOf<R>(cs: seq<Candidate>, ports: nat -> Behaviour<R>, causes: seq<Error>, n: nat, maxAttempts: nat)
    requires maxAttempts >= 1 && n <= |cs|
  {
    |causes| == n && forall k :: 0 <= k < n ==> var b := ports(Rank(cs)[k]); Passes(b, maxAttempts) && causes[k] == Cause(b, maxAttempts)
  }

  lemma OneMoreCause<R>(cs: seq<Candidate>, ports: nat -> Behaviour<R>, causes: seq<Error>, n: nat, maxAttempts: nat, cause: Error)
    requires maxAttempts >= 1 && n < |cs| && CausesOf(cs, ports, causes, n, maxAttempts)
    requires var b := ports(Rank(cs)[n]); Passes(b, maxAttempts) && cause == Cause(b, maxAttempts)
    ensures CausesOf(cs, ports, causes + [cause], n + 1, maxAttempts)
  {
  }

  /** The first place that does not pass holds the deciding listing. */
  lemma FirstToDecide<R>(cs: seq<Candidate>, ports: nat -> Behaviour<R>, causes: seq<Error>, d: nat, maxAttempts: nat)
    requires maxAttempts >= 1 && d < |cs| && CausesOf(cs, ports, causes, d, maxAttempts) && !Passes(ports(Rank(cs)[d]), maxAttempts)
    ensures Decides(cs, ports, maxAttempts, Rank(cs)[d])
    ensures Tallies(cs, ports, maxAttempts, Some(Rank(cs)[d]), EffectsUpTo(cs, ports, d + 1, maxAttempts))
    ensures Truthful(cs, ports, EffectsUpTo(cs, ports, d + 1, maxAttempts))
  {
    LogIsTruthful(cs, ports, d + 1, maxAttempts);
    var order := Rank(cs);
    RankIsStableSort(cs);
    forall x: nat | x < |cs| && x != order[d] && !Passes(ports(x), maxAttempts) ensures Before(cs, order[d], x) {
      assert x in order;
      var k :| 0 <= k < |order| && order[k] == x;
    }
    var log := EffectsUpTo(cs, ports, d + 1, maxAttempts);
    forall o: nat | o < |cs| ensures TalliesAt(ports(o), maxAttempts, o, o == order[d] || Before(cs, o, order[d]), log) {
      FirstPlaces(cs, d, o);
      OneReportPerAdmitted(cs, ports, d + 1, maxAttempts, o);
    }
  }

  /** How the routing ends at the deciding place. */
  lemma EndsThere<R>(cs: seq<Candidate>, ports: nat -> Behaviour<R>, causes: seq<Error>, d: nat, maxAttempts: nat, routed: Routed<R>)
    requires maxAttempts >= 1 && d < |cs| && CausesOf(cs, ports, causes, d, maxAttempts) && !Passes(ports(Rank(cs)[d]), maxAttempts)
    requires var b := ports(Rank(cs)[d]);
             routed == if Aborts(b) then Propagated(b.check.error) else Returned(Answer(b, maxAttempts).response)
    ensures var deciding, log := Some(Rank(cs)[d]), EffectsUpTo(cs, ports, d + 1, maxAttempts);
            Routes(cs, ports, maxAttempts, deciding, routed) && Tallies(cs, ports, maxAttempts, deciding, log) && Truthful(cs, ports, log)
  {
    FirstToDecide(cs, ports, causes, d, maxAttempts);
  }

  lemma NoneDecides<R>(cs: seq<Candidate>, ports: nat -> Behaviour<R>, causes: seq<Error>, maxAttempts: nat, attempted: seq<string>)
    requires maxAttempts >= 1 && CausesOf(cs, ports, causes, |cs|, maxAttempts)
    requires attempted == ReportedProviders(EffectsUpTo(cs, ports, |cs|, maxAttempts))
    ensures Routes(cs, ports, maxAttempts, None, NoAvailableProvider(attempted, causes))
    ensures Tallies(cs, ports, maxAttempts, None, EffectsUpTo(cs, ports, |cs|, maxAttempts))
    ensures Truthful(cs, ports, EffectsUpTo(cs, ports, |cs|, maxAttempts))
  {
    LogIsTruthful(cs, ports, |cs|, maxAttempts);
    var log := EffectsUpTo(cs, ports, |cs|, maxAttempts);
    forall o: nat | o < |cs| ensures TalliesAt(ports(o), maxAttempts, o, true, log) {
      FirstPlaces(cs, |cs| - 1, o);
      OneReportPerAdmitted(cs, ports, |cs|, maxAttempts, o);
    }
  }

  /** A listing that is not admitted has no effect. */
  lemma Untouched<R>(cs: seq<Candidate>, ports: nat -> Behaviour<R>, n: nat, maxAttempts: nat)
    requires maxAttempts >= 1 && n < |cs| && !Admitted(ports(Rank(cs)[n]))
    ensures EffectsUpTo(cs, ports, n + 1, maxAttempts) == EffectsUpTo(cs, ports, n, maxAttempts)
  {
    assert EffectsUpTo(cs, ports, n, maxAttempts) + [] == EffectsUpTo(cs, ports, n, maxAttempts);
  }

  /** A listing that is passed over without a call adds its cause and nothing else. */
  lemma PassedOver<R>(cs: seq<Candidate>, ports: nat -> Behaviour<R>, causes: seq<Error>, n: nat, maxAttempts: nat, cause: Error)
    requires maxAttempts >= 1 && n < |cs| && CausesOf(cs, ports, causes, n, maxAttempts)
    requires var b := ports(Rank(cs)[n]); !Admitted(b) && !Aborts(b) && cause == if b.resolves then CIRCUIT_OPEN else b.resolveError
    ensures CausesOf(cs, ports, causes + [cause], n + 1, maxAttempts)
    ensures EffectsUpTo(cs, ports, n + 1, maxAttempts) == EffectsUpTo(cs, ports, n, maxAttempts)
  {
    Untouched(cs, ports, n, maxAttempts);
    OneMoreCause(cs, ports, causes, n, maxAttempts, cause);
  }

  /** Calling an admitted candidate and reporting the outcome. */
  method CallProvider<R>(o: nat, c: Candidate, b: Behaviour<R>, maxAttempts: nat, before: seq<Effect>)
    returns (result: CallResult<R>, log: seq<Effect>)
    requires maxAttempts >= 1 && Admitted(b)
    ensures result == Answer(b, maxAttempts) && log == before + Effects(o, c, b, maxAttempts)
    ensures ReportedProviders(log) == ReportedProviders(before) + [c.providerId]
  {
    TriedIsReported(before, o, c, b, maxAttempts);
    if b.check.HalfOpen? {
      result := b.calls(0);
      log := before + [Called(o, c)];
      assert Repeat(Called(o, c), 1) == [Called(o, c)];
    } else {
      result, log := Execute(b.calls, maxAttempts, Called(o, c), before);
    }
    log := log + [Reported(o, c, TokenOf(b.check), result.Success?)];
  }

  /** route(). Only an exception of a breaker check, or a candidate that works, ends it before every
      candidate has been tried. */
  method RouteInner<R>(candidates: seq<Candidate>, ports: nat -> Behaviour<R>, maxAttempts: nat)
    returns (routed: Routed<R>, log: seq<Effect>, ghost deciding: Option<nat>, ghost tried: nat)
    requires maxAttempts >= 1
    ensures Routes(candidates, ports, maxAttempts, deciding, routed)
    ensures Tallies(candidates, ports, maxAttempts, deciding, log) && Truthful(candidates, ports, log)
    ensures tried <= |candidates| && log == EffectsUpTo(candidates, ports, tried, maxAttempts)
  {
    var sorted := Rank(candidates);
    var attempted: seq<string>, causes: seq<Error> := [], [];
    log, deciding, tried := [], None, |candidates|;
    for i := 0 to |sorted|
      invariant CausesOf(candidates, ports, causes, i, maxAttempts) && deciding.None? && tried == |candidates|
      invariant attempted == ReportedProviders(log) && log == EffectsUpTo(candidates, ports, i, maxAttempts)
    {
      var o := sorted[i];
      var candidate, b := candidates[o], ports(o);
      if !b.resolves {
        PassedOver(candidates, ports, causes, i, maxAttempts, b.resolveError);
        causes := causes + [b.resolveError];
        continue;
      }
      if b.check.BreakerDown? {
        Untouched(candidates, ports, i, maxAttempts);
        EndsThere(candidates, ports, causes, i, maxAttempts, Propagated(b.check.error));
        deciding, tried := Some(o), i + 1;
        return Propagated(b.check.error), log, deciding, tried;
      }
      if b.check.Denied? {
        PassedOver(candidates, ports, causes, i, maxAttempts, CIRCUIT_OPEN);
        causes := causes + [CIRCUIT_OPEN];
        continue;
      }
      attempted := attempted + [candidate.providerId];
      var result;
      result, log := CallProvider(o, candidate, b, maxAttempts, log);
      if result.Success? {
        EndsThere(candidates, ports, causes, i, maxAttempts, Returned(result.response));
        deciding, tried := Some(o), i + 1;
        return Returned(result.response), log, deciding, tried;
      }
      OneMoreCause(candidates, ports, causes, i, maxAttempts, result.error);
      causes := causes + [result.error];
    }
    NoneDecides(candidates, ports, causes, maxAttempts, attempted);
    return NoAvailableProvider(attempted, causes), log, deciding, tried;
  }
}
