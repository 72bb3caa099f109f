/**
 The configuration cache: readers that fill a shared Redis cache from the repository, writers that
 upsert and then publish an invalidation, and subscribers that delete the cached entry. One step is
 one repository statement, Redis command or delivered message; any process may stop at any point.
 */
module ConfigCache {
  import opened Wrappers
  import Json

  const CACHE_TTL_MS: int := 60_000
  const GLOBAL_CONFIG_SCOPE_ID := "global"

  datatype Scope = Global | Organization | Project

  datatype Value = Null | Text(text: string)

  /** One configuration entry's identity. */
  datatype Id = Id(scope: Scope, scopeId: string, key: string) {
    /** Configuration keys never contain a colon; scope ids may. */
    predicate WellFormed() {
      ':' !in key
    }
  }

  // ---- cache keys --------------------------------------------------------------------------------

  function ScopeName(scope: Scope): string {
    match scope
    case Global => "GLOBAL"
    case Organization => "ORGANIZATION"
    case Project => "PROJECT"
  }

  function BuildCacheKey(id: Id): string {
    "cfg:" + ScopeName(id.scope) + ":" + id.scopeId + ":" + id.key
  }

  lemma CacheKeyText(scopeId: string, key: string)
    ensures BuildCacheKey(Id(Global, scopeId, key)) == "cfg:GLOBAL:" + scopeId + ":" + key
    ensures BuildCacheKey(Id(Organization, scopeId, key)) == "cfg:ORGANIZATION:" + scopeId + ":" + key
    ensures BuildCacheKey(Id(Project, scopeId, key)) == "cfg:PROJECT:" + scopeId + ":" + key
  {
    assert "cfg:" + "GLOBAL" + ":" == "cfg:GLOBAL:" && "cfg:" + "ORGANIZATION" + ":" == "cfg:ORGANIZATION:";
    assert "cfg:" + "PROJECT" + ":" == "cfg:PROJECT:";
  }

  lemma LastSegmentNotLonger(a: string, k: string, b: string, l: string)
    requires a + ":" + k == b + ":" + l && ':' !in l
    ensures |l| <= |k|
  {
    assert (a + ":" + k)[|a|] == ':';
    assert forall i :: |b| < i < |b| + 1 + |l| ==> (b + ":" + l)[i] == l[i - |b| - 1];
  }

  /** What follows the last colon is determined by the whole. */
  lemma LastSegmentIsUnique(a: string, k: string, b: string, l: string)
    requires a + ":" + k == b + ":" + l && ':' !in k && ':' !in l
    ensures a == b && k == l
  {
    LastSegmentNotLonger(a, k, b, l);
    LastSegmentNotLonger(b, l, a, k);
    assert (a + ":" + k)[..|a|] == a && (b + ":" + l)[..|b|] == b;
    assert (a + ":" + k)[|a| + 1..] == k && (b + ":" + l)[|b| + 1..] == l;
  }

  /** Distinct entries never share a cache key, even though scope ids may contain colons. */
  lemma CacheKeyIsInjective(x: Id, y: Id)
    requires x.WellFormed() && y.WellFormed() && BuildCacheKey(x) == BuildCacheKey(y)
    ensures x == y
  {
    var px, py := "cfg:" + ScopeName(x.scope) + ":", "cfg:" + ScopeName(y.scope) + ":";
    LastSegmentIsUnique(px + x.scopeId, x.key, py + y.scopeId, y.key);
    assert (px + x.scopeId)[4] == ScopeName(x.scope)[0] && (py + y.scopeId)[4] == ScopeName(y.scope)[0];
    assert (px + x.scopeId)[|px|..] == x.scopeId && (py + y.scopeId)[|py|..] == y.scopeId;
  }

  /** Not so if keys could contain colons. */
  lemma ColonsInKeysWouldCollide()
    ensures BuildCacheKey(Id(Global, "a", "b:c")) == BuildCacheKey(Id(Global, "a:b", "c"))
  {
    var id := Id(Global, "a", "b:c");
    assert BuildCacheKey(id) == "cfg:GLOBAL:a:b:c";
    assert BuildCacheKey(Id(Global, "a:b", "c")) == "cfg:GLOBAL:a:b:c";
  }

  // ---- invalidation messages ---------------------------------------------------------------------

  function EncodeInvalidation(id: Id): string {
    Json.Print(Json.Object(Message(id)))
  }

  function Message(id: Id): Json.Members {
    Json.Member("scope", Json.String(ScopeName(id.scope)),
      Json.Member("scopeId", Json.String(id.scopeId), Json.Member("key", Json.String(id.key), Json.NoMember)))
  }

  function ScopeOf(name: string): Option<Scope> {
    if name == "GLOBAL" then Some(Global)
    else if name == "ORGANIZATION" then Some(Organization)
    else if name == "PROJECT" then Some(Project)
    else None
  }

  /** A field that must be a string. */
  function TextField(members: Json.Members, name: string): Option<string> {
    match members.Find(name)
    case Some(String(text)) => Some(text)
    case _ => None
  }

  /** None stands for the error thrown on anything that is not an object with a known scope, a non-empty
      scope id and a non-empty key. */
  function DecodeInvalidation(raw: string): Option<Id> {
    match Json.Parse(raw)
    case Some(Object(members)) =>
      var scope, scopeId, key := TextField(members, "scope"), TextField(members, "scopeId"), TextField(members, "key");
      if scope.None? || ScopeOf(scope.value).None? then None
      else if scopeId.None? || scopeId.value == "" then None
      else if key.None? || key.value == "" then None
      else Some(Id(ScopeOf(scope.value).value, scopeId.value, key.value))
    case _ => None
  }

  /** A message is understood as an entry exactly if it is an object that gives a known scope by name, and a
      scope id and a key that are texts and not empty. */
  lemma DecodesExactly(raw: string, id: Id)
    ensures DecodeInvalidation(raw) == Some(id) <==>
            var j := Json.Parse(raw);
            && j.Some? && j.value.Object?
            && j.value.members.Find("scopeId") == Some(Json.String(id.scopeId)) && id.scopeId != ""
            && j.value.members.Find("key") == Some(Json.String(id.key)) && id.key != ""
            && j.value.members.Find("scope") == Some(Json.String(match id.scope
                                                                 case Global => "GLOBAL"
                                                                 case Organization => "ORGANIZATION"
                                                                 case Project => "PROJECT"))
  {
    assert |"GLOBAL"| == 6 && |"ORGANIZATION"| == 12 && |"PROJECT"| == 7;
  }

  lemma MessageFields(id: Id)
    ensures TextField(Message(id), "scope") == Some(ScopeName(id.scope)) && ScopeOf(ScopeName(id.scope)) == Some(id.scope)
    ensures TextField(Message(id), "scopeId") == Some(id.scopeId) && TextField(Message(id), "key") == Some(id.key)
  {
    var m := Message(id);
    assert |"scope"| == 5 && |"scopeId"| == 7 && |"key"| == 3;
    assert |"GLOBAL"| == 6 && |"ORGANIZATION"| == 12 && |"PROJECT"| == 7;
    var last := m.rest.rest;
    assert last.Find("scope") == None && last.Find("scopeId") == None && last.Find("key") == Some(Json.String(id.key));
    assert m.rest.Find("scope") == None && m.rest.Find("scopeId") == Some(Json.String(id.scopeId));
    assert m.rest.Find("key") == Some(Json.String(id.key));
  }

  /** A published invalidation is understood, as the entry it names, if and only if its scope id and key
      are not empty. */
  lemma InvalidationRoundTrip(id: Id)
    ensures DecodeInvalidation(EncodeInvalidation(id)) == if id.scopeId != "" && id.key != "" then Some(id) else None
  {
    var m := Message(id);
    assert Json.ValidMembers(Json.NoMember);
    assert Json.ValidMembers(m.rest.rest);
    assert Json.ValidMembers(m.rest);
    assert Json.Valid(Json.Object(m));
    Json.ParsePrint(Json.Object(m));
    MessageFields(id);
  }

  // ---- steps -------------------------------------------------------------------------------------

  /** A cached value with the instant and the step at which it was read from the repository. */
  datatype Entry = Entry(value: Value, readAt: int, readStep: nat, setAt: int)

  datatype Fill = Fill(id: Id, value: Value, readAt: int, readStep: nat)

  /** A write is outstanding until an invalidation it published has deleted the cached entry. */
  datatype Write = Write(id: Id, step: nat, published: bool, handled: bool)

  datatype System = System(now: int, step: nat, repo: map<Id, Value>, cache: map<string, Entry>,
                           writes: map<nat, Write>, fills: map<nat, Fill>)

  datatype Action =
    | Tick(ms: nat)
    | Upsert(w: nat, id: Id, value: Value)
    | Publish(w: nat)
    | Invalidate(w: nat)
    | Evict(cacheKey: string)
    | Find(reader: nat, id: Id)
    | SetCache(reader: nat)
    | Abandon(reader: nat)

  /** The effect of an action; one that is not enabled changes nothing. */
  function Effect(s: System, a: Action): System {
    match a
    case Tick(ms) => s.(now := s.now + ms)
    case Upsert(w, id, v) =>
      if id.WellFormed() && w !in s.writes
      then s.(repo := s.repo[id := v], writes := s.writes[w := Write(id, s.step, false, false)]) else s
    case Publish(w) => if w in s.writes then s.(writes := s.writes[w := s.writes[w].(published := true)]) else s
    case Invalidate(w) =>
      if w in s.writes && s.writes[w].published
      then s.(cache := s.cache - {BuildCacheKey(s.writes[w].id)}, writes := s.writes[w := s.writes[w].(handled := true)]) else s
    // DEL of a corrupted entry, expiry or eviction by Redis
    case Evict(cacheKey) => s.(cache := s.cache - {cacheKey})
    case Find(r, id) =>
      if id.WellFormed() && id in s.repo then s.(fills := s.fills[r := Fill(id, s.repo[id], s.now, s.step)]) else s
    case SetCache(r) =>
      if r in s.fills then
        var f := s.fills[r];
        s.(cache := s.cache[BuildCacheKey(f.id) := Entry(f.value, f.readAt, f.readStep, s.now)], fills := s.fills - {r})
      else s
    case Abandon(r) => s.(fills := s.fills - {r})
  }

  function Next(s: System, a: Action): System {
    Effect(s, a).(step := s.step + 1)
  }

  /** GET: an expired entry is gone, and a cached JSON null reads as a miss. */
  function Get(s: System, id: Id): Option<Value> {
    var k := BuildCacheKey(id);
    if k in s.cache && s.now < s.cache[k].setAt + CACHE_TTL_MS && s.cache[k].value != Null then Some(s.cache[k].value) else None
  }

  function Stored(s: System, id: Id): Option<Value> {
    if id in s.repo then Some(s.repo[id]) else None
  }

  ghost predicate Init(s: System) {
    s.cache == map[] && s.writes == map[] && s.fills == map[]
  }

  datatype Trace = Begin | Then(before: Trace, last: Action)

  function Play(s: System, t: Trace): System {
    match t
    case Begin => s
    case Then(before, a) => Next(Play(s, before), a)
  }

  ghost predicate Outstanding(s: System, id: Id) {
    exists w :: w in s.writes && s.writes[w].id == id && !s.writes[w].handled
  }

  /** A fill straddles a write: it read before the write and sets the cache after the write's
      invalidation has been handled. */
  ghost predicate Straddles(s: System, a: Action, id: Id) {
    && a.SetCache? && a.reader in s.fills && s.fills[a.reader].id == id
    && exists w :: w in s.writes && Missed(id, s.fills[a.reader].readStep, s.writes[w]) && s.writes[w].handled
  }

  /** The write came after the read and on the same entry. */
  predicate Missed(id: Id, readStep: nat, w: Write) {
    w.id == id && w.step > readStep
  }

  /** No fill of this entry straddles a write of it. */
  ghost predicate NoFillStraddles(s: System, t: Trace, id: Id) {
    t.Then? ==> NoFillStraddles(s, t.before, id) && !Straddles(Play(s, t.before), t.last, id)
  }

  // ---- coherence ---------------------------------------------------------------------------------

  /** A value read at some step is the repository's unless a later write changed the entry. */
  ghost predicate CurrentUnlessMissed(s: System, id: Id, value: Value, readStep: nat) {
    && readStep < s.step
    && ((exists w :: w in s.writes && Missed(id, readStep, s.writes[w])) || Stored(s, id) == Some(value))
  }

  ghost predicate Inv(s: System, id: Id) {
    && (forall w :: w in s.writes ==> s.writes[w].step < s.step)
    && (forall r :: r in s.fills ==>
          && s.fills[r].id.WellFormed()
          && (s.fills[r].id == id ==> CurrentUnlessMissed(s, id, s.fills[r].value, s.fills[r].readStep)))
    && EntryInv(s, id)
  }

  ghost predicate EntryInv(s: System, id: Id) {
    id.WellFormed() && BuildCacheKey(id) in s.cache ==>
      var e := s.cache[BuildCacheKey(id)];
      CurrentUnlessMissed(s, id, e.value, e.readStep) && NoneHandled(s, id, e.readStep)
  }

  ghost predicate NoneHandled(s: System, id: Id, readStep: nat) {
    forall w :: w in s.writes && Missed(id, readStep, s.writes[w]) ==> !s.writes[w].handled
  }

  lemma CurrentStep(s: System, a: Action, id: Id, value: Value, readStep: nat)
    requires CurrentUnlessMissed(s, id, value, readStep)
    ensures CurrentUnlessMissed(Next(s, a), id, value, readStep)
  {
    var s' := Next(s, a);
    if w :| w in s.writes && Missed(id, readStep, s.writes[w]) {
      assert w in s'.writes && Missed(id, readStep, s'.writes[w]);
    } else if a.Upsert? && Stored(s', id) != Stored(s, id) {
      assert Missed(id, readStep, s'.writes[a.w]);
    }
  }

  lemma HandledStep(s: System, a: Action, id: Id, readStep: nat)
    requires NoneHandled(s, id, readStep) && BuildCacheKey(id) in Next(s, a).cache
    requires !a.SetCache? || (a.reader in s.fills ==> BuildCacheKey(s.fills[a.reader].id) != BuildCacheKey(id))
    ensures NoneHandled(Next(s, a), id, readStep)
  {
    var s' := Next(s, a);
    forall w | w in s'.writes && Missed(id, readStep, s'.writes[w]) ensures !s'.writes[w].handled {
      if w in s.writes { assert Missed(id, readStep, s.writes[w]); }
    }
  }

  lemma EntryStep(s: System, a: Action, id: Id)
    requires Inv(s, id) && !Straddles(s, a, id)
    ensures EntryInv(Next(s, a), id)
  {
    var s', k := Next(s, a), BuildCacheKey(id);
    if id.WellFormed() && k in s'.cache {
      if a.SetCache? && a.reader in s.fills && BuildCacheKey(s.fills[a.reader].id) == k {
        CacheKeyIsInjective(id, s.fills[a.reader].id);
        CurrentStep(s, a, id, s.fills[a.reader].value, s.fills[a.reader].readStep);
      } else {
        CurrentStep(s, a, id, s.cache[k].value, s.cache[k].readStep);
        HandledStep(s, a, id, s.cache[k].readStep);
      }
    }
  }

  lemma NextKeepsInv(s: System, a: Action, id: Id)
    requires Inv(s, id) && !Straddles(s, a, id)
    ensures Inv(Next(s, a), id)
  {
    var s' := Next(s, a);
    forall r | r in s'.fills
      ensures s'.fills[r].id.WellFormed()
      ensures s'.fills[r].id == id ==> CurrentUnlessMissed(s', id, s'.fills[r].value, s'.fills[r].readStep)
    {
      if r in s.fills && s'.fills[r] == s.fills[r] && s.fills[r].id == id {
        CurrentStep(s, a, id, s.fills[r].value, s.fills[r].readStep);
      }
    }
    EntryStep(s, a, id);
  }

  lemma {:induction false} RunKeepsInv(s: System, t: Trace, id: Id)
    requires Init(s) && NoFillStraddles(s, t, id)
    ensures Inv(Play(s, t), id)
  {
    if t.Then? {
      RunKeepsInv(s, t.before, id);
      NextKeepsInv(Play(s, t.before), t.last, id);
    }
  }

  /** In a run in which no fill of an entry straddles a write of it and that write's invalidation, a
      cached value is the repository's or a write of that entry is still outstanding. */
  lemma CachedIsCurrentOrOutstanding(s: System, t: Trace, id: Id)
    requires Init(s) && NoFillStraddles(s, t, id) && id.WellFormed()
    ensures var m := Play(s, t); Get(m, id).Some? ==> Stored(m, id) == Get(m, id) || Outstanding(m, id)
  {
    RunKeepsInv(s, t, id);
    var m := Play(s, t);
    if Get(m, id).Some? && Stored(m, id) != Get(m, id) {
      var e := m.cache[BuildCacheKey(id)];
      var w :| w in m.writes && Missed(id, e.readStep, m.writes[w]);
    }
  }

  /** Not so without the premise: a fill that straddles a write leaves the old value cached with nothing
      outstanding that would remove it. */
  function StraddlingFill(id: Id, value: Value): Trace {
    Then(Then(Then(Then(Then(Begin, Find(0, id)), Upsert(0, id, value)), Publish(0)), Invalidate(0)), SetCache(0))
  }

  lemma StraddlingFillGoesStale(s: System, id: Id, before: Value, after: Value)
    requires Init(s) && id.WellFormed() && Stored(s, id) == Some(before) && before != Null && after != before
    ensures var m := Play(s, StraddlingFill(id, after));
            Get(m, id) == Some(before) && Stored(m, id) == Some(after) && forall other :: !Outstanding(m, other)
  {
    var t := StraddlingFill(id, after);
    var found := Next(s, Find(0, id));
    var written := Next(found, Upsert(0, id, after));
    var published := Next(written, Publish(0));
    var handled := Next(published, Invalidate(0));
    assert handled.writes == map[0 := Write(id, s.step + 1, true, true)];
    assert Play(s, t.before.before.before.before) == found;
    assert Play(s, t.before.before) == published;
    assert Play(s, t) == Next(handled, SetCache(0));
  }

  // ---- staleness ---------------------------------------------------------------------------------

  /** Some state of the run had this value in the repository at this time. */
  ghost predicate WasStored(s: System, t: Trace, id: Id, value: Value, at: int) {
    (Play(s, t).now == at && Stored(Play(s, t), id) == Some(value)) || (t.Then? && WasStored(s, t.before, id, value, at))
  }

  /** Everything held in a fill or in the cache was once stored. */
  ghost predicate HistoryInv(s: System, t: Trace) {
    (forall r :: FilledOnce(s, t, r)) && (forall id :: CachedOnce(s, t, id))
  }

  ghost predicate FilledOnce(s: System, t: Trace, r: nat) {
    var m := Play(s, t);
    r in m.fills ==>
      m.fills[r].id.WellFormed() && m.fills[r].readAt <= m.now && WasStored(s, t, m.fills[r].id, m.fills[r].value, m.fills[r].readAt)
  }

  ghost predicate CachedOnce(s: System, t: Trace, id: Id) {
    var m, k := Play(s, t), BuildCacheKey(id);
    id.WellFormed() && k in m.cache ==>
      m.cache[k].readAt <= m.cache[k].setAt <= m.now && WasStored(s, t, id, m.cache[k].value, m.cache[k].readAt)
  }

  lemma FillStep(s: System, t: Trace, r: nat)
    requires t.Then? && HistoryInv(s, t.before)
    ensures FilledOnce(s, t, r)
  {
    assert FilledOnce(s, t.before, r);
  }

  lemma CacheStep(s: System, t: Trace, id: Id)
    requires t.Then? && HistoryInv(s, t.before)
    ensures CachedOnce(s, t, id)
  {
    var m, k := Play(s, t.before), BuildCacheKey(id);
    assert CachedOnce(s, t.before, id);
    if t.last.SetCache? { assert FilledOnce(s, t.before, t.last.reader); }
    if t.last.SetCache? && t.last.reader in m.fills && id.WellFormed() && BuildCacheKey(m.fills[t.last.reader].id) == k {
      CacheKeyIsInjective(id, m.fills[t.last.reader].id);
    }
  }

  lemma {:induction false} RunKeepsHistory(s: System, t: Trace)
    requires Init(s)
    ensures HistoryInv(s, t)
  {
    if t.Then? {
      RunKeepsHistory(s, t.before);
      forall r ensures FilledOnce(s, t, r) { FillStep(s, t, r); }
      forall id ensures CachedOnce(s, t, id) { CacheStep(s, t, id); }
    }
  }

  /** Every fill of the run set the cache at most `delay` after it had read the repository. */
  ghost predicate FillsWithin(s: System, t: Trace, delay: nat) {
    t.Then? ==> FillsWithin(s, t.before, delay) && SetsWithin(Play(s, t.before), t.last, delay)
  }

  predicate SetsWithin(m: System, a: Action, delay: nat) {
    a.SetCache? && a.reader in m.fills ==> m.now - m.fills[a.reader].readAt <= delay
  }

  lemma {:induction false} EntriesWithin(s: System, t: Trace, delay: nat)
    requires Init(s) && FillsWithin(s, t, delay)
    ensures forall k :: k in Play(s, t).cache ==> Play(s, t).cache[k].setAt - Play(s, t).cache[k].readAt <= delay
  {
    if t.Then? { EntriesWithin(s, t.before, delay); }
  }

  /** In every run at all, a value in the cache whose TTL has not run was the repository's at an instant
      less than the TTL plus the slowest fill's delay between reading and caching before now. */
  lemma StalenessBound(s: System, t: Trace, id: Id, delay: nat)
    requires Init(s) && FillsWithin(s, t, delay) && id.WellFormed() && BuildCacheKey(id) in Play(s, t).cache
    requires Play(s, t).now < Play(s, t).cache[BuildCacheKey(id)].setAt + CACHE_TTL_MS
    ensures var m, e := Play(s, t), Play(s, t).cache[BuildCacheKey(id)];
            WasStored(s, t, id, e.value, e.readAt) && 0 <= m.now - e.readAt < CACHE_TTL_MS + delay
  {
    RunKeepsHistory(s, t);
    EntriesWithin(s, t, delay);
    assert CachedOnce(s, t, id);
  }

  // ---- the services as written -------------------------------------------------------------------

  function OutstandingIds(s: System): set<Id> {
    set w | w in s.writes && !s.writes[w].handled :: s.writes[w].id
  }

  predicate ByReader(a: Action, r: nat) {
    (a.Find? || a.SetCache? || a.Abandon?) && a.reader == r
  }

  /** A step that changes an entry leaves a write of it outstanding; writes are never forgotten. */
  lemma WriteStep(s: System, a: Action)
    ensures forall id :: id !in OutstandingIds(Next(s, a)) ==> Stored(Next(s, a), id) == Stored(s, id)
    ensures forall w :: w in s.writes ==>
              && w in Next(s, a).writes && Next(s, a).writes[w].id == s.writes[w].id
              && (s.writes[w].published ==> Next(s, a).writes[w].published)
              && (s.writes[w].handled ==> Next(s, a).writes[w].handled)
    ensures forall r :: !ByReader(a, r) && r in s.fills ==> r in Next(s, a).fills && Next(s, a).fills[r] == s.fills[r]
  {
    var s' := Next(s, a);
    if a.Upsert? && a.w in s'.writes {
      assert !s'.writes[a.w].handled ==> s'.writes[a.w].id in OutstandingIds(s');
    }
  }

  /** One service instance. Before each of its own steps everyone else may take any number of steps;
      `others` is arbitrary. `disturbed` collects every entry of which a write was outstanding at any
      instant of the call. */
  class PostgresConfigurationService {
    const others: nat -> seq<Action>
    const start: System
    const me: nat
    var sys: System
    var turn: nat
    var subscribers: map<string, seq<nat>>
    var notified: seq<(nat, Value)>
    ghost var trace: Trace
    ghost var disturbed: set<Id>

    ghost predicate Ok()
      reads this
    {
      Init(start) && sys == Play(start, trace) && OutstandingIds(sys) <= disturbed
    }

    ghost predicate NoStraddle(id: Id)
      reads this
    {
      NoFillStraddles(start, trace, id)
    }

    /** No write of the entry was outstanding since `disturbed` was last reset, which every call does when
        it begins, and no fill of it straddled a write. */
    ghost predicate Calm(id: Id)
      reads this
    {
      NoStraddle(id) && id !in disturbed
    }

    /** Time passes for the entries that were not disturbed without changing them. */
    twostate predicate Continues()
      reads this
    {
      && old(disturbed) <= disturbed && (forall id :: NoStraddle(id) ==> old(NoStraddle(id)))
      && (forall id :: id !in disturbed ==> Stored(sys, id) == Stored(old(sys), id))
      && (forall w :: w in old(sys).writes ==>
            && w in sys.writes && sys.writes[w].id == old(sys).writes[w].id
            && (old(sys).writes[w].published ==> sys.writes[w].published)
            && (old(sys).writes[w].handled ==> sys.writes[w].handled))
    }

    constructor (start: System, me: nat, others: nat -> seq<Action>)
      requires Init(start)
      ensures Ok() && NoRepeats() && sys == start && subscribers == map[] && notified == []
    {
      this.start, this.me, this.others, this.sys, this.turn := start, me, others, start, 0;
      trace, disturbed, subscribers, notified := Begin, {}, map[], [];
    }

    method Take(a: Action)
      requires Ok()
      modifies this`sys, this`trace, this`disturbed
      ensures Ok() && Continues() && sys == Next(old(sys), a)
    {
      WriteStep(sys, a);
      sys, trace := Next(sys, a), Then(trace, a);
      disturbed := disturbed + OutstandingIds(sys);
    }

    method Others()
      requires Ok()
      modifies this`sys, this`turn, this`trace, this`disturbed
      ensures Ok() && Continues()
      ensures me in old(sys).fills ==> me in sys.fills && sys.fills[me] == old(sys).fills[me]
    {
      var acts := others(turn);
      turn := turn + 1;
      for k := 0 to |acts|
        invariant Ok() && Continues()
        invariant me in old(sys).fills ==> me in sys.fills && sys.fills[me] == old(sys).fills[me]
      {
        if !ByReader(acts[k], me) {
          WriteStep(sys, acts[k]);
          Take(acts[k]);
        }
      }
    }

    /** The repository held this value of the entry at `readAt`, which is less than the TTL plus the delay
        of the slowest fill ago. */
    ghost predicate Recent(id: Id, value: Value, readAt: int)
      reads this
    {
      && WasStored(start, trace, id, value, readAt) && readAt <= sys.now
      && forall delay :: FillsWithin(start, trace, delay) ==> sys.now - readAt < CACHE_TTL_MS + delay
    }

    /** A value other than null that was cached less than a minute ago. */
    static ghost function Cached(s: System, id: Id): Option<Value> {
      var k := BuildCacheKey(id);
      if k in s.cache && s.now < s.cache[k].setAt + 60_000 && s.cache[k].value != Null then Some(s.cache[k].value) else None
    }

    /** The cached entry that answers a call, served from the cache or just put there. */
    lemma CachedIsRecent(id: Id)
      requires Ok() && id.WellFormed() && BuildCacheKey(id) in sys.cache
      requires sys.now < sys.cache[BuildCacheKey(id)].setAt + CACHE_TTL_MS
      ensures var e := sys.cache[BuildCacheKey(id)]; Recent(id, e.value, e.readAt)
    {
      RunKeepsHistory(start, trace);
      assert CachedOnce(start, trace, id);
      forall delay | FillsWithin(start, trace, delay)
        ensures sys.now - sys.cache[BuildCacheKey(id)].readAt < CACHE_TTL_MS + delay
      {
        StalenessBound(start, trace, id, delay);
      }
    }

    /** With no write of the entry outstanding during the call, and in a run without straddling fills,
        the answer is the repository's; in any run at all it is a recent one. A value that the cache holds
        (`met` is the state in which it is asked) is the answer, at once; any other answer is put there.
        None stands for undefined. */
    method TryResolve(id: Id) returns (value: Option<Value>, ghost readAt: int, ghost met: System)
      requires Ok() && id.WellFormed()
      modifies this`sys, this`turn, this`trace, this`disturbed
      ensures Ok() && Continues()
      ensures Calm(id) ==> value == Stored(sys, id)
      ensures value.Some? ==> Recent(id, value.value, readAt)
      ensures Cached(met, id).Some? ==> value == Cached(met, id) && sys == met
      ensures Cached(met, id).None? && value.Some? ==>
                var k := BuildCacheKey(id); k in sys.cache && sys.cache[k].value == value.value && sys.cache[k].setAt == sys.now
    {
      Others();
      met := sys;
      var cached := Get(sys, id);
      if cached.Some? {
        if NoStraddle(id) { CachedIsCurrentOrOutstanding(start, trace, id); }
        CachedIsRecent(id);
        return cached, sys.cache[BuildCacheKey(id)].readAt, met;
      }
      Others();
      var record := Stored(sys, id);
      if record.None? {
        return None, sys.now, met;
      }
      readAt := sys.now;
      Take(Find(me, id));
      Others();
      Take(SetCache(me));
      CachedIsRecent(id);
      return record, readAt, met;
    }

    /** With no write of the three entries outstanding during the call, and in a run without straddling
        fills, the answer is the plain project, organization, global lookup; in any run at all it is a
        recent value of one of the three. None stands for the ConfigurationNotFoundError thrown. */
    method GetWithFallback(key: string, projectId: string, organizationId: string)
      returns (value: Option<Value>, ghost from: Id, ghost readAt: int)
      requires Ok() && ':' !in key
      modifies this`sys, this`turn, this`trace, this`disturbed
      ensures Ok()
      ensures (Calm(Id(Project, projectId, key)) && Calm(Id(Organization, organizationId, key))
               && Calm(Id(Global, GLOBAL_CONFIG_SCOPE_ID, key))) ==>
                var ofProject, ofOrganization := Stored(sys, Id(Project, projectId, key)), Stored(sys, Id(Organization, organizationId, key));
                value == if projectId != "" && ofProject.Some? then ofProject
                         else if organizationId != "" && ofOrganization.Some? then ofOrganization
                         else Stored(sys, Id(Global, GLOBAL_CONFIG_SCOPE_ID, key))
      ensures from in {Id(Project, projectId, key), Id(Organization, organizationId, key), Id(Global, GLOBAL_CONFIG_SCOPE_ID, key)}
      ensures value.Some? ==> Recent(from, value.value, readAt)
    {
      ghost var met;
      disturbed := OutstandingIds(sys);
      if projectId != "" {
        from := Id(Project, projectId, key);
        value, readAt, met := TryResolve(Id(Project, projectId, key));
        if value.Some? {
          return;
        }
      }
      if organizationId != "" {
        from := Id(Organization, organizationId, key);
        value, readAt, met := TryResolve(Id(Organization, organizationId, key));
        if value.Some? {
          return;
        }
      }
      from := Id(Global, GLOBAL_CONFIG_SCOPE_ID, key);
      value, readAt, met := TryResolve(Id(Global, GLOBAL_CONFIG_SCOPE_ID, key));
    }

    /** A handler is registered once for a key however often it subscribes. */
    ghost predicate NoRepeats()
      reads this
    {
      forall key :: Distinct(Handlers(subscribers, key))
    }

    /** The handler is registered, behind those already there; nobody else's registration changes. */
    method Subscribe(key: string, handler: nat)
      requires ':' !in key && NoRepeats()
      modifies this`subscribers
      ensures NoRepeats() && old(Handlers(subscribers, key)) <= Handlers(subscribers, key)
      ensures forall h :: h in Handlers(subscribers, key) <==> h in old(Handlers(subscribers, key)) || h == handler
      ensures forall other :: other != key ==> Handlers(subscribers, other) == old(Handlers(subscribers, other))
    {
      var handlers := Handlers(subscribers, key);
      assert Distinct(handlers);
      if handler !in handlers {
        handlers := handlers + [handler];
      }
      subscribers := subscribers[key := handlers];
      forall k ensures Distinct(Handlers(subscribers, k)) {
        assert old(Distinct(Handlers(subscribers, k)));
      }
    }

    static predicate Distinct(handlers: seq<nat>) {
      forall i, j :: 0 <= i < j < |handlers| ==> handlers[i] != handlers[j]
    }

    static function Handlers(subscribers: map<string, seq<nat>>, key: string): seq<nat> {
      if key in subscribers then subscribers[key] else []
    }

    /** A message that does not decode changes nothing here. One that does evicts the entry it names, which
        settles the write that published it, and tells every subscriber of its key, in order, the global
        value if there is one. */
    method HandleInvalidation(raw: string, w: nat) returns (message: Option<Id>, ghost deleted: System, value: Option<Value>)
      requires Ok() && forall key :: key in subscribers ==> ':' !in key
      requires w in sys.writes ==> sys.writes[w].published && raw == EncodeInvalidation(sys.writes[w].id)
      modifies this`sys, this`turn, this`trace, this`disturbed, this`notified
      ensures Ok() && message == DecodeInvalidation(raw)
      ensures message.None? ==> notified == old(notified) && sys == old(sys)
      ensures message.Some? ==> BuildCacheKey(message.value) !in deleted.cache
      ensures message.Some? && w in old(sys).writes ==> w in deleted.writes && deleted.writes[w].handled && deleted.writes[w].id == message.value
      ensures message.Some? ==>
                notified == if value.None? then old(notified)
                            else old(notified) + Calls(Handlers(subscribers, message.value.key), value.value)
      ensures message.Some? && Handlers(subscribers, message.value.key) != [] && Calm(Id(Global, GLOBAL_CONFIG_SCOPE_ID, message.value.key)) ==>
                value == Stored(sys, Id(Global, GLOBAL_CONFIG_SCOPE_ID, message.value.key))
    {
      message, deleted, value := DecodeInvalidation(raw), sys, None;
      if message.None? {
        return;
      }
      if w in sys.writes {
        InvalidationRoundTrip(sys.writes[w].id);
      }
      deleted := Delete(message.value, w);
      if Handlers(subscribers, message.value.key) == [] {
        return;
      }
      disturbed := OutstandingIds(sys);
      ghost var readAt, met;
      value, readAt, met := TryResolve(Id(Global, GLOBAL_CONFIG_SCOPE_ID, message.value.key));
      if value.Some? {
        Notify(Handlers(subscribers, message.value.key), value.value);
      }
    }

    method Delete(id: Id, w: nat) returns (ghost deleted: System)
      requires Ok() && (w in sys.writes ==> sys.writes[w].published && sys.writes[w].id == id)
      modifies this`sys, this`turn, this`trace, this`disturbed
      ensures Ok() && Continues() && BuildCacheKey(id) !in deleted.cache
      ensures w in old(sys).writes ==> w in deleted.writes && deleted.writes[w].handled && deleted.writes[w].id == id
    {
      var known := w in sys.writes;
      Others();
      Take(if known then Invalidate(w) else Evict(BuildCacheKey(id)));
      deleted := sys;
    }

    method Notify(handlers: seq<nat>, value: Value)
      modifies this`notified
      ensures notified == old(notified) + Calls(handlers, value)
    {
      for i := 0 to |handlers|
        invariant notified == old(notified) + Calls(handlers[..i], value)
      {
        notified := notified + [(handlers[i], value)];
        assert Calls(handlers[..i + 1], value) == Calls(handlers[..i], value) + [(handlers[i], value)];
      }
      assert handlers[..|handlers|] == handlers;
    }

    static function Calls(handlers: seq<nat>, value: Value): seq<(nat, Value)> {
      seq(|handlers|, i requires 0 <= i < |handlers| => (handlers[i], value))
    }
  }

  /** The writer: the repository first, then the invalidation, with any number of steps of others
      between. Until the invalidation is handled the write is outstanding. */
  class ConfigurationWriterService {
    const others: nat -> seq<Action>
    const start: System
    const publishes: bool
    var sys: System
    var turn: nat
    ghost var trace: Trace

    ghost predicate Ok()
      reads this
    {
      Init(start) && sys == Play(start, trace)
    }

    constructor (start: System, others: nat -> seq<Action>, publishes: bool)
      requires Init(start)
      ensures Ok() && sys == start
    {
      this.start, this.others, this.publishes, this.sys, this.turn, this.trace := start, others, publishes, start, 0, Begin;
    }

    method Others(w: nat)
      requires Ok()
      modifies this
      ensures Ok() && (w in sys.writes <==> w in old(sys).writes)
      ensures w in sys.writes ==> sys.writes[w] == old(sys).writes[w] || old(sys).writes[w].published
      ensures w in sys.writes ==> sys.writes[w].id == old(sys).writes[w].id && (old(sys).writes[w].published ==> sys.writes[w].published)
    {
      var acts := others(turn);
      turn := turn + 1;
      for k := 0 to |acts|
        invariant Ok() && (w in sys.writes <==> w in old(sys).writes)
        invariant w in sys.writes ==> sys.writes[w] == old(sys).writes[w] || old(sys).writes[w].published
        invariant w in sys.writes ==> sys.writes[w].id == old(sys).writes[w].id && (old(sys).writes[w].published ==> sys.writes[w].published)
      {
        if (acts[k].Upsert? || acts[k].Publish?) && acts[k].w == w {
          continue;
        }
        sys, trace := Next(sys, acts[k]), Then(trace, acts[k]);
      }
    }

    /** `written` is the state right after the upsert: it holds the new value, and from then on the write
        is outstanding until it has been published and its invalidation handled. */
    method Set(w: nat, id: Id, value: Value) returns (ghost written: System)
      requires Ok() && id.WellFormed() && w !in sys.writes
      modifies this
      ensures Ok() && Stored(written, id) == Some(value) && Outstanding(written, id)
      ensures w in sys.writes && sys.writes[w].id == id && sys.writes[w].published == publishes
      ensures !publishes ==> Outstanding(sys, id)
    {
      Others(w);
      sys, trace := Next(sys, Upsert(w, id, value)), Then(trace, Upsert(w, id, value));
      written := sys;
      assert w in sys.writes && !sys.writes[w].handled;
      Others(w);
      if publishes {
        sys, trace := Next(sys, Publish(w)), Then(trace, Publish(w));
      }
    }
  }
}
