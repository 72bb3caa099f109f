/**
 Keyset pagination of the append-only audit log: pages in descending (createdAt, id) order, each
 starting behind the last entry of the page before, while other processes keep appending.
 */
module Pagination {
  import opened Wrappers

  datatype Cursor = Cursor(createdAt: int, id: nat)

  /** Ids are unique, so the key of an entry identifies it. */
  datatype Entry = Entry(organization: nat, key: Cursor, action: string)

  datatype Page = Page(entries: seq<Entry>, nextCursor: Option<Cursor>)

  /** The WHERE clause of a page behind c: createdAt < c.createdAt, or equal and id < c.id. */
  predicate Behind(k: Cursor, c: Cursor) {
    k.createdAt < c.createdAt || (k.createdAt == c.createdAt && k.id < c.id)
  }

  predicate Matches(e: Entry, organization: nat, cursor: Option<Cursor>) {
    e.organization == organization && (cursor.None? || Behind(e.key, cursor.value))
  }

  predicate Descending(es: seq<Entry>) {
    forall i, j :: 0 <= i < j < |es| ==> Behind(es[j].key, es[i].key)
  }

  predicate DistinctKeys(log: seq<Entry>) {
    forall i, j :: 0 <= i < j < |log| ==> log[i].key != log[j].key
  }

  // ---- one query ---------------------------------------------------------------------------------

  function Insert(e: Entry, es: seq<Entry>): seq<Entry> {
    if es == [] || Behind(es[0].key, e.key) then [e] + es else [es[0]] + Insert(e, es[1..])
  }

  /** The matching rows, ORDER BY createdAt DESC, id DESC. */
  function Ordered(log: seq<Entry>, organization: nat, cursor: Option<Cursor>): seq<Entry> {
    if log == [] then []
    else
      var rest := Ordered(log[1..], organization, cursor);
      if Matches(log[0], organization, cursor) then Insert(log[0], rest) else rest
  }

  lemma {:induction false} InsertKeeps(e: Entry, es: seq<Entry>)
    ensures forall x :: x in Insert(e, es) <==> x == e || x in es
  {
    if es != [] && !Behind(es[0].key, e.key) { InsertKeeps(e, es[1..]); }
  }

  lemma {:induction false} InsertDescending(e: Entry, es: seq<Entry>)
    requires Descending(es) && forall x :: x in es ==> x.key != e.key
    ensures Descending(Insert(e, es))
  {
    if es != [] && !Behind(es[0].key, e.key) {
      InsertDescending(e, es[1..]);
      InsertKeeps(e, es[1..]);
      var tail := Insert(e, es[1..]);
      forall j | 0 <= j < |tail| ensures Behind(tail[j].key, es[0].key) {
        assert tail[j] in tail;
        if tail[j] != e {
          var k :| 0 <= k < |es[1..]| && es[1..][k] == tail[j];
        }
      }
    }
  }

  /** The query returns exactly the matching rows, each once, newest first. */
  lemma {:induction false} OrderedIsTheQuery(log: seq<Entry>, organization: nat, cursor: Option<Cursor>)
    requires DistinctKeys(log)
    ensures var rows := Ordered(log, organization, cursor);
            Descending(rows) && forall e :: e in rows <==> e in log && Matches(e, organization, cursor)
  {
    if log != [] {
      OrderedIsTheQuery(log[1..], organization, cursor);
      var rest := Ordered(log[1..], organization, cursor);
      InsertKeeps(log[0], rest);
      forall e | e in rest ensures e.key != log[0].key {
        var k :| 0 <= k < |log[1..]| && log[1..][k] == e;
        assert log[k + 1] == e;
      }
      InsertDescending(log[0], rest);
      assert log == [log[0]] + log[1..];
    }
  }

  /** The first `limit` matching rows, and where to go on if there are more. */
  function List(log: seq<Entry>, organization: nat, cursor: Option<Cursor>, limit: nat): (page: Page)
    ensures page.nextCursor.Some? ==> |page.entries| == limit
  {
    var all := Ordered(log, organization, cursor);
    if |all| <= limit then Page(all, None)
    else Page(all[..limit], if limit == 0 then None else Some(all[limit - 1].key))
  }

  /** A query with a LIMIT. */
  function FindMany(log: seq<Entry>, organization: nat, cursor: Option<Cursor>, take: nat): seq<Entry> {
    var all := Ordered(log, organization, cursor);
    if |all| > take then all[..take] else all
  }

  function Keys(es: seq<Entry>): set<Entry> {
    set e | e in es
  }

  lemma {:induction false} SizeOfKeys(es: seq<Entry>)
    requires Descending(es)
    ensures |Keys(es)| == |es|
  {
    if es != [] {
      SizeOfKeys(es[1..]);
      assert Keys(es) == {es[0]} + Keys(es[1..]);
      assert es[0] !in Keys(es[1..]);
    }
  }

  function Matching(log: seq<Entry>, organization: nat, cursor: Option<Cursor>): set<Entry> {
    set e | e in log && Matches(e, organization, cursor)
  }

  /** A page holds as many matching rows as there are, up to the limit, and has a cursor exactly if there
      are more. */
  lemma PageIsFilled(log: seq<Entry>, organization: nat, cursor: Option<Cursor>, limit: nat)
    requires DistinctKeys(log)
    ensures var page, n := List(log, organization, cursor, limit), |Matching(log, organization, cursor)|;
            |page.entries| == (if n < limit then n else limit) && (page.nextCursor.Some? <==> limit >= 1 && n > limit)
  {
    OrderedIsTheQuery(log, organization, cursor);
    SizeOfKeys(Ordered(log, organization, cursor));
    assert Keys(Ordered(log, organization, cursor)) == Matching(log, organization, cursor);
  }

  /** A page holds the newest matching rows; its cursor is its last row, and everything that matches and
      is not in the page lies behind it. Without a next cursor nothing is left out. */
  lemma PageSplitsTheMatches(log: seq<Entry>, organization: nat, cursor: Option<Cursor>, limit: nat)
    requires DistinctKeys(log) && limit >= 1
    ensures var page := List(log, organization, cursor, limit);
            && Descending(page.entries)
            && (forall e :: e in page.entries ==> e in log && Matches(e, organization, cursor))
            && (page.nextCursor.None? ==> forall e :: e in log && Matches(e, organization, cursor) ==> e in page.entries)
            && (page.nextCursor.Some? ==>
                  && (forall e :: e in page.entries ==> !Behind(e.key, page.nextCursor.value))
                  && (cursor.Some? ==> Behind(page.nextCursor.value, cursor.value))
                  && forall e :: e in log && Matches(e, organization, cursor) ==>
                       e in page.entries || Behind(e.key, page.nextCursor.value))
  {
    var all, page := Ordered(log, organization, cursor), List(log, organization, cursor, limit);
    OrderedIsTheQuery(log, organization, cursor);
    if page.nextCursor.Some? {
      assert page.entries == all[..limit];
      var last := all[limit - 1];
      assert last in all;
      forall e | e in log && Matches(e, organization, cursor) ensures e in page.entries || Behind(e.key, last.key) {
        var k :| 0 <= k < |all| && all[k] == e;
        if k < limit { assert page.entries[k] == e; }
      }
      forall e | e in page.entries ensures !Behind(e.key, last.key) {
        var k :| 0 <= k < limit && all[k] == e;
      }
    } else {
      assert page.entries == all;
    }
  }

  /** A limit of zero ends the listing at once, whatever the log holds. */
  lemma ZeroLimitShowsNothing(log: seq<Entry>, organization: nat, cursor: Option<Cursor>)
    ensures List(log, organization, cursor, 0) == Page([], None)
  {
  }

  // ---- following the cursor ----------------------------------------------------------------------

  /** The log as page 0, 1, ... finds it: entries are only ever appended. */
  ghost predicate AppendOnly(logs: nat -> seq<Entry>) {
    forall n: nat :: Appends(logs, n)
  }

  predicate Appends(logs: nat -> seq<Entry>, n: nat) {
    logs(n) <= logs(n + 1) && DistinctKeys(logs(n)) && DistinctKeys(logs(n + 1))
  }

  datatype Position = Reading(cursor: Option<Cursor>) | Finished

  /** What a client at position p is shown of the log. */
  function PageFrom(log: seq<Entry>, organization: nat, limit: nat, p: Position): Page {
    match p
    case Reading(cursor) => List(log, organization, cursor, limit)
    case Finished => Page([], None)
  }

  function After(page: Page): Position {
    if page.nextCursor.Some? then Reading(page.nextCursor) else Finished
  }

  function PageAt(logs: nat -> seq<Entry>, organization: nat, limit: nat, n: nat, p: Position): Page {
    PageFrom(logs(n), organization, limit, p)
  }

  /** Where a client following nextCursor stands before page n, and what it has seen. */
  function PositionAt(logs: nat -> seq<Entry>, organization: nat, limit: nat, n: nat): Position {
    if n == 0 then Reading(None)
    else
      After(PageAt(logs, organization, limit, n - 1, PositionAt(logs, organization, limit, n - 1)))
  }

  function Visited(logs: nat -> seq<Entry>, organization: nat, limit: nat, n: nat): seq<Entry> {
    if n == 0 then []
    else Visited(logs, organization, limit, n - 1)
         + PageAt(logs, organization, limit, n - 1, PositionAt(logs, organization, limit, n - 1)).entries
  }

  lemma {:induction false} LogGrows(logs: nat -> seq<Entry>, m: nat, n: nat)
    requires AppendOnly(logs) && m <= n
    ensures logs(m) <= logs(n) && DistinctKeys(logs(n))
    decreases n - m
  {
    assert Appends(logs, n);
    if m < n {
      LogGrows(logs, m, n - 1);
      assert Appends(logs, n - 1);
    }
  }

  /** A client at position p has seen, newest first, entries of the log that are not behind its cursor,
      and of those present at the start it has seen all that are not behind its cursor. */
  ghost predicate Sound(p: Position, seen: seq<Entry>, start: seq<Entry>, log: seq<Entry>, organization: nat) {
    && Descending(seen)
    && (p == Reading(None) ==> seen == [])
    && (p.Reading? && p.cursor.Some? ==> forall e :: e in seen ==> !Behind(e.key, p.cursor.value))
    && (forall e :: e in start && e.organization == organization ==>
          e in seen || (p.Reading? && Matches(e, organization, p.cursor)))
    && (forall e :: e in seen ==> e.organization == organization && e in log)
  }

  lemma DescendingAppend(a: seq<Entry>, b: seq<Entry>)
    requires Descending(a) && Descending(b)
    requires forall x, y :: x in a && y in b ==> Behind(y.key, x.key)
    ensures Descending(a + b)
  {
    forall i, j | 0 <= i < j < |a + b| ensures Behind((a + b)[j].key, (a + b)[i].key) {
      if i < |a| <= j {
        assert a[i] in a && b[j - |a|] in b;
      }
    }
  }

  lemma SoundStep(p: Position, seen: seq<Entry>, start: seq<Entry>, log: seq<Entry>, organization: nat, limit: nat)
    requires Sound(p, seen, start, log, organization) && start <= log && DistinctKeys(log) && limit >= 1
    ensures var page := PageFrom(log, organization, limit, p);
            Sound(After(page), seen + page.entries, start, log, organization)
  {
    if p.Finished? {
      assert seen + [] == seen;
      return;
    }
    var page := List(log, organization, p.cursor, limit);
    PageSplitsTheMatches(log, organization, p.cursor, limit);
    forall x, y | x in seen && y in page.entries ensures Behind(y.key, x.key) {
      assert Matches(y, organization, p.cursor);
    }
    DescendingAppend(seen, page.entries);
    if page.nextCursor.Some? && p.cursor.Some? {
      forall e | e in seen ensures !Behind(e.key, page.nextCursor.value) {
        assert !Behind(e.key, p.cursor.value);
      }
    }
  }

  lemma LongerLogStaysSound(p: Position, seen: seq<Entry>, start: seq<Entry>, log: seq<Entry>, log': seq<Entry>, organization: nat)
    requires Sound(p, seen, start, log, organization) && log <= log'
    ensures Sound(p, seen, start, log', organization)
  {
    forall e | e in seen ensures e in log' {
      var k :| 0 <= k < |log| && log[k] == e;
      assert log'[k] == e;
    }
  }

  lemma {:induction false} AlwaysSound(logs: nat -> seq<Entry>, organization: nat, limit: nat, n: nat)
    requires AppendOnly(logs) && limit >= 1
    ensures Sound(PositionAt(logs, organization, limit, n), Visited(logs, organization, limit, n), logs(0), logs(n), organization)
  {
    if n > 0 {
      AlwaysSound(logs, organization, limit, n - 1);
      LogGrows(logs, 0, n - 1);
      LogGrows(logs, n - 1, n);
      var p, seen := PositionAt(logs, organization, limit, n - 1), Visited(logs, organization, limit, n - 1);
      var page := PageAt(logs, organization, limit, n - 1, p);
      SoundStep(p, seen, logs(0), logs(n - 1), organization, limit);
      LongerLogStaysSound(After(page), seen + page.entries, logs(0), logs(n - 1), logs(n), organization);
    }
  }

  /** Following nextCursor never shows an entry twice and shows entries in descending (createdAt, id)
      order, however the log grows; once there is no next cursor, every entry present at the start has
      been shown. */
  lemma EveryEntryOnce(logs: nat -> seq<Entry>, organization: nat, limit: nat, n: nat, e: Entry)
    requires AppendOnly(logs) && limit >= 1
    ensures Descending(Visited(logs, organization, limit, n)) && multiset(Visited(logs, organization, limit, n))[e] <= 1
    ensures PositionAt(logs, organization, limit, n).Finished? && e in logs(0) && e.organization == organization ==>
              multiset(Visited(logs, organization, limit, n))[e] == 1
  {
    AlwaysSound(logs, organization, limit, n);
    DescendingMeansOnce(Visited(logs, organization, limit, n), e);
  }

  lemma {:induction false} DescendingMeansOnce(es: seq<Entry>, e: Entry)
    requires Descending(es)
    ensures multiset(es)[e] == if e in es then 1 else 0
  {
    if es != [] {
      DescendingMeansOnce(es[1..], e);
      assert es == [es[0]] + es[1..];
      assert es[0] !in es[1..];
    }
  }

  // ---- termination -------------------------------------------------------------------------------

  /** Whatever is appended while page n is read is newer than the cursor it returned. */
  predicate NewerThanCursor(logs: nat -> seq<Entry>, organization: nat, limit: nat, n: nat) {
    var p := PositionAt(logs, organization, limit, n + 1);
    p.Reading? && p.cursor.Some? ==>
      forall e :: e in logs(n + 1) && e !in logs(n) ==> !Behind(e.key, p.cursor.value)
  }

  function Remaining(logs: nat -> seq<Entry>, organization: nat, limit: nat, n: nat): nat {
    match PositionAt(logs, organization, limit, n)
    case Finished => 0
    case Reading(cursor) => |Ordered(logs(n), organization, cursor)|
  }

  /** Each page that is not the last uses up exactly its own entries of those remaining. */
  lemma RemainingFalls(logs: nat -> seq<Entry>, organization: nat, limit: nat, n: nat)
    requires AppendOnly(logs) && limit >= 1 && NewerThanCursor(logs, organization, limit, n)
    requires PositionAt(logs, organization, limit, n + 1).Reading?
    ensures Remaining(logs, organization, limit, n + 1) + limit <= Remaining(logs, organization, limit, n)
  {
    var p, p' := PositionAt(logs, organization, limit, n), PositionAt(logs, organization, limit, n + 1);
    var page := List(logs(n), organization, p.cursor, limit).entries;
    LogGrows(logs, n, n + 1);
    LogGrows(logs, 0, n);
    PageSplitsTheMatches(logs(n), organization, p.cursor, limit);
    OrderedIsTheQuery(logs(n), organization, p.cursor);
    OrderedIsTheQuery(logs(n + 1), organization, p'.cursor);
    var before, after := Ordered(logs(n), organization, p.cursor), Ordered(logs(n + 1), organization, p'.cursor);
    SizeOfKeys(before);
    SizeOfKeys(after);
    SizeOfKeys(page);
    forall e | e in after ensures e in before && e !in page {
      assert Matches(e, organization, p.cursor);
    }
    DisjointParts(Keys(after), Keys(page), Keys(before));
  }

  lemma DisjointParts(a: set<Entry>, b: set<Entry>, whole: set<Entry>)
    requires a <= whole && b <= whole && a !! b
    ensures |a| + |b| <= |whole|
  {
    assert |a + b| == |a| + |b|;
    assert whole == (a + b) + (whole - (a + b));
  }

  lemma {:induction false} RemainingBound(logs: nat -> seq<Entry>, organization: nat, limit: nat, n: nat)
    requires AppendOnly(logs) && limit >= 1
    requires forall k: nat :: NewerThanCursor(logs, organization, limit, k)
    requires PositionAt(logs, organization, limit, n).Reading?
    ensures Remaining(logs, organization, limit, n) + n * limit <= |Ordered(logs(0), organization, None)|
  {
    if n > 0 {
      assert NewerThanCursor(logs, organization, limit, n - 1);
      RemainingBound(logs, organization, limit, n - 1);
      RemainingFalls(logs, organization, limit, n - 1);
      assert n * limit == (n - 1) * limit + limit;
    }
  }

  lemma PagesEnough(entries: nat, limit: nat)
    requires limit >= 1
    ensures (entries / limit + 1) * limit > entries
  {
    assert entries == entries / limit * limit + entries % limit;
  }

  /** If everything appended meanwhile is newer than the cursor, the listing ends, after at most as many
      pages as the entries present at the start fill, and one more. */
  lemma ListingEnds(logs: nat -> seq<Entry>, organization: nat, limit: nat)
    requires AppendOnly(logs) && limit >= 1
    requires forall k: nat :: NewerThanCursor(logs, organization, limit, k)
    ensures PositionAt(logs, organization, limit, |Ordered(logs(0), organization, None)| / limit + 1).Finished?
  {
    var entries := |Ordered(logs(0), organization, None)|;
    PagesEnough(entries, limit);
    if PositionAt(logs, organization, limit, entries / limit + 1).Reading? {
      RemainingBound(logs, organization, limit, entries / limit + 1);
    }
  }

  // ---- the repository ----------------------------------------------------------------------------

  /** The application half of append-only: rows are created and listed, never changed. */
  class AuditLogRepository {
    var rows: seq<Entry>

    constructor ()
      ensures rows == []
    {
      rows := [];
    }

    method Create(e: Entry)
      requires forall r :: r in rows ==> r.key != e.key
      modifies this
      ensures rows == old(rows) + [e] && (old(DistinctKeys(rows)) ==> DistinctKeys(rows))
    {
      rows := rows + [e];
    }

    /** A page and, if there is more to come, where the next one starts: one row more than the limit is
        asked for, and its presence tells. */
    method ListByOrganization(organization: nat, cursor: Option<Cursor>, limit: nat) returns (page: Page)
      ensures page == List(rows, organization, cursor, limit)
    {
      var found := FindMany(rows, organization, cursor, limit + 1);
      var hasMore := |found| > limit;
      var entries := if hasMore then found[..limit] else found;
      var nextCursor := if hasMore && entries != [] then Some(entries[|entries| - 1].key) else None;
      page := Page(entries, nextCursor);
    }
  }
}
