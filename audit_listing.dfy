/** The administrators' audit-log listing: filter validation, the page-size
    clamp, the query built filter by filter, newest-first ordering and the
    fetch-one-more pagination rule. */
module AuditListing {
  import opened Wrappers
  import opened Enums
  import opened Schema
  import opened Errors
  import opened Database
  import Registrations

  const MAX_PAGE_SIZE: int := 100
  const DEFAULT_PAGE_SIZE: int := 50

  /** `AuditQueryParams`. The dates arrive already read as instants and the
      cursor as an identifier; the limit is `Number(limit)` when that is a
      whole number and `None` when it is absent or not a number. */
  datatype AuditParams = AuditParams(
    action: Option<string>,
    entityType: Option<string>,
    entityId: Option<string>,
    actorType: Option<string>,
    before: Option<nat>,
    after: Option<nat>,
    limit: Option<int>,
    cursor: Option<Uuid>)

  /** `parseQueryParams`: a missing body means no parameters. */
  function ParseQueryParams(body: Option<AuditParams>): AuditParams {
    if body.Some? then body.value else AuditParams(None, None, None, None, None, None, None, None)
  }

  /** The names joined with ", ". */
  function ListText(names: seq<string>): string {
    if |names| == 0 then ""
    else if |names| == 1 then names[0]
    else names[0] + ", " + ListText(names[1..])
  }

  const ACTOR_TYPE_NAMES: seq<string> := ["public", "admin", "system"]
  const INVALID_ACTION: string := "Invalid action filter. Must be one of: " + ListText(AUDIT_ACTIONS)
  const INVALID_ACTOR_TYPE: string := "Invalid actorType filter. Must be one of: public, admin, system"

  predicate InvalidAction(p: AuditParams) {
    Registrations.Truthy(p.action) && p.action.value !in AUDIT_ACTIONS
  }

  predicate InvalidActorType(p: AuditParams) {
    Registrations.Truthy(p.actorType) && p.actorType.value !in ACTOR_TYPE_NAMES
  }

  // ------------------------------------------------------------- page size

  /** The page size: 50 when the limit is absent, zero or not a number,
      otherwise the limit clamped to 1..100. */
  function ClampLimit(limit: Option<int>): (n: int)
    ensures 1 <= n <= MAX_PAGE_SIZE
    ensures limit.None? || limit == Some(0) ==> n == DEFAULT_PAGE_SIZE
    ensures limit.Some? && 1 <= limit.value <= MAX_PAGE_SIZE ==> n == limit.value
    ensures limit.Some? && limit.value < 0 ==> n == 1
    ensures limit.Some? && limit.value > MAX_PAGE_SIZE ==> n == MAX_PAGE_SIZE
  {
    var requested := if limit.None? || limit.value == 0 then DEFAULT_PAGE_SIZE else limit.value;
    var atLeastOne := if requested < 1 then 1 else requested;
    if atLeastOne > MAX_PAGE_SIZE then MAX_PAGE_SIZE else atLeastOne
  }

  // ------------------------------------------------------------ the query

  /** One `where` clause of the query. */
  datatype Condition =
    | ActionIs(action: string)
    | EntityTypeIs(entityType: string)
    | EntityIdIs(entityId: string)
    | ActorTypeIs(actorType: string)
    | Earlier(instant: nat)
    | Later(instant: nat)
    | IdBelow(cursor: Uuid)
    | ListedAfter(timestamp: nat, id: Uuid)

  predicate Holds(c: Condition, e: AuditEvent) {
    match c
    case ActionIs(a) => e.action == a
    case EntityTypeIs(t) => e.entityType == t
    case EntityIdIs(i) => e.entityId == i
    case ActorTypeIs(a) => ActorTypeName(e.actorType) == a
    case Earlier(instant) => e.timestamp < instant
    case Later(instant) => e.timestamp > instant
    case IdBelow(cursor) => e.id < cursor
    case ListedAfter(timestamp, id) => e.timestamp < timestamp || (e.timestamp == timestamp && e.id < id)
  }

  /** Clauses are joined with "and". */
  predicate Satisfies(query: seq<Condition>, e: AuditEvent) {
    forall c :: c in query ==> Holds(c, e)
  }

  /** The filters the parameters ask for, each one only when given. */
  predicate Matches(p: AuditParams, e: AuditEvent) {
    (Registrations.Truthy(p.action) ==> e.action == p.action.value) &&
    (Registrations.Truthy(p.entityType) ==> e.entityType == p.entityType.value) &&
    (Registrations.Truthy(p.entityId) ==> e.entityId == p.entityId.value) &&
    (Registrations.Truthy(p.actorType) ==> ActorTypeName(e.actorType) == p.actorType.value) &&
    (p.before.Some? ==> e.timestamp < p.before.value) &&
    (p.after.Some? ==> e.timestamp > p.after.value) &&
    (p.cursor.Some? ==> e.id < p.cursor.value)
  }

  /** Adding a clause narrows the query by exactly that clause. */
  lemma SatisfiesAppend(query: seq<Condition>, c: Condition)
    ensures forall e :: Satisfies(query + [c], e) <==> Satisfies(query, e) && Holds(c, e)
  {
    assert forall d :: d in query + [c] <==> d in query || d == c;
  }

  /** The query, one clause per given filter: an event satisfies it exactly
      when it matches every filter. */
  method BuildQuery(p: AuditParams) returns (query: seq<Condition>)
    ensures forall e :: Satisfies(query, e) <==> Matches(p, e)
  {
    query := [];
    if Registrations.Truthy(p.action) {
      SatisfiesAppend(query, ActionIs(p.action.value));
      query := query + [ActionIs(p.action.value)];
    }
    if Registrations.Truthy(p.entityType) {
      SatisfiesAppend(query, EntityTypeIs(p.entityType.value));
      query := query + [EntityTypeIs(p.entityType.value)];
    }
    if Registrations.Truthy(p.entityId) {
      SatisfiesAppend(query, EntityIdIs(p.entityId.value));
      query := query + [EntityIdIs(p.entityId.value)];
    }
    if Registrations.Truthy(p.actorType) {
      SatisfiesAppend(query, ActorTypeIs(p.actorType.value));
      query := query + [ActorTypeIs(p.actorType.value)];
    }
    if p.before.Some? {
      SatisfiesAppend(query, Earlier(p.before.value));
      query := query + [Earlier(p.before.value)];
    }
    if p.after.Some? {
      SatisfiesAppend(query, Later(p.after.value));
      query := query + [Later(p.after.value)];
    }
    if p.cursor.Some? {
      SatisfiesAppend(query, IdBelow(p.cursor.value));
      query := query + [IdBelow(p.cursor.value)];
    }
  }

  /** The rows of the log that satisfy the query, in log order. */
  function Where(log: seq<AuditEvent>, query: seq<Condition>): (r: seq<AuditEvent>)
    ensures |r| <= |log|
    ensures forall e :: e in r <==> e in log && Satisfies(query, e)
  {
    if log == [] then []
    else if Satisfies(query, log[0]) then [log[0]] + Where(log[1..], query)
    else Where(log[1..], query)
  }

  // --------------------------------------------------------------- order

  /** `a` may be listed before `b`: it is newer, or as new with a larger id. */
  predicate ListedBefore(a: AuditEvent, b: AuditEvent) {
    a.timestamp > b.timestamp || (a.timestamp == b.timestamp && a.id >= b.id)
  }

  /** Ordered by timestamp, then id, both descending. */
  predicate NewestFirst(s: seq<AuditEvent>) {
    forall i, j :: 0 <= i < j < |s| ==> ListedBefore(s[i], s[j])
  }

  /** An event listed no later than every event of an ordered list can
      go in front of it. */
  lemma ConsNewestFirst(x: AuditEvent, s: seq<AuditEvent>)
    requires NewestFirst(s)
    requires forall y :: y in s ==> ListedBefore(x, y)
    ensures NewestFirst([x] + s)
  {
    var r := [x] + s;
    forall i, j | 0 <= i < j < |r| ensures ListedBefore(r[i], r[j]) {
      assert r[j] == s[j - 1];
      if i > 0 {
        assert r[i] == s[i - 1];
      }
    }
  }

  /** The head of an ordered list comes no later than any of its events. */
  lemma HeadListedFirst(s: seq<AuditEvent>)
    requires NewestFirst(s) && s != []
    ensures forall y :: y in s ==> ListedBefore(s[0], y)
  {
    forall y | y in s ensures ListedBefore(s[0], y) {
      var k :| 0 <= k < |s| && s[k] == y;
    }
  }

  function InsertNewestFirst(e: AuditEvent, s: seq<AuditEvent>): (r: seq<AuditEvent>)
    requires NewestFirst(s)
    ensures forall x :: x in r <==> x in s || x == e
    ensures NewestFirst(r)
    ensures multiset(r) == multiset(s) + multiset{e}
  {
    if s == [] then [e]
    else if ListedBefore(e, s[0]) then
      HeadListedFirst(s);
      ConsNewestFirst(e, s);
      [e] + s
    else
      var rest := InsertNewestFirst(e, s[1..]);
      assert s == [s[0]] + s[1..];
      HeadListedFirst(s);
      ConsNewestFirst(s[0], rest);
      [s[0]] + rest
  }

  /** `orderBy("timestamp", "desc").orderBy("id", "desc")`. */
  function OrderNewestFirst(s: seq<AuditEvent>): (r: seq<AuditEvent>)
    ensures NewestFirst(r)
    ensures multiset(r) == multiset(s)
  {
    if s == [] then []
    else
      assert s == [s[0]] + s[1..];
      InsertNewestFirst(s[0], OrderNewestFirst(s[1..]))
  }

  /** The first `n` of an ordered list are ordered and come no later than
      any event left out. */
  lemma TakeNewest(all: seq<AuditEvent>, n: nat)
    requires NewestFirst(all) && n <= |all|
    ensures NewestFirst(all[..n])
    ensures forall e, i :: e in all && e !in all[..n] && 0 <= i < n ==> ListedBefore(all[..n][i], e)
  {
    forall e, i | e in all && e !in all[..n] && 0 <= i < n ensures ListedBefore(all[..n][i], e) {
      var k :| 0 <= k < |all| && all[k] == e;
    }
  }

  /** `query.execute()` with `limit(fetch)`: the first `fetch` satisfying
      rows in newest-first order. */
  function Execute(log: seq<AuditEvent>, query: seq<Condition>, fetch: nat): (rows: seq<AuditEvent>)
    ensures |rows| == if |Where(log, query)| < fetch then |Where(log, query)| else fetch
    ensures NewestFirst(rows)
    ensures forall e :: e in rows ==> e in log && Satisfies(query, e)
    ensures forall e, i :: e in log && Satisfies(query, e) && e !in rows && 0 <= i < |rows| ==>
      ListedBefore(rows[i], e)
  {
    var selected := Where(log, query);
    var all := OrderNewestFirst(selected);
    assert |all| == |selected| by {
      assert |multiset(all)| == |multiset(selected)|;
    }
    assert forall e :: e in all <==> e in selected by {
      forall e ensures e in all <==> e in selected {
        assert e in all <==> e in multiset(all);
        assert e in selected <==> e in multiset(selected);
      }
    }
    var n := if |all| < fetch then |all| else fetch;
    TakeNewest(all, n);
    assert forall e :: e in all[..n] ==> e in all;
    all[..n]
  }

  // ---------------------------------------------------------------- pages

  /** A page of events, the id to continue after, and whether there is more. */
  datatype AuditPage = AuditPage(events: seq<AuditEvent>, nextCursor: Option<Uuid>, hasMore: bool)

  /** `hasMore`, the page's events and `nextCursor` from the rows fetched. */
  function PageOf(rows: seq<AuditEvent>, limit: int): (page: AuditPage)
    requires limit >= 1
    ensures page.hasMore <==> |rows| > limit
    ensures |page.events| == if page.hasMore then limit else |rows|
    ensures page.events == rows[..|page.events|]
    ensures page.nextCursor.Some? <==> page.hasMore
    ensures page.hasMore ==> page.nextCursor == Some(page.events[|page.events| - 1].id)
  {
    var hasMore := |rows| > limit;
    var events := if hasMore then rows[..limit] else rows;
    AuditPage(events, if hasMore then Some(events[|events| - 1].id) else None, hasMore)
  }

  /** How much a page holds: the `limit` newest matching events when more
      match, all of them otherwise, and a cursor exactly when more match. */
  predicate PageSized(log: seq<AuditEvent>, p: AuditParams, limit: int, page: AuditPage) {
    var matching := |Matching(log, p)|;
    (page.hasMore <==> matching > limit) &&
    |page.events| == (if matching < limit then matching else limit) &&
    (page.hasMore ==> |page.events| > 0 && page.nextCursor == Some(page.events[|page.events| - 1].id)) &&
    (!page.hasMore ==> page.nextCursor.None?)
  }

  /** Which events a page holds: matching ones, newest first, and none
      left out that is newer than one listed. */
  predicate PageNewest(log: seq<AuditEvent>, p: AuditParams, page: AuditPage) {
    NewestFirst(page.events) &&
    (forall e :: e in page.events ==> e in log && Matches(p, e)) &&
    (forall e, i :: e in log && Matches(p, e) && e !in page.events && 0 <= i < |page.events| ==>
      ListedBefore(page.events[i], e))
  }

  /** What a page means: it holds the `limit` newest matching events, says
      whether more match, and continues after its last event. */
  predicate ListsNewest(log: seq<AuditEvent>, p: AuditParams, limit: int, page: AuditPage) {
    PageSized(log, p, limit, page) && PageNewest(log, p, page)
  }

  lemma PageOfSized(log: seq<AuditEvent>, query: seq<Condition>, p: AuditParams, limit: int)
    requires limit >= 1
    requires forall e :: Satisfies(query, e) <==> Matches(p, e)
    ensures PageSized(log, p, limit, PageOf(Execute(log, query, limit + 1), limit))
  {
    SameMatches(log, query, p);
  }

  /** The first rows of a newest-first selection are a newest-first
      selection themselves. */
  lemma PrefixNewest(log: seq<AuditEvent>, p: AuditParams, rows: seq<AuditEvent>, n: nat)
    requires n <= |rows|
    requires PageNewest(log, p, AuditPage(rows, None, false))
    ensures PageNewest(log, p, AuditPage(rows[..n], None, false))
  {
    var events := rows[..n];
    assert forall e :: e in events ==> e in rows;
    forall e, i | e in log && Matches(p, e) && e !in events && 0 <= i < |events|
      ensures ListedBefore(events[i], e)
    {
      assert events[i] == rows[i];
      if e in rows {
        var k :| 0 <= k < |rows| && rows[k] == e;
      }
    }
  }

  lemma PageOfNewest(log: seq<AuditEvent>, query: seq<Condition>, p: AuditParams, limit: int)
    requires limit >= 1
    requires forall e :: Satisfies(query, e) <==> Matches(p, e)
    ensures PageNewest(log, p, PageOf(Execute(log, query, limit + 1), limit))
  {
    var rows := Execute(log, query, limit + 1);
    assert PageNewest(log, p, AuditPage(rows, None, false));
    var page := PageOf(rows, limit);
    PrefixNewest(log, p, rows, |page.events|);
  }

  lemma PageListsNewest(log: seq<AuditEvent>, query: seq<Condition>, p: AuditParams, limit: int)
    requires limit >= 1
    requires forall e :: Satisfies(query, e) <==> Matches(p, e)
    ensures ListsNewest(log, p, limit, PageOf(Execute(log, query, limit + 1), limit))
  {
    PageOfSized(log, query, p, limit);
    PageOfNewest(log, query, p, limit);
  }

  /** `handleListAuditEvents`. An administrator gets the `limit` newest
      events that match every given filter; `hasMore` says whether more
      match, and `nextCursor` is then the id of the last event listed. */
  method HandleListAuditEvents(db: Db, adminId: Option<string>, body: Option<AuditParams>)
    returns (r: Result<AuditPage, AppError>)
    ensures !Registrations.Truthy(adminId) ==> r == Failure(Unauthorized(UNAUTHORIZED_MESSAGE))
    ensures Registrations.Truthy(adminId) && InvalidAction(ParseQueryParams(body)) ==>
      r == Failure(BadRequest(INVALID_ACTION, None))
    ensures Registrations.Truthy(adminId) && !InvalidAction(ParseQueryParams(body)) &&
            InvalidActorType(ParseQueryParams(body)) ==>
      r == Failure(BadRequest(INVALID_ACTOR_TYPE, None))
    ensures r.Success? <==>
      (Registrations.Truthy(adminId) && !InvalidAction(ParseQueryParams(body)) &&
       !InvalidActorType(ParseQueryParams(body)))
    ensures r.Success? ==>
      ListsNewest(db.audit, ParseQueryParams(body), ClampLimit(ParseQueryParams(body).limit), r.value)
  {
    if !Registrations.Truthy(adminId) {
      return Failure(Unauthorized(UNAUTHORIZED_MESSAGE));
    }
    var p := ParseQueryParams(body);
    if Registrations.Truthy(p.action) && p.action.value !in AUDIT_ACTIONS {
      return Failure(BadRequest(INVALID_ACTION, None));
    }
    if Registrations.Truthy(p.actorType) && p.actorType.value !in ACTOR_TYPE_NAMES {
      return Failure(BadRequest(INVALID_ACTOR_TYPE, None));
    }
    var limit := ClampLimit(p.limit);
    var query := BuildQuery(p);
    var rows := Execute(db.audit, query, limit + 1);
    PageListsNewest(db.audit, query, p, limit);
    r := Success(PageOf(rows, limit));
  }

  /** The log events that match the filters, in log order. */
  function Matching(log: seq<AuditEvent>, p: AuditParams): (r: seq<AuditEvent>)
    ensures forall e :: e in r <==> e in log && Matches(p, e)
  {
    if log == [] then []
    else if Matches(p, log[0]) then [log[0]] + Matching(log[1..], p)
    else Matching(log[1..], p)
  }

  /** A query equivalent to the filters selects the same rows. */
  lemma {:induction false} SameMatches(log: seq<AuditEvent>, query: seq<Condition>, p: AuditParams)
    requires forall e :: Satisfies(query, e) <==> Matches(p, e)
    ensures Where(log, query) == Matching(log, p)
  {
    if log != [] {
      SameMatches(log[1..], query, p);
    }
  }

  // ------------------------------------------------------- the cursor

  /** An event as the log could hold it; only its id and time matter here. */
  function SampleEvent(id: Uuid, timestamp: nat): AuditEvent {
    AuditEvent(id, timestamp, Admin, None, "box_state_change", "planter_box", "1", None, None, None)
  }

  /** The cursor as written compares ids only, while pages are ordered by
      time first. Identifiers are random, so a later event can have the
      smaller id: with one event per page, the first page lists the newer
      event and continues after its id, and the second page then leaves the
      older event out although nothing listed it. */
  lemma IdCursorSkipsEvent()
    ensures var newer := SampleEvent(5, 2);
      var older := SampleEvent(9, 1);
      var log := [older, newer];
      var first := PageOf(Execute(log, [], 2), 1);
      var second := PageOf(Execute(log, [IdBelow(5)], 2), 1);
      first.events == [newer] && first.hasMore && first.nextCursor == Some(5) &&
      second.events == [] && !second.hasMore &&
      older in log && older !in first.events && older !in second.events
  {
    SampleFirstRows();
    SampleSecondRows();
  }

  /** Without a cursor both sample events are fetched, the newer first. */
  lemma SampleFirstRows()
    ensures Execute([SampleEvent(9, 1), SampleEvent(5, 2)], [], 2) == [SampleEvent(5, 2), SampleEvent(9, 1)]
  {
    var newer := SampleEvent(5, 2);
    var older := SampleEvent(9, 1);
    var log := [older, newer];
    var rows := Execute(log, [], 2);
    assert |Where(log, [])| == 2 by {
      assert Satisfies([], older) && Satisfies([], newer);
      assert log[1..] == [newer];
    }
    assert |rows| == 2;
    assert rows[0] in log && rows[1] in log;
    assert ListedBefore(rows[0], rows[1]);
    assert older in rows by {
      assert Satisfies([], older);
    }
  }

  /** After id 5 neither sample event is fetched. */
  lemma SampleSecondRows()
    ensures Execute([SampleEvent(9, 1), SampleEvent(5, 2)], [IdBelow(5)], 2) == []
  {
    var log := [SampleEvent(9, 1), SampleEvent(5, 2)];
    assert IdBelow(5) in [IdBelow(5)];
    assert Where(log, [IdBelow(5)]) == [];
  }

  /** No two events share an id: the primary key. */
  predicate UniqueIds(log: seq<AuditEvent>) {
    forall i, j :: 0 <= i < j < |log| ==> log[i].id != log[j].id
  }

  /** The corrected continuation: the events ordered after the last one
      listed, by time and then id. */
  function KeysetAfter(last: AuditEvent): (c: Condition)
    ensures forall e :: Holds(c, e) <==> !ListedBefore(e, last)
  {
    ListedAfter(last.timestamp, last.id)
  }

  /** Each event of an ordered page comes no later than its last one. */
  lemma ListedNoLaterThanLast(events: seq<AuditEvent>)
    requires NewestFirst(events) && events != []
    ensures forall e :: e in events ==> ListedBefore(e, events[|events| - 1])
  {
    forall e | e in events ensures ListedBefore(e, events[|events| - 1]) {
      var k :| 0 <= k < |events| && events[k] == e;
      if k < |events| - 1 {
        assert ListedBefore(events[k], events[|events| - 1]);
      }
    }
  }

  /** Two events of the log ordered both ways round are the same event. */
  lemma OrderedBothWaysSame(log: seq<AuditEvent>, a: AuditEvent, b: AuditEvent)
    requires UniqueIds(log) && a in log && b in log
    requires ListedBefore(a, b) && ListedBefore(b, a)
    ensures a == b
  {
    var i :| 0 <= i < |log| && log[i] == a;
    var j :| 0 <= j < |log| && log[j] == b;
  }

  /** With the cursor carrying the last event's time and id, every matching
      event is either on the first page or matches the next page's query,
      and never both: nothing is skipped or listed twice. */
  lemma KeysetCursorCovers(log: seq<AuditEvent>, query: seq<Condition>, p: AuditParams, limit: int)
    requires limit >= 1 && UniqueIds(log)
    requires forall e :: Satisfies(query, e) <==> Matches(p, e)
    ensures var first := PageOf(Execute(log, query, limit + 1), limit);
      first.hasMore ==>
        forall e :: e in log && Matches(p, e) ==>
          (e in first.events <==> !Holds(KeysetAfter(first.events[|first.events| - 1]), e))
  {
    var first := PageOf(Execute(log, query, limit + 1), limit);
    PageOfNewest(log, query, p, limit);
    if first.hasMore {
      var events := first.events;
      var last := events[|events| - 1];
      assert last in events;
      ListedNoLaterThanLast(events);
      forall e | e in log && Matches(p, e) && e !in events
        ensures !ListedBefore(e, last)
      {
        assert ListedBefore(last, e);
        if ListedBefore(e, last) {
          OrderedBothWaysSame(log, e, last);
        }
      }
    }
  }
}
