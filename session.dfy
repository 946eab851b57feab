/** Admin sessions: the `session` cookie the admin pages carry, and the
    `sessions` rows that back it. A session lives eight hours; validating an
    expired one deletes it. The wall clock (`Date.now()`) is the parameter
    `now`, in milliseconds. */
module Session {
  import opened Wrappers
  import opened Text
  import opened Schema
  import opened Errors
  import opened Database

  /** Eight hours, in milliseconds. */
  const SESSION_TTL_MS: int := 8 * 60 * 60 * 1000

  /** PostgreSQL's SQLSTATE for a violated foreign key. */
  const FOREIGN_KEY_VIOLATION: string := "23503"

  const COOKIE_PREFIX: string := "session="

  // ------------------------------------------------------------ the cookie

  /** The attributes every session cookie carries. */
  const COOKIE_ATTRIBUTES: string := "; HttpOnly; Secure" + "; SameSite=Strict; Path=/admin"

  /** The `Set-Cookie` value that hands a session to the browser. */
  function SessionCookieHeader(sessionId: string): (h: string)
    ensures StartsWith(h, COOKIE_PREFIX)
    ensures h[|COOKIE_PREFIX|..] == sessionId + COOKIE_ATTRIBUTES
  {
    COOKIE_PREFIX + sessionId + COOKIE_ATTRIBUTES
  }

  /** The `Set-Cookie` value that makes the browser drop the session: an
      empty value that expires at once. */
  function ClearSessionCookieHeader(): (h: string)
    ensures StartsWith(h, COOKIE_PREFIX) && |h| > |COOKIE_PREFIX| && h[|COOKIE_PREFIX|] == ';'
  {
    COOKIE_PREFIX + COOKIE_ATTRIBUTES + "; Max-Age=0"
  }

  /** `[^;]+`, greedily: the longest prefix free of `;`. */
  function ValueRun(s: string): (r: string)
    ensures |r| <= |s| && r == s[..|r|]
    ensures ';' !in r
    ensures |r| < |s| ==> s[|r|] == ';'
  {
    if s == [] || s[0] == ';' then [] else [s[0]] + ValueRun(s[1..])
  }

  /** `\s*`, greedily: the first position from `q` on that is not white space. */
  function SkipSpaces(h: string, q: nat): (r: nat)
    requires q <= |h|
    ensures q <= r <= |h|
    ensures forall k :: q <= k < r ==> IsWhitespace(h[k])
    ensures r < |h| ==> !IsWhitespace(h[r])
    decreases |h| - q
  {
    if q < |h| && IsWhitespace(h[q]) then SkipSpaces(h, q + 1) else q
  }

  /** `session=([^;]+)` at position `q`: the captured value, if any. */
  function ValueAt(h: string, q: nat): (r: Option<string>)
    requires q <= |h|
    ensures r.Some? ==> StartsWith(h[q..], COOKIE_PREFIX) && r.value != [] && ';' !in r.value
  {
    if StartsWith(h[q..], COOKIE_PREFIX) && ValueRun(h[q + |COOKIE_PREFIX|..]) != [] then
      Some(ValueRun(h[q + |COOKIE_PREFIX|..]))
    else
      None
  }

  /** The whole pattern `(?:^|;\s*)session=([^;]+)` tried at position `p`:
      first the `^` alternative (only at the start), then `;\s*`. Since
      `session=` cannot begin with white space, the greedy `\s*` needs no
      backtracking. */
  function MatchAt(h: string, p: nat): (r: Option<string>)
    requires p <= |h|
    ensures r.Some? ==> r.value != [] && ';' !in r.value
  {
    var caret := if p == 0 then ValueAt(h, 0) else None;
    if caret.Some? then caret
    else if p < |h| && h[p] == ';' then ValueAt(h, SkipSpaces(h, p + 1))
    else None
  }

  /** `String.prototype.match` without the global flag: the leftmost match. */
  function Search(h: string, p: nat): (r: Option<string>)
    requires p <= |h|
    ensures r.Some? ==> r.value != [] && ';' !in r.value
    decreases |h| - p
  {
    if MatchAt(h, p).Some? then MatchAt(h, p)
    else if p == |h| then None
    else Search(h, p + 1)
  }

  /** The session id a `Cookie` header carries, or None. */
  function ParseSessionCookie(cookieHeader: Option<string>): (r: Option<string>)
    ensures cookieHeader.None? || cookieHeader == Some("") ==> r.None?
    ensures r.Some? ==> r.value != [] && ';' !in r.value
  {
    if cookieHeader.None? || cookieHeader.value == "" then None
    else Search(cookieHeader.value, 0)
  }

  lemma {:induction false} ValueRunStops(a: string, b: string)
    requires ';' !in a
    requires b == [] || b[0] == ';'
    ensures ValueRun(a + b) == a
  {
    if a != [] {
      assert (a + b)[0] == a[0];
      assert (a + b)[1..] == a[1..] + b;
      ValueRunStops(a[1..], b);
    } else {
      assert a + b == b;
    }
  }

  /** The cookie the server hands out is read back as the same session id. */
  lemma SessionCookieRoundTrip(sessionId: string)
    requires sessionId != [] && ';' !in sessionId
    ensures ParseSessionCookie(Some(SessionCookieHeader(sessionId))) == Some(sessionId)
  {
    var h := SessionCookieHeader(sessionId);
    ValueRunStops(sessionId, COOKIE_ATTRIBUTES);
    assert MatchAt(h, 0) == Some(sessionId);
  }

  /** Positions that do not match are passed over. */
  lemma {:induction false} SearchSkips(h: string, p: nat, k: nat)
    requires p <= k <= |h|
    requires forall q :: p <= q < k ==> MatchAt(h, q).None?
    ensures Search(h, p) == Search(h, k)
    decreases k - p
  {
    if p < k {
      SearchSkips(h, p + 1, k);
    }
  }

  /** A header that begins with the cookie name and has no further `s`
      matches nowhere but at its start. */
  lemma NoMatchPastPrefix(h: string, tail: string, q: nat)
    requires h == COOKIE_PREFIX + tail && 's' !in tail
    requires 0 < q <= |h|
    ensures MatchAt(h, q).None?
  {
    forall k | 0 <= k < |COOKIE_PREFIX| ensures h[k] != ';' {
      assert h[k] == COOKIE_PREFIX[k];
    }
    forall k | |COOKIE_PREFIX| <= k < |h| ensures h[k] != 's' {
      assert h[k] == tail[k - |COOKIE_PREFIX|];
    }
    if q < |h| && h[q] == ';' {
      var v := SkipSpaces(h, q + 1);
      assert v < |h| ==> h[v..][0] == h[v];
      assert !StartsWith(h[v..], COOKIE_PREFIX);
    }
  }

  /** After the cookie is cleared the browser's header names no session. */
  lemma ClearedCookieNamesNoSession()
    ensures ParseSessionCookie(Some(ClearSessionCookieHeader())).None?
  {
    var h := ClearSessionCookieHeader();
    var tail := COOKIE_ATTRIBUTES + "; Max-Age=0";
    assert h == COOKIE_PREFIX + tail;
    assert 's' !in tail;
    assert h[|COOKIE_PREFIX|..] == tail;
    assert ValueRun(tail) == [];
    forall q | 0 < q <= |h| ensures MatchAt(h, q).None? {
      NoMatchPastPrefix(h, tail, q);
    }
    SearchSkips(h, 0, |h|);
  }

  /** `; session=<value>` at position `p` matches and captures the value. */
  lemma MatchAfterSeparator(h: string, p: nat, value: string, after: string)
    requires p + 2 <= |h| && h[p] == ';' && h[p + 1] == ' '
    requires h[p + 2..] == COOKIE_PREFIX + value + after
    requires p == 0 ==> !StartsWith(h, COOKIE_PREFIX)
    requires value != [] && ';' !in value
    requires after == [] || after[0] == ';'
    ensures MatchAt(h, p) == Some(value)
  {
    var cookie := COOKIE_PREFIX + value + after;
    assert h[p + 2] == cookie[0] == 's';
    assert SkipSpaces(h, p + 1) == p + 2;
    assert cookie[|COOKIE_PREFIX|..] == value + after;
    ValueRunStops(value, after);
  }

  /** Other cookies in front of the session cookie do not hide it. */
  lemma SessionBehindOtherCookies(front: string, value: string, after: string)
    requires ';' !in front && !StartsWith(front, COOKIE_PREFIX)
    requires value != [] && ';' !in value
    requires after == [] || after[0] == ';'
    ensures ParseSessionCookie(Some(front + "; " + COOKIE_PREFIX + value + after)) == Some(value)
  {
    var h := front + "; " + COOKIE_PREFIX + value + after;
    var n := |COOKIE_PREFIX|;
    assert h[|front|] == ';' && h[|front| + 1] == ' ';
    if |front| >= n {
      assert h[..n] == front[..n];
    } else {
      assert h[..n][|front|] == ';' && COOKIE_PREFIX[|front|] != ';';
    }
    forall q | 0 <= q < |front| ensures MatchAt(h, q).None? {
      assert h[q] == front[q];
    }
    SearchSkips(h, 0, |front|);
    assert h[|front| + 2..] == COOKIE_PREFIX + value + after;
    MatchAfterSeparator(h, |front|, value, after);
  }

  // ------------------------------------------------------------- the rows

  /** The join in `validateSession`: the first session row with this id
      whose admin still exists. */
  function LiveIndex(sessions: seq<SessionRow>, admins: seq<AdminRow>, sessionId: Uuid): (r: Option<nat>)
    ensures r.Some? ==> r.value < |sessions| && sessions[r.value].id == sessionId
                        && IsAdmin(admins, sessions[r.value].adminId)
    ensures r.None? ==> forall i :: 0 <= i < |sessions| && sessions[i].id == sessionId ==>
                          !IsAdmin(admins, sessions[i].adminId)
  {
    if sessions == [] then None
    else if sessions[0].id == sessionId && IsAdmin(admins, sessions[0].adminId) then Some(0)
    else
      var r := LiveIndex(sessions[1..], admins, sessionId);
      if r.Some? then Some(r.value + 1) else None
  }

  /** `DELETE FROM sessions WHERE id = $1`. */
  function WithoutSession(sessions: seq<SessionRow>, sessionId: Uuid): (r: seq<SessionRow>)
    ensures forall s :: s in r <==> s in sessions && s.id != sessionId
    ensures |r| <= |sessions|
  {
    if sessions == [] then []
    else (if sessions[0].id == sessionId then [] else [sessions[0]]) + WithoutSession(sessions[1..], sessionId)
  }

  predicate IdsIncreasing(sessions: seq<SessionRow>) {
    forall i, j :: 0 <= i < j < |sessions| ==> sessions[i].id < sessions[j].id
  }

  /** Deleting keeps a lower bound on the remaining ids. */
  lemma WithoutSessionAbove(sessions: seq<SessionRow>, sessionId: Uuid, bound: Uuid)
    requires forall i :: 0 <= i < |sessions| ==> bound < sessions[i].id
    ensures forall x :: x in WithoutSession(sessions, sessionId) ==> bound < x.id
  {
    forall x | x in WithoutSession(sessions, sessionId) ensures bound < x.id {
      var k :| 0 <= k < |sessions| && sessions[k] == x;
    }
  }

  lemma {:induction false} WithoutSessionIncreasing(sessions: seq<SessionRow>, sessionId: Uuid)
    requires IdsIncreasing(sessions)
    ensures IdsIncreasing(WithoutSession(sessions, sessionId))
  {
    if sessions != [] {
      var tail := sessions[1..];
      WithoutSessionIncreasing(tail, sessionId);
      var rest := WithoutSession(tail, sessionId);
      WithoutSessionAbove(tail, sessionId, sessions[0].id);
      if sessions[0].id != sessionId {
        var r := [sessions[0]] + rest;
        assert WithoutSession(sessions, sessionId) == r;
        forall i, j | 0 <= i < j < |r| ensures r[i].id < r[j].id {
          assert r[j] == rest[j - 1] && rest[j - 1] in rest;
          if i > 0 {
            assert r[i] == rest[i - 1];
          }
        }
      } else {
        assert WithoutSession(sessions, sessionId) == [] + rest;
      }
    }
  }

  /** The tables after `createSession`: one row under a fresh id. */
  function SessionCreated(t: Tables, adminId: Uuid, now: int): Tables {
    t.(sessions := t.sessions + [SessionRow(t.nextUuid, adminId, now + SESSION_TTL_MS)],
       nextUuid := t.nextUuid + 1)
  }

  /** The joined row `validateSession` reads. */
  function LiveRow(t: Tables, sessionId: Uuid): (r: Option<SessionRow>)
    ensures r.Some? ==> r.value in t.sessions && r.value.id == sessionId && IsAdmin(t.admins, r.value.adminId)
    ensures r.None? ==> forall s :: s in t.sessions && s.id == sessionId ==> !IsAdmin(t.admins, s.adminId)
  {
    var k := LiveIndex(t.sessions, t.admins, sessionId);
    if k.Some? then Some(t.sessions[k.value]) else None
  }

  /** The tables after the session row is deleted: nothing else changes,
      and the session no longer validates. */
  function SessionDeleted(t: Tables, sessionId: Uuid): (t': Tables)
    ensures t' == t.(sessions := t'.sessions)
    ensures forall s :: s in t'.sessions <==> s in t.sessions && s.id != sessionId
    ensures LiveRow(t', sessionId).None?
  {
    t.(sessions := WithoutSession(t.sessions, sessionId))
  }

  lemma SessionCreatedKeepsValid(t: Tables, adminId: Uuid, now: int)
    requires Valid(t) && IsAdmin(t.admins, adminId)
    ensures Valid(SessionCreated(t, adminId, now))
    ensures Consistent(t) ==> Consistent(SessionCreated(t, adminId, now))
  {
    var s := SessionCreated(t, adminId, now).sessions;
    forall i, j | 0 <= i < j < |s| ensures s[i].id < s[j].id {
      if j == |t.sessions| {
        assert s[i] == t.sessions[i];
      } else {
        assert s[i] == t.sessions[i] && s[j] == t.sessions[j];
      }
    }
    forall i | 0 <= i < |s| ensures s[i].id < t.nextUuid + 1 && IsAdmin(t.admins, s[i].adminId) {
      if i < |t.sessions| {
        assert s[i] == t.sessions[i];
      }
    }
  }

  lemma SessionDeletedKeepsValid(t: Tables, sessionId: Uuid)
    requires Valid(t)
    ensures Valid(SessionDeleted(t, sessionId))
    ensures Consistent(t) ==> Consistent(SessionDeleted(t, sessionId))
  {
    var s := SessionDeleted(t, sessionId).sessions;
    WithoutSessionIncreasing(t.sessions, sessionId);
    forall i | 0 <= i < |s| ensures s[i].id < t.nextUuid && IsAdmin(t.admins, s[i].adminId) {
      assert s[i] in t.sessions;
    }
  }

  /** A freshly created session is live and names its admin. */
  lemma SessionCreatedIsLive(t: Tables, adminId: Uuid, now: int)
    requires Valid(t) && IsAdmin(t.admins, adminId)
    ensures var t' := SessionCreated(t, adminId, now);
      LiveRow(t', t.nextUuid) == Some(SessionRow(t.nextUuid, adminId, now + SESSION_TTL_MS))
  {
    var t' := SessionCreated(t, adminId, now);
    var k := LiveIndex(t'.sessions, t'.admins, t.nextUuid);
    assert t'.sessions[|t.sessions|].id == t.nextUuid;
    assert k.value == |t.sessions|;
  }

  // ------------------------------------------------------------ operations

  /** `createSession`: a row expiring eight hours after `now`; an unknown
      admin violates the foreign key and the insert throws. */
  method CreateSession(db: Db, adminId: Uuid, now: int) returns (r: Result<Uuid, Thrown>)
    modifies db
    ensures r.Failure? <==> !IsAdmin(old(db.admins), adminId)
    ensures r.Failure? ==> r.error == Foreign(Some(FOREIGN_KEY_VIOLATION)) && db.Snapshot() == old(db.Snapshot())
    ensures r.Success? ==> (r.value == old(db.nextUuid)
                        && db.Snapshot() == SessionCreated(old(db.Snapshot()), adminId, now))
  {
    if !IsAdmin(db.admins, adminId) {
      return Failure(Foreign(Some(FOREIGN_KEY_VIOLATION)));
    }
    var id := db.NewId();
    db.sessions := db.sessions + [SessionRow(id, adminId, now + SESSION_TTL_MS)];
    return Success(id);
  }

  /** `validateSession`: the admin of a live session; an expired session is
      deleted on the way. */
  method ValidateSession(db: Db, sessionId: Uuid, now: int) returns (adminId: Option<Uuid>)
    modifies db
    ensures var row := LiveRow(old(db.Snapshot()), sessionId);
      adminId.Some? <==> row.Some? && row.value.expiresAt > now
    ensures var row := LiveRow(old(db.Snapshot()), sessionId);
      adminId.Some? ==> adminId.value == row.value.adminId
    ensures var row := LiveRow(old(db.Snapshot()), sessionId);
      db.Snapshot() == if row.Some? && row.value.expiresAt <= now
                       then SessionDeleted(old(db.Snapshot()), sessionId)
                       else old(db.Snapshot())
  {
    var row := LiveRow(db.Snapshot(), sessionId);
    if row.None? {
      return None;
    }
    if row.value.expiresAt <= now {
      db.sessions := WithoutSession(db.sessions, sessionId);
      return None;
    }
    return Some(row.value.adminId);
  }

  /** `deleteSession`: logging out. */
  method DeleteSession(db: Db, sessionId: Uuid)
    modifies db
    ensures db.Snapshot() == SessionDeleted(old(db.Snapshot()), sessionId)
  {
    db.sessions := WithoutSession(db.sessions, sessionId);
  }
}
