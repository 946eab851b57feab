/** The public endpoints over the allocation: joining the waitlist, asking
    for a waitlist position, the per-greenhouse box summary and the address
    check. Joining is the one that writes: one transaction inserts the entry
    and logs it. */
module PublicRoutes {
  import opened Wrappers
  import opened Enums
  import opened Constants
  import Validators
  import opened Errors
  import opened Schema
  import opened Database
  import opened Audit

  /** A public endpoint's answer. */
  datatype Reply =
    | InvalidInput(errors: map<string, string>)
    | AlreadyOnWaitlist(position: nat, joinedAt: nat)
    | JoinedWaitlist(waitlistEntryId: string, position: nat)
    | NotOnWaitlist
    | OnWaitlist(position: nat, joinedAt: nat)
    | AddressVerdict(eligible: bool, error: Option<string>, floorDoorRequired: bool, apartmentKey: Option<string>)
    | Summaries(greenhouses: seq<GreenhouseSummary>)

  datatype Response = Response(statusCode: int, body: Reply)

  const BODY_REQUIRED: string := "Request body is required"

  // ------------------------------------------------------ the box counts

  /** The boxes the `state = 'available'` count sees. */
  function AvailableBoxes(boxes: map<int, PlanterBox>): set<int> {
    set id | id in boxes && boxes[id].state == Available
  }

  /** The count is positive exactly when some box is available; reserved
      and occupied boxes do not count. */
  lemma AvailableCountPositive(boxes: map<int, PlanterBox>)
    ensures |AvailableBoxes(boxes)| > 0 <==> exists id :: id in boxes && boxes[id].state == Available
  {
    var s := AvailableBoxes(boxes);
    if |s| > 0 && forall id :: id !in s {
      assert false;
    }
    if id :| id in boxes && boxes[id].state == Available {
      assert id in s;
    }
  }

  // ---------------------------------------------------- waitlist position

  /** The waiting entries, oldest first. */
  function WaitingEntries(w: seq<WaitlistEntry>): (r: seq<WaitlistEntry>)
    ensures |r| <= |w|
    ensures forall e :: e in r <==> e in w && e.status == Waiting
  {
    if |w| == 0 then []
    else if w[0].status == Waiting then [w[0]] + WaitingEntries(w[1..])
    else WaitingEntries(w[1..])
  }

  /** Each entry created strictly later than the one before it. */
  predicate CreatedInOrder(w: seq<WaitlistEntry>) {
    forall i, j :: 0 <= i < j < |w| ==> w[i].createdAt < w[j].createdAt
  }

  /** Dropping the oldest entry keeps the order, and every later entry is
      newer than it. */
  lemma CreatedInOrderTail(w: seq<WaitlistEntry>)
    requires |w| > 0 && CreatedInOrder(w)
    ensures CreatedInOrder(w[1..])
    ensures forall e :: e in w[1..] ==> w[0].createdAt < e.createdAt
  {
    var rest := w[1..];
    forall i, j | 0 <= i < j < |rest| ensures rest[i].createdAt < rest[j].createdAt {
      assert rest[i] == w[i + 1] && rest[j] == w[j + 1];
    }
    forall e | e in rest ensures w[0].createdAt < e.createdAt {
      var k :| 0 <= k < |rest| && rest[k] == e;
      assert rest[k] == w[k + 1];
    }
  }

  /** An entry older than every entry of an ordered sequence can go first. */
  lemma CreatedInOrderCons(x: WaitlistEntry, s: seq<WaitlistEntry>)
    requires CreatedInOrder(s) && forall e :: e in s ==> x.createdAt < e.createdAt
    ensures CreatedInOrder([x] + s)
  {
    var r := [x] + s;
    forall i, j | 0 <= i < j < |r| ensures r[i].createdAt < r[j].createdAt {
      assert r[j] == s[j - 1] && s[j - 1] in s;
      if i > 0 {
        assert r[i] == s[i - 1];
      }
    }
  }

  /** Entries are stored in creation order, so the waiting ones come out in
      strictly increasing `created_at` order: the order the position query
      sorts by. */
  lemma {:induction false} WaitingEntriesByCreation(w: seq<WaitlistEntry>)
    requires CreatedInOrder(w)
    ensures CreatedInOrder(WaitingEntries(w))
  {
    if |w| > 0 {
      CreatedInOrderTail(w);
      WaitingEntriesByCreation(w[1..]);
      if w[0].status == Waiting {
        CreatedInOrderCons(w[0], WaitingEntries(w[1..]));
      }
    }
  }

  /** A waiting entry added last is last among the waiting ones. */
  lemma {:induction false} WaitingEntriesAppend(w: seq<WaitlistEntry>, e: WaitlistEntry)
    requires e.status == Waiting
    ensures WaitingEntries(w + [e]) == WaitingEntries(w) + [e]
  {
    if |w| == 0 {
      assert w + [e] == [e];
    } else {
      assert (w + [e])[1..] == w[1..] + [e];
      WaitingEntriesAppend(w[1..], e);
    }
  }

  /** `findIndex` on the apartment key. */
  function IndexOfKey(entries: seq<WaitlistEntry>, key: string): (r: Option<nat>)
    ensures r.Some? ==> r.value < |entries| && entries[r.value].apartmentKey == key
    ensures r.Some? ==> forall j :: 0 <= j < r.value ==> entries[j].apartmentKey != key
    ensures r.None? ==> forall j :: 0 <= j < |entries| ==> entries[j].apartmentKey != key
  {
    if |entries| == 0 then None
    else if entries[0].apartmentKey == key then Some(0)
    else match IndexOfKey(entries[1..], key)
      case None => None
      case Some(k) => Some(k + 1)
  }

  /** `getWaitlistPosition`: the 1-based place of the apartment among the
      waiting entries, 0 when it has none. */
  function WaitlistPosition(w: seq<WaitlistEntry>, key: string): nat {
    match IndexOfKey(WaitingEntries(w), key)
    case Some(i) => i + 1
    case None => 0
  }

  /** The position is 0 exactly when the apartment has no waiting entry;
      otherwise it names the first waiting entry with the key, and every
      waiting entry ahead of it is for another apartment. */
  lemma WaitlistPositionSpec(w: seq<WaitlistEntry>, key: string)
    ensures var p := WaitlistPosition(w, key);
      var r := WaitingEntries(w);
      (p == 0 <==> !HasWaiting(w, key)) &&
      (p > 0 ==> p <= |r| && r[p - 1].apartmentKey == key && r[p - 1].status == Waiting) &&
      (p > 0 ==> forall j :: 0 <= j < p - 1 ==> r[j].apartmentKey != key)
  {
    var r := WaitingEntries(w);
    if HasWaiting(w, key) {
      var i :| 0 <= i < |w| && w[i].status == Waiting && w[i].apartmentKey == key;
      assert w[i] in r;
    }
  }

  /** The first waiting entry with the key: the row the `executeTakeFirst`
      lookups return. */
  function FindWaiting(w: seq<WaitlistEntry>, key: string): (r: Option<nat>)
    ensures r.Some? <==> HasWaiting(w, key)
    ensures r.Some? ==> r.value < |w| && w[r.value].status == Waiting && w[r.value].apartmentKey == key
  {
    if |w| == 0 then None
    else if w[0].status == Waiting && w[0].apartmentKey == key then Some(0)
    else match FindWaiting(w[1..], key)
      case None => None
      case Some(k) => Some(k + 1)
  }

  /** Under the unique index, the entry a lookup finds is the one at the
      reported position, so `joinedAt` and `position` describe one entry. */
  lemma PositionNamesTheEntry(w: seq<WaitlistEntry>, key: string)
    requires UniqueWaitingApartment(w) && HasWaiting(w, key)
    ensures WaitlistPosition(w, key) > 0
    ensures WaitingEntries(w)[WaitlistPosition(w, key) - 1] == w[FindWaiting(w, key).value]
  {
    WaitlistPositionSpec(w, key);
    var r := WaitingEntries(w);
    var p := WaitlistPosition(w, key);
    var k := FindWaiting(w, key).value;
    assert r[p - 1] in r;
    var j :| 0 <= j < |w| && w[j] == r[p - 1];
  }

  /** An entry added for an apartment with no waiting entry is last in
      line. */
  lemma JoinedLast(w: seq<WaitlistEntry>, e: WaitlistEntry)
    requires e.status == Waiting && !HasWaiting(w, e.apartmentKey)
    ensures WaitlistPosition(w + [e], e.apartmentKey) == |WaitingEntries(w)| + 1
  {
    var r := WaitingEntries(w);
    WaitingEntriesAppend(w, e);
    var r' := r + [e];
    forall j | 0 <= j < |r| ensures r'[j].apartmentKey != e.apartmentKey {
      assert r'[j] == r[j] && r[j] in r;
    }
    var p := IndexOfKey(r', e.apartmentKey);
    assert r'[|r|] == e;
  }

  // ------------------------------------------------------------ joining

  /** The fields of a request `validateWaitlistInput` accepted. */
  datatype WaitlistInput = WaitlistInput(
    name: string, email: string, street: string, houseNumber: int,
    floor: Option<string>, door: Option<string>, language: Language)

  /** `validateWaitlistInput`'s verdict on a request body. */
  datatype WaitlistVerdict = Accepted(input: WaitlistInput) | Rejected(errors: map<string, string>)

  const BOXES_AVAILABLE: string := "Boxes are still available. Please register for a box instead."
  const ALREADY_ON_WAITLIST: string := "This apartment is already on the waitlist"

  /** `isUniqueViolation`: the thrown value carries the code "23505". */
  predicate IsUniqueViolation(err: Thrown) {
    match err
    case App(e) => e.code == Some(UNIQUE_VIOLATION)
    case Foreign(code) => code == Some(UNIQUE_VIOLATION)
  }

  /** What the handler rethrows when the insert fails: a unique violation,
      a concurrent join for the same apartment, becomes a 409
      `ALREADY_ON_WAITLIST`; any other error passes unchanged. */
  function InsertFailureError(err: Thrown): (e: Thrown)
    ensures IsUniqueViolation(err) ==>
      e.App? && e.err.statusCode == 409 && e.err.message == ALREADY_ON_WAITLIST && e.err.code == Some("ALREADY_ON_WAITLIST")
    ensures !IsUniqueViolation(err) ==> e == err
    ensures err == Foreign(Some("23505")) ==> e.App? && e.err.statusCode == 409
  {
    if IsUniqueViolation(err) then App(Conflict(ALREADY_ON_WAITLIST, Some("ALREADY_ON_WAITLIST"))) else err
  }

  /** The apartment key of an accepted request. */
  function InputKey(input: WaitlistInput): string {
    Validators.NormalizeApartmentKey(input.street, input.houseNumber, input.floor, input.door)
  }

  /** Why a join fails, in the order the handler checks: no body, boxes
      still available, then the insert's own failure. A rejected body and
      an apartment already waiting are answers, not failures. */
  function JoinRejection(t: Tables, request: Option<WaitlistVerdict>, insertFailure: Option<Thrown>): Option<Thrown> {
    if request.None? then Some(App(BadRequest(BODY_REQUIRED, None)))
    else if request.value.Rejected? then None
    else if |AvailableBoxes(t.boxes)| > 0 then Some(App(BadRequest(BOXES_AVAILABLE, Some("BOXES_AVAILABLE"))))
    else if HasWaiting(t.waitlist, InputKey(request.value.input)) then None
    else if insertFailure.Some? then Some(InsertFailureError(insertFailure.value))
    else None
  }

  /** The inserted row: the request's fields, the normalised key, a fresh
      id, `created_at` now and the default status `waiting`. */
  function NewEntry(input: WaitlistInput, key: string, id: Uuid, now: nat): WaitlistEntry {
    WaitlistEntry(id, input.name, input.email, input.street, input.houseNumber, input.floor, input.door,
                  key, input.language, Waiting, now)
  }

  /** The `waitlist_add` event: a public actor without an id. */
  function WaitlistAddEvent(e: WaitlistEntry): AuditInput {
    AuditInput(Public, None, "waitlist_add", "waitlist_entry", IdText(e.id), None,
               Some([("email", Str(e.email)), ("apartmentKey", Str(e.apartmentKey))]), None)
  }

  /** The tables after the join transaction. */
  function JoinCommitted(t: Tables, input: WaitlistInput, key: string): Tables {
    var t0 := Begin(t);
    var e := NewEntry(input, key, t0.nextUuid, t0.clock);
    Logged(AddEntry(t0, e), WaitlistAddEvent(e))
  }

  lemma JoinCommitKeepsValid(t: Tables, input: WaitlistInput, key: string)
    requires Valid(t) && !HasWaiting(t.waitlist, key)
    ensures Valid(JoinCommitted(t, input, key))
    ensures Consistent(t) ==> Consistent(JoinCommitted(t, input, key))
  {
    BeginKeepsValid(t);
    var t0 := Begin(t);
    var e := NewEntry(input, key, t0.nextUuid, t0.clock);
    JoinKeepsValid(t0, e);
    LoggedKeepsValid(AddEntry(t0, e), WaitlistAddEvent(e));
  }

  /** The join transaction: insert the entry, log it. */
  method CommitJoin(db: Db, input: WaitlistInput, key: string) returns (entryId: Uuid)
    modifies db
    ensures entryId == old(db.nextUuid)
    ensures db.waitlist == old(db.waitlist) + [NewEntry(input, key, old(db.nextUuid), old(db.clock) + 1)]
    ensures db.Snapshot() == JoinCommitted(old(db.Snapshot()), input, key)
  {
    ghost var t := db.Snapshot();
    db.Tick();
    var id := db.NewId();
    var e := NewEntry(input, key, id, db.clock);
    db.waitlist := db.waitlist + [e];
    assert db.Snapshot() == AddEntry(Begin(t), e);
    LogAuditEvent(db, WaitlistAddEvent(e));
    entryId := id;
  }

  /** `handleJoinWaitlist`. `request` is `None` without a body, and
      otherwise `validateWaitlistInput`'s verdict on it; `insertFailure` is
      what the insert throws when a concurrent join has taken the unique
      index in the meantime, or any other storage error. */
  method HandleJoinWaitlist(db: Db, request: Option<WaitlistVerdict>, insertFailure: Option<Thrown>)
    returns (r: Result<Response, Thrown>)
    requires db.Valid()
    modifies db
    ensures db.Valid()
    ensures old(db.Consistent()) ==> db.Consistent()
    ensures r.Failure? <==> JoinRejection(old(db.Snapshot()), request, insertFailure).Some?
    ensures r.Failure? ==> r.error == JoinRejection(old(db.Snapshot()), request, insertFailure).value && unchanged(db)
    ensures r.Success? && request.value.Rejected? ==>
      r.value == Response(422, InvalidInput(request.value.errors)) && unchanged(db)
    ensures r.Success? && request.value.Accepted? && HasWaiting(old(db.waitlist), InputKey(request.value.input)) ==>
      var key := InputKey(request.value.input);
      r.value == Response(200, AlreadyOnWaitlist(WaitlistPosition(old(db.waitlist), key),
                                                 old(db.waitlist)[FindWaiting(old(db.waitlist), key).value].createdAt)) &&
      unchanged(db)
    ensures r.Success? && request.value.Accepted? && !HasWaiting(old(db.waitlist), InputKey(request.value.input)) ==>
      r.value == Response(201, JoinedWaitlist(IdText(old(db.nextUuid)), |WaitingEntries(old(db.waitlist))| + 1)) &&
      db.Snapshot() == JoinCommitted(old(db.Snapshot()), request.value.input, InputKey(request.value.input))
  {
    if request.None? {
      return Failure(App(BadRequest(BODY_REQUIRED, None)));
    }
    if request.value.Rejected? {
      return Success(Response(422, InvalidInput(request.value.errors)));
    }
    var input := request.value.input;
    var key := InputKey(input);
    if |AvailableBoxes(db.boxes)| > 0 {
      return Failure(App(BadRequest(BOXES_AVAILABLE, Some("BOXES_AVAILABLE"))));
    }
    var existing := FindWaiting(db.waitlist, key);
    if existing.Some? {
      var position := WaitlistPosition(db.waitlist, key);
      return Success(Response(200, AlreadyOnWaitlist(position, db.waitlist[existing.value].createdAt)));
    }
    if insertFailure.Some? {
      // The transaction rolls back; the catch block maps the error.
      if IsUniqueViolation(insertFailure.value) {
        return Failure(App(Conflict(ALREADY_ON_WAITLIST, Some("ALREADY_ON_WAITLIST"))));
      }
      return Failure(insertFailure.value);
    }
    r := JoinNew(db, input, key);
  }

  /** The insert path of the join: commit, then report the new entry's
      place, which is last in line. */
  method JoinNew(db: Db, input: WaitlistInput, key: string) returns (r: Result<Response, Thrown>)
    requires db.Valid() && !HasWaiting(db.waitlist, key)
    modifies db
    ensures db.Valid()
    ensures old(db.Consistent()) ==> db.Consistent()
    ensures r == Success(Response(201, JoinedWaitlist(IdText(old(db.nextUuid)), |WaitingEntries(old(db.waitlist))| + 1)))
    ensures db.Snapshot() == JoinCommitted(old(db.Snapshot()), input, key)
  {
    ghost var t0 := db.Snapshot();
    var entryId := CommitJoin(db, input, key);
    JoinCommitKeepsValid(t0, input, key);
    JoinedLast(t0.waitlist, NewEntry(input, key, t0.nextUuid, t0.clock + 1));
    var position := WaitlistPosition(db.waitlist, key);
    r := Success(Response(201, JoinedWaitlist(IdText(entryId), position)));
  }

  /** A join that goes through adds exactly one waiting entry, under a fresh
      id, for the normalised key and created now, and logs exactly one
      public `waitlist_add` event naming it; boxes and registrations are
      untouched, and the audit log only grows. */
  lemma JoinEffect(t: Tables, input: WaitlistInput, key: string)
    ensures var t' := JoinCommitted(t, input, key);
      var e := t'.waitlist[|t.waitlist|];
      |t'.waitlist| == |t.waitlist| + 1 && t'.waitlist[..|t.waitlist|] == t.waitlist &&
      e.id == t.nextUuid && e.apartmentKey == key && e.status == Waiting && e.createdAt == t'.clock &&
      e.name == input.name && e.email == input.email && e.language == input.language &&
      |t'.audit| == |t.audit| + 1 && t'.audit[..|t.audit|] == t.audit &&
      t'.audit[|t.audit|].actorType == Public && t'.audit[|t.audit|].actorId.None? &&
      t'.audit[|t.audit|].action == "waitlist_add" && t'.audit[|t.audit|].entityId == IdText(e.id) &&
      t'.boxes == t.boxes && t'.registrations == t.registrations
  {
    var t0 := Begin(t);
    var e := NewEntry(input, key, t0.nextUuid, t0.clock);
    assert AddEntry(t0, e).waitlist == t.waitlist + [e];
  }

  /** A join is refused with `BOXES_AVAILABLE` whenever some box is
      available, and reserved or occupied boxes alone never refuse it: with
      no available box and no storage failure it goes through. */
  lemma JoinRefusedWhileBoxesAvailable(t: Tables, input: WaitlistInput, insertFailure: Option<Thrown>)
    ensures (exists id :: id in t.boxes && t.boxes[id].state == Available) ==>
      JoinRejection(t, Some(Accepted(input)), insertFailure) == Some(App(BadRequest(BOXES_AVAILABLE, Some("BOXES_AVAILABLE"))))
    ensures (forall id :: id in t.boxes ==> t.boxes[id].state != Available) ==>
      JoinRejection(t, Some(Accepted(input)), None).None?
  {
    AvailableCountPositive(t.boxes);
  }

  // ------------------------------------------------------ position lookup

  const KEY_REQUIRED: string := "Apartment key is required"

  /** `handleWaitlistPosition`; `apartmentKey` is the decoded route
      parameter. */
  function HandleWaitlistPosition(t: Tables, apartmentKey: Option<string>): (r: Result<Response, Thrown>)
    requires UniqueWaitingApartment(t.waitlist)
    ensures (apartmentKey.None? || apartmentKey.value == "") <==> r.Failure?
    ensures r.Failure? ==> r.error == App(BadRequest(KEY_REQUIRED, None))
    ensures r.Success? ==> (r.value.statusCode == 200 &&
      (r.value.body == NotOnWaitlist <==> !HasWaiting(t.waitlist, apartmentKey.value)))
    ensures r.Success? && r.value.body.OnWaitlist? ==>
      var p := r.value.body.position;
      var waiting := WaitingEntries(t.waitlist);
      1 <= p <= |waiting| && waiting[p - 1].apartmentKey == apartmentKey.value &&
      waiting[p - 1].createdAt == r.value.body.joinedAt
  {
    var key := apartmentKey.GetOr("");
    if key == "" then Failure(App(BadRequest(KEY_REQUIRED, None)))
    else match FindWaiting(t.waitlist, key)
      case None => Success(Response(200, NotOnWaitlist))
      case Some(k) =>
        WaitlistPositionSpec(t.waitlist, key);
        PositionNamesTheEntry(t.waitlist, key);
        Success(Response(200, OnWaitlist(WaitlistPosition(t.waitlist, key), t.waitlist[k].createdAt)))
  }

  // ------------------------------------------------- greenhouse summaries

  /** `{ name, totalBoxes, availableBoxes, occupiedBoxes, reservedBoxes }`. */
  datatype GreenhouseSummary = GreenhouseSummary(
    name: string, totalBoxes: nat, availableBoxes: nat, occupiedBoxes: nat, reservedBoxes: nat)

  function BoxesIn(boxes: map<int, PlanterBox>, name: string): set<int> {
    set id | id in boxes && boxes[id].greenhouseName == name
  }

  function BoxesInState(boxes: map<int, PlanterBox>, name: string, state: BoxState): set<int> {
    set id | id in boxes && boxes[id].greenhouseName == name && boxes[id].state == state
  }

  /** The three states split a greenhouse's boxes. */
  lemma StatesPartition(boxes: map<int, PlanterBox>, name: string)
    ensures |BoxesIn(boxes, name)| ==
      |BoxesInState(boxes, name, Available)| + |BoxesInState(boxes, name, Occupied)| +
      |BoxesInState(boxes, name, Reserved)|
  {
    var a := BoxesInState(boxes, name, Available);
    var o := BoxesInState(boxes, name, Occupied);
    var s := BoxesInState(boxes, name, Reserved);
    forall id | id in BoxesIn(boxes, name) ensures id in a + o + s {
      match boxes[id].state
      case Available => assert id in a;
      case Occupied => assert id in o;
      case Reserved => assert id in s;
    }
    assert BoxesIn(boxes, name) == a + o + s;
    assert a * o == {};
    assert (a + o) * s == {};
  }

  /** One greenhouse's summary: its counts by state add up to its total. */
  function Summarize(boxes: map<int, PlanterBox>, name: string): (s: GreenhouseSummary)
    ensures s.name == name && s.totalBoxes == |BoxesIn(boxes, name)|
    ensures s.availableBoxes + s.occupiedBoxes + s.reservedBoxes == s.totalBoxes
  {
    StatesPartition(boxes, name);
    GreenhouseSummary(name, |BoxesIn(boxes, name)|, |BoxesInState(boxes, name, Available)|,
                      |BoxesInState(boxes, name, Occupied)|, |BoxesInState(boxes, name, Reserved)|)
  }

  /** `handlePublicGreenhouses`: one summary per greenhouse of the fixed
      list, in its order. */
  function PublicGreenhouses(t: Tables): (r: Response)
    ensures r.statusCode == 200 && r.body.Summaries? && |r.body.greenhouses| == |GREENHOUSES|
    ensures forall i :: 0 <= i < |GREENHOUSES| ==> r.body.greenhouses[i] == Summarize(t.boxes, GREENHOUSES[i])
  {
    Response(200, Summaries([Summarize(t.boxes, KRONEN), Summarize(t.boxes, SOEN)]))
  }

  /** When the greenhouse table holds exactly the fixed list, the two
      summaries count every box once. */
  lemma SummariesCoverEveryBox(t: Tables)
    requires Valid(t) && t.greenhouses == GREENHOUSES
    ensures var s := PublicGreenhouses(t).body.greenhouses;
      s[0].totalBoxes + s[1].totalBoxes == |t.boxes.Keys|
  {
    var k := BoxesIn(t.boxes, KRONEN);
    var n := BoxesIn(t.boxes, SOEN);
    forall id | id in t.boxes ensures id in k + n {
      assert t.boxes[id].greenhouseName in GREENHOUSES;
    }
    assert t.boxes.Keys == k + n;
    assert KRONEN[0] != SOEN[0];
    assert k * n == {};
  }

  // ---------------------------------------------------------- address check

  /** The body of `handleValidateAddress`; an absent field is `None`. */
  datatype AddressBody = AddressBody(
    street: Option<string>, houseNumber: Option<Validators.Number>, floor: Option<string>, door: Option<string>)

  /** `handleValidateAddress`: a missing street reads as "", a missing house
      number as NaN. */
  function HandleValidateAddress(body: Option<AddressBody>): (r: Result<Response, Thrown>)
    ensures body.None? <==> r.Failure?
    ensures r.Failure? ==> r.error == App(BadRequest(BODY_REQUIRED, None))
    ensures r.Success? ==> r.value.statusCode == 200 && r.value.body.AddressVerdict?
    ensures r.Success? ==>
      var street := body.value.street.GetOr("");
      var n := body.value.houseNumber.GetOr(Validators.NonInteger);
      var v := r.value.body;
      (v.eligible <==> Text.Trim(street) == ELIGIBLE_STREET && n.Integer? &&
                       HOUSE_NUMBER_MIN <= n.value <= HOUSE_NUMBER_MAX &&
                       Validators.ValidateFloorDoor(n, body.value.floor, body.value.door).Valid?) &&
      var verdict := Validators.ValidateAddress(street, n, body.value.floor, body.value.door);
      (!v.eligible ==> verdict.Invalid? && v.error == Some(verdict.error) &&
                       !v.floorDoorRequired && v.apartmentKey.None?) &&
      (v.eligible ==> v.error.None? && v.floorDoorRequired == Validators.IsFloorDoorRequired(n) &&
                      v.apartmentKey == Some(Validators.NormalizeApartmentKey(street, n.value, body.value.floor, body.value.door)))
  {
    if body.None? then Failure(App(BadRequest(BODY_REQUIRED, None)))
    else
      var street := body.value.street.GetOr("");
      var n := body.value.houseNumber.GetOr(Validators.NonInteger);
      var floor := body.value.floor;
      var door := body.value.door;
      Validators.ValidateAddressFirstFailure(street, n, floor, door);
      match Validators.ValidateAddress(street, n, floor, door)
      case Invalid(error) => Success(Response(200, AddressVerdict(false, Some(error), false, None)))
      case Valid =>
        Success(Response(200, AddressVerdict(true, None, Validators.IsFloorDoorRequired(n),
                                             Some(Validators.NormalizeApartmentKey(street, n.value, floor, door)))))
  }
}
