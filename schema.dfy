/** The tables of the database and the constraints the initial migration
    declares on them: the check constraints, the primary and foreign keys and
    the partial unique indexes. Enumerated columns (box state, statuses,
    language, actor type) are Dafny datatypes, so their check constraints
    hold by typing. Row identifiers come from one counter (`nextUuid`), the
    model's stand-in for `gen_random_uuid()`: a fresh id is one never handed
    out before. `clock` stands for the database's `now()`.

    Besides the declared constraints, `Consistent` adds the bookkeeping the
    handlers keep although no constraint enforces it: a box is occupied
    exactly when an active registration references it, and only a reserved
    box carries a reserved label. */
module Schema {
  import opened Wrappers
  import opened Text
  import opened Enums
  import opened Constants
  import AdminEmailTemplates

  /** The SQLSTATE a unique-index violation carries. */
  const UNIQUE_VIOLATION: string := "23505"

  /** A row identifier. */
  type Uuid = nat

  /** An identifier as the API and the audit log write it. */
  function IdText(id: Uuid): string {
    NatToString(id)
  }

  datatype PlanterBox = PlanterBox(
    name: string, greenhouseName: string, state: BoxState, reservedLabel: Option<string>)

  datatype Registration = Registration(
    id: Uuid, boxId: int, name: string, email: string, street: string, houseNumber: int,
    floor: Option<string>, door: Option<string>, apartmentKey: string, language: Language,
    status: RegistrationStatus)

  datatype WaitlistEntry = WaitlistEntry(
    id: Uuid, name: string, email: string, street: string, houseNumber: int,
    floor: Option<string>, door: Option<string>, apartmentKey: string, language: Language,
    status: WaitlistStatus, createdAt: nat)

  /** A JSON value inside an audit snapshot. */
  datatype Value = Str(s: string) | Num(n: int) | Bool(b: bool) | Null

  /** A serialised `before` or `after` object: its keys and values in order. */
  type Snapshot = seq<(string, Value)>

  datatype AuditEvent = AuditEvent(
    id: Uuid, timestamp: nat, actorType: ActorType, actorId: Option<string>, action: string,
    entityType: string, entityId: string, before: Option<Snapshot>, after: Option<Snapshot>,
    reason: Option<string>)

  datatype EmailStatus = Pending | Sent | Failed

  /** An e-mail body: html written by an administrator, or a rendered
      notification template. */
  datatype EmailBody = Html(html: string) | Template(page: AdminEmailTemplates.Page)

  datatype EmailRow = EmailRow(
    id: Uuid, recipientEmail: string, language: Language, subject: string, body: EmailBody,
    status: EmailStatus, editedBeforeSend: bool)

  datatype SettingsRow = SettingsRow(id: Uuid, openingDatetime: string)
  datatype AdminRow = AdminRow(id: Uuid, email: string)
  datatype Credential = Credential(adminId: Uuid, passwordHash: string)

  /** A session; `expiresAt` is in milliseconds on the caller's clock. */
  datatype SessionRow = SessionRow(id: Uuid, adminId: Uuid, expiresAt: int)

  /** All tables at one moment. */
  datatype Tables = Tables(
    greenhouses: seq<string>,
    boxes: map<int, PlanterBox>,
    registrations: seq<Registration>,
    waitlist: seq<WaitlistEntry>,
    audit: seq<AuditEvent>,
    emails: seq<EmailRow>,
    settings: seq<SettingsRow>,
    admins: seq<AdminRow>,
    credentials: seq<Credential>,
    sessions: seq<SessionRow>,
    nextUuid: Uuid,
    clock: nat)

  // ------------------------------------------------------------ queries

  /** Some active registration references the box. */
  predicate HasActiveOnBox(regs: seq<Registration>, boxId: int) {
    exists i :: 0 <= i < |regs| && regs[i].status == Active && regs[i].boxId == boxId
  }

  /** Some active registration has the apartment key. */
  predicate HasActiveForApartment(regs: seq<Registration>, key: string) {
    exists i :: 0 <= i < |regs| && regs[i].status == Active && regs[i].apartmentKey == key
  }

  /** Some waiting waitlist entry has the apartment key. */
  predicate HasWaiting(w: seq<WaitlistEntry>, key: string) {
    exists i :: 0 <= i < |w| && w[i].status == Waiting && w[i].apartmentKey == key
  }

  // ------------------------------------------------------ the constraints

  /** The greenhouse name is the primary key. */
  predicate GreenhousesValid(greenhouses: seq<string>) {
    forall i, j :: 0 <= i < j < |greenhouses| ==> greenhouses[i] != greenhouses[j]
  }

  /** `chk_box_id_range`, and the greenhouse foreign key. */
  predicate BoxesValid(greenhouses: seq<string>, boxes: map<int, PlanterBox>) {
    forall id :: id in boxes ==> 1 <= id <= TOTAL_BOX_COUNT && boxes[id].greenhouseName in greenhouses
  }

  /** `uq_registrations_active_apartment`. */
  predicate UniqueActiveApartment(regs: seq<Registration>) {
    forall i, j :: 0 <= i < j < |regs| && regs[i].status == Active && regs[j].status == Active ==>
      regs[i].apartmentKey != regs[j].apartmentKey
  }

  /** `uq_registrations_active_box`. */
  predicate UniqueActiveBox(regs: seq<Registration>) {
    forall i, j :: 0 <= i < j < |regs| && regs[i].status == Active && regs[j].status == Active ==>
      regs[i].boxId != regs[j].boxId
  }

  /** The box foreign key, the primary key and both partial unique indexes. */
  predicate RegistrationsValid(boxes: map<int, PlanterBox>, regs: seq<Registration>, next: Uuid) {
    (forall i :: 0 <= i < |regs| ==> regs[i].boxId in boxes && regs[i].id < next) &&
    (forall i, j :: 0 <= i < j < |regs| ==> regs[i].id < regs[j].id) &&
    UniqueActiveApartment(regs) && UniqueActiveBox(regs)
  }

  /** `uq_waitlist_active_apartment`. */
  predicate UniqueWaitingApartment(w: seq<WaitlistEntry>) {
    forall i, j :: 0 <= i < j < |w| && w[i].status == Waiting && w[j].status == Waiting ==>
      w[i].apartmentKey != w[j].apartmentKey
  }

  /** The primary key and the unique index; entries are kept in creation
      order, each created strictly later than the one before and no later
      than now. */
  predicate WaitlistValid(w: seq<WaitlistEntry>, next: Uuid, clock: nat) {
    (forall i :: 0 <= i < |w| ==> w[i].id < next && w[i].createdAt <= clock) &&
    (forall i, j :: 0 <= i < j < |w| ==> w[i].id < w[j].id && w[i].createdAt < w[j].createdAt) &&
    UniqueWaitingApartment(w)
  }

  predicate AuditValid(audit: seq<AuditEvent>, next: Uuid) {
    (forall i :: 0 <= i < |audit| ==> audit[i].id < next) &&
    (forall i, j :: 0 <= i < j < |audit| ==> audit[i].id < audit[j].id)
  }

  predicate EmailsValid(emails: seq<EmailRow>, next: Uuid) {
    (forall i :: 0 <= i < |emails| ==> emails[i].id < next) &&
    (forall i, j :: 0 <= i < j < |emails| ==> emails[i].id < emails[j].id)
  }

  predicate SettingsValid(settings: seq<SettingsRow>, next: Uuid) {
    (forall i :: 0 <= i < |settings| ==> settings[i].id < next) &&
    (forall i, j :: 0 <= i < j < |settings| ==> settings[i].id < settings[j].id)
  }

  predicate IsAdmin(admins: seq<AdminRow>, id: Uuid) {
    exists k :: 0 <= k < |admins| && admins[k].id == id
  }

  /** Admin ids and e-mails are unique; a credential belongs to an admin,
      at most one per admin; a session belongs to an admin. */
  predicate AccountsValid(admins: seq<AdminRow>, credentials: seq<Credential>, sessions: seq<SessionRow>, next: Uuid) {
    (forall i :: 0 <= i < |admins| ==> admins[i].id < next) &&
    (forall i, j :: 0 <= i < j < |admins| ==> admins[i].id < admins[j].id && admins[i].email != admins[j].email) &&
    (forall i :: 0 <= i < |credentials| ==> IsAdmin(admins, credentials[i].adminId)) &&
    (forall i, j :: 0 <= i < j < |credentials| ==> credentials[i].adminId != credentials[j].adminId) &&
    (forall i :: 0 <= i < |sessions| ==> sessions[i].id < next && IsAdmin(admins, sessions[i].adminId)) &&
    (forall i, j :: 0 <= i < j < |sessions| ==> sessions[i].id < sessions[j].id)
  }

  /** Every constraint the schema declares. */
  predicate Valid(t: Tables) {
    GreenhousesValid(t.greenhouses) &&
    BoxesValid(t.greenhouses, t.boxes) &&
    RegistrationsValid(t.boxes, t.registrations, t.nextUuid) &&
    WaitlistValid(t.waitlist, t.nextUuid, t.clock) &&
    AuditValid(t.audit, t.nextUuid) &&
    EmailsValid(t.emails, t.nextUuid) &&
    SettingsValid(t.settings, t.nextUuid) &&
    AccountsValid(t.admins, t.credentials, t.sessions, t.nextUuid)
  }

  // ------------------------------------------------- the kept bookkeeping

  /** A box is occupied exactly when an active registration references it. */
  predicate Occupancy(boxes: map<int, PlanterBox>, regs: seq<Registration>) {
    forall id :: id in boxes ==> (boxes[id].state == Occupied <==> HasActiveOnBox(regs, id))
  }

  /** Only a reserved box carries a reserved label. */
  predicate LabelsOnlyWhenReserved(boxes: map<int, PlanterBox>) {
    forall id :: id in boxes && boxes[id].state != Reserved ==> boxes[id].reservedLabel.None?
  }

  predicate Consistent(t: Tables) {
    Valid(t) && Occupancy(t.boxes, t.registrations) && LabelsOnlyWhenReserved(t.boxes)
  }

  /** With the unique index, the kept bookkeeping says more: an occupied box
      is referenced by exactly one active registration, and a box that is
      not occupied by none. */
  lemma OccupiedIffExactlyOneActive(boxes: map<int, PlanterBox>, regs: seq<Registration>, id: int)
    requires UniqueActiveBox(regs) && Occupancy(boxes, regs) && id in boxes
    ensures boxes[id].state == Occupied <==>
      exists i :: 0 <= i < |regs| && regs[i].status == Active && regs[i].boxId == id &&
        forall j :: 0 <= j < |regs| && regs[j].status == Active && regs[j].boxId == id ==> j == i
  {
    if boxes[id].state == Occupied {
      var i :| 0 <= i < |regs| && regs[i].status == Active && regs[i].boxId == id;
      forall j | 0 <= j < |regs| && regs[j].status == Active && regs[j].boxId == id
        ensures j == i
      {
      }
    }
  }

  // ----------------------------------------- how the handlers change rows

  /** The box after a registration takes it. */
  function Occupy(box: PlanterBox): PlanterBox {
    box.(state := Occupied, reservedLabel := None)
  }

  lemma HasActiveOnBoxAppend(regs: seq<Registration>, reg: Registration, id: int)
    ensures HasActiveOnBox(regs + [reg], id) <==>
      HasActiveOnBox(regs, id) || (reg.status == Active && reg.boxId == id)
  {
    var s := regs + [reg];
    if HasActiveOnBox(regs, id) {
      var i :| 0 <= i < |regs| && regs[i].status == Active && regs[i].boxId == id;
      assert s[i] == regs[i];
    }
    if reg.status == Active && reg.boxId == id {
      assert s[|regs|] == reg;
    }
    if HasActiveOnBox(s, id) {
      var i :| 0 <= i < |s| && s[i].status == Active && s[i].boxId == id;
      if i < |regs| {
        assert regs[i] == s[i];
      }
    }
  }

  lemma HasActiveForApartmentAppend(regs: seq<Registration>, reg: Registration, key: string)
    ensures HasActiveForApartment(regs + [reg], key) <==>
      HasActiveForApartment(regs, key) || (reg.status == Active && reg.apartmentKey == key)
  {
    var s := regs + [reg];
    if HasActiveForApartment(regs, key) {
      var i :| 0 <= i < |regs| && regs[i].status == Active && regs[i].apartmentKey == key;
      assert s[i] == regs[i];
    }
    if reg.status == Active && reg.apartmentKey == key {
      assert s[|regs|] == reg;
    }
    if HasActiveForApartment(s, key) {
      var i :| 0 <= i < |s| && s[i].status == Active && s[i].apartmentKey == key;
      if i < |regs| {
        assert regs[i] == s[i];
      }
    }
  }

  /** Creating an active registration on a box and occupying that box
      (create, and assign from the waitlist) keeps the bookkeeping. */
  lemma InsertKeepsOccupancy(boxes: map<int, PlanterBox>, regs: seq<Registration>, reg: Registration)
    requires Occupancy(boxes, regs) && LabelsOnlyWhenReserved(boxes)
    requires reg.status == Active && reg.boxId in boxes
    ensures Occupancy(boxes[reg.boxId := Occupy(boxes[reg.boxId])], regs + [reg])
    ensures LabelsOnlyWhenReserved(boxes[reg.boxId := Occupy(boxes[reg.boxId])])
  {
    forall id | id in boxes
      ensures HasActiveOnBox(regs + [reg], id) <==> HasActiveOnBox(regs, id) || reg.boxId == id
    {
      HasActiveOnBoxAppend(regs, reg, id);
    }
  }

  /** The same insertion respects both unique indexes when neither the
      apartment nor the box has an active registration yet. */
  lemma InsertKeepsUnique(regs: seq<Registration>, reg: Registration)
    requires UniqueActiveApartment(regs) && UniqueActiveBox(regs)
    requires !HasActiveForApartment(regs, reg.apartmentKey) && !HasActiveOnBox(regs, reg.boxId)
    ensures UniqueActiveApartment(regs + [reg]) && UniqueActiveBox(regs + [reg])
  {
    var s := regs + [reg];
    forall i, j | 0 <= i < j < |s| && s[i].status == Active && s[j].status == Active
      ensures s[i].apartmentKey != s[j].apartmentKey && s[i].boxId != s[j].boxId
    {
      if j == |regs| {
        assert s[i] == regs[i];
      } else {
        assert s[i] == regs[i] && s[j] == regs[j];
      }
    }
  }

  /** Moving an active registration from its box to another one (which
      becomes occupied while the old one becomes available) keeps the
      bookkeeping. */
  lemma MoveKeepsOccupancy(boxes: map<int, PlanterBox>, regs: seq<Registration>, i: nat, newBoxId: int)
    requires Occupancy(boxes, regs) && LabelsOnlyWhenReserved(boxes) && UniqueActiveBox(regs)
    requires i < |regs| && regs[i].status == Active && regs[i].boxId in boxes
    requires newBoxId in boxes && newBoxId != regs[i].boxId
    ensures var oldBoxId := regs[i].boxId;
      var boxes' := boxes[oldBoxId := boxes[oldBoxId].(state := Available, reservedLabel := None)]
                         [newBoxId := Occupy(boxes[newBoxId])];
      Occupancy(boxes', regs[i := regs[i].(boxId := newBoxId)]) && LabelsOnlyWhenReserved(boxes')
  {
    var oldBoxId := regs[i].boxId;
    var s := regs[i := regs[i].(boxId := newBoxId)];
    assert HasActiveOnBox(s, newBoxId) by { assert s[i].boxId == newBoxId; }
    assert !HasActiveOnBox(s, oldBoxId) by {
      forall j | 0 <= j < |s| && s[j].status == Active
        ensures s[j].boxId != oldBoxId
      {
        if j < i {
          assert regs[j].boxId != regs[i].boxId;
        } else if i < j {
          assert regs[i].boxId != regs[j].boxId;
        }
      }
    }
    forall id | id in boxes && id != oldBoxId && id != newBoxId
      ensures HasActiveOnBox(s, id) <==> HasActiveOnBox(regs, id)
    {
      if HasActiveOnBox(regs, id) {
        var j :| 0 <= j < |regs| && regs[j].status == Active && regs[j].boxId == id;
        assert s[j] == regs[j];
      }
      if HasActiveOnBox(s, id) {
        var j :| 0 <= j < |s| && s[j].status == Active && s[j].boxId == id;
        assert s[j] == regs[j];
      }
    }
  }

  /** The move respects the box index when no active registration holds the
      target box; the apartment index is untouched. */
  lemma MoveKeepsUnique(regs: seq<Registration>, i: nat, newBoxId: int)
    requires UniqueActiveApartment(regs) && UniqueActiveBox(regs)
    requires i < |regs| && !HasActiveOnBox(regs, newBoxId)
    ensures UniqueActiveApartment(regs[i := regs[i].(boxId := newBoxId)])
    ensures UniqueActiveBox(regs[i := regs[i].(boxId := newBoxId)])
  {
    var s := regs[i := regs[i].(boxId := newBoxId)];
    forall j, k | 0 <= j < k < |s| && s[j].status == Active && s[k].status == Active
      ensures s[j].apartmentKey != s[k].apartmentKey && s[j].boxId != s[k].boxId
    {
      assert regs[j].status == Active && regs[k].status == Active;
      if j == i {
        assert s[k] == regs[k];
      } else if k == i {
        assert s[j] == regs[j];
      }
    }
  }

  /** Ending an active registration and releasing or reserving its box
      keeps the bookkeeping, provided the box is labelled only when it is
      reserved. */
  lemma RemoveKeepsOccupancy(
    boxes: map<int, PlanterBox>, regs: seq<Registration>, i: nat, state: BoxState, reservedLabel: Option<string>)
    requires Occupancy(boxes, regs) && LabelsOnlyWhenReserved(boxes) && UniqueActiveBox(regs)
    requires i < |regs| && regs[i].status == Active && regs[i].boxId in boxes
    requires state != Occupied && (state != Reserved ==> reservedLabel.None?)
    ensures var boxes' := boxes[regs[i].boxId := boxes[regs[i].boxId].(state := state, reservedLabel := reservedLabel)];
      Occupancy(boxes', regs[i := regs[i].(status := Removed)]) && LabelsOnlyWhenReserved(boxes')
  {
    var boxId := regs[i].boxId;
    var s := regs[i := regs[i].(status := Removed)];
    assert !HasActiveOnBox(s, boxId) by {
      forall j | 0 <= j < |s| && s[j].status == Active
        ensures s[j].boxId != boxId
      {
        if j < i {
          assert regs[j].boxId != regs[i].boxId;
        } else if i < j {
          assert regs[i].boxId != regs[j].boxId;
        }
      }
    }
    forall id | id in boxes && id != boxId
      ensures HasActiveOnBox(s, id) <==> HasActiveOnBox(regs, id)
    {
      if HasActiveOnBox(regs, id) {
        var j :| 0 <= j < |regs| && regs[j].status == Active && regs[j].boxId == id;
        assert s[j] == regs[j];
      }
      if HasActiveOnBox(s, id) {
        var j :| 0 <= j < |s| && s[j].status == Active && s[j].boxId == id;
        assert s[j] == regs[j];
      }
    }
  }

  /** Ending a registration can only lift unique-index conflicts. */
  lemma RemoveKeepsUnique(regs: seq<Registration>, i: nat)
    requires UniqueActiveApartment(regs) && UniqueActiveBox(regs) && i < |regs|
    ensures UniqueActiveApartment(regs[i := regs[i].(status := Removed)])
    ensures UniqueActiveBox(regs[i := regs[i].(status := Removed)])
  {
    var s := regs[i := regs[i].(status := Removed)];
    forall j, k | 0 <= j < k < |s| && s[j].status == Active && s[k].status == Active
      ensures s[j].apartmentKey != s[k].apartmentKey && s[j].boxId != s[k].boxId
    {
      assert s[j] == regs[j] && s[k] == regs[k];
    }
  }

  /** Under the bookkeeping, a box that is not occupied has no active
      registration, so the unique-index violation the handlers guard
      against on insert or move cannot occur. */
  lemma FreeBoxHasNoActive(boxes: map<int, PlanterBox>, regs: seq<Registration>, boxId: int)
    requires Occupancy(boxes, regs) && boxId in boxes && boxes[boxId].state != Occupied
    ensures !HasActiveOnBox(regs, boxId)
  {
  }

  // ------------------------------------- whole-table steps of the handlers

  /** A transaction starts: `now()` is later than every earlier one. */
  function Begin(t: Tables): Tables {
    t.(clock := t.clock + 1)
  }

  lemma BeginKeepsValid(t: Tables)
    requires Valid(t)
    ensures Valid(Begin(t)) && (Consistent(t) ==> Consistent(Begin(t)))
  {
  }

  /** An active registration under a fresh id takes its box, which becomes
      occupied. */
  function InsertRegistration(t: Tables, reg: Registration): Tables
    requires reg.boxId in t.boxes
  {
    t.(registrations := t.registrations + [reg],
       boxes := t.boxes[reg.boxId := Occupy(t.boxes[reg.boxId])],
       nextUuid := t.nextUuid + 1)
  }

  /** Create and assign: an active registration under a fresh id takes a box
      no active registration holds, for an apartment none holds, and the box
      becomes occupied. */
  lemma InsertKeepsValid(t: Tables, reg: Registration)
    requires Valid(t)
    requires reg.id == t.nextUuid && reg.status == Active && reg.boxId in t.boxes
    requires !HasActiveForApartment(t.registrations, reg.apartmentKey)
    requires !HasActiveOnBox(t.registrations, reg.boxId)
    ensures Valid(InsertRegistration(t, reg))
    ensures Consistent(t) ==> Consistent(InsertRegistration(t, reg))
  {
    InsertKeepsUnique(t.registrations, reg);
    if Consistent(t) {
      InsertKeepsOccupancy(t.boxes, t.registrations, reg);
    }
  }

  /** Assign: a waiting entry becomes assigned. */
  function AssignEntry(t: Tables, k: nat): Tables
    requires k < |t.waitlist|
  {
    t.(waitlist := t.waitlist[k := t.waitlist[k].(status := Assigned)])
  }

  lemma AssignEntryKeepsValid(t: Tables, k: nat)
    requires Valid(t) && k < |t.waitlist|
    ensures Valid(AssignEntry(t, k)) && (Consistent(t) ==> Consistent(AssignEntry(t, k)))
  {
    var w := t.waitlist;
    var w' := w[k := w[k].(status := Assigned)];
    forall i, j | 0 <= i < j < |w'| && w'[i].status == Waiting && w'[j].status == Waiting
      ensures w'[i].apartmentKey != w'[j].apartmentKey
    {
      assert w'[i] == w[i] && w'[j] == w[j];
    }
  }

  /** Move: a registration leaves its box, which becomes available, for
      another box, which becomes occupied. */
  function MoveRegistration(t: Tables, i: nat, newBoxId: int): Tables
    requires i < |t.registrations| && t.registrations[i].boxId in t.boxes && newBoxId in t.boxes
  {
    var regs := t.registrations;
    var oldBoxId := regs[i].boxId;
    t.(registrations := regs[i := regs[i].(boxId := newBoxId)],
       boxes := t.boxes[oldBoxId := t.boxes[oldBoxId].(state := Available, reservedLabel := None)]
                       [newBoxId := Occupy(t.boxes[newBoxId])])
  }

  /** Moving an active registration to a box no active registration holds. */
  lemma MoveKeepsValid(t: Tables, i: nat, newBoxId: int)
    requires Valid(t) && i < |t.registrations| && t.registrations[i].status == Active
    requires newBoxId in t.boxes && newBoxId != t.registrations[i].boxId
    requires !HasActiveOnBox(t.registrations, newBoxId)
    ensures t.registrations[i].boxId in t.boxes
    ensures Valid(MoveRegistration(t, i, newBoxId))
    ensures Consistent(t) ==> Consistent(MoveRegistration(t, i, newBoxId))
  {
    MoveKeepsUnique(t.registrations, i, newBoxId);
    if Consistent(t) {
      MoveKeepsOccupancy(t.boxes, t.registrations, i, newBoxId);
    }
  }

  /** Remove: a registration ends and its box takes the given state and
      label. */
  function EndRegistration(t: Tables, i: nat, state: BoxState, reservedLabel: Option<string>): Tables
    requires i < |t.registrations| && t.registrations[i].boxId in t.boxes
  {
    var regs := t.registrations;
    var boxId := regs[i].boxId;
    t.(registrations := regs[i := regs[i].(status := Removed)],
       boxes := t.boxes[boxId := t.boxes[boxId].(state := state, reservedLabel := reservedLabel)])
  }

  /** Ending an active registration, its box taking a state other than
      occupied, labelled only when reserved. */
  lemma RemoveKeepsValid(t: Tables, i: nat, state: BoxState, reservedLabel: Option<string>)
    requires Valid(t) && i < |t.registrations| && t.registrations[i].status == Active
    requires state != Occupied && (state != Reserved ==> reservedLabel.None?)
    ensures t.registrations[i].boxId in t.boxes
    ensures Valid(EndRegistration(t, i, state, reservedLabel))
    ensures Consistent(t) ==> Consistent(EndRegistration(t, i, state, reservedLabel))
  {
    RemoveKeepsUnique(t.registrations, i);
    if Consistent(t) {
      RemoveKeepsOccupancy(t.boxes, t.registrations, i, state, reservedLabel);
    }
  }

  /** Join: an entry under a fresh id joins the end of the waitlist. */
  function AddEntry(t: Tables, e: WaitlistEntry): Tables {
    t.(waitlist := t.waitlist + [e], nextUuid := t.nextUuid + 1)
  }

  /** Adding a waiting entry under a fresh id, created now, for an apartment
      with no waiting entry. */
  lemma JoinKeepsValid(t: Tables, e: WaitlistEntry)
    requires Valid(t) && (forall i :: 0 <= i < |t.waitlist| ==> t.waitlist[i].createdAt < t.clock)
    requires e.id == t.nextUuid && e.createdAt == t.clock && e.status == Waiting
    requires !HasWaiting(t.waitlist, e.apartmentKey)
    ensures Valid(AddEntry(t, e)) && (Consistent(t) ==> Consistent(AddEntry(t, e)))
  {
    var w := t.waitlist;
    var w' := w + [e];
    forall i, j | 0 <= i < j < |w'| && w'[i].status == Waiting && w'[j].status == Waiting
      ensures w'[i].apartmentKey != w'[j].apartmentKey
    {
      if j == |w| {
        assert w'[i] == w[i];
      } else {
        assert w'[i] == w[i] && w'[j] == w[j];
      }
    }
  }

  /** An audit event under a fresh id. */
  lemma AppendEventKeepsValid(t: Tables, e: AuditEvent)
    requires Valid(t) && e.id == t.nextUuid
    ensures var t' := t.(audit := t.audit + [e], nextUuid := t.nextUuid + 1);
      Valid(t') && (Consistent(t) ==> Consistent(t'))
  {
  }

  /** An e-mail row under a fresh id. */
  lemma AppendEmailKeepsValid(t: Tables, row: EmailRow)
    requires Valid(t) && row.id == t.nextUuid
    ensures var t' := t.(emails := t.emails + [row], nextUuid := t.nextUuid + 1);
      Valid(t') && (Consistent(t) ==> Consistent(t'))
  {
  }

  /** Changing e-mail rows in place, without touching their ids. */
  lemma UpdateEmailKeepsValid(t: Tables, k: nat, row: EmailRow)
    requires Valid(t) && k < |t.emails| && row.id == t.emails[k].id
    ensures var t' := t.(emails := t.emails[k := row]);
      Valid(t') && (Consistent(t) ==> Consistent(t'))
  {
  }
}
