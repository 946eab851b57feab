/** The administrators' registration handlers: create, move, remove, assign
    from the waitlist, and the notification step that follows each of them.
    Every handler checks its request, then runs one transaction: a failure
    inside it leaves every table as it was. The notification step runs after
    the transaction has committed. */
module Registrations {
  import opened Wrappers
  import opened Text
  import opened Enums
  import opened Constants
  import Validators
  import opened Errors
  import opened Schema
  import opened Database
  import opened Audit
  import opened EmailService
  import N = AdminEmailTemplates

  // ------------------------------------------------ the notification step

  /** `NotificationInput`: the administrator's choice about e-mailing the
      member; an absent field is `None`. */
  datatype NotificationInput = NotificationInput(
    sendEmail: Option<bool>, subject: Option<string>, bodyHtml: Option<string>)

  /** JavaScript truthiness of an optional string. */
  predicate Truthy(s: Option<string>) {
    s.Some? && s.value != ""
  }

  /** What the notification step does: nothing, record a skip, or send. */
  datatype Plan = Silent | Skip | Send(subject: string, body: EmailBody, edited: bool)

  /** Without a notification nothing happens; `sendEmail` defaults to true;
      a supplied subject or body replaces the template's (`??`: an empty
      string still replaces it), and the e-mail counts as edited when either
      is a non-empty string. */
  function PlanNotification(notification: Option<NotificationInput>, preview: N.PreviewInput): (p: Plan)
    ensures p.Silent? <==> notification.None?
    ensures p.Skip? <==> notification.Some? && notification.value.sendEmail == Some(false)
    ensures p.Send? ==> p.edited == (Truthy(notification.value.subject) || Truthy(notification.value.bodyHtml))
    ensures p.Send? ==>
      p.subject == notification.value.subject.GetOr(N.Wording(preview.language, N.SubjectFor(preview.action)))
    ensures p.Send? && notification.value.bodyHtml.Some? ==> p.body == Html(notification.value.bodyHtml.value)
    ensures p.Send? && notification.value.bodyHtml.None? ==> p.body.Template?
  {
    match notification
    case None => Silent
    case Some(n) =>
      if !n.sendEmail.GetOr(true) then Skip
      else
        var template := N.BuildAdminNotification(preview);
        Send(n.subject.GetOr(template.subject),
             if n.bodyHtml.Some? then Html(n.bodyHtml.value) else Template(template.body),
             Truthy(n.subject) || Truthy(n.bodyHtml))
  }

  /** The `after` fields both notification events start with. */
  function NotificationFields(preview: N.PreviewInput): Snapshot {
    [("notification_action", Str(N.ActionName(preview.action))),
     ("recipient_email", Str(preview.recipientEmail))]
  }

  function SkippedEvent(adminId: string, preview: N.PreviewInput, entityType: string, entityId: string): AuditInput {
    AuditInput(Admin, Some(adminId), "notification_skipped", entityType, entityId, None,
               Some(NotificationFields(preview)), None)
  }

  function SentEvent(
    adminId: string, preview: N.PreviewInput, entityType: string, entityId: string,
    emailId: Uuid, edited: bool, subject: string): AuditInput
  {
    AuditInput(Admin, Some(adminId), "notification_sent", entityType, entityId, None,
               Some(NotificationFields(preview) +
                    [("email_id", Str(IdText(emailId))), ("edited_before_send", Bool(edited)), ("subject", Str(subject))]),
               None)
  }

  /** The rows the notification step adds. */
  datatype Rows = Rows(emails: seq<EmailRow>, events: seq<AuditEvent>, idsUsed: nat)

  /** The rows a plan adds, given the first fresh identifier, the time, and
      whether the mail service accepts the message: at most one e-mail, and
      an audit event naming the administrator exactly when a notification
      was given, preceded by the system's `email_sent` when the e-mail went
      out. Every row takes one identifier. */
  function NotificationRows(
    plan: Plan, adminId: string, preview: N.PreviewInput, entityType: string, entityId: string,
    first: Uuid, now: nat, delivered: bool): (rows: Rows)
    ensures |rows.emails| == (if plan.Send? then 1 else 0)
    ensures plan.Silent? <==> rows.events == []
    ensures rows.idsUsed == |rows.emails| + |rows.events|
    ensures rows.events != [] ==>
      var e := rows.events[|rows.events| - 1];
      e.action == (if plan.Skip? then "notification_skipped" else "notification_sent") &&
      e.actorType == Admin && e.actorId == Some(adminId) && e.entityType == entityType && e.entityId == entityId
    ensures plan.Send? ==>
      var m := rows.emails[0];
      m.id == first && m.recipientEmail == preview.recipientEmail && m.language == preview.language &&
      m.subject == plan.subject && m.body == plan.body && m.editedBeforeSend == plan.edited &&
      m.status == (if delivered then Sent else Failed)
    ensures plan.Send? ==> |rows.events| == (if delivered then 2 else 1)
  {
    match plan
    case Silent => Rows([], [], 0)
    case Skip => Rows([], [Stamped(first, now, SkippedEvent(adminId, preview, entityType, entityId))], 1)
    case Send(subject, body, edited) =>
      var email := EmailRow(first, preview.recipientEmail, preview.language, subject, body,
                            if delivered then Sent else Failed, edited);
      var delivery := if delivered
        then [Stamped(first + 1, now, EmailSentEvent(first, preview.recipientEmail, subject, preview.language))]
        else [];
      var sent := SentEvent(adminId, preview, entityType, entityId, first, edited, subject);
      Rows([email], delivery + [Stamped(first + 1 + |delivery|, now, sent)], 2 + |delivery|)
  }

  /** The tables with a notification's rows added. */
  function AddRows(t: Tables, rows: Rows): Tables {
    t.(emails := t.emails + rows.emails, audit := t.audit + rows.events, nextUuid := t.nextUuid + rows.idsUsed)
  }

  /** The tables after the notification step. */
  function Notified(
    t: Tables, adminId: string, notification: Option<NotificationInput>, preview: N.PreviewInput,
    entityType: string, entityId: string, delivered: bool): Tables
  {
    AddRows(t, NotificationRows(PlanNotification(notification, preview), adminId, preview,
                                entityType, entityId, t.nextUuid, t.clock, delivered))
  }

  /** The notification step keeps every constraint and the bookkeeping: it
      only adds e-mails and audit events under fresh identifiers. */
  lemma NotificationKeepsValid(
    t: Tables, plan: Plan, adminId: string, preview: N.PreviewInput, entityType: string, entityId: string,
    delivered: bool)
    requires Valid(t)
    ensures var t' := AddRows(t, NotificationRows(plan, adminId, preview, entityType, entityId, t.nextUuid, t.clock, delivered));
      Valid(t') && (Consistent(t) ==> Consistent(t')) &&
      t'.boxes == t.boxes && t'.registrations == t.registrations && t'.waitlist == t.waitlist
  {
    var rows := NotificationRows(plan, adminId, preview, entityType, entityId, t.nextUuid, t.clock, delivered);
    match plan
    case Silent =>
      assert AddRows(t, rows) == t;
    case Skip =>
      SkipKeepsValid(t, adminId, preview, entityType, entityId, delivered);
    case Send(subject, body, edited) =>
      SendKeepsValid(t, subject, body, edited, adminId, preview, entityType, entityId, delivered);
  }

  lemma SkipKeepsValid(t: Tables, adminId: string, preview: N.PreviewInput, entityType: string, entityId: string,
                       delivered: bool)
    requires Valid(t)
    ensures var t' := AddRows(t, NotificationRows(Skip, adminId, preview, entityType, entityId, t.nextUuid, t.clock, delivered));
      Valid(t') && (Consistent(t) ==> Consistent(t'))
  {
    var e := Stamped(t.nextUuid, t.clock, SkippedEvent(adminId, preview, entityType, entityId));
    assert NotificationRows(Skip, adminId, preview, entityType, entityId, t.nextUuid, t.clock, delivered) == Rows([], [e], 1);
    AppendEventKeepsValid(t, e);
  }

  lemma SendKeepsValid(
    t: Tables, subject: string, body: EmailBody, edited: bool, adminId: string, preview: N.PreviewInput,
    entityType: string, entityId: string, delivered: bool)
    requires Valid(t)
    ensures var t' := AddRows(t, NotificationRows(Send(subject, body, edited), adminId, preview, entityType, entityId,
                                                  t.nextUuid, t.clock, delivered));
      Valid(t') && (Consistent(t) ==> Consistent(t'))
  {
    var rows := NotificationRows(Send(subject, body, edited), adminId, preview, entityType, entityId,
                                 t.nextUuid, t.clock, delivered);
    AppendEmailKeepsValid(t, rows.emails[0]);
    var t1 := t.(emails := t.emails + rows.emails, nextUuid := t.nextUuid + 1);
    AppendEventKeepsValid(t1, rows.events[0]);
    var t2 := t1.(audit := t1.audit + [rows.events[0]], nextUuid := t1.nextUuid + 1);
    if delivered {
      AppendEventKeepsValid(t2, rows.events[1]);
      var t3 := t2.(audit := t2.audit + [rows.events[1]], nextUuid := t2.nextUuid + 1);
      assert t.audit + rows.events == t2.audit + [rows.events[1]];
      assert AddRows(t, rows) == t3;
    } else {
      assert AddRows(t, rows) == t2;
    }
  }

  /** `sendNotificationIfRequested`. */
  method SendNotificationIfRequested(
    db: Db, adminId: string, notification: Option<NotificationInput>, preview: N.PreviewInput,
    entityType: string, entityId: string, delivered: bool)
    modifies db
    ensures db.Snapshot() == Notified(old(db.Snapshot()), adminId, notification, preview, entityType, entityId, delivered)
  {
    var plan := PlanNotification(notification, preview);
    match plan
    case Silent =>
    case Skip =>
      LogAuditEvent(db, SkippedEvent(adminId, preview, entityType, entityId));
    case Send(subject, body, edited) =>
      SendNotification(db, adminId, preview, entityType, entityId, subject, body, edited, delivered);
  }

  /** The sending half of the step: queue and send the e-mail, mark it
      edited when it was, and record the notification. */
  method SendNotification(
    db: Db, adminId: string, preview: N.PreviewInput, entityType: string, entityId: string,
    subject: string, body: EmailBody, edited: bool, delivered: bool)
    modifies db
    ensures db.Snapshot() == AddRows(old(db.Snapshot()),
      NotificationRows(Send(subject, body, edited), adminId, preview, entityType, entityId,
                       old(db.nextUuid), old(db.clock), delivered))
  {
    ghost var queued := db.emails;
    var emailId := QueueAndSendEmail(db, preview.recipientEmail, preview.language, subject, body, delivered);
    assert db.emails[..|queued|] == queued;
    if edited {
      MarkEditedBeforeSend(db, emailId);
    }
    LogAuditEvent(db, SentEvent(adminId, preview, entityType, entityId, emailId, edited, subject));
  }

  /** Flags the e-mail just queued as edited by the administrator. */
  method MarkEditedBeforeSend(db: Db, emailId: Uuid)
    requires |db.emails| > 0 && db.emails[|db.emails| - 1].id == emailId
    modifies db
    ensures var k := |old(db.emails)| - 1;
      db.Snapshot() == old(db.Snapshot()).(emails := old(db.emails)[..k] + [old(db.emails)[k].(editedBeforeSend := true)])
  {
    var k := |db.emails| - 1;
    db.emails := db.emails[..k] + [db.emails[k].(editedBeforeSend := true)];
  }

  // -------------------------------------------------------- the replies

  /** The JSON bodies of the successful replies. */
  datatype Reply =
    | CreateReply(id: string, boxId: int, apartmentKey: string)
    | MoveReply(registrationId: string, newBoxId: int)
    | RemoveReply(registrationId: string, boxReleased: bool)
    | AssignReply(registrationId: string, waitlistEntryId: string, boxId: int)

  datatype Response = Response(statusCode: int, body: Reply)

  /** JavaScript truthiness of an optional number. */
  predicate PresentId(n: Option<int>) {
    n.Some? && n.value != 0
  }

  // ------------------------------------------------------- audit events

  function StateSnapshot(state: BoxState): Snapshot {
    [("state", Str(BoxStateName(state)))]
  }

  function BoxStateChange(adminId: string, boxId: int, before: Snapshot, after: Snapshot): AuditInput {
    AuditInput(Admin, Some(adminId), "box_state_change", "planter_box", IntToString(boxId), Some(before), Some(after), None)
  }

  // ---------------------------------------------- checks shared by inserts

  const BOX_NOT_FOUND: string := "Box not found"
  const BOX_OCCUPIED: string := "Box is already occupied"
  const APARTMENT_TAKEN: string := "This apartment already has an active registration"

  /** The checks inside the transaction when a registration is created for
      an apartment on a box (create, and assign from the waitlist): the box
      must exist and must not be occupied, and the apartment must not hold
      an active registration. A reserved box passes. The insert itself
      fails on the active-box unique index when an active registration
      still references the box. */
  function ClaimRejection(t: Tables, boxId: int, key: string): Option<Thrown> {
    if boxId !in t.boxes then Some(App(BadRequest(BOX_NOT_FOUND, None)))
    else if t.boxes[boxId].state == Occupied then Some(App(Conflict(BOX_OCCUPIED, Some("BOX_OCCUPIED"))))
    else if HasActiveForApartment(t.registrations, key) then
      Some(App(Conflict(APARTMENT_TAKEN, Some("APARTMENT_HAS_REGISTRATION"))))
    else if HasActiveOnBox(t.registrations, boxId) then Some(Foreign(Some(UNIQUE_VIOLATION)))
    else None
  }

  // ------------------------------------------------------------- create

  /** `CreateRegistrationBody`; an absent field is `None`. */
  datatype CreateBody = CreateBody(
    boxId: Option<int>, name: Option<string>, email: Option<string>, street: Option<string>,
    houseNumber: Option<int>, floor: Option<string>, door: Option<string>, language: Option<string>,
    notification: Option<NotificationInput>)

  const CREATE_FIELDS_REQUIRED: string := "boxId, name, email, street, houseNumber, and language are required"
  const LANGUAGE_INVALID: string := "language must be 'da' or 'en'"

  /** Every required field is truthy; a house number only has to be present. */
  predicate CreateFieldsGiven(body: CreateBody) {
    PresentId(body.boxId) && Truthy(body.name) && Truthy(body.email) && Truthy(body.street) &&
    body.houseNumber.Some? && Truthy(body.language)
  }

  function CreateApartmentKey(body: CreateBody): string
    requires CreateFieldsGiven(body)
  {
    Validators.NormalizeApartmentKey(body.street.value, body.houseNumber.value, body.floor, body.door)
  }

  /** Why a create request fails, checked in the handler's order, or `None`. */
  function CreateRejection(t: Tables, adminId: Option<string>, body: CreateBody): Option<Thrown> {
    if !Truthy(adminId) then Some(App(Unauthorized(UNAUTHORIZED_MESSAGE)))
    else if !CreateFieldsGiven(body) then Some(App(BadRequest(CREATE_FIELDS_REQUIRED, None)))
    else if ParseLanguage(body.language.value).None? then Some(App(BadRequest(LANGUAGE_INVALID, None)))
    else ClaimRejection(t, body.boxId.value, CreateApartmentKey(body))
  }

  /** The registration a valid create request inserts. */
  function CreatedRegistration(body: CreateBody, id: Uuid): (reg: Registration)
    requires CreateFieldsGiven(body) && ParseLanguage(body.language.value).Some?
    ensures reg.id == id && reg.boxId == body.boxId.value && reg.status == Active
    ensures reg.name == body.name.value && reg.email == body.email.value && reg.street == body.street.value
    ensures reg.houseNumber == body.houseNumber.value && reg.floor == body.floor && reg.door == body.door
    ensures reg.apartmentKey == CreateApartmentKey(body)
    ensures LanguageCode(reg.language) == body.language.value
  {
    Registration(id, body.boxId.value, body.name.value, body.email.value, body.street.value,
                 body.houseNumber.value, body.floor, body.door, CreateApartmentKey(body),
                 ParseLanguage(body.language.value).value, Active)
  }

  function RegistrationCreateEvent(adminId: string, reg: Registration): AuditInput {
    AuditInput(Admin, Some(adminId), "registration_create", "registration", IdText(reg.id), None,
               Some([("box_id", Num(reg.boxId)), ("apartment_key", Str(reg.apartmentKey)),
                     ("name", Str(reg.name)), ("email", Str(reg.email))]),
               None)
  }

  function AddPreview(reg: Registration): N.PreviewInput {
    N.PreviewInput(N.Add, reg.name, reg.email, reg.language, reg.boxId, None)
  }

  /** The tables when the create transaction commits, having inserted `reg`
      under the next identifier. */
  function CreateCommitted(t: Tables, adminId: string, reg: Registration): Tables
    requires reg.boxId in t.boxes
  {
    var box := t.boxes[reg.boxId];
    var inserted := InsertRegistration(Begin(t), reg);
    Logged(Logged(inserted, RegistrationCreateEvent(adminId, reg)),
           BoxStateChange(adminId, reg.boxId, StateSnapshot(box.state), StateSnapshot(Occupied)))
  }

  /** Committing a create whose checks passed keeps the tables valid and
      consistent. */
  lemma CreateKeepsValid(t: Tables, adminId: string, reg: Registration)
    requires Valid(t) && reg.id == t.nextUuid && reg.status == Active
    requires reg.boxId in t.boxes && !HasActiveForApartment(t.registrations, reg.apartmentKey)
    requires !HasActiveOnBox(t.registrations, reg.boxId)
    ensures Valid(CreateCommitted(t, adminId, reg))
    ensures Consistent(t) ==> Consistent(CreateCommitted(t, adminId, reg))
  {
    var box := t.boxes[reg.boxId];
    BeginKeepsValid(t);
    InsertKeepsValid(Begin(t), reg);
    var inserted := InsertRegistration(Begin(t), reg);
    LoggedKeepsValid(inserted, RegistrationCreateEvent(adminId, reg));
    LoggedKeepsValid(Logged(inserted, RegistrationCreateEvent(adminId, reg)),
                     BoxStateChange(adminId, reg.boxId, StateSnapshot(box.state), StateSnapshot(Occupied)));
  }

  /** The writes of the create transaction, once its checks have passed:
      `row` carries the inserted values, and the database supplies the
      identifier. */
  method CommitCreate(db: Db, adminId: string, row: Registration) returns (reg: Registration)
    requires row.boxId in db.boxes
    modifies db
    ensures reg == row.(id := old(db.nextUuid))
    ensures db.Snapshot() == CreateCommitted(old(db.Snapshot()), adminId, reg)
  {
    ghost var t := db.Snapshot();
    var box := db.boxes[row.boxId];
    db.Tick();
    var regId := db.NewId();
    reg := row.(id := regId);
    db.registrations := db.registrations + [reg];
    db.boxes := db.boxes[reg.boxId := Occupy(box)];
    assert db.Snapshot() == InsertRegistration(Begin(t), reg);
    LogAuditEvent(db, RegistrationCreateEvent(adminId, reg));
    LogAuditEvent(db, BoxStateChange(adminId, reg.boxId, StateSnapshot(box.state), StateSnapshot(Occupied)));
  }

  /** `handleCreateRegistration`: the request checks, the transaction, then
      the notification step. */
  method HandleCreateRegistration(db: Db, adminId: Option<string>, body: CreateBody, delivered: bool)
    returns (r: Result<Response, Thrown>)
    requires db.Valid()
    modifies db
    ensures db.Valid()
    ensures old(db.Consistent()) ==> db.Consistent()
    ensures r.Failure? <==> CreateRejection(old(db.Snapshot()), adminId, body).Some?
    ensures r.Failure? ==> r.error == CreateRejection(old(db.Snapshot()), adminId, body).value && unchanged(db)
    ensures r.Success? ==>
      var reg := CreatedRegistration(body, old(db.nextUuid));
      r.value == Response(201, CreateReply(IdText(reg.id), reg.boxId, reg.apartmentKey)) &&
      db.Snapshot() == Notified(CreateCommitted(old(db.Snapshot()), adminId.value, reg), adminId.value,
                                body.notification, AddPreview(reg), "registration", IdText(reg.id), delivered)
  {
    if !Truthy(adminId) {
      return Failure(App(Unauthorized(UNAUTHORIZED_MESSAGE)));
    }
    if !CreateFieldsGiven(body) {
      return Failure(App(BadRequest(CREATE_FIELDS_REQUIRED, None)));
    }
    var language := ParseLanguage(body.language.value);
    if language.None? {
      return Failure(App(BadRequest(LANGUAGE_INVALID, None)));
    }
    var boxId := body.boxId.value;
    var apartmentKey := CreateApartmentKey(body);

    // The transaction: every check precedes the first write.
    if boxId !in db.boxes {
      return Failure(App(BadRequest(BOX_NOT_FOUND, None)));
    }
    if db.boxes[boxId].state == Occupied {
      return Failure(App(Conflict(BOX_OCCUPIED, Some("BOX_OCCUPIED"))));
    }
    if HasActiveForApartment(db.registrations, apartmentKey) {
      return Failure(App(Conflict(APARTMENT_TAKEN, Some("APARTMENT_HAS_REGISTRATION"))));
    }
    if HasActiveOnBox(db.registrations, boxId) {
      return Failure(Foreign(Some(UNIQUE_VIOLATION)));
    }
    ghost var t0 := db.Snapshot();
    var reg := CommitCreate(db, adminId.value, CreatedRegistration(body, db.nextUuid));
    CreateKeepsValid(t0, adminId.value, reg);
    ghost var t1 := db.Snapshot();
    NotificationKeepsValid(t1, PlanNotification(body.notification, AddPreview(reg)), adminId.value, AddPreview(reg),
                           "registration", IdText(reg.id), delivered);
    SendNotificationIfRequested(db, adminId.value, body.notification, AddPreview(reg), "registration", IdText(reg.id), delivered);
    r := Success(Response(201, CreateReply(IdText(reg.id), boxId, apartmentKey)));
  }

  // -------------------------------------------------------------- lookups

  /** The row a `where id = ...` lookup finds: the first registration whose
      identifier reads as the requested one. */
  function FindRegistration(regs: seq<Registration>, id: string): (r: Option<nat>)
    ensures r.Some? ==> r.value < |regs| && IdText(regs[r.value].id) == id
    ensures r.Some? ==> forall j :: 0 <= j < r.value ==> IdText(regs[j].id) != id
    ensures r.None? ==> forall j :: 0 <= j < |regs| ==> IdText(regs[j].id) != id
  {
    if |regs| == 0 then None
    else if IdText(regs[0].id) == id then Some(0)
    else match FindRegistration(regs[1..], id)
      case None => None
      case Some(k) => Some(k + 1)
  }

  /** The waitlist entry a `where id = ...` lookup finds. */
  function FindEntry(w: seq<WaitlistEntry>, id: string): (r: Option<nat>)
    ensures r.Some? ==> r.value < |w| && IdText(w[r.value].id) == id
    ensures r.Some? ==> forall j :: 0 <= j < r.value ==> IdText(w[j].id) != id
    ensures r.None? ==> forall j :: 0 <= j < |w| ==> IdText(w[j].id) != id
  {
    if |w| == 0 then None
    else if IdText(w[0].id) == id then Some(0)
    else match FindEntry(w[1..], id)
      case None => None
      case Some(k) => Some(k + 1)
  }

  const REGISTRATION_NOT_FOUND: string := "Registration not found"

  // --------------------------------------------------------------- move

  /** `MoveRegistrationBody`. */
  datatype MoveBody = MoveBody(
    registrationId: Option<string>, newBoxId: Option<int>, notification: Option<NotificationInput>)

  const MOVE_FIELDS_REQUIRED: string := "registrationId and newBoxId are required"
  const MOVE_NOT_ACTIVE: string := "Only active registrations can be moved"
  const MOVE_SAME_BOX: string := "New box must be different from current box"
  const CURRENT_BOX_NOT_FOUND: string := "Current box not found"
  const TARGET_BOX_NOT_FOUND: string := "Target box not found"
  const TARGET_OCCUPIED: string := "Target box is already occupied"

  /** Why a move request fails, checked in the handler's order, or `None`.
      A reserved target passes; the update itself fails on the active-box
      unique index when an active registration still references the
      target. */
  function MoveRejection(t: Tables, adminId: Option<string>, body: MoveBody): Option<Thrown> {
    if !Truthy(adminId) then Some(App(Unauthorized(UNAUTHORIZED_MESSAGE)))
    else if !Truthy(body.registrationId) || !PresentId(body.newBoxId) then Some(App(BadRequest(MOVE_FIELDS_REQUIRED, None)))
    else match FindRegistration(t.registrations, body.registrationId.value)
      case None => Some(App(NotFound(REGISTRATION_NOT_FOUND)))
      case Some(i) =>
        var reg := t.registrations[i];
        var newBoxId := body.newBoxId.value;
        if reg.status != Active then Some(App(BadRequest(MOVE_NOT_ACTIVE, None)))
        else if reg.boxId == newBoxId then Some(App(BadRequest(MOVE_SAME_BOX, None)))
        else if reg.boxId !in t.boxes then Some(App(BadRequest(CURRENT_BOX_NOT_FOUND, None)))
        else if newBoxId !in t.boxes then Some(App(BadRequest(TARGET_BOX_NOT_FOUND, None)))
        else if t.boxes[newBoxId].state == Occupied then Some(App(Conflict(TARGET_OCCUPIED, Some("BOX_OCCUPIED"))))
        else if HasActiveOnBox(t.registrations, newBoxId) then Some(Foreign(Some(UNIQUE_VIOLATION)))
        else None
  }

  function RegistrationMoveEvent(adminId: string, reg: Registration, newBoxId: int): AuditInput {
    AuditInput(Admin, Some(adminId), "registration_move", "registration", IdText(reg.id),
               Some([("box_id", Num(reg.boxId))]), Some([("box_id", Num(newBoxId))]), None)
  }

  /** The tables when the move of registration `i` to `newBoxId` commits. */
  function MoveCommitted(t: Tables, adminId: string, i: nat, newBoxId: int): Tables
    requires i < |t.registrations| && t.registrations[i].boxId in t.boxes && newBoxId in t.boxes
  {
    var reg := t.registrations[i];
    var newBox := t.boxes[newBoxId];
    var moved := MoveRegistration(Begin(t), i, newBoxId);
    var logged := Logged(Logged(moved, RegistrationMoveEvent(adminId, reg, newBoxId)),
                         BoxStateChange(adminId, reg.boxId, StateSnapshot(Occupied), StateSnapshot(Available)));
    Logged(logged, BoxStateChange(adminId, newBoxId, StateSnapshot(newBox.state), StateSnapshot(Occupied)))
  }

  /** Committing a move whose checks passed keeps the tables valid and
      consistent. */
  lemma MoveCommitKeepsValid(t: Tables, adminId: string, i: nat, newBoxId: int)
    requires Valid(t) && i < |t.registrations| && t.registrations[i].status == Active
    requires newBoxId in t.boxes && newBoxId != t.registrations[i].boxId
    requires !HasActiveOnBox(t.registrations, newBoxId)
    ensures t.registrations[i].boxId in t.boxes
    ensures Valid(MoveCommitted(t, adminId, i, newBoxId))
    ensures Consistent(t) ==> Consistent(MoveCommitted(t, adminId, i, newBoxId))
  {
    var reg := t.registrations[i];
    var newBox := t.boxes[newBoxId];
    BeginKeepsValid(t);
    MoveKeepsValid(Begin(t), i, newBoxId);
    var moved := MoveRegistration(Begin(t), i, newBoxId);
    var e1 := RegistrationMoveEvent(adminId, reg, newBoxId);
    var e2 := BoxStateChange(adminId, reg.boxId, StateSnapshot(Occupied), StateSnapshot(Available));
    var e3 := BoxStateChange(adminId, newBoxId, StateSnapshot(newBox.state), StateSnapshot(Occupied));
    LoggedKeepsValid(moved, e1);
    LoggedKeepsValid(Logged(moved, e1), e2);
    LoggedKeepsValid(Logged(Logged(moved, e1), e2), e3);
  }

  /** The writes of the move transaction, once its checks have passed. */
  method CommitMove(db: Db, adminId: string, i: nat, newBoxId: int)
    requires i < |db.registrations| && db.registrations[i].boxId in db.boxes && newBoxId in db.boxes
    modifies db
    ensures db.Snapshot() == MoveCommitted(old(db.Snapshot()), adminId, i, newBoxId)
  {
    var reg := db.registrations[i];
    var oldBoxId := reg.boxId;
    var newBox := db.boxes[newBoxId];
    ghost var t := db.Snapshot();
    db.Tick();
    db.registrations := db.registrations[i := reg.(boxId := newBoxId)];
    db.boxes := db.boxes[oldBoxId := db.boxes[oldBoxId].(state := Available, reservedLabel := None)];
    db.boxes := db.boxes[newBoxId := Occupy(newBox)];
    assert db.Snapshot() == MoveRegistration(Begin(t), i, newBoxId);
    LogAuditEvent(db, RegistrationMoveEvent(adminId, reg, newBoxId));
    LogAuditEvent(db, BoxStateChange(adminId, oldBoxId, StateSnapshot(Occupied), StateSnapshot(Available)));
    LogAuditEvent(db, BoxStateChange(adminId, newBoxId, StateSnapshot(newBox.state), StateSnapshot(Occupied)));
  }

  /** The notification input of a move. */
  function MovePreview(reg: Registration, newBoxId: int): N.PreviewInput {
    N.PreviewInput(N.Move, reg.name, reg.email, reg.language, newBoxId, Some(reg.boxId))
  }

  /** `handleMoveRegistration`: the request checks, the transaction, then
      the notification step. */
  method HandleMoveRegistration(db: Db, adminId: Option<string>, body: MoveBody, delivered: bool)
    returns (r: Result<Response, Thrown>)
    requires db.Valid()
    modifies db
    ensures db.Valid()
    ensures old(db.Consistent()) ==> db.Consistent()
    ensures r.Failure? <==> MoveRejection(old(db.Snapshot()), adminId, body).Some?
    ensures r.Failure? ==> r.error == MoveRejection(old(db.Snapshot()), adminId, body).value && unchanged(db)
    ensures r.Success? ==>
      var i := FindRegistration(old(db.registrations), body.registrationId.value).value;
      var reg := old(db.registrations)[i];
      r.value == Response(200, MoveReply(body.registrationId.value, body.newBoxId.value)) &&
      db.Snapshot() == Notified(MoveCommitted(old(db.Snapshot()), adminId.value, i, body.newBoxId.value), adminId.value,
                                body.notification, MovePreview(reg, body.newBoxId.value), "registration",
                                body.registrationId.value, delivered)
  {
    if !Truthy(adminId) {
      return Failure(App(Unauthorized(UNAUTHORIZED_MESSAGE)));
    }
    if !Truthy(body.registrationId) || !PresentId(body.newBoxId) {
      return Failure(App(BadRequest(MOVE_FIELDS_REQUIRED, None)));
    }
    var registrationId := body.registrationId.value;
    var newBoxId := body.newBoxId.value;

    // The transaction: every check precedes the first write.
    var found := FindRegistration(db.registrations, registrationId);
    if found.None? {
      return Failure(App(NotFound(REGISTRATION_NOT_FOUND)));
    }
    var i := found.value;
    var reg := db.registrations[i];
    if reg.status != Active {
      return Failure(App(BadRequest(MOVE_NOT_ACTIVE, None)));
    }
    if reg.boxId == newBoxId {
      return Failure(App(BadRequest(MOVE_SAME_BOX, None)));
    }
    // The foreign key guarantees the current box; "Current box not found"
    // cannot be answered.
    assert reg.boxId in db.boxes;
    if newBoxId !in db.boxes {
      return Failure(App(BadRequest(TARGET_BOX_NOT_FOUND, None)));
    }
    if db.boxes[newBoxId].state == Occupied {
      return Failure(App(Conflict(TARGET_OCCUPIED, Some("BOX_OCCUPIED"))));
    }
    if HasActiveOnBox(db.registrations, newBoxId) {
      return Failure(Foreign(Some(UNIQUE_VIOLATION)));
    }
    ghost var t0 := db.Snapshot();
    CommitMove(db, adminId.value, i, newBoxId);
    MoveCommitKeepsValid(t0, adminId.value, i, newBoxId);
    ghost var t1 := db.Snapshot();
    var preview := MovePreview(reg, newBoxId);
    NotificationKeepsValid(t1, PlanNotification(body.notification, preview), adminId.value, preview,
                           "registration", registrationId, delivered);
    SendNotificationIfRequested(db, adminId.value, body.notification, preview, "registration", registrationId, delivered);
    r := Success(Response(200, MoveReply(registrationId, newBoxId)));
  }

  // ------------------------------------------------------------- remove

  /** `RemoveRegistrationBody`. */
  datatype RemoveBody = RemoveBody(
    registrationId: Option<string>, makeBoxPublic: Option<bool>, notification: Option<NotificationInput>)

  const REMOVE_ID_REQUIRED: string := "registrationId is required"
  const REMOVE_NOT_ACTIVE: string := "Only active registrations can be removed"

  /** Why a remove request fails, checked in the handler's order, or `None`. */
  function RemoveRejection(t: Tables, adminId: Option<string>, body: RemoveBody): Option<Thrown> {
    if !Truthy(adminId) then Some(App(Unauthorized(UNAUTHORIZED_MESSAGE)))
    else if !Truthy(body.registrationId) then Some(App(BadRequest(REMOVE_ID_REQUIRED, None)))
    else match FindRegistration(t.registrations, body.registrationId.value)
      case None => Some(App(NotFound(REGISTRATION_NOT_FOUND)))
      case Some(i) =>
        if t.registrations[i].status != Active then Some(App(BadRequest(REMOVE_NOT_ACTIVE, None)))
        else None
  }

  /** The freed box is released to the public, or held by the
      administrators under the default label. */
  function ReleasedState(makeBoxPublic: bool): BoxState {
    if makeBoxPublic then Available else Reserved
  }

  function ReleasedLabel(makeBoxPublic: bool): Option<string> {
    if makeBoxPublic then None else Some(RESERVED_LABEL_DEFAULT)
  }

  function LabelValue(held: Option<string>): Value {
    if held.Some? then Str(held.value) else Null
  }

  function RegistrationRemoveEvent(adminId: string, reg: Registration): AuditInput {
    AuditInput(Admin, Some(adminId), "registration_remove", "registration", IdText(reg.id),
               Some([("box_id", Num(reg.boxId)), ("status", Str("active")), ("name", Str(reg.name))]),
               Some([("status", Str("removed"))]), None)
  }

  /** The tables when the removal of registration `i` commits. */
  function RemoveCommitted(t: Tables, adminId: string, i: nat, makeBoxPublic: bool): Tables
    requires i < |t.registrations| && t.registrations[i].boxId in t.boxes
  {
    var reg := t.registrations[i];
    var state := ReleasedState(makeBoxPublic);
    var reservedLabel := ReleasedLabel(makeBoxPublic);
    var ended := EndRegistration(Begin(t), i, state, reservedLabel);
    Logged(Logged(ended, RegistrationRemoveEvent(adminId, reg)),
           BoxStateChange(adminId, reg.boxId, StateSnapshot(Occupied),
                          StateSnapshot(state) + [("reserved_label", LabelValue(reservedLabel))]))
  }

  /** Committing a removal keeps the tables valid and consistent. */
  lemma RemoveCommitKeepsValid(t: Tables, adminId: string, i: nat, makeBoxPublic: bool)
    requires Valid(t) && i < |t.registrations| && t.registrations[i].status == Active
    ensures t.registrations[i].boxId in t.boxes
    ensures Valid(RemoveCommitted(t, adminId, i, makeBoxPublic))
    ensures Consistent(t) ==> Consistent(RemoveCommitted(t, adminId, i, makeBoxPublic))
  {
    var reg := t.registrations[i];
    var state := ReleasedState(makeBoxPublic);
    var reservedLabel := ReleasedLabel(makeBoxPublic);
    BeginKeepsValid(t);
    RemoveKeepsValid(Begin(t), i, state, reservedLabel);
    var ended := EndRegistration(Begin(t), i, state, reservedLabel);
    var e1 := RegistrationRemoveEvent(adminId, reg);
    var e2 := BoxStateChange(adminId, reg.boxId, StateSnapshot(Occupied),
                             StateSnapshot(state) + [("reserved_label", LabelValue(reservedLabel))]);
    LoggedKeepsValid(ended, e1);
    LoggedKeepsValid(Logged(ended, e1), e2);
  }

  /** The writes of the remove transaction, once its checks have passed. */
  method CommitRemove(db: Db, adminId: string, i: nat, makeBoxPublic: bool)
    requires i < |db.registrations| && db.registrations[i].boxId in db.boxes
    modifies db
    ensures db.Snapshot() == RemoveCommitted(old(db.Snapshot()), adminId, i, makeBoxPublic)
  {
    var reg := db.registrations[i];
    ghost var t := db.Snapshot();
    db.Tick();
    db.registrations := db.registrations[i := reg.(status := Removed)];
    var state := ReleasedState(makeBoxPublic);
    var reservedLabel := ReleasedLabel(makeBoxPublic);
    db.boxes := db.boxes[reg.boxId := db.boxes[reg.boxId].(state := state, reservedLabel := reservedLabel)];
    assert db.Snapshot() == EndRegistration(Begin(t), i, state, reservedLabel);
    LogAuditEvent(db, RegistrationRemoveEvent(adminId, reg));
    LogAuditEvent(db, BoxStateChange(adminId, reg.boxId, StateSnapshot(Occupied),
                                     StateSnapshot(state) + [("reserved_label", LabelValue(reservedLabel))]));
  }

  /** The notification input of a removal. */
  function RemovePreview(reg: Registration): N.PreviewInput {
    N.PreviewInput(N.Remove, reg.name, reg.email, reg.language, reg.boxId, None)
  }

  /** `handleRemoveRegistration`: `makeBoxPublic` defaults to true. */
  method HandleRemoveRegistration(db: Db, adminId: Option<string>, body: RemoveBody, delivered: bool)
    returns (r: Result<Response, Thrown>)
    requires db.Valid()
    modifies db
    ensures db.Valid()
    ensures old(db.Consistent()) ==> db.Consistent()
    ensures r.Failure? <==> RemoveRejection(old(db.Snapshot()), adminId, body).Some?
    ensures r.Failure? ==> r.error == RemoveRejection(old(db.Snapshot()), adminId, body).value && unchanged(db)
    ensures r.Success? ==>
      var i := FindRegistration(old(db.registrations), body.registrationId.value).value;
      var makeBoxPublic := body.makeBoxPublic.GetOr(true);
      r.value == Response(200, RemoveReply(body.registrationId.value, makeBoxPublic)) &&
      db.Snapshot() == Notified(RemoveCommitted(old(db.Snapshot()), adminId.value, i, makeBoxPublic), adminId.value,
                                body.notification, RemovePreview(old(db.registrations)[i]), "registration",
                                body.registrationId.value, delivered)
  {
    if !Truthy(adminId) {
      return Failure(App(Unauthorized(UNAUTHORIZED_MESSAGE)));
    }
    var makeBoxPublic := body.makeBoxPublic.GetOr(true);
    if !Truthy(body.registrationId) {
      return Failure(App(BadRequest(REMOVE_ID_REQUIRED, None)));
    }
    var registrationId := body.registrationId.value;

    // The transaction: every check precedes the first write.
    var found := FindRegistration(db.registrations, registrationId);
    if found.None? {
      return Failure(App(NotFound(REGISTRATION_NOT_FOUND)));
    }
    var i := found.value;
    var reg := db.registrations[i];
    if reg.status != Active {
      return Failure(App(BadRequest(REMOVE_NOT_ACTIVE, None)));
    }
    ghost var t0 := db.Snapshot();
    CommitRemove(db, adminId.value, i, makeBoxPublic);
    RemoveCommitKeepsValid(t0, adminId.value, i, makeBoxPublic);
    ghost var t1 := db.Snapshot();
    var preview := RemovePreview(reg);
    NotificationKeepsValid(t1, PlanNotification(body.notification, preview), adminId.value, preview,
                           "registration", registrationId, delivered);
    SendNotificationIfRequested(db, adminId.value, body.notification, preview, "registration", registrationId, delivered);
    r := Success(Response(200, RemoveReply(registrationId, makeBoxPublic)));
  }

  // ------------------------------------------------------------- assign

  /** `AssignWaitlistBody`. */
  datatype AssignBody = AssignBody(
    waitlistEntryId: Option<string>, boxId: Option<int>, notification: Option<NotificationInput>)

  const ASSIGN_FIELDS_REQUIRED: string := "waitlistEntryId and boxId are required"
  const ENTRY_NOT_FOUND: string := "Waitlist entry not found"
  const ENTRY_NOT_WAITING: string := "Waitlist entry is not in waiting status"

  /** Why an assign request fails, checked in the handler's order, or
      `None`: the entry's apartment claims the box as a create would. */
  function AssignRejection(t: Tables, adminId: Option<string>, body: AssignBody): Option<Thrown> {
    if !Truthy(adminId) then Some(App(Unauthorized(UNAUTHORIZED_MESSAGE)))
    else if !Truthy(body.waitlistEntryId) || !PresentId(body.boxId) then Some(App(BadRequest(ASSIGN_FIELDS_REQUIRED, None)))
    else match FindEntry(t.waitlist, body.waitlistEntryId.value)
      case None => Some(App(NotFound(ENTRY_NOT_FOUND)))
      case Some(k) =>
        if t.waitlist[k].status != Waiting then Some(App(BadRequest(ENTRY_NOT_WAITING, None)))
        else ClaimRejection(t, body.boxId.value, t.waitlist[k].apartmentKey)
  }

  /** The registration an assignment inserts: the entry's member, address,
      apartment and language on the box. */
  function AssignedRegistration(entry: WaitlistEntry, boxId: int, id: Uuid): Registration {
    Registration(id, boxId, entry.name, entry.email, entry.street, entry.houseNumber, entry.floor, entry.door,
                 entry.apartmentKey, entry.language, Active)
  }

  function WaitlistAssignEvent(adminId: string, entry: WaitlistEntry, reg: Registration): AuditInput {
    AuditInput(Admin, Some(adminId), "waitlist_assign", "waitlist_entry", IdText(entry.id),
               Some([("status", Str("waiting"))]),
               Some([("status", Str("assigned")), ("registration_id", Str(IdText(reg.id))), ("box_id", Num(reg.boxId))]),
               None)
  }

  function AssignCreateEvent(adminId: string, entry: WaitlistEntry, reg: Registration): AuditInput {
    AuditInput(Admin, Some(adminId), "registration_create", "registration", IdText(reg.id), None,
               Some([("box_id", Num(reg.boxId)), ("apartment_key", Str(entry.apartmentKey)),
                     ("from_waitlist", Str(IdText(entry.id)))]),
               None)
  }

  /** The tables when assigning entry `k` to a box commits. */
  function AssignCommitted(t: Tables, adminId: string, k: nat, boxId: int): Tables
    requires k < |t.waitlist| && boxId in t.boxes
  {
    var entry := t.waitlist[k];
    var reg := AssignedRegistration(entry, boxId, t.nextUuid);
    var box := t.boxes[boxId];
    var placed := AssignEntry(InsertRegistration(Begin(t), reg), k);
    var logged := Logged(Logged(placed, WaitlistAssignEvent(adminId, entry, reg)), AssignCreateEvent(adminId, entry, reg));
    Logged(logged, BoxStateChange(adminId, boxId, StateSnapshot(box.state), StateSnapshot(Occupied)))
  }

  /** Committing an assignment whose checks passed keeps the tables valid
      and consistent. */
  lemma AssignCommitKeepsValid(t: Tables, adminId: string, k: nat, boxId: int)
    requires Valid(t) && k < |t.waitlist| && boxId in t.boxes
    requires !HasActiveForApartment(t.registrations, t.waitlist[k].apartmentKey)
    requires !HasActiveOnBox(t.registrations, boxId)
    ensures Valid(AssignCommitted(t, adminId, k, boxId))
    ensures Consistent(t) ==> Consistent(AssignCommitted(t, adminId, k, boxId))
  {
    var entry := t.waitlist[k];
    var reg := AssignedRegistration(entry, boxId, t.nextUuid);
    var box := t.boxes[boxId];
    BeginKeepsValid(t);
    InsertKeepsValid(Begin(t), reg);
    AssignEntryKeepsValid(InsertRegistration(Begin(t), reg), k);
    var placed := AssignEntry(InsertRegistration(Begin(t), reg), k);
    var e1 := WaitlistAssignEvent(adminId, entry, reg);
    var e2 := AssignCreateEvent(adminId, entry, reg);
    var e3 := BoxStateChange(adminId, boxId, StateSnapshot(box.state), StateSnapshot(Occupied));
    LoggedKeepsValid(placed, e1);
    LoggedKeepsValid(Logged(placed, e1), e2);
    LoggedKeepsValid(Logged(Logged(placed, e1), e2), e3);
  }

  /** The writes of the assign transaction, once its checks have passed. */
  method CommitAssign(db: Db, adminId: string, k: nat, boxId: int) returns (reg: Registration)
    requires k < |db.waitlist| && boxId in db.boxes
    modifies db
    ensures reg == AssignedRegistration(old(db.waitlist)[k], boxId, old(db.nextUuid))
    ensures db.Snapshot() == AssignCommitted(old(db.Snapshot()), adminId, k, boxId)
  {
    var entry := db.waitlist[k];
    var box := db.boxes[boxId];
    ghost var t := db.Snapshot();
    db.Tick();
    var regId := db.NewId();
    reg := AssignedRegistration(entry, boxId, regId);
    db.registrations := db.registrations + [reg];
    db.boxes := db.boxes[boxId := Occupy(box)];
    assert db.Snapshot() == InsertRegistration(Begin(t), reg);
    db.waitlist := db.waitlist[k := entry.(status := Assigned)];
    assert db.Snapshot() == AssignEntry(InsertRegistration(Begin(t), reg), k);
    LogAuditEvent(db, WaitlistAssignEvent(adminId, entry, reg));
    LogAuditEvent(db, AssignCreateEvent(adminId, entry, reg));
    LogAuditEvent(db, BoxStateChange(adminId, boxId, StateSnapshot(box.state), StateSnapshot(Occupied)));
  }

  /** The notification input of an assignment. */
  function AssignPreview(reg: Registration): N.PreviewInput {
    N.PreviewInput(N.WaitlistAssign, reg.name, reg.email, reg.language, reg.boxId, None)
  }

  /** `handleAssignWaitlist`. */
  method HandleAssignWaitlist(db: Db, adminId: Option<string>, body: AssignBody, delivered: bool)
    returns (r: Result<Response, Thrown>)
    requires db.Valid()
    modifies db
    ensures db.Valid()
    ensures old(db.Consistent()) ==> db.Consistent()
    ensures r.Failure? <==> AssignRejection(old(db.Snapshot()), adminId, body).Some?
    ensures r.Failure? ==> r.error == AssignRejection(old(db.Snapshot()), adminId, body).value && unchanged(db)
    ensures r.Success? ==>
      var k := FindEntry(old(db.waitlist), body.waitlistEntryId.value).value;
      var reg := AssignedRegistration(old(db.waitlist)[k], body.boxId.value, old(db.nextUuid));
      r.value == Response(201, AssignReply(IdText(reg.id), body.waitlistEntryId.value, body.boxId.value)) &&
      db.Snapshot() == Notified(AssignCommitted(old(db.Snapshot()), adminId.value, k, body.boxId.value), adminId.value,
                                body.notification, AssignPreview(reg), "registration", IdText(reg.id), delivered)
  {
    if !Truthy(adminId) {
      return Failure(App(Unauthorized(UNAUTHORIZED_MESSAGE)));
    }
    if !Truthy(body.waitlistEntryId) || !PresentId(body.boxId) {
      return Failure(App(BadRequest(ASSIGN_FIELDS_REQUIRED, None)));
    }
    var waitlistEntryId := body.waitlistEntryId.value;
    var boxId := body.boxId.value;

    // The transaction: every check precedes the first write.
    var found := FindEntry(db.waitlist, waitlistEntryId);
    if found.None? {
      return Failure(App(NotFound(ENTRY_NOT_FOUND)));
    }
    var k := found.value;
    var entry := db.waitlist[k];
    if entry.status != Waiting {
      return Failure(App(BadRequest(ENTRY_NOT_WAITING, None)));
    }
    if boxId !in db.boxes {
      return Failure(App(BadRequest(BOX_NOT_FOUND, None)));
    }
    if db.boxes[boxId].state == Occupied {
      return Failure(App(Conflict(BOX_OCCUPIED, Some("BOX_OCCUPIED"))));
    }
    if HasActiveForApartment(db.registrations, entry.apartmentKey) {
      return Failure(App(Conflict(APARTMENT_TAKEN, Some("APARTMENT_HAS_REGISTRATION"))));
    }
    if HasActiveOnBox(db.registrations, boxId) {
      return Failure(Foreign(Some(UNIQUE_VIOLATION)));
    }
    ghost var t0 := db.Snapshot();
    var reg := CommitAssign(db, adminId.value, k, boxId);
    AssignCommitKeepsValid(t0, adminId.value, k, boxId);
    ghost var t1 := db.Snapshot();
    var preview := AssignPreview(reg);
    NotificationKeepsValid(t1, PlanNotification(body.notification, preview), adminId.value, preview,
                           "registration", IdText(reg.id), delivered);
    SendNotificationIfRequested(db, adminId.value, body.notification, preview, "registration", IdText(reg.id), delivered);
    r := Success(Response(201, AssignReply(IdText(reg.id), waitlistEntryId, boxId)));
  }

  // ------------------------------------------- what the handlers promise

  /** A reserved box is not a reason to refuse a registration: when the
      bookkeeping holds, a claim on it fails only for the apartment. */
  lemma ReservedBoxAccepted(t: Tables, boxId: int, key: string)
    requires Consistent(t) && boxId in t.boxes && t.boxes[boxId].state == Reserved
    ensures ClaimRejection(t, boxId, key).None? <==> !HasActiveForApartment(t.registrations, key)
  {
    FreeBoxHasNoActive(t.boxes, t.registrations, boxId);
  }

  /** Under the bookkeeping a claim is refused only by the handler's own
      checks, never by the unique index, and the status says which check. */
  lemma ClaimRejectionCases(t: Tables, boxId: int, key: string)
    requires Consistent(t)
    ensures var r := ClaimRejection(t, boxId, key);
      (r.None? <==> boxId in t.boxes && t.boxes[boxId].state != Occupied &&
                    !HasActiveForApartment(t.registrations, key)) &&
      (r.Some? ==> r.value.App? && r.value.err.statusCode in {400, 409}) &&
      (r.Some? && r.value.err.statusCode == 400 <==> boxId !in t.boxes)
  {
    if boxId in t.boxes && t.boxes[boxId].state != Occupied {
      FreeBoxHasNoActive(t.boxes, t.registrations, boxId);
    }
  }

  /** Under the bookkeeping a move is refused only by the handler's own
      checks: its update never meets the unique index. */
  lemma MoveNeverViolatesIndex(t: Tables, adminId: Option<string>, body: MoveBody)
    requires Consistent(t)
    ensures MoveRejection(t, adminId, body).Some? ==> MoveRejection(t, adminId, body).value.App?
  {
    if Truthy(adminId) && Truthy(body.registrationId) && PresentId(body.newBoxId) {
      var newBoxId := body.newBoxId.value;
      if newBoxId in t.boxes && t.boxes[newBoxId].state != Occupied {
        FreeBoxHasNoActive(t.boxes, t.registrations, newBoxId);
      }
    }
  }

  /** The status of every refused create, move, remove and assign request. */
  lemma RejectionStatuses(t: Tables, adminId: Option<string>, c: CreateBody, m: MoveBody, d: RemoveBody, a: AssignBody)
    ensures !Truthy(adminId) ==>
      CreateRejection(t, adminId, c) == MoveRejection(t, adminId, m) == RemoveRejection(t, adminId, d) ==
      AssignRejection(t, adminId, a) == Some(App(AppError(401, UNAUTHORIZED_MESSAGE, Some("UNAUTHORIZED"))))
    ensures Truthy(adminId) && !CreateFieldsGiven(c) ==>
      CreateRejection(t, adminId, c) == Some(App(AppError(400, CREATE_FIELDS_REQUIRED, None)))
    ensures Truthy(adminId) && CreateFieldsGiven(c) && c.language.value != "da" && c.language.value != "en" ==>
      CreateRejection(t, adminId, c) == Some(App(AppError(400, LANGUAGE_INVALID, None)))
    ensures (Truthy(adminId) && Truthy(d.registrationId) &&
             FindRegistration(t.registrations, d.registrationId.value).None?) ==>
      RemoveRejection(t, adminId, d) == Some(App(AppError(404, REGISTRATION_NOT_FOUND, Some("NOT_FOUND"))))
    ensures (Truthy(adminId) && Truthy(m.registrationId) && PresentId(m.newBoxId) &&
             FindRegistration(t.registrations, m.registrationId.value).None?) ==>
      MoveRejection(t, adminId, m) == Some(App(AppError(404, REGISTRATION_NOT_FOUND, Some("NOT_FOUND"))))
    ensures (Truthy(adminId) && Truthy(a.waitlistEntryId) && PresentId(a.boxId) &&
             FindEntry(t.waitlist, a.waitlistEntryId.value).None?) ==>
      AssignRejection(t, adminId, a) == Some(App(AppError(404, ENTRY_NOT_FOUND, Some("NOT_FOUND"))))
  {
  }

  /** Create, on success: one active registration for the box and the
      apartment is appended, the box becomes occupied without a label,
      every other box, the waitlist and the e-mails stay, and exactly two
      audit events follow the old log: `registration_create`, then
      `box_state_change`. */
  lemma CreateEffect(t: Tables, adminId: string, reg: Registration)
    requires reg.boxId in t.boxes
    ensures var c := CreateCommitted(t, adminId, reg);
      c.registrations == t.registrations + [reg] &&
      c.boxes == t.boxes[reg.boxId := t.boxes[reg.boxId].(state := Occupied, reservedLabel := None)] &&
      c.waitlist == t.waitlist && c.emails == t.emails &&
      |c.audit| == |t.audit| + 2 && c.audit[..|t.audit|] == t.audit &&
      c.audit[|t.audit|].action == "registration_create" && c.audit[|t.audit| + 1].action == "box_state_change" &&
      c.audit[|t.audit| + 1].entityId == IntToString(reg.boxId)
  {
    var box := t.boxes[reg.boxId];
    var t1 := InsertRegistration(Begin(t), reg);
    var t2 := Logged(t1, RegistrationCreateEvent(adminId, reg));
    var c := Logged(t2, BoxStateChange(adminId, reg.boxId, StateSnapshot(box.state), StateSnapshot(Occupied)));
    assert c.audit[..|t.audit|] == t2.audit[..|t.audit|];
  }

  /** Move, on success: only that registration's box changes, the old box
      becomes available without a label, the new one occupied, and exactly
      three audit events follow the old log. */
  lemma MoveEffect(t: Tables, adminId: string, i: nat, newBoxId: int)
    requires i < |t.registrations| && t.registrations[i].boxId in t.boxes && newBoxId in t.boxes
    requires newBoxId != t.registrations[i].boxId
    ensures var c := MoveCommitted(t, adminId, i, newBoxId);
      var oldBoxId := t.registrations[i].boxId;
      |c.registrations| == |t.registrations| &&
      (forall j :: 0 <= j < |t.registrations| && j != i ==> c.registrations[j] == t.registrations[j]) &&
      c.registrations[i] == t.registrations[i].(boxId := newBoxId) &&
      c.boxes[oldBoxId].state == Available && c.boxes[oldBoxId].reservedLabel.None? &&
      c.boxes[newBoxId].state == Occupied && c.boxes[newBoxId].reservedLabel.None? &&
      (forall b :: b in t.boxes && b != oldBoxId && b != newBoxId ==> b in c.boxes && c.boxes[b] == t.boxes[b]) &&
      c.waitlist == t.waitlist && c.emails == t.emails &&
      |c.audit| == |t.audit| + 3 && c.audit[..|t.audit|] == t.audit &&
      c.audit[|t.audit|].action == "registration_move" &&
      c.audit[|t.audit| + 1].action == "box_state_change" && c.audit[|t.audit| + 2].action == "box_state_change"
  {
    var reg := t.registrations[i];
    var newBox := t.boxes[newBoxId];
    var t1 := MoveRegistration(Begin(t), i, newBoxId);
    var t2 := Logged(t1, RegistrationMoveEvent(adminId, reg, newBoxId));
    var t3 := Logged(t2, BoxStateChange(adminId, reg.boxId, StateSnapshot(Occupied), StateSnapshot(Available)));
    var c := Logged(t3, BoxStateChange(adminId, newBoxId, StateSnapshot(newBox.state), StateSnapshot(Occupied)));
    assert c.audit[..|t.audit|] == t3.audit[..|t.audit|];
    assert t3.audit[..|t.audit|] == t2.audit[..|t.audit|];
  }

  /** Remove, on success: the registration becomes removed; its box becomes
      available without a label when released to the public, and reserved
      under "Admin Hold" otherwise; exactly two audit events follow. */
  lemma RemoveEffect(t: Tables, adminId: string, i: nat, makeBoxPublic: bool)
    requires i < |t.registrations| && t.registrations[i].boxId in t.boxes
    ensures var c := RemoveCommitted(t, adminId, i, makeBoxPublic);
      var boxId := t.registrations[i].boxId;
      c.registrations == t.registrations[i := t.registrations[i].(status := Removed)] &&
      c.boxes == t.boxes[boxId := t.boxes[boxId].(
        state := if makeBoxPublic then Available else Reserved,
        reservedLabel := if makeBoxPublic then None else Some("Admin Hold"))] &&
      c.waitlist == t.waitlist && c.emails == t.emails &&
      |c.audit| == |t.audit| + 2 && c.audit[..|t.audit|] == t.audit &&
      c.audit[|t.audit|].action == "registration_remove" && c.audit[|t.audit| + 1].action == "box_state_change"
  {
    var reg := t.registrations[i];
    var state := ReleasedState(makeBoxPublic);
    var reservedLabel := ReleasedLabel(makeBoxPublic);
    var t1 := EndRegistration(Begin(t), i, state, reservedLabel);
    var t2 := Logged(t1, RegistrationRemoveEvent(adminId, reg));
    var c := Logged(t2, BoxStateChange(adminId, reg.boxId, StateSnapshot(Occupied),
                                       StateSnapshot(state) + [("reserved_label", LabelValue(reservedLabel))]));
    assert c.audit[..|t.audit|] == t2.audit[..|t.audit|];
  }

  /** Assign, on success: an active registration copying the entry's member,
      address, apartment and language takes the box, which becomes
      occupied; the entry becomes assigned; exactly three audit events
      follow. */
  lemma AssignEffect(t: Tables, adminId: string, k: nat, boxId: int)
    requires k < |t.waitlist| && boxId in t.boxes
    ensures var c := AssignCommitted(t, adminId, k, boxId);
      var e := t.waitlist[k];
      |c.registrations| == |t.registrations| + 1 && c.registrations[..|t.registrations|] == t.registrations &&
      (var reg := c.registrations[|t.registrations|];
       reg.boxId == boxId && reg.status == Active && reg.name == e.name && reg.email == e.email &&
       reg.street == e.street && reg.houseNumber == e.houseNumber && reg.floor == e.floor && reg.door == e.door &&
       reg.apartmentKey == e.apartmentKey && reg.language == e.language) &&
      c.boxes == t.boxes[boxId := t.boxes[boxId].(state := Occupied, reservedLabel := None)] &&
      c.waitlist == t.waitlist[k := e.(status := Assigned)] && c.emails == t.emails &&
      |c.audit| == |t.audit| + 3 && c.audit[..|t.audit|] == t.audit &&
      c.audit[|t.audit|].action == "waitlist_assign" && c.audit[|t.audit| + 1].action == "registration_create" &&
      c.audit[|t.audit| + 2].action == "box_state_change"
  {
    var entry := t.waitlist[k];
    var reg := AssignedRegistration(entry, boxId, t.nextUuid);
    var box := t.boxes[boxId];
    var t1 := AssignEntry(InsertRegistration(Begin(t), reg), k);
    var t2 := Logged(t1, WaitlistAssignEvent(adminId, entry, reg));
    var t3 := Logged(t2, AssignCreateEvent(adminId, entry, reg));
    var c := Logged(t3, BoxStateChange(adminId, boxId, StateSnapshot(box.state), StateSnapshot(Occupied)));
    assert c.audit[..|t.audit|] == t3.audit[..|t.audit|];
    assert t3.audit[..|t.audit|] == t2.audit[..|t.audit|];
    assert c.registrations[..|t.registrations|] == t.registrations;
  }

  /** The notification step after a committed transaction: it changes no
      box, registration or waitlist entry and only appends. Without a
      notification nothing happens; with `sendEmail` false exactly one
      `notification_skipped` event and no e-mail; otherwise exactly one
      e-mail, flagged as edited exactly when a non-empty subject or body
      was supplied, and a closing `notification_sent` event. */
  lemma NotificationEffect(
    t: Tables, adminId: string, notification: Option<NotificationInput>, preview: N.PreviewInput,
    entityType: string, entityId: string, delivered: bool)
    ensures var n := Notified(t, adminId, notification, preview, entityType, entityId, delivered);
      n.boxes == t.boxes && n.registrations == t.registrations && n.waitlist == t.waitlist &&
      |n.emails| >= |t.emails| && n.emails[..|t.emails|] == t.emails &&
      |n.audit| >= |t.audit| && n.audit[..|t.audit|] == t.audit &&
      (notification.None? ==> n == t) &&
      (notification.Some? && notification.value.sendEmail == Some(false) ==>
        n.emails == t.emails && |n.audit| == |t.audit| + 1 &&
        n.audit[|t.audit|].action == "notification_skipped" && n.audit[|t.audit|].actorId == Some(adminId)) &&
      (notification.Some? && notification.value.sendEmail != Some(false) ==>
        |n.emails| == |t.emails| + 1 &&
        n.emails[|t.emails|].recipientEmail == preview.recipientEmail &&
        n.emails[|t.emails|].editedBeforeSend == (Truthy(notification.value.subject) || Truthy(notification.value.bodyHtml)) &&
        n.emails[|t.emails|].status == (if delivered then Sent else Failed) &&
        |n.audit| == |t.audit| + (if delivered then 2 else 1) &&
        n.audit[|n.audit| - 1].action == "notification_sent" && n.audit[|n.audit| - 1].entityId == entityId)
  {
    var plan := PlanNotification(notification, preview);
    var rows := NotificationRows(plan, adminId, preview, entityType, entityId, t.nextUuid, t.clock, delivered);
    var n := AddRows(t, rows);
    assert n.emails[..|t.emails|] == t.emails;
    assert n.audit[..|t.audit|] == t.audit;
    if rows.events != [] {
      assert n.audit[|n.audit| - 1] == rows.events[|rows.events| - 1];
    }
    if plan.Send? {
      assert n.emails[|t.emails|] == rows.emails[0];
    }
  }
}
