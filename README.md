# Greenspace: a verified model of the allotment-box back end

Greenspace hands out the 29 planter boxes of two greenhouses (Kronen and
Søen) to residents of one street. A resident registers for a free box
through the public API, or joins a waiting list when none is free.
Administrators move registrations between boxes, remove them, assign
waiting entries, and read an audit trail of every change. Confirmation
e-mails are rendered from templates in Danish or English and queued
before they are sent.

This project models the back end's core in Dafny:

- The shared validators and constants. These cover e-mail, street, house
  number, floor/door, name and box id, plus the apartment key that
  enforces one box per apartment.
- DAWA house-number parsing.
- The error helpers and the router: route matching, the 404/405 rules and
  the mapping of thrown errors to responses.
- The database schema as a value (`Schema.Tables`). Its constraints and
  the bookkeeping the handlers keep are predicates on that value.
- The tables as fields of one mutable object (`Database.Db`).
- Audit logging and the e-mail queue.
- The public routes: joining the waiting list, the waiting-list
  position, the greenhouse summary and address validation.
- The admin registration handlers: create, move, remove and assign a
  waiting entry. Each is followed by the optional notification step
  (e-mail the member, or log that no e-mail was sent).
- The audit-log listing, with its filters, ordering and pagination.
- The user and admin e-mail templates with HTML escaping.
- The database seed.
- Admin sessions and the session cookie.

Handlers that change data are methods on `Db`. Each one states its new
state as a function of the old one: `db.Snapshot() == F(old(db.Snapshot()), …)`.
Separate lemmas prove that each such `F` keeps the schema's constraints
(`Schema.Valid`) and the box-occupancy bookkeeping (`Schema.Consistent`).

Things outside the process are parameters. These are the clock, the mail
service's verdict, a storage error raised by a concurrent insert, the
password hash and the route handlers.

## Model

| member | source | states |
|---|---|---|
| Errors.BadRequest | apps/api/src/lib/errors.ts:12-14 | status 400 with the given message and code |
| Errors.Unauthorized | apps/api/src/lib/errors.ts:16-18 | status 401, the given message, code `UNAUTHORIZED` |
| Errors.NotFound | apps/api/src/lib/errors.ts:20-22 | status 404, the given message, code `NOT_FOUND` |
| Errors.Conflict | apps/api/src/lib/errors.ts:24-26 | status 409 with the given message and code |
| Errors.MethodNotAllowed | apps/api/src/lib/errors.ts:28-30 | status 405, "Method not allowed", code `METHOD_NOT_ALLOWED` |
| Errors.ToErrorBody | apps/api/src/lib/errors.ts:37-43 | the body carries the message; it carries the code exactly when the code is present and non-empty |
| Audit.Logged | apps/api/src/lib/audit.ts:15-32 | the log grows by exactly one row holding the input's fields under a fresh id and the current time; no other table changes |
| Audit.LoggedKeepsValid | apps/api/src/lib/audit.ts:15-32 | logging an event keeps every schema constraint and the box bookkeeping |
| Audit.LogAuditEvent | apps/api/src/lib/audit.ts:15-32 | the database afterwards is `Logged` applied to the database before |
| EmailService.QueueAndSendEmail | apps/api/src/lib/email-service.ts:34-84 | one e-mail row under a fresh id; it ends `sent` with a system `email_sent` audit event when the mail service accepts it, and `failed` with no event when it does not; the id is returned either way |
| Constants.Range | packages/shared/src/constants.ts:84-88 | `Array.from` over a range: element k is lo + k, and the length is hi - lo (0 when empty) |
| Constants.CatalogIds | packages/shared/src/constants.ts:12-49 | the catalog holds 29 boxes numbered 1 to 29 in order |
| Constants.CatalogGreenhouses | packages/shared/src/constants.ts:12-55 | boxes 1-14 are in Kronen and 15-29 in Søen, each in one of the two greenhouses |
| Constants.CatalogNamesDistinct | packages/shared/src/constants.ts:16-46 | no two boxes share a name |
| Constants.FloorDoorRequiredMembers | packages/shared/src/constants.ts:80-88 | a house number needs floor and door exactly when it is 138, 144 or in 161-202 |
| Constants.FindInCatalog | packages/shared/src/constants.ts:16-46 | a lookup by id returns a catalog entry with that id, or none when no entry has it |
| Constants.FindBoxSpec | packages/shared/src/constants.ts:16-49 | a box id is in the catalog exactly when it is in 1-29, and then it names entry id - 1 |
| Enums.ParseLanguage | packages/shared/src/enums.ts:17-19 | a language is recognised exactly for "da" and "en", and it prints back as the same code |
| Enums.ParseActorType | packages/shared/src/enums.ts:13-15 | an actor type is recognised exactly for "public", "admin" and "system", and it prints back as the same name |
| Dawa.LeadingDigits | packages/shared/src/dawa.ts:49-53 | the `^(\d+)` capture: the longest prefix made of digits |
| Dawa.ParseDawaHouseNumber | packages/shared/src/dawa.ts:49-53 | no number exactly when the text is empty or does not begin with a digit |
| Dawa.LeadingDigitsOfSplit | packages/shared/src/dawa.ts:49-53 | digits followed by text that does not begin with a digit yield exactly those digits |
| Dawa.ParseDawaHouseNumberSpec | packages/shared/src/dawa.ts:49-53 | a house number like "138A" parses to the decimal value of its leading digits |
| Dawa.ParseDawaHouseNumberRoundTrip | packages/shared/src/dawa.ts:49-53 | a number printed in decimal, with any suffix that does not begin with a digit, parses back to itself |
| Validators.IndexOf | packages/shared/src/validators.ts:14 | the first position of a character, or none when it does not occur |
| Validators.EmailFormatToRegex | packages/shared/src/validators.ts:14 | the split-at-`@` description of an address implies the e-mail regular expression |
| Validators.RegexToEmailFormat | packages/shared/src/validators.ts:14 | the e-mail regular expression implies the split-at-`@` description |
| Validators.EmailFormatIsRegex | packages/shared/src/validators.ts:14 | the executable e-mail check agrees with the regular expression on every string |
| Validators.ValidateEmailSpec | packages/shared/src/validators.ts:17-29 | an e-mail is valid exactly when its trimmed text matches the regular expression; blank input is "Email is required" |
| Validators.ValidateStreetSpec | packages/shared/src/validators.ts:32-43 | a street is valid exactly when, trimmed, it is "Else Alfelts Vej" |
| Validators.ValidateHouseNumberSpec | packages/shared/src/validators.ts:46-60 | a house number is valid exactly when it is present, whole and within 122-202 |
| Validators.IsFloorDoorRequiredSpec | packages/shared/src/validators.ts:63-65 | floor and door are required exactly for the whole numbers 138, 144 and 161-202 |
| Validators.ValidateFloorDoorSpec | packages/shared/src/validators.ts:68-85 | valid exactly when floor/door are not required, or both are present and not blank |
| Validators.ValidateAddressFirstFailure | packages/shared/src/validators.ts:88-104 | valid exactly when all three checks pass; otherwise the error is that of the first failing check, in the order street, house number, floor/door |
| Validators.ApartmentKeyFormat | packages/shared/src/validators.ts:112-128 | the key is "street number", with "/floor-door" when both are given, "/floor" when only the floor is given, and nothing more otherwise |
| Validators.TrimUpperCommute | packages/shared/src/validators.ts:118-120 | trimming and upper-casing commute |
| Validators.CanonicalIgnoresCaseAndPadding | packages/shared/src/validators.ts:118-120 | trim-then-lower-case forgets case and surrounding white space |
| Validators.ApartmentKeyIgnoresCaseAndPadding | packages/shared/src/validators.ts:112-128 | the key does not depend on the case or surrounding white space of street, floor and door |
| Validators.BlankFloorIsAbsent | packages/shared/src/validators.ts:119-127 | a blank floor gives the same key as no floor |
| Validators.ValidateNameSpec | packages/shared/src/validators.ts:131-139 | a name is valid exactly when it is not all white space |
| Validators.ValidateBoxIdSpec | packages/shared/src/validators.ts:142-150 | a box id is valid exactly when it is present, whole and within 1-29 |
| EmailTemplates.ChainUnfolds | apps/api/src/lib/email-templates.ts:106-112 | the escaping is the four global replacements in order: `&`, `<`, `>`, `"` |
| EmailTemplates.EscapeHtmlPerChar | apps/api/src/lib/email-templates.ts:106-112 | since `&` is replaced first, escaping maps every character on its own, and nothing is escaped twice |
| EmailTemplates.EscapeHtmlSafe | apps/api/src/lib/email-templates.ts:106-112 | escaped text holds no `<`, `>` or `"`; an apostrophe is left as it is |
| EmailTemplates.EscapeHtmlIdentity | apps/api/src/lib/email-templates.ts:106-112 | text without `&`, `<`, `>` and `"` is unchanged |
| EmailTemplates.Cells | apps/api/src/lib/email-templates.ts:114-145 | one map cell per box id, in order, highlighted exactly when it is the recipient's box |
| EmailTemplates.MapShowsGreenhouse | apps/api/src/lib/email-templates.ts:114-145 | the map shows boxes 1-14 in order for Kronen, and 15-29 for any other greenhouse name |
| EmailTemplates.MapHighlightsOnlyBox | apps/api/src/lib/email-templates.ts:122-141 | exactly the recipient's box is highlighted |
| EmailTemplates.CareGuidelines | apps/api/src/lib/email-templates.ts:167-169 | the care list holds the guidelines in order |
| EmailTemplates.BuildConfirmationEmail | apps/api/src/lib/email-templates.ts:147-250 | the subject is the language's subject, sender and reply-to are the configured ones, the page language is the recipient's, the box is shown as "#id", there are five care guidelines, a switch note appears exactly when the previous box id is a catalogue box, the page carries the WhatsApp group link and the organisers' contacts, and replies go to the first organiser |
| EmailTemplates.GreetingIsEscaped | apps/api/src/lib/email-templates.ts:190 | the recipient's name reaches the page only escaped |
| EmailTemplates.CatalogBoxDetails | apps/api/src/lib/email-templates.ts:149-159 | a catalogue box shows its own name and greenhouse; it gets Kronen's location text and map exactly when it is box 1-14; its cell is on the map |
| EmailTemplates.UnknownBoxFallback | apps/api/src/lib/email-templates.ts:149-159 | an unknown box shows as "#id" in "Unknown", with Søen's texts and Søen's map |
| EmailTemplates.SwitchNoteNamesOldBox | apps/api/src/lib/email-templates.ts:153-165 | the switch note names the previous box and its greenhouse from the catalogue |
| AdminEmailTemplates.ChainUnfolds | apps/api/src/lib/admin-email-templates.ts:76-83 | the escaping is the five global replacements in order: `&`, `<`, `>`, `"`, `'` |
| AdminEmailTemplates.EscapeHtmlPerChar | apps/api/src/lib/admin-email-templates.ts:76-83 | escaping maps every character on its own, with `&` replaced first |
| AdminEmailTemplates.EscapeCharSafe | apps/api/src/lib/admin-email-templates.ts:76-83 | the image of a character holds no `<`, `>`, `"` or `'` |
| AdminEmailTemplates.EscapeHtmlSafe | apps/api/src/lib/admin-email-templates.ts:76-83 | escaped text holds no `<`, `>`, `"` or `'` |
| AdminEmailTemplates.EscapeHtmlIdentity | apps/api/src/lib/admin-email-templates.ts:76-83 | text without `&`, `<`, `>`, `"` and `'` is unchanged |
| AdminEmailTemplates.CatalogBoxRef | apps/api/src/lib/admin-email-templates.ts:89-91 | a catalogue box is named by its entry; any other id is "#id" in "Unknown" |
| AdminEmailTemplates.OldBoxRef | apps/api/src/lib/admin-email-templates.ts:177-179 | a missing old box id gives "#undefined" in "Unknown"; the falsy id 0 skips the catalogue and gives "#0" |
| AdminEmailTemplates.RenderedContacts | apps/api/src/lib/admin-email-templates.ts:111-125 | the list holds two strings per contact, in order: entry 2k is contact k's escaped name and entry 2k+1 its escaped e-mail |
| AdminEmailTemplates.BuildAdminNotification | apps/api/src/lib/admin-email-templates.ts:153-243 | the subject follows the action, recipient and language are the input's, the page title is the subject, the greeting comes first, the box details appear exactly when the action is not a removal, and every e-mail ends with the closing sections: the organisers' contact list, the closing line and the signature |
| AdminEmailTemplates.OrganizerEmailsShown | apps/api/src/lib/admin-email-templates.ts:111-125 | each organiser's e-mail address appears verbatim in the rendered contact list |
| AdminEmailTemplates.PlainEmailsShown | apps/api/src/lib/admin-email-templates.ts:111-125 | any contact list shows every address that needs no escaping exactly as written |
| AdminEmailTemplates.OrganizerAddressesPlain | packages/shared/src/constants.ts:66-69 | the organisers' addresses hold only lower-case letters, digits, `.` and `@` |
| AdminEmailTemplates.AddDescribesBox | apps/api/src/lib/admin-email-templates.ts:153-172 | the add e-mail's third block describes the box |
| AdminEmailTemplates.MoveDescribesBox | apps/api/src/lib/admin-email-templates.ts:174-204 | the move e-mail's fourth block describes the new box |
| AdminEmailTemplates.RemoveOmitsBox | apps/api/src/lib/admin-email-templates.ts:206-231 | the remove e-mail has no box-details block |
| AdminEmailTemplates.GreetingIsEscaped | apps/api/src/lib/admin-email-templates.ts:159 | the greeting renders as the escaped greeting, so the recipient's name cannot open a tag |
| AdminEmailTemplates.AddAndAssignShareTemplate | apps/api/src/lib/admin-email-templates.ts:233-237 | adding a registration and assigning from the waitlist send the same e-mail |
| AdminEmailTemplates.BoxDetailsFallback | apps/api/src/lib/admin-email-templates.ts:85-109 | the add, assign and move e-mails describe "#id" with the catalogue's name and greenhouse, or the unknown-box fallback |
| AdminEmailTemplates.NoticeNamesBoxes | apps/api/src/lib/admin-email-templates.ts:174-231 | the move notice names the old and the new box, each with its fallbacks; the remove notice names the released box |
| Schema.OccupiedIffExactlyOneActive | apps/api/src/db/migrations/001_initial_schema.ts:151-154 | with `uq_registrations_active_box` and the handlers' bookkeeping, a box is occupied exactly when one and only one active registration refers to it |
| Schema.HasActiveOnBoxAppend | apps/api/src/db/migrations/001_initial_schema.ts:151-154 | after a row is appended, a box has an active registration iff it had one before or the new row is active on it |
| Schema.HasActiveForApartmentAppend | apps/api/src/db/migrations/001_initial_schema.ts:146-149 | after a row is appended, an apartment has an active registration iff it had one before or the new row is active for it |
| Schema.InsertKeepsOccupancy | apps/api/src/routes/admin/registrations.ts:182-202 | inserting an active registration and marking its box occupied (label cleared) keeps "occupied iff an active registration refers to it" and "only reserved boxes carry a label" |
| Schema.InsertKeepsUnique | apps/api/src/db/migrations/001_initial_schema.ts:146-154 | an insert for an apartment and a box with no active registration keeps both partial unique indexes |
| Schema.MoveKeepsOccupancy | apps/api/src/routes/admin/registrations.ts:311-327 | moving an active registration to a box nobody holds, freeing the old box and occupying the new one, keeps the occupancy bookkeeping |
| Schema.MoveKeepsUnique | apps/api/src/db/migrations/001_initial_schema.ts:146-154 | the same move keeps both partial unique indexes |
| Schema.RemoveKeepsOccupancy | apps/api/src/routes/admin/registrations.ts:424-441 | ending an active registration and giving its box a state other than occupied keeps the occupancy bookkeeping and labels only on reserved boxes |
| Schema.RemoveKeepsUnique | apps/api/src/db/migrations/001_initial_schema.ts:146-154 | marking a registration removed keeps both partial unique indexes |
| Schema.FreeBoxHasNoActive | apps/api/src/db/migrations/001_initial_schema.ts:151-154 | under the bookkeeping, a box that is not occupied has no active registration |
| Schema.BeginKeepsValid | apps/api/src/db/migrations/001_initial_schema.ts:4-300 | a new transaction's clock tick keeps every constraint and the bookkeeping |
| Schema.InsertKeepsValid | apps/api/src/routes/admin/registrations.ts:182-202 | the create/assign insert under a fresh id keeps every constraint of the schema, and the bookkeeping |
| Schema.AssignEntryKeepsValid | apps/api/src/routes/admin/registrations.ts:581-584 | marking a waiting entry assigned keeps every constraint and the bookkeeping |
| Schema.MoveKeepsValid | apps/api/src/routes/admin/registrations.ts:311-327 | a move of an active registration to another box no active registration holds keeps every constraint and the bookkeeping |
| Schema.RemoveKeepsValid | apps/api/src/routes/admin/registrations.ts:424-441 | a removal that leaves the box available or reserved keeps every constraint and the bookkeeping |
| Schema.JoinKeepsValid | apps/api/src/db/migrations/001_initial_schema.ts:162-206 | a waiting entry created now, under a fresh id, for an apartment not already waiting keeps `uq_waitlist_active_apartment` and the creation order |
| Schema.AppendEventKeepsValid | apps/api/src/db/migrations/001_initial_schema.ts:245-299 | appending an audit event under a fresh id keeps every constraint; events are only ever appended |
| Schema.AppendEmailKeepsValid | apps/api/src/db/migrations/001_initial_schema.ts:208-237 | appending an e-mail row under a fresh id keeps every constraint |
| Schema.UpdateEmailKeepsValid | apps/api/src/db/migrations/001_initial_schema.ts:208-237 | updating an e-mail row in place, keeping its id, keeps every constraint |
| Database.Db.constructor | apps/api/src/db/migrations/001_initial_schema.ts:4-300 | after the migration every table is empty, and the empty state satisfies the schema and the bookkeeping |
| Database.Db.NewId | apps/api/src/db/migrations/001_initial_schema.ts:111-114 | `gen_random_uuid()` yields an identifier no earlier row has had, and changes nothing else |
| Database.Db.Tick | apps/api/src/db/migrations/001_initial_schema.ts:131-133 | a new transaction sees a strictly later `now()`, and nothing else changes |
| Registrations.PlanNotification | apps/api/src/routes/admin/registrations.ts:29-47 | no notification means nothing happens; `sendEmail: false` means a skip; otherwise a send, whose subject and body are the supplied ones when given and the template's otherwise, flagged as edited exactly when a non-empty subject or body was supplied |
| Registrations.NotificationRows | apps/api/src/routes/admin/registrations.ts:29-83 | a send adds exactly one e-mail, a skip none; a skip adds one event, a send one or two (two when the e-mail was delivered); every added row takes one fresh identifier |
| Registrations.NotificationKeepsValid | apps/api/src/routes/admin/registrations.ts:21-84 | the notification step keeps every constraint and the bookkeeping |
| Registrations.SkipKeepsValid | apps/api/src/routes/admin/registrations.ts:34-47 | logging `notification_skipped` keeps every constraint and the bookkeeping |
| Registrations.SendKeepsValid | apps/api/src/routes/admin/registrations.ts:49-83 | queueing, sending, flagging and logging the e-mail keep every constraint and the bookkeeping |
| Registrations.SendNotificationIfRequested | apps/api/src/routes/admin/registrations.ts:21-84 | the new state is the old one after the planned notification rows |
| Registrations.SendNotification | apps/api/src/routes/admin/registrations.ts:49-83 | the e-mail is queued and sent, flagged as edited when it was, and `notification_sent` is logged after it |
| Registrations.MarkEditedBeforeSend | apps/api/src/routes/admin/registrations.ts:62-68 | only the e-mail just queued changes, and only its edited flag, which becomes true |
| Registrations.CreatedRegistration | apps/api/src/routes/admin/registrations.ts:182-198 | the inserted row carries the request's box, member, address, language and the normalised apartment key, and is active |
| Registrations.CreateKeepsValid | apps/api/src/routes/admin/registrations.ts:153-225 | committing a create whose checks passed keeps every constraint and the bookkeeping |
| Registrations.CommitCreate | apps/api/src/routes/admin/registrations.ts:182-222 | the row gets a fresh id and the new state is the committed create |
| Registrations.HandleCreateRegistration | apps/api/src/routes/admin/registrations.ts:129-248 | the request fails exactly when a check fails (401, 400 for missing fields, bad language or an unknown box, 409 `BOX_OCCUPIED` or `APARTMENT_HAS_REGISTRATION`) and then nothing changes; otherwise 201 with the new registration, the create committed and the notification step run; validity and the bookkeeping are kept |
| Registrations.FindRegistration | apps/api/src/routes/admin/registrations.ts:270-280 | the lookup finds the first registration with that id, and finds none only when no registration has it |
| Registrations.FindEntry | apps/api/src/routes/admin/registrations.ts:516-528 | the lookup finds the first waitlist entry with that id, and finds none only when no entry has it |
| Registrations.MoveCommitKeepsValid | apps/api/src/routes/admin/registrations.ts:267-365 | committing a move whose checks passed keeps every constraint and the bookkeeping |
| Registrations.CommitMove | apps/api/src/routes/admin/registrations.ts:311-359 | the new state is the committed move |
| Registrations.HandleMoveRegistration | apps/api/src/routes/admin/registrations.ts:254-390 | the request fails exactly when a check fails (401; 400 for missing fields, a non-active registration, the same box or an unknown target; 404 for an unknown registration; 409 `BOX_OCCUPIED`; the unique index's error when an active registration still holds a target that is not marked occupied) and then nothing changes; otherwise 200, the move committed and the notification step run; validity and the bookkeeping are kept |
| Registrations.RemoveCommitKeepsValid | apps/api/src/routes/admin/registrations.ts:410-469 | committing a removal of an active registration keeps every constraint and the bookkeeping |
| Registrations.CommitRemove | apps/api/src/routes/admin/registrations.ts:424-462 | the new state is the committed removal |
| Registrations.HandleRemoveRegistration | apps/api/src/routes/admin/registrations.ts:396-493 | the request fails exactly when a check fails (401; 400 for a missing id or a non-active registration; 404 for an unknown one) and then nothing changes; otherwise 200, the removal committed with `makeBoxPublic` defaulting to true, and the notification step run; validity and the bookkeeping are kept |
| Registrations.AssignCommitKeepsValid | apps/api/src/routes/admin/registrations.ts:512-625 | committing an assignment whose checks passed keeps every constraint and the bookkeeping |
| Registrations.CommitAssign | apps/api/src/routes/admin/registrations.ts:556-619 | the new registration copies the entry under a fresh id, and the new state is the committed assignment |
| Registrations.HandleAssignWaitlist | apps/api/src/routes/admin/registrations.ts:499-649 | the request fails exactly when a check fails (401; 400 for missing fields, an entry not waiting or an unknown box; 404 for an unknown entry; 409 `BOX_OCCUPIED` or `APARTMENT_HAS_REGISTRATION`) and then nothing changes; otherwise 201, the assignment committed and the notification step run; validity and the bookkeeping are kept |
| Registrations.ReservedBoxAccepted | apps/api/src/routes/admin/registrations.ts:158-166 | only an occupied box is refused: a reserved box is accepted unless the apartment already has an active registration |
| Registrations.ClaimRejectionCases | apps/api/src/routes/admin/registrations.ts:155-180 | a create or assign claim is refused exactly when the box is unknown (400), occupied (409) or the apartment already has an active registration (409), so the unique index is never what refuses it |
| Registrations.MoveNeverViolatesIndex | apps/api/src/routes/admin/registrations.ts:298-310 | every refused move is refused by the handler's own checks, never by the unique index |
| Registrations.RejectionStatuses | apps/api/src/routes/admin/registrations.ts:129-143 | no administrator gives 401 for every handler; missing create fields and a bad language give 400; an unknown registration or waitlist entry gives 404 `NOT_FOUND` |
| Registrations.CreateEffect | apps/api/src/routes/admin/registrations.ts:182-224 | a create appends one active registration, occupies its box with no label, leaves the other boxes, the waitlist and the e-mails alone, and appends `registration_create` then `box_state_change` |
| Registrations.MoveEffect | apps/api/src/routes/admin/registrations.ts:311-359 | a move changes only that registration's box; the old box becomes available, the new one occupied, other boxes stay; three events are appended |
| Registrations.RemoveEffect | apps/api/src/routes/admin/registrations.ts:424-462 | a removal marks the registration removed; its box becomes available, or reserved under "Admin Hold" when not released; two events are appended |
| Registrations.AssignEffect | apps/api/src/routes/admin/registrations.ts:556-619 | an assignment appends an active registration that copies the entry's member, address, apartment and language, occupies the box, marks the entry assigned and appends three events |
| Registrations.NotificationEffect | apps/api/src/routes/admin/registrations.ts:21-84 | the notification step changes no box, registration or waitlist entry and only appends; skipping adds exactly one event and no e-mail; sending adds exactly one e-mail, flagged edited exactly when something was supplied |
| PublicRoutes.AvailableCountPositive | apps/api/src/routes/public.ts:189-195 | the `state = 'available'` count is positive exactly when some box is available; reserved and occupied boxes do not count |
| PublicRoutes.WaitingEntries | apps/api/src/routes/public.ts:276-281 | the selected rows are exactly the waiting entries, none added |
| PublicRoutes.CreatedInOrderTail | apps/api/src/routes/public.ts:276-281 | dropping the oldest entry keeps creation order, and every later entry is newer |
| PublicRoutes.CreatedInOrderCons | apps/api/src/routes/public.ts:276-281 | an entry older than every entry of an ordered list can go first |
| PublicRoutes.WaitingEntriesByCreation | apps/api/src/routes/public.ts:276-281 | because entries are stored in creation order, the waiting entries come out ordered by `created_at` ascending, as the query asks |
| PublicRoutes.WaitingEntriesAppend | apps/api/src/routes/public.ts:276-281 | a waiting entry added last is last among the waiting entries |
| PublicRoutes.IndexOfKey | apps/api/src/routes/public.ts:283 | `findIndex` returns the first entry with the key, or none when no entry has it |
| PublicRoutes.WaitlistPositionSpec | apps/api/src/routes/public.ts:272-285 | the position is 0 exactly when the apartment has no waiting entry; otherwise it is the 1-based place of the first waiting entry with the key |
| PublicRoutes.FindWaiting | apps/api/src/routes/public.ts:202-207 | the lookup finds a waiting entry with the key exactly when one exists |
| PublicRoutes.PositionNamesTheEntry | apps/api/src/routes/public.ts:293-313 | under `uq_waitlist_active_apartment`, the position points at the very entry the lookup found |
| PublicRoutes.JoinedLast | apps/api/src/routes/public.ts:260-268 | an apartment that joins is last in line: its position is the number of waiting entries before it plus one |
| PublicRoutes.InsertFailureError | apps/api/src/routes/public.ts:250-258 | a unique violation (code 23505) becomes 409 `ALREADY_ON_WAITLIST`; any other error is rethrown unchanged |
| PublicRoutes.JoinCommitKeepsValid | apps/api/src/routes/public.ts:223-249 | the join transaction for an apartment not already waiting keeps every constraint and the bookkeeping |
| PublicRoutes.CommitJoin | apps/api/src/routes/public.ts:223-249 | the entry is appended under a fresh id, created now, and the new state is the committed join |
| PublicRoutes.HandleJoinWaitlist | apps/api/src/routes/public.ts:168-270 | fails exactly for no body (400), an available box (400 `BOXES_AVAILABLE`) or an insert failure (mapped as above), changing nothing; a rejected body is a 422; an apartment already waiting gets 200 with its position and join time and nothing changes; otherwise 201 with the new id and the last position, and the join committed; validity and the bookkeeping are kept |
| PublicRoutes.JoinNew | apps/api/src/routes/public.ts:221-269 | the insert path answers 201 with the fresh id and the position just past every waiting entry |
| PublicRoutes.JoinEffect | apps/api/src/routes/public.ts:223-249 | a join adds exactly one waiting entry with the request's fields and the normalised key, created now, and exactly one public `waitlist_add` event naming it; boxes and registrations are untouched |
| PublicRoutes.JoinRefusedWhileBoxesAvailable | apps/api/src/routes/public.ts:189-200 | a join is refused with `BOXES_AVAILABLE` whenever a box is available, and with none available and no storage failure it is not refused |
| PublicRoutes.HandleWaitlistPosition | apps/api/src/routes/public.ts:287-317 | a missing or empty key is a 400; otherwise 200, "not on waitlist" exactly when no waiting entry has the key, else a position in range whose entry has the key and the reported join time |
| PublicRoutes.StatesPartition | apps/api/src/routes/public.ts:48-56 | a greenhouse's available, occupied and reserved boxes add up to all its boxes |
| PublicRoutes.Summarize | apps/api/src/routes/public.ts:48-56 | a summary's total is the greenhouse's box count and its three state counts add up to it |
| PublicRoutes.PublicGreenhouses | apps/api/src/routes/public.ts:42-63 | 200 with one summary per fixed greenhouse, in order |
| PublicRoutes.SummariesCoverEveryBox | apps/api/src/routes/public.ts:42-63 | when the greenhouse table holds exactly the fixed list, the two totals count every box once |
| PublicRoutes.HandleValidateAddress | apps/api/src/routes/public.ts:92-126 | no body is a 400; otherwise 200, eligible exactly when the address validates, with no error, the floor/door requirement and the normalised key; ineligible with the first failing check's own message as the error and no key |
| Seed.BoxRows | apps/api/src/db/seed.ts:22-34 | one box row per catalogue entry, in catalogue order |
| Seed.BoxRowsSpec | apps/api/src/db/seed.ts:22-34 | 29 rows; row `i` has id `i + 1` and the catalogue entry's name and greenhouse, and is available without a label |
| Seed.InsertGreenhouses | apps/api/src/db/seed.ts:53-58 | the insert with `onConflict(name).doNothing()` keeps the existing rows in place, adds exactly the missing names, and keeps the names distinct |
| Seed.InsertBoxes | apps/api/src/db/seed.ts:61-66 | the insert with `onConflict(id).doNothing()` keeps every existing box unchanged and adds a box from its row for each new id |
| Seed.AdminsSeeded | apps/api/src/db/seed.ts:86-108 | the admin loop changes only admins, credentials and ids; it keeps the existing admins and leaves every seed e-mail with an admin |
| Seed.AdminSeededGrows | apps/api/src/db/seed.ts:87-107 | one pass keeps every admin and leaves an admin with that e-mail |
| Seed.CatalogSeeded | apps/api/src/db/seed.ts:52-81 | the greenhouse, box and settings inserts leave registrations, the waitlist, the log, e-mails, admins, sessions and the clock alone |
| Seed.Seed | apps/api/src/db/seed.ts:47-109 | the new state is the seeded state of the old one |
| Seed.SeedCatalog | apps/api/src/db/seed.ts:52-81 | the new state is the old one after the three catalogue inserts |
| Seed.SeedAdmins | apps/api/src/db/seed.ts:84-108 | the loop's new state is the old one after one pass per seed e-mail |
| Seed.InsertGreenhousesKeepsValid | apps/api/src/db/seed.ts:53-58 | the greenhouse insert keeps every constraint and the bookkeeping |
| Seed.InsertBoxesKeepsValid | apps/api/src/db/seed.ts:61-66 | inserting available, unlabelled boxes with ids in range, in a known greenhouse, keeps every constraint and the bookkeeping |
| Seed.SettingsSeededKeepsValid | apps/api/src/db/seed.ts:71-81 | writing the settings row only when there is none keeps every constraint and the bookkeeping |
| Seed.AdminSeededKeepsValid | apps/api/src/db/seed.ts:87-107 | an admin under a fresh id with a new e-mail, and its one credential, keep every constraint |
| Seed.AdminsSeededKeepsValid | apps/api/src/db/seed.ts:86-108 | the whole admin loop keeps every constraint and the bookkeeping |
| Seed.BoxRowsAreCatalogRows | apps/api/src/db/seed.ts:22-34 | every seed box row has an id in 1..29, a seeded greenhouse, and is available without a label |
| Seed.SeededWithKeepsValid | apps/api/src/db/seed.ts:47-109 | seeding over catalogue-shaped rows keeps every constraint and the bookkeeping |
| Seed.SeedKeepsValid | apps/api/src/db/seed.ts:47-109 | seeding keeps every constraint and the bookkeeping |
| Seed.InsertGreenhousesNoop | apps/api/src/db/seed.ts:53-58 | inserting names that all exist changes nothing |
| Seed.InsertBoxesNoop | apps/api/src/db/seed.ts:61-66 | inserting rows whose ids all exist changes nothing |
| Seed.AdminsSeededNoop | apps/api/src/db/seed.ts:86-108 | when every e-mail already has an admin, the loop changes nothing |
| Seed.SeededWithIdempotent | apps/api/src/db/seed.ts:47-109 | seeding twice over the same rows is seeding once, whatever the second password hash |
| Seed.SeedIdempotent | apps/api/src/db/seed.ts:47-109 | seeding a seeded database changes nothing |
| Seed.SeededTables | apps/api/src/db/seed.ts:47-109 | seeding inserts greenhouses and boxes, writes the settings row only when there is none, and leaves registrations, the waitlist, the log, e-mails and sessions alone |
| Seed.InsertBoxesIntoEmpty | apps/api/src/db/seed.ts:61-66 | into an empty table, rows numbered 1..n give exactly the boxes 1..n, each from its row |
| Seed.SeededWithFromEmpty | apps/api/src/db/seed.ts:47-109 | seeding the empty database gives the two greenhouses in order, nothing registered, waiting or logged, one settings row at the default opening time and one admin and credential per seed e-mail |
| Seed.GreenhousesIntoEmpty | apps/api/src/db/seed.ts:15-17 | into an empty table the greenhouses go in catalogue order |
| Seed.SeededBoxesFromEmpty | apps/api/src/db/seed.ts:61-66 | from empty, rows numbered 1..n give exactly the boxes 1..n |
| Seed.SeedFromEmpty | apps/api/src/db/seed.ts:47-109 | the first seed gives a consistent database with exactly the catalogue's 29 boxes, each with its catalogue name and greenhouse, available and unlabelled, plus the settings row and the seed admins |
| Seed.EmptyConsistent | apps/api/src/db/migrations/001_initial_schema.ts:4-300 | the freshly migrated, empty database satisfies every constraint |
| Seed.SeedFromEmptyConsistent | apps/api/src/db/seed.ts:47-109 | the first seed leaves the database consistent |
| Seed.SeedFromEmptyBoxes | apps/api/src/db/seed.ts:61-66 | the first seed's boxes are exactly the catalogue's |
| Seed.SeededAdmins | apps/api/src/db/seed.ts:86-108 | the first seed creates one admin and one credential per seed e-mail |
| Seed.AdminsSeededCount | apps/api/src/db/seed.ts:86-108 | from no admins and distinct e-mails, the loop adds exactly one admin and one credential per e-mail |
| Seed.AdminsSeededEmails | apps/api/src/db/seed.ts:86-108 | from no admins, every admin the loop adds has one of the loop's e-mails |
| AuditListing.ClampLimit | apps/api/src/routes/admin/audit.ts:48-51 | the page size is always 1..100: 50 when the limit is absent, zero or not a number, the limit itself inside 1..100, 1 below and 100 above |
| AuditListing.SatisfiesAppend | apps/api/src/routes/admin/audit.ts:71-97 | adding a `where` clause narrows the query by exactly that clause |
| AuditListing.BuildQuery | apps/api/src/routes/admin/audit.ts:71-97 | the query built filter by filter selects exactly the events matching every given filter (action, entity type, entity id, actor type, before, after, cursor) |
| AuditListing.Where | apps/api/src/routes/admin/audit.ts:53-99 | the selected rows are exactly the log's events satisfying the query |
| AuditListing.ConsNewestFirst | apps/api/src/routes/admin/audit.ts:67-68 | an event listed no later than every event of a newest-first list can go first |
| AuditListing.HeadListedFirst | apps/api/src/routes/admin/audit.ts:67-68 | the head of a newest-first list comes no later than any of its events |
| AuditListing.InsertNewestFirst | apps/api/src/routes/admin/audit.ts:67-68 | inserting into a newest-first list keeps it ordered by timestamp then id, both descending, and adds exactly that event |
| AuditListing.OrderNewestFirst | apps/api/src/routes/admin/audit.ts:67-68 | the ordering is a permutation of its input, newest first with ties broken by the larger id |
| AuditListing.TakeNewest | apps/api/src/routes/admin/audit.ts:69 | the first `n` of an ordered list are ordered and come no later than any event left out |
| AuditListing.Execute | apps/api/src/routes/admin/audit.ts:53-99 | `limit(fetch)` returns `min(fetch, matching)` matching events, newest first, and leaves out no event newer than one returned |
| AuditListing.PageOf | apps/api/src/routes/admin/audit.ts:101-103 | `hasMore` iff more rows than the limit were fetched; the page is the first `limit` rows, or all of them; the cursor is present exactly with `hasMore` and is the last listed event's id |
| AuditListing.PageOfSized | apps/api/src/routes/admin/audit.ts:69-103 | fetching one more than the limit gives a page of the `limit` newest matching events when more match, all of them otherwise, with `hasMore` exactly when more match |
| AuditListing.PrefixNewest | apps/api/src/routes/admin/audit.ts:101-102 | the first rows of a newest-first selection are themselves a newest-first selection |
| AuditListing.PageOfNewest | apps/api/src/routes/admin/audit.ts:67-103 | a page holds only matching events, newest first, and no matching event left out is newer than one listed |
| AuditListing.PageListsNewest | apps/api/src/routes/admin/audit.ts:48-103 | a page both holds the right number of events and the newest ones |
| AuditListing.HandleListAuditEvents | apps/api/src/routes/admin/audit.ts:25-124 | 401 without an administrator; 400 for an unknown action and then for an unknown actor type; otherwise a page listing the clamped number of newest events matching every filter, with `hasMore` and `nextCursor` as above |
| AuditListing.Matching | apps/api/src/routes/admin/audit.ts:71-97 | the events of the log matching the filters |
| AuditListing.SameMatches | apps/api/src/routes/admin/audit.ts:71-99 | a query equivalent to the filters selects the same rows in the same order |
| AuditListing.IdCursorSkipsEvent | apps/api/src/routes/admin/audit.ts:95-97 | with a newer event whose id is smaller than an older one's, one event per page: the first page lists the newer event with cursor 5, and the second page is empty, so the older event is never listed |
| AuditListing.SampleFirstRows | apps/api/src/routes/admin/audit.ts:67-69 | without a cursor both sample events are fetched, the newer first |
| AuditListing.SampleSecondRows | apps/api/src/routes/admin/audit.ts:95-99 | after id 5 neither sample event is fetched |
| AuditListing.KeysetAfter | apps/api/src/routes/admin/audit.ts:67-68 | the corrected continuation holds exactly for the events ordered after the given one |
| AuditListing.ListedNoLaterThanLast | apps/api/src/routes/admin/audit.ts:67-68 | each event of an ordered page comes no later than its last one |
| AuditListing.OrderedBothWaysSame | apps/api/src/db/migrations/001_initial_schema.ts:248-250 | with unique ids, two events ordered both ways round are the same event |
| AuditListing.KeysetCursorCovers | apps/api/src/routes/admin/audit.ts:67-103 | with a cursor carrying the last listed event's time and id, every matching event is on the first page or is selected by the next page's condition, never both |
| Routing.Respond | apps/api/src/router.ts:89-102 | a returned response passes through; an `AppError` becomes its status with its message and a code only when non-empty; anything else is a 500 "Internal server error" without a code |
| Routing.BindingsSpec | apps/api/src/router.ts:35-43 | the names bound are exactly the placeholders', each bound to the path segment under its last occurrence |
| Routing.MatchRoute | apps/api/src/router.ts:30-45 | the loop computes the route match function |
| Routing.RouteMatchSpec | apps/api/src/router.ts:30-45 | a path matches exactly when the segment counts agree and every literal segment is equal; then every placeholder is bound to its path segment and nothing else is bound |
| Routing.Matched | apps/api/src/router.ts:69-80 | no candidate is collected exactly when no route's path matches |
| Routing.FindMethodAppend | apps/api/src/router.ts:82 | `find` over two lists takes the first list's hit when there is one |
| Routing.EarliestRoute | apps/api/src/router.ts:71-85 | the earliest-registered route with the method whose path matches, or none when no such route exists |
| Routing.FindMethodEarliest | apps/api/src/router.ts:71-85 | finding the method among the collected matches picks exactly that earliest route with its bindings |
| Routing.Router.constructor | apps/api/src/router.ts:48 | a new router has no routes |
| Routing.Router.Add | apps/api/src/router.ts:50-64 | a route is appended with its path split on "/", earlier routes unchanged |
| Routing.Router.Get | apps/api/src/router.ts:50-52 | appends a GET route |
| Routing.Router.Post | apps/api/src/router.ts:54-56 | appends a POST route |
| Routing.Router.Patch | apps/api/src/router.ts:58-60 | appends a PATCH route |
| Routing.Router.Delete | apps/api/src/router.ts:62-64 | appends a DELETE route |
| Routing.Router.Handle | apps/api/src/router.ts:66-103 | 404 `NOT_FOUND` when no route's path matches; 405 `METHOD_NOT_ALLOWED` when some match but none for the method; otherwise the earliest-registered matching route for the method runs with its bindings and its outcome becomes the response |
| Session.SessionCookieHeader | apps/api/src/lib/session.ts:54-56 | the header starts `session=`, followed by the session id and then the fixed HttpOnly, Secure, SameSite=Strict, Path=/admin attributes |
| Session.ClearSessionCookieHeader | apps/api/src/lib/session.ts:58-60 | the header names the session cookie with an empty value |
| Session.ValueRun | apps/api/src/lib/session.ts:50 | `[^;]+` takes the longest prefix free of `;`, stopping only at a `;` or the end |
| Session.SkipSpaces | apps/api/src/lib/session.ts:50 | `\s*` passes over white space only, up to the first non-space or the end |
| Session.ValueAt | apps/api/src/lib/session.ts:50 | a capture at a position follows `session=` there and is non-empty and free of `;` |
| Session.MatchAt | apps/api/src/lib/session.ts:50 | a match at a position captures a non-empty value free of `;` |
| Session.Search | apps/api/src/lib/session.ts:50-51 | the leftmost match captures a non-empty value free of `;` |
| Session.ParseSessionCookie | apps/api/src/lib/session.ts:48-52 | an absent or empty header gives no session; a session read is non-empty and free of `;` |
| Session.ValueRunStops | apps/api/src/lib/session.ts:50 | a value free of `;` followed by the end or a `;` is captured whole |
| Session.SessionCookieRoundTrip | apps/api/src/lib/session.ts:48-56 | the header the server hands out is read back as the same session id, for every non-empty id free of `;` |
| Session.SearchSkips | apps/api/src/lib/session.ts:50-51 | the leftmost-match search passes over positions that do not match |
| Session.NoMatchPastPrefix | apps/api/src/lib/session.ts:50 | past a leading `session=` with no further `s`, no position matches |
| Session.ClearedCookieNamesNoSession | apps/api/src/lib/session.ts:48-60 | the clearing header is read as carrying no session |
| Session.MatchAfterSeparator | apps/api/src/lib/session.ts:50 | `; session=<value>` at a position matches there and captures the value |
| Session.SessionBehindOtherCookies | apps/api/src/lib/session.ts:48-52 | a session cookie after another cookie and `; ` is still found and read whole |
| Session.LiveIndex | apps/api/src/lib/session.ts:23-28 | the join finds the first session row with the id whose admin exists, or none when no such row exists |
| Session.WithoutSession | apps/api/src/lib/session.ts:34 | the delete removes exactly the rows with that id and keeps the rest |
| Session.WithoutSessionAbove | apps/api/src/lib/session.ts:34 | the delete keeps a lower bound on the remaining ids |
| Session.WithoutSessionIncreasing | apps/api/src/lib/session.ts:34 | the delete keeps the session ids increasing |
| Session.LiveRow | apps/api/src/lib/session.ts:23-30 | the joined row is a session row with that id whose admin exists; none means no row with that id has an existing admin |
| Session.SessionDeleted | apps/api/src/lib/session.ts:41-46 | only the sessions change, exactly the rows with that id go, and the session no longer validates |
| Session.SessionCreatedKeepsValid | apps/api/src/lib/session.ts:6-17 | a session created for an existing admin keeps every constraint and the bookkeeping |
| Session.SessionDeletedKeepsValid | apps/api/src/lib/session.ts:41-46 | deleting a session keeps every constraint and the bookkeeping |
| Session.SessionCreatedIsLive | apps/api/src/lib/session.ts:6-39 | a freshly created session is found by the join, names its admin and expires eight hours after creation |
| Session.CreateSession | apps/api/src/lib/session.ts:6-17 | fails with the foreign-key error, changing nothing, exactly when the admin does not exist; otherwise returns a fresh id and adds one row expiring eight hours after `now` |
| Session.ValidateSession | apps/api/src/lib/session.ts:19-39 | returns the admin exactly when the joined row exists and has not expired (expiry strictly after now); an expired session is deleted, and otherwise nothing changes |
| Session.DeleteSession | apps/api/src/lib/session.ts:41-46 | the new state is the old one without that session |

## Findings

| source | as written | input that shows it | evidently intended | confidence | as-written member | corrected member |
|---|---|---|---|---|---|---|
| apps/api/src/routes/admin/audit.ts:95-97 | the next page continues with `id < cursor`, but pages are ordered by `timestamp desc, id desc` (lines 67-68) and ids come from `gen_random_uuid()`, so they carry no time order | a log holding an older event (id 9, time 1) and a newer one (id 5, time 2), listed with `limit` 1: page one lists the newer event with cursor 5 and `hasMore`; page two asks for `id < 5` and is empty, so the older event is never listed | continue after the last listed event in the listing order: an earlier timestamp, or the same timestamp and a smaller id | high; not executed | AuditListing.IdCursorSkipsEvent | AuditListing.KeysetCursorCovers |

`AuditListing.HandleListAuditEvents` keeps the code's id-only cursor, because
the model follows the code. `AuditListing.KeysetAfter` is the corrected
continuation. `AuditListing.KeysetCursorCovers` proves that with it, every
matching event is on the first page or is selected by the next one, and
never both. In the model's own tables ids are a counter that grows with
time, so the skip cannot happen there. The counterexample uses a log whose
ids are out of time order, which random UUIDs allow.

## Where the code differs from the design description

The model follows the code in each of these cases.

- Creating or assigning a registration refuses only a box whose state is
  `occupied`. A `reserved` box is accepted (`Registrations.ReservedBoxAccepted`).
- An unknown box id on create or assign is a 400 "Box not found", not a
  404 (`Registrations.ClaimRejectionCases`).
- A lost race on the waiting list's unique index becomes 409
  `ALREADY_ON_WAITLIST` (`PublicRoutes.InsertFailureError`). The pre-check
  for an apartment already waiting answers 200 with the position, not an
  error (`PublicRoutes.HandleJoinWaitlist`).
- There is no switch operation. No handler marks a registration
  `switched`, so `SWITCH_REQUIRED` never arises.
- The join refuses with code `BOXES_AVAILABLE`. Moves and assignments
  refuse with 400 messages, not with `NOT_ACTIVE` or `NOT_WAITING` codes.

## Left out

- `handleListRegistrations` (admin listing, a read-only join with filters):
  not modelled; it changes nothing and states no property beyond its query.
- `handleNotificationPreview`: not modelled as a handler. The template it
  renders (`AdminEmailTemplates.BuildAdminNotification`) is.
- `handlePublicStatus`, `handlePublicBoxes` and `handleValidateRegistration`
  are not modelled. They read the clock or return rows unchanged, or they
  call `validateRegistrationInput`, whose rules are not part of this model.
- `validateWaitlistInput` is not part of this model. Its verdict is the
  `request` parameter of `PublicRoutes.HandleJoinWaitlist`.
- Amazon SES is a parameter: `delivered` says whether the send
  succeeded. The e-mail's `sent_at` timestamp is not kept.
- Time: `Date.now()` is the parameter `now`, and the database's `now()`
  is the counter `clock`. The notification step's e-mail row and event
  (`Registrations.NotificationRows`) carry the committed transaction's
  clock, while the code stamps each with its own later `now()`. Listings
  are still ordered the same way, because equal timestamps fall back to
  the counter id, which follows creation order. ISO-8601 formatting of timestamps
  (`toISOString`) is not modelled. Session expiry is kept in milliseconds
  rather than as a date string.
- Concurrency: transactions run one at a time and row locks
  (`forUpdate`) are not modelled. A concurrent insert that wins a unique
  index shows up only as the `insertFailure` storage error of the join.
- `gen_random_uuid()` is a counter (`Database.Db.NewId`). Ids are unique
  but, unlike real UUIDs, ordered by creation. Malformed UUID strings, and
  the errors PostgreSQL raises for them, are not modelled. Session ids are
  `Uuid` values, not strings.
- `decodeURIComponent` on the apartment-key route parameter is not
  modelled: `PublicRoutes.HandleWaitlistPosition` takes the decoded key.
- Registrations.SendNotificationIfRequested: storage is assumed not to
  fail after the handler's transaction has committed. In the code, a
  throw from the `emails` insert, the `edited_before_send` update or the
  `notification_sent` event reaches the router as a 500. The committed
  change stays, and so may the e-mail row. The four handlers' success
  clauses therefore always end in the complete notification state.
- Registrations.HandleCreateRegistration, Registrations.HandleMoveRegistration
  and Registrations.HandleAssignWaitlist: the numeric fields of
  `CreateBody` (`boxId`, `houseNumber`), `MoveBody` (`newBoxId`) and
  `AssignBody` (`boxId`) are whole numbers or absent. A fractional number
  or a string there passes the code's truthiness checks. PostgreSQL then
  rejects it (a 500) or casts a numeric string. That error path is not
  modelled.
- Registrations.HandleCreateRegistration: text columns are unbounded in
  the model. The initial migration declares widths for the new
  registration row: name 300, email 320, street 200, floor and door 20,
  apartment key 300. Over-long text from the request makes the insert
  fail, the transaction roll back, and the router answer 500. The model
  instead accepts it and the create succeeds. The same applies to an
  admin-supplied notification subject longer than the `emails` table's
  500 characters; that insert comes after the commit.
- Registrations.HandleMoveRegistration: the "Current box not found" branch
  is kept in `MoveRejection`, but the foreign key makes it unreachable
  under `Schema.Valid`.
- `hashPassword` is a parameter: `Seed.Seed` takes the hash directly.
- EmailService.QueueAndSendEmail: the code's `catch` also marks the
  e-mail failed when the status update or the `email_sent` event throws
  after a successful send. The model treats only the SES verdict as a
  failure. The `console.error` logging of send failures and of unhandled
  errors is not modelled.
- `getWaitlistPosition` orders by `created_at` only. Ties cannot arise in
  the model, because each entry is created by its own transaction and
  `clock` grows strictly.
- Audit listing: the `before`/`after` strings arrive already parsed as
  instants, so the 400s for malformed dates are not modelled. A
  fractional `limit` is not modelled; the limit is a whole number or
  absent. JSON columns (`before`, `after`) are kept as association lists.
- Route handlers are a parameter of `Routing.Router.Handle` (`invoke`),
  which maps a handler name and bindings to its outcome. Request
  headers, bodies and the admin authentication middleware are outside the
  router model.
- Text handling: lower-casing covers ASCII and Latin-1 letters only, and
  `\s` is the JavaScript white-space set as characters. There is no
  Unicode normalisation.
