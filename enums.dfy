/** The enumerations shared by the API and the database: box states,
    registration and waitlist lifecycles, audit actors, languages and the
    catalogue of audit actions. */
module Enums {
  import opened Wrappers

  datatype BoxState = Available | Occupied | Reserved
  datatype RegistrationStatus = Active | Switched | Removed
  datatype WaitlistStatus = Waiting | Assigned | Cancelled
  datatype ActorType = Public | Admin | System
  datatype Language = Da | En

  function BoxStateName(s: BoxState): string {
    match s
    case Available => "available"
    case Occupied => "occupied"
    case Reserved => "reserved"
  }

  function ActorTypeName(a: ActorType): string {
    match a
    case Public => "public"
    case Admin => "admin"
    case System => "system"
  }

  function LanguageCode(l: Language): string {
    match l
    case Da => "da"
    case En => "en"
  }

  /** The check `language !== "da" && language !== "en"` read as a parser. */
  function ParseLanguage(s: string): (r: Option<Language>)
    ensures r.Some? <==> s == "da" || s == "en"
    ensures r.Some? ==> LanguageCode(r.value) == s
  {
    if s == "da" then Some(Da) else if s == "en" then Some(En) else None
  }

  /** Membership in `["public", "admin", "system"]`. */
  function ParseActorType(s: string): (r: Option<ActorType>)
    ensures r.Some? <==> s == "public" || s == "admin" || s == "system"
    ensures r.Some? ==> ActorTypeName(r.value) == s
  {
    if s == "public" then Some(Public)
    else if s == "admin" then Some(Admin)
    else if s == "system" then Some(System)
    else None
  }

  /** Every auditable action type. */
  const AUDIT_ACTIONS: seq<string> := [
    "registration_create",
    "registration_switch",
    "registration_remove",
    "registration_move",
    "waitlist_add",
    "waitlist_remove",
    "waitlist_assign",
    "waitlist_reorder_preserve",
    "box_state_change",
    "opening_datetime_change",
    "admin_create",
    "admin_delete",
    "admin_password_change",
    "email_sent",
    "notification_sent",
    "notification_skipped"
  ]
}
