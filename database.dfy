/** The database as one object whose tables the handlers change in place. */
module Database {
  import opened Wrappers
  import opened Schema

  class Db {
    var greenhouses: seq<string>
    var boxes: map<int, PlanterBox>
    var registrations: seq<Registration>
    var waitlist: seq<WaitlistEntry>
    var audit: seq<AuditEvent>
    var emails: seq<EmailRow>
    var settings: seq<SettingsRow>
    var admins: seq<AdminRow>
    var credentials: seq<Credential>
    var sessions: seq<SessionRow>
    /** The next identifier `gen_random_uuid()` hands out. */
    var nextUuid: Uuid
    /** The database's `now()`; it advances when a transaction commits. */
    var clock: nat

    /** All tables as a value. */
    function Snapshot(): Tables
      reads this
    {
      Tables(greenhouses, boxes, registrations, waitlist, audit, emails, settings,
             admins, credentials, sessions, nextUuid, clock)
    }

    /** The constraints the schema declares. */
    predicate Valid()
      reads this
    {
      Schema.Valid(Snapshot())
    }

    /** The declared constraints and the bookkeeping the handlers keep. */
    predicate Consistent()
      reads this
    {
      Schema.Consistent(Snapshot())
    }

    /** The database right after the initial migration: every table empty. */
    constructor ()
      ensures Snapshot() == Tables([], map[], [], [], [], [], [], [], [], [], 0, 0)
      ensures Consistent()
    {
      greenhouses, boxes, registrations, waitlist := [], map[], [], [];
      audit, emails, settings, admins, credentials, sessions := [], [], [], [], [], [];
      nextUuid, clock := 0, 0;
    }

    /** `gen_random_uuid()`: an identifier no row has had before. */
    method NewId() returns (id: Uuid)
      modifies this
      ensures id == old(nextUuid)
      ensures Snapshot() == old(Snapshot()).(nextUuid := id + 1)
    {
      id := nextUuid;
      nextUuid := nextUuid + 1;
    }

    /** A transaction commits: later statements see a later `now()`. */
    method Tick()
      modifies this
      ensures Snapshot() == old(Snapshot()).(clock := old(clock) + 1)
    {
      clock := clock + 1;
    }
  }
}
