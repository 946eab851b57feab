/** `logAuditEvent`: the one way rows reach the audit log. */
module Audit {
  import opened Wrappers
  import opened Enums
  import opened Schema
  import opened Database

  /** `AuditEventInput`; an absent `before`, `after` or `reason` is `None`. */
  datatype AuditInput = AuditInput(
    actorType: ActorType,
    actorId: Option<string>,
    action: string,
    entityType: string,
    entityId: string,
    before: Option<Snapshot>,
    after: Option<Snapshot>,
    reason: Option<string>)

  /** The row written for an input, under the identifier and timestamp the
      database gives it. */
  function Stamped(id: Uuid, timestamp: nat, input: AuditInput): AuditEvent {
    AuditEvent(id, timestamp, input.actorType, input.actorId, input.action, input.entityType,
               input.entityId, input.before, input.after, input.reason)
  }

  /** The tables with one row logged: the log grows by exactly one row,
      holding the input's fields as given under a fresh identifier and the
      current time, and nothing else changes. */
  function Logged(t: Tables, input: AuditInput): (r: Tables)
    ensures |r.audit| == |t.audit| + 1 && r.audit[..|t.audit|] == t.audit
    ensures var e := r.audit[|t.audit|];
      e.id == t.nextUuid && e.timestamp == t.clock &&
      e.actorType == input.actorType && e.actorId == input.actorId && e.action == input.action &&
      e.entityType == input.entityType && e.entityId == input.entityId &&
      e.before == input.before && e.after == input.after && e.reason == input.reason
    ensures r == t.(audit := r.audit, nextUuid := t.nextUuid + 1)
  {
    t.(audit := t.audit + [Stamped(t.nextUuid, t.clock, input)], nextUuid := t.nextUuid + 1)
  }

  /** Logging keeps every constraint and the bookkeeping. */
  lemma LoggedKeepsValid(t: Tables, input: AuditInput)
    requires Valid(t)
    ensures Valid(Logged(t, input)) && (Consistent(t) ==> Consistent(Logged(t, input)))
  {
    AppendEventKeepsValid(t, Stamped(t.nextUuid, t.clock, input));
  }

  /** `logAuditEvent`: the row is `Logged`. */
  method LogAuditEvent(db: Db, input: AuditInput)
    modifies db
    ensures db.audit == old(db.audit) + [Stamped(old(db.nextUuid), db.clock, input)]
    ensures db.Snapshot() == Logged(old(db.Snapshot()), input)
  {
    var id := db.NewId();
    db.audit := db.audit + [Stamped(id, db.clock, input)];
  }
}
