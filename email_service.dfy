/** `queueAndSendEmail`: the e-mail is stored as pending, then handed to the
    mail service; its outcome is recorded on the row. The mail service is
    not part of this model: whether it accepts the message is a parameter. */
module EmailService {
  import opened Wrappers
  import opened Enums
  import opened Schema
  import opened Database
  import opened Audit

  /** The system's `email_sent` audit event. */
  function EmailSentEvent(emailId: Uuid, recipientEmail: string, subject: string, language: Language): AuditInput {
    AuditInput(System, None, "email_sent", "email", IdText(emailId), None,
      Some([("recipient", Str(recipientEmail)), ("subject", Str(subject)), ("language", Str(LanguageCode(language)))]),
      None)
  }

  /** Queues one e-mail and returns its id. It ends `sent`, with a system
      `email_sent` audit event, when the mail service accepts it, and
      `failed`, with no event, when it does not; a failure never reaches
      the caller. */
  method QueueAndSendEmail(
    db: Db, recipientEmail: string, language: Language, subject: string, body: EmailBody, delivered: bool)
    returns (emailId: Uuid)
    modifies db
    ensures emailId == old(db.nextUuid)
    ensures db.emails == old(db.emails) +
      [EmailRow(emailId, recipientEmail, language, subject, body, if delivered then Sent else Failed, false)]
    ensures db.audit == old(db.audit) +
      (if delivered then [Stamped(emailId + 1, db.clock, EmailSentEvent(emailId, recipientEmail, subject, language))] else [])
    ensures db.Snapshot() == old(db.Snapshot()).(
      emails := db.emails, audit := db.audit, nextUuid := emailId + if delivered then 2 else 1)
  {
    emailId := db.NewId();
    var queued := db.emails;
    var row := EmailRow(emailId, recipientEmail, language, subject, body, Pending, false);
    db.emails := queued + [row];
    if delivered {
      db.emails := queued + [row.(status := Sent)];
      LogAuditEvent(db, EmailSentEvent(emailId, recipientEmail, subject, language));
    } else {
      db.emails := queued + [row.(status := Failed)];
    }
  }
}
