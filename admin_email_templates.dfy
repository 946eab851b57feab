/** The e-mails an administrator can send after adding, moving or removing a
    registration or assigning a waitlist entry. Each is modelled by the
    choices it makes -- subject, sections, which fields pass through and which
    catalogue fallback applies -- and not by its exact markup. */
module AdminEmailTemplates {
  import opened Wrappers
  import opened Text
  import opened Enums
  import opened Constants
  import opened Html

  datatype Action = Add | Move | Remove | WaitlistAssign

  /** The action's name as the audit log records it. */
  function ActionName(a: Action): string {
    match a
    case Add => "add"
    case Move => "move"
    case Remove => "remove"
    case WaitlistAssign => "waitlist_assign"
  }

  /** `NotificationPreviewInput`; `oldBoxId` is only meaningful for a move. */
  datatype PreviewInput = PreviewInput(
    action: Action,
    recipientName: string,
    recipientEmail: string,
    language: Language,
    boxId: int,
    oldBoxId: Option<int>)

  // ---------------------------------------------------------- translations

  /** The entries of the translation table; the parameterised ones are the
      table's template functions. */
  datatype Msg =
    | AddSubject | MoveSubject | RemoveSubject
    | GreetingTo(name: string)
    | AddIntro | MoveIntro | RemoveIntro
    | MovedFrom(oldBoxName: string, oldGreenhouse: string, newBoxName: string, newGreenhouse: string)
    | NoLongerActive(boxName: string, greenhouse: string)
    | BoxDetailsTitle | BoxLabel | GreenhouseLabel | BoxNameLabel
    | ContactTitle | ContactText | Closing | TeamSignature

  /** The translation table: each entry's wording in each language. */
  function Wording(language: Language, m: Msg): string {
    match language
    case Da => (
      match m
      case AddSubject => "Bekræftelse af din plantekasse-registrering – Greenspace 2026"
      case MoveSubject => "Ændring af din plantekasse – Greenspace 2026"
      case RemoveSubject => "Din plantekasse-registrering er fjernet – Greenspace 2026"
      case GreetingTo(name) => "Kære " + name + ","
      case AddIntro => "Du er blevet tilmeldt en plantekasse i Greenspace 2026. Din registrering er nu bekræftet."
      case MoveIntro => "Din plantekasse-registrering i Greenspace 2026 er blevet ændret."
      case RemoveIntro => "Vi skriver for at informere dig om, at din plantekasse-registrering i Greenspace 2026 er blevet fjernet."
      case MovedFrom(oldBoxName, oldGreenhouse, newBoxName, newGreenhouse) =>
        "Din plantekasse er blevet flyttet fra \"" + oldBoxName + "\" i " + oldGreenhouse
          + " til \"" + newBoxName + "\" i " + newGreenhouse + "."
      case NoLongerActive(boxName, greenhouse) =>
        "Din registrering for plantekasse \"" + boxName + "\" i " + greenhouse + " er ikke længere aktiv."
      case BoxDetailsTitle => "Din plantekasse"
      case BoxLabel => "Kasse"
      case GreenhouseLabel => "Drivhus"
      case BoxNameLabel => "Navn"
      case ContactTitle => "Kontakt"
      case ContactText => "Hvis du har spørgsmål, er du velkommen til at kontakte os:"
      case Closing => "Med venlig hilsen,"
      case TeamSignature => "Greenspace-teamet")
    case En => (
      match m
      case AddSubject => "Confirmation of your planter box registration – Greenspace 2026"
      case MoveSubject => "Change to your planter box – Greenspace 2026"
      case RemoveSubject => "Your planter box registration has been removed – Greenspace 2026"
      case GreetingTo(name) => "Dear " + name + ","
      case AddIntro => "You have been registered for a planter box in Greenspace 2026. Your registration is now confirmed."
      case MoveIntro => "Your planter box registration in Greenspace 2026 has been updated."
      case RemoveIntro => "We are writing to let you know that your planter box registration in Greenspace 2026 has been removed."
      case MovedFrom(oldBoxName, oldGreenhouse, newBoxName, newGreenhouse) =>
        "Your planter box has been moved from \"" + oldBoxName + "\" in " + oldGreenhouse
          + " to \"" + newBoxName + "\" in " + newGreenhouse + "."
      case NoLongerActive(boxName, greenhouse) =>
        "Your registration for planter box \"" + boxName + "\" in " + greenhouse + " is no longer active."
      case BoxDetailsTitle => "Your planter box"
      case BoxLabel => "Box"
      case GreenhouseLabel => "Greenhouse"
      case BoxNameLabel => "Name"
      case ContactTitle => "Contact"
      case ContactText => "If you have any questions, feel free to reach out to us:"
      case Closing => "Best regards,"
      case TeamSignature => "The Greenspace Team")
  }

  // -------------------------------------------------------------- escaping

  const ESCAPES: seq<(char, string)> :=
    [('&', "&amp;"), ('<', "&lt;"), ('>', "&gt;"), ('"', "&quot;"), ('\'', "&#39;")]

  /** `escapeHtml`: '&' first, then '<', '>', '"' and '\''. */
  function EscapeHtml(text: string): string {
    Chain(text, ESCAPES)
  }

  /** The entity each character stands for in escaped text. */
  function EscapeChar(c: char): string {
    if c == '&' then "&amp;"
    else if c == '<' then "&lt;"
    else if c == '>' then "&gt;"
    else if c == '"' then "&quot;"
    else if c == '\'' then "&#39;"
    else [c]
  }

  /** `escapeHtml` written out as the chain of its five replacements. */
  lemma ChainUnfolds(s: string)
    ensures Chain(s, ESCAPES) ==
      ReplaceAll(ReplaceAll(ReplaceAll(ReplaceAll(ReplaceAll(s,
        '&', "&amp;"), '<', "&lt;"), '>', "&gt;"), '"', "&quot;"), '\'', "&#39;")
  {
    var r := ESCAPES;
    assert r[1..][1..][1..][1..][1..] == [];
  }

  /** The five steps applied to one character. */
  function Steps(c: char): string {
    ReplaceAll(ReplaceAll(ReplaceAll(ReplaceAll(ReplaceAll([c],
      '&', "&amp;"), '<', "&lt;"), '>', "&gt;"), '"', "&quot;"), '\'', "&#39;")
  }

  lemma StepsAmp()
    ensures Steps('&') == "&amp;"
  {
    ReplaceAllSingle('&', '&', "&amp;");
    KeptByLastFour("&amp;");
  }

  lemma StepsLt()
    ensures Steps('<') == "&lt;"
  {
    ReplaceAllSingle('<', '&', "&amp;");
    ReplaceAllSingle('<', '<', "&lt;");
    KeptByLastThree("&lt;");
  }

  lemma StepsGt()
    ensures Steps('>') == "&gt;"
  {
    ReplaceAllSingle('>', '&', "&amp;");
    ReplaceAllSingle('>', '<', "&lt;");
    ReplaceAllSingle('>', '>', "&gt;");
    KeptByLastTwo("&gt;");
  }

  lemma StepsQuot()
    ensures Steps('"') == "&quot;"
  {
    ReplaceAllSingle('"', '&', "&amp;");
    ReplaceAllSingle('"', '<', "&lt;");
    ReplaceAllSingle('"', '>', "&gt;");
    ReplaceAllSingle('"', '"', "&quot;");
    ReplaceAllAbsent("&quot;", '\'', "&#39;");
  }

  lemma StepsOther(c: char)
    requires c !in "&<>\"'"
    ensures Steps(c) == [c]
  {
    ReplaceAllSingle(c, '&', "&amp;");
    ReplaceAllSingle(c, '<', "&lt;");
    ReplaceAllSingle(c, '>', "&gt;");
    ReplaceAllSingle(c, '"', "&quot;");
    ReplaceAllSingle(c, '\'', "&#39;");
  }

  lemma EscapeSingleChar(c: char)
    ensures Chain([c], ESCAPES) == EscapeChar(c)
  {
    ChainUnfolds([c]);
    if c == '&' {
      StepsAmp();
    } else if c == '<' {
      StepsLt();
    } else if c == '>' {
      StepsGt();
    } else if c == '"' {
      StepsQuot();
    } else if c == '\'' {
      ReplaceAllSingle(c, '&', "&amp;");
      ReplaceAllSingle(c, '<', "&lt;");
      ReplaceAllSingle(c, '>', "&gt;");
      ReplaceAllSingle(c, '"', "&quot;");
      ReplaceAllSingle(c, '\'', "&#39;");
    } else {
      StepsOther(c);
    }
  }

  /** Text the remaining steps have nothing to replace in passes through
      them unchanged. */
  lemma KeptByLastFour(e: string)
    requires '<' !in e && '>' !in e && '"' !in e && '\'' !in e
    ensures ReplaceAll(ReplaceAll(ReplaceAll(ReplaceAll(e, '<', "&lt;"), '>', "&gt;"), '"', "&quot;"), '\'', "&#39;") == e
  {
    ReplaceAllAbsent(e, '<', "&lt;");
    KeptByLastThree(e);
  }

  lemma KeptByLastThree(e: string)
    requires '>' !in e && '"' !in e && '\'' !in e
    ensures ReplaceAll(ReplaceAll(ReplaceAll(e, '>', "&gt;"), '"', "&quot;"), '\'', "&#39;") == e
  {
    ReplaceAllAbsent(e, '>', "&gt;");
    KeptByLastTwo(e);
  }

  lemma KeptByLastTwo(e: string)
    requires '"' !in e && '\'' !in e
    ensures ReplaceAll(ReplaceAll(e, '"', "&quot;"), '\'', "&#39;") == e
  {
    ReplaceAllAbsent(e, '"', "&quot;");
    ReplaceAllAbsent(e, '\'', "&#39;");
  }

  /** Because '&' is replaced first, the chain escapes every character on
      its own: no entity it writes is escaped a second time. */
  lemma EscapeHtmlPerChar(s: string)
    ensures EscapeHtml(s) == FlatMap(s, EscapeChar)
  {
    forall c ensures Chain([c], ESCAPES) == EscapeChar(c) {
      EscapeSingleChar(c);
    }
    ChainIsFlatMap(s, ESCAPES, EscapeChar);
  }

  lemma EscapeCharSafe(c: char)
    ensures '<' !in EscapeChar(c) && '>' !in EscapeChar(c)
    ensures '"' !in EscapeChar(c) && '\'' !in EscapeChar(c)
  {
  }

  /** Escaped text holds none of the characters that end a tag or an
      attribute value. */
  lemma EscapeHtmlSafe(s: string)
    ensures '<' !in EscapeHtml(s) && '>' !in EscapeHtml(s)
    ensures '"' !in EscapeHtml(s) && '\'' !in EscapeHtml(s)
  {
    EscapeHtmlPerChar(s);
    forall c ensures '<' !in EscapeChar(c) && '>' !in EscapeChar(c) && '"' !in EscapeChar(c) && '\'' !in EscapeChar(c) {
      EscapeCharSafe(c);
    }
    FlatMapAvoids(s, EscapeChar, '<');
    FlatMapAvoids(s, EscapeChar, '>');
    FlatMapAvoids(s, EscapeChar, '"');
    FlatMapAvoids(s, EscapeChar, '\'');
  }

  /** Text with nothing to escape is left as it is. */
  lemma EscapeHtmlIdentity(s: string)
    requires forall k :: 0 <= k < |s| ==> s[k] !in "&<>\"'"
    ensures EscapeHtml(s) == s
  {
    EscapeHtmlPerChar(s);
    FlatMapIdentity(s, EscapeChar);
  }

  // ------------------------------------------------------------ the page

  /** A box as the e-mail names it: from the catalogue, or "#id" in an
      "Unknown" greenhouse when the catalogue has no such box. */
  datatype BoxRef = BoxRef(name: string, greenhouse: string)

  function CatalogBoxRef(boxId: int): (r: BoxRef)
    ensures 1 <= boxId <= TOTAL_BOX_COUNT ==>
      r == BoxRef(BOX_CATALOG[boxId - 1].name, BOX_CATALOG[boxId - 1].greenhouse)
    ensures !(1 <= boxId <= TOTAL_BOX_COUNT) ==> r == BoxRef("#" + IntToString(boxId), "Unknown")
  {
    FindBoxSpec(boxId);
    match FindBox(boxId)
    case Some(entry) => BoxRef(entry.name, entry.greenhouse)
    case None => BoxRef("#" + IntToString(boxId), "Unknown")
  }

  /** The move e-mail's old box: a missing id renders as "#undefined", and
      the falsy id 0 skips the catalogue. */
  function OldBoxRef(oldBoxId: Option<int>): (r: BoxRef)
    ensures oldBoxId == None ==> r == BoxRef("#undefined", "Unknown")
    ensures oldBoxId.Some? ==>
      r == (if oldBoxId.value == 0 then BoxRef("#0", "Unknown") else CatalogBoxRef(oldBoxId.value))
  {
    match oldBoxId
    case None => BoxRef("#undefined", "Unknown")
    case Some(id) =>
      if id == 0 then BoxRef("#" + IntToString(0), "Unknown") else CatalogBoxRef(id)
  }

  /** The blocks of an e-mail's content, by translation entry. The template
      writes every entry's wording through `EscapeHtml` (`Rendered` gives the
      escaped text), except the box number, which is written as it is;
      markup and styling are not modelled. */
  datatype Section =
    | Paragraph(text: Msg)
    | Notice(text: Msg)
    | BoxDetails(boxNumber: string, boxName: string, greenhouse: string)
    | ContactList(entries: seq<Contact>)
    | Signature(text: Msg)

  /** `buildContactHtml`'s list: each contact's name, then its e-mail,
      both escaped. */
  function RenderedContacts(entries: seq<Contact>): (r: seq<string>)
    ensures |r| == 2 * |entries|
    ensures forall k :: 0 <= k < |entries| ==>
      r[2 * k] == EscapeHtml(entries[k].name) && r[2 * k + 1] == EscapeHtml(entries[k].email)
  {
    if entries == [] then []
    else
      var rest := RenderedContacts(entries[1..]);
      assert forall k :: 1 <= k < |entries| ==> entries[k] == entries[1..][k - 1];
      [EscapeHtml(entries[0].name), EscapeHtml(entries[0].email)] + rest
  }

  /** The text of a section as it appears in the page, in order. */
  function Rendered(language: Language, section: Section): seq<string> {
    match section
    case Paragraph(m) => [EscapeHtml(Wording(language, m))]
    case Notice(m) => [EscapeHtml(Wording(language, m))]
    case BoxDetails(boxNumber, boxName, greenhouse) =>
      [EscapeHtml(Wording(language, BoxDetailsTitle)), EscapeHtml(Wording(language, BoxLabel)), boxNumber,
       EscapeHtml(Wording(language, BoxNameLabel)), EscapeHtml(boxName),
       EscapeHtml(Wording(language, GreenhouseLabel)), EscapeHtml(greenhouse)]
    case ContactList(entries) =>
      [EscapeHtml(Wording(language, ContactTitle)), EscapeHtml(Wording(language, ContactText))]
        + RenderedContacts(entries)
    case Signature(m) => [EscapeHtml(Wording(language, m))]
  }

  /** `wrapEmailHtml`: the page's lang attribute, its title (written
      escaped) and the content sections. */
  datatype Page = Page(lang: string, title: string, sections: seq<Section>)

  /** `NotificationPreview`. */
  datatype NotificationPreview = NotificationPreview(
    subject: string, body: Page, recipientEmail: string, language: Language)

  function BoxDetailsSection(boxId: int): Section {
    var box := CatalogBoxRef(boxId);
    BoxDetails("#" + IntToString(boxId), box.name, box.greenhouse)
  }

  const CLOSING_SECTIONS: seq<Section> :=
    [ContactList(ORGANIZER_CONTACTS), Paragraph(Closing), Signature(TeamSignature)]

  function WrapEmail(language: Language, subject: string, content: seq<Section>): Page {
    Page(LanguageCode(language), subject, content)
  }

  function BuildAddNotification(data: PreviewInput): NotificationPreview {
    var subject := Wording(data.language, AddSubject);
    var content :=
      [Paragraph(GreetingTo(data.recipientName)), Paragraph(AddIntro), BoxDetailsSection(data.boxId)]
      + CLOSING_SECTIONS;
    NotificationPreview(subject, WrapEmail(data.language, subject, content), data.recipientEmail, data.language)
  }

  function BuildMoveNotification(data: PreviewInput): NotificationPreview {
    var subject := Wording(data.language, MoveSubject);
    var oldBox := OldBoxRef(data.oldBoxId);
    var newBox := CatalogBoxRef(data.boxId);
    var content :=
      [Paragraph(GreetingTo(data.recipientName)), Paragraph(MoveIntro),
       Notice(MovedFrom(oldBox.name, oldBox.greenhouse, newBox.name, newBox.greenhouse)),
       BoxDetailsSection(data.boxId)]
      + CLOSING_SECTIONS;
    NotificationPreview(subject, WrapEmail(data.language, subject, content), data.recipientEmail, data.language)
  }

  function BuildRemoveNotification(data: PreviewInput): NotificationPreview {
    var subject := Wording(data.language, RemoveSubject);
    var box := CatalogBoxRef(data.boxId);
    var content :=
      [Paragraph(GreetingTo(data.recipientName)), Paragraph(RemoveIntro),
       Notice(NoLongerActive(box.name, box.greenhouse))]
      + CLOSING_SECTIONS;
    NotificationPreview(subject, WrapEmail(data.language, subject, content), data.recipientEmail, data.language)
  }

  /** The subject entry each action takes from the table. */
  function SubjectFor(action: Action): Msg {
    match action
    case Add => AddSubject
    case WaitlistAssign => AddSubject
    case Move => MoveSubject
    case Remove => RemoveSubject
  }

  predicate HasBoxDetails(page: Page) {
    exists k :: 0 <= k < |page.sections| && page.sections[k].BoxDetails?
  }

  /** `buildAdminNotification`: add and waitlist_assign share the add e-mail,
      move and remove have their own. Every e-mail opens by greeting the
      recipient by name, and all but the removal describe the box. */
  function BuildAdminNotification(data: PreviewInput): (r: NotificationPreview)
    ensures r.subject == Wording(data.language, SubjectFor(data.action))
    ensures r.recipientEmail == data.recipientEmail && r.language == data.language
    ensures r.body.lang == LanguageCode(data.language) && r.body.title == r.subject
    ensures |r.body.sections| > 0 && r.body.sections[0] == Paragraph(GreetingTo(data.recipientName))
    ensures HasBoxDetails(r.body) <==> data.action != Remove
    ensures |r.body.sections| >= |CLOSING_SECTIONS|
    ensures r.body.sections[|r.body.sections| - |CLOSING_SECTIONS|..] == CLOSING_SECTIONS
  {
    match data.action
    case Add => AddDescribesBox(data); BuildAddNotification(data)
    case WaitlistAssign => AddDescribesBox(data); BuildAddNotification(data)
    case Move => MoveDescribesBox(data); BuildMoveNotification(data)
    case Remove => RemoveOmitsBox(data); BuildRemoveNotification(data)
  }

  /** Every e-mail closes with the organisers' contact list, whose e-mail
      addresses need no escaping and so appear in the page as they are. */
  lemma OrganizerEmailsShown(language: Language)
    ensures forall k :: 0 <= k < |ORGANIZER_CONTACTS| ==>
      ORGANIZER_CONTACTS[k].email in Rendered(language, ContactList(ORGANIZER_CONTACTS))
  {
    OrganizerAddressesPlain();
    PlainEmailsShown(language, ORGANIZER_CONTACTS);
  }

  /** A contact list shows every address that needs no escaping verbatim. */
  lemma PlainEmailsShown(language: Language, entries: seq<Contact>)
    requires forall k :: 0 <= k < |entries| ==> PlainAddress(entries[k].email)
    ensures forall k :: 0 <= k < |entries| ==> entries[k].email in Rendered(language, ContactList(entries))
  {
    var shown := Rendered(language, ContactList(entries));
    forall k | 0 <= k < |entries|
      ensures entries[k].email in shown
    {
      PlainAddressUnescaped(entries[k].email);
      assert shown[2 + (2 * k + 1)] == entries[k].email;
    }
  }

  lemma OrganizerAddressesPlain()
    ensures forall k :: 0 <= k < |ORGANIZER_CONTACTS| ==> PlainAddress(ORGANIZER_CONTACTS[k].email)
  {
    assert ORGANIZER_CONTACTS[0].email == "elise" + "7284" + "@gmail" + ".com";
    assert ORGANIZER_CONTACTS[1].email == "lena" + "@gmail" + ".com";
    assert PlainAddress("elise") && PlainAddress("7284") && PlainAddress("lena");
    assert PlainAddress("@gmail") && PlainAddress(".com");
    PlainAppend("elise", "7284");
    PlainAppend("elise" + "7284", "@gmail");
    PlainAppend("elise" + "7284" + "@gmail", ".com");
    PlainAppend("lena", "@gmail");
    PlainAppend("lena" + "@gmail", ".com");
  }

  /** Lower-case letters, digits, `.` and `@`: none of them is escaped. */
  predicate PlainAddress(e: string) {
    forall k :: 0 <= k < |e| ==> e[k] == '.' || e[k] == '@' || 'a' <= e[k] <= 'z' || '0' <= e[k] <= '9'
  }

  lemma PlainAppend(a: string, b: string)
    requires PlainAddress(a) && PlainAddress(b)
    ensures PlainAddress(a + b)
  {
  }

  lemma PlainAddressUnescaped(e: string)
    requires PlainAddress(e)
    ensures EscapeHtml(e) == e
  {
    EscapeHtmlIdentity(e);
  }

  lemma AddDescribesBox(data: PreviewInput)
    ensures BuildAddNotification(data).body.sections[2] == BoxDetailsSection(data.boxId)
    ensures HasBoxDetails(BuildAddNotification(data).body)
  {
    var s := BuildAddNotification(data).body.sections;
    assert s[2].BoxDetails?;
  }

  lemma MoveDescribesBox(data: PreviewInput)
    ensures BuildMoveNotification(data).body.sections[3] == BoxDetailsSection(data.boxId)
    ensures HasBoxDetails(BuildMoveNotification(data).body)
  {
    var s := BuildMoveNotification(data).body.sections;
    assert s[3].BoxDetails?;
  }

  lemma RemoveOmitsBox(data: PreviewInput)
    ensures !HasBoxDetails(BuildRemoveNotification(data).body)
  {
    var s := BuildRemoveNotification(data).body.sections;
    assert forall k :: 0 <= k < |s| ==> !s[k].BoxDetails?;
  }

  /** The recipient's name reaches the page only through `EscapeHtml`, so it
      cannot open a tag or end an attribute. */
  lemma GreetingIsEscaped(data: PreviewInput)
    ensures Rendered(data.language, BuildAdminNotification(data).body.sections[0])
         == [EscapeHtml(Wording(data.language, GreetingTo(data.recipientName)))]
    ensures '<' !in Rendered(data.language, BuildAdminNotification(data).body.sections[0])[0]
  {
    EscapeHtmlSafe(Wording(data.language, GreetingTo(data.recipientName)));
  }

  /** Adding a registration and assigning one from the waitlist send the
      very same e-mail. */
  lemma AddAndAssignShareTemplate(data: PreviewInput)
    ensures BuildAdminNotification(data.(action := Add))
         == BuildAdminNotification(data.(action := WaitlistAssign))
  {
  }

  /** Where the add, assign and move e-mails describe the box, they name the
      catalogue entry, or "#id" in "Unknown" for an id the catalogue lacks. */
  lemma BoxDetailsFallback(data: PreviewInput)
    requires data.action != Remove
    ensures var s := BuildAdminNotification(data).body.sections;
      var box := CatalogBoxRef(data.boxId);
      exists k :: 0 <= k < |s| && s[k] == BoxDetails("#" + IntToString(data.boxId), box.name, box.greenhouse)
  {
    var s := BuildAdminNotification(data).body.sections;
    if data.action == Move {
      MoveDescribesBox(data);
      assert s[3] == BoxDetailsSection(data.boxId);
    } else {
      AddDescribesBox(data);
      assert s[2] == BoxDetailsSection(data.boxId);
    }
  }

  /** The move e-mail names the old box (with its own fallbacks) and the new
      one; the remove e-mail names the box that was released. */
  lemma NoticeNamesBoxes(data: PreviewInput)
    ensures data.action == Move ==>
      var oldBox := OldBoxRef(data.oldBoxId);
      var newBox := CatalogBoxRef(data.boxId);
      BuildAdminNotification(data).body.sections[2] ==
        Notice(MovedFrom(oldBox.name, oldBox.greenhouse, newBox.name, newBox.greenhouse))
    ensures data.action == Remove ==>
      var box := CatalogBoxRef(data.boxId);
      BuildAdminNotification(data).body.sections[2] == Notice(NoLongerActive(box.name, box.greenhouse))
  {
  }
}
