/** The confirmation e-mail sent to a resident who was given a planter box.
    It is modelled by the choices it makes -- subject, which notes and which
    location and map texts appear, which map cell is highlighted, which
    fields pass through and which catalogue fallback applies -- and not by
    its exact markup. */
module EmailTemplates {
  import opened Wrappers
  import opened Text
  import opened Enums
  import opened Constants
  import opened Html
  import AdminEmailTemplates

  /** `ConfirmationEmailData`; `switchedFromBoxId` is optional. */
  datatype ConfirmationData = ConfirmationData(
    recipientName: string,
    recipientEmail: string,
    language: Language,
    boxId: int,
    switchedFromBoxId: Option<int>)

  // ---------------------------------------------------------- translations

  datatype Msg =
    | Subject
    | Greeting(name: string)
    | ConfirmationIntro
    | SwitchNote(oldBoxName: string, oldGreenhouse: string)
    | BoxDetailsTitle | BoxLabel | GreenhouseLabel | BoxNameLabel
    | LocationTitle | KronenLocation | SoenLocation
    | MapTitle | KronenMapDesc | SoenMapDesc
    | CareTitle | CareGuideline(index: nat)
    | WhatsappTitle | WhatsappText | WhatsappLink
    | ContactTitle | ContactText | Closing | TeamSignature

  const CARE_GUIDELINE_COUNT: nat := 5

  /** The translation table: each entry's wording in each language. */
  function Wording(language: Language, m: Msg): string {
    match language
    case Da => (
      match m
      case Subject => "Bekræftelse af din plantekasse-registrering – Greenspace 2026"
      case Greeting(name) => "Kære " + name + ","
      case ConfirmationIntro => "Tak for din tilmelding til Greenspace 2026! Din registrering er nu bekræftet."
      case SwitchNote(oldBoxName, oldGreenhouse) =>
        "Bemærk: Din tidligere plantekasse \"" + oldBoxName + "\" i " + oldGreenhouse
          + " er blevet frigivet, og din registrering er flyttet til den nye kasse nedenfor."
      case BoxDetailsTitle => "Din plantekasse"
      case BoxLabel => "Kasse"
      case GreenhouseLabel => "Drivhus"
      case BoxNameLabel => "Navn"
      case LocationTitle => "Placering"
      case KronenLocation => "Kronen-drivhuset ligger på taget af Else Alfelts Vej bygning, ved den nordlige indgang."
      case SoenLocation => "Søen-drivhuset ligger på taget af Else Alfelts Vej bygning, ved den sydlige indgang tæt på søen."
      case MapTitle => "Plantekasse-kort"
      case KronenMapDesc => "Kronen-drivhuset: Kasserne 1-14 er arrangeret i to rækker. Kasserne 1-7 langs den nordlige væg, kasserne 8-14 langs den sydlige væg."
      case SoenMapDesc => "Søen-drivhuset: Kasserne 15-29 er arrangeret i to rækker. Kasserne 15-22 langs den vestlige væg, kasserne 23-29 langs den østlige væg."
      case CareTitle => "Retningslinjer for pasning"
      case CareGuideline(i) =>
        if i == 0 then "Vand dine planter regelmæssigt, især i varme perioder."
        else if i == 1 then "Brug kun økologisk jord og gødning."
        else if i == 2 then "Hold din kasse ren og ryddelig."
        else if i == 3 then "Respektér de fælles områder og dine naboers planter."
        else "Høst kun fra din egen plantekasse."
      case WhatsappTitle => "Fællesskab"
      case WhatsappText => "Deltag i vores WhatsApp-gruppe for at holde dig opdateret og forbinde med andre grønne naboer:"
      case WhatsappLink => "Deltag i WhatsApp-gruppen"
      case ContactTitle => "Kontakt"
      case ContactText => "Hvis du har spørgsmål, er du velkommen til at kontakte os:"
      case Closing => "Vi glæder os til at se dig i drivhuset!"
      case TeamSignature => "Greenspace-teamet")
    case En => (
      match m
      case Subject => "Confirmation of your planter box registration – Greenspace 2026"
      case Greeting(name) => "Dear " + name + ","
      case ConfirmationIntro => "Thank you for signing up for Greenspace 2026! Your registration is now confirmed."
      case SwitchNote(oldBoxName, oldGreenhouse) =>
        "Note: Your previous planter box \"" + oldBoxName + "\" in " + oldGreenhouse
          + " has been released, and your registration has been moved to the new box below."
      case BoxDetailsTitle => "Your planter box"
      case BoxLabel => "Box"
      case GreenhouseLabel => "Greenhouse"
      case BoxNameLabel => "Name"
      case LocationTitle => "Location"
      case KronenLocation => "The Kronen greenhouse is located on the rooftop of the Else Alfelts Vej building, at the northern entrance."
      case SoenLocation => "The Søen greenhouse is located on the rooftop of the Else Alfelts Vej building, at the southern entrance near the lake."
      case MapTitle => "Planter box map"
      case KronenMapDesc => "Kronen greenhouse: Boxes 1-14 are arranged in two rows. Boxes 1-7 along the north wall, boxes 8-14 along the south wall."
      case SoenMapDesc => "Søen greenhouse: Boxes 15-29 are arranged in two rows. Boxes 15-22 along the west wall, boxes 23-29 along the east wall."
      case CareTitle => "Care guidelines"
      case CareGuideline(i) =>
        if i == 0 then "Water your plants regularly, especially during warm periods."
        else if i == 1 then "Use only organic soil and fertilizer."
        else if i == 2 then "Keep your box clean and tidy."
        else if i == 3 then "Respect the common areas and your neighbors' plants."
        else "Only harvest from your own planter box."
      case WhatsappTitle => "Community"
      case WhatsappText => "Join our WhatsApp group to stay updated and connect with fellow green neighbors:"
      case WhatsappLink => "Join the WhatsApp group"
      case ContactTitle => "Contact"
      case ContactText => "If you have any questions, feel free to reach out to us:"
      case Closing => "We look forward to seeing you in the greenhouse!"
      case TeamSignature => "The Greenspace Team")
  }

  // -------------------------------------------------------------- escaping

  /** This file's `escapeHtml` has four replacements: it leaves '\'' alone. */
  const ESCAPES: seq<(char, string)> :=
    [('&', "&amp;"), ('<', "&lt;"), ('>', "&gt;"), ('"', "&quot;")]

  function EscapeHtml(text: string): string {
    Chain(text, ESCAPES)
  }

  function EscapeChar(c: char): string {
    if c == '&' then "&amp;"
    else if c == '<' then "&lt;"
    else if c == '>' then "&gt;"
    else if c == '"' then "&quot;"
    else [c]
  }

  lemma ChainUnfolds(s: string)
    ensures Chain(s, ESCAPES) ==
      ReplaceAll(ReplaceAll(ReplaceAll(ReplaceAll(s, '&', "&amp;"), '<', "&lt;"), '>', "&gt;"), '"', "&quot;")
  {
    var r := ESCAPES;
    assert r[1..][1..][1..][1..] == [];
  }

  lemma KeptByLastThree(e: string)
    requires '<' !in e && '>' !in e && '"' !in e
    ensures ReplaceAll(ReplaceAll(ReplaceAll(e, '<', "&lt;"), '>', "&gt;"), '"', "&quot;") == e
  {
    ReplaceAllAbsent(e, '<', "&lt;");
    ReplaceAllAbsent(e, '>', "&gt;");
    ReplaceAllAbsent(e, '"', "&quot;");
  }

  lemma KeptByLastTwo(e: string)
    requires '>' !in e && '"' !in e
    ensures ReplaceAll(ReplaceAll(e, '>', "&gt;"), '"', "&quot;") == e
  {
    ReplaceAllAbsent(e, '>', "&gt;");
    ReplaceAllAbsent(e, '"', "&quot;");
  }

  lemma StepsAmp()
    ensures Chain("&", ESCAPES) == "&amp;"
  {
    ChainUnfolds("&");
    ReplaceAllSingle('&', '&', "&amp;");
    KeptByLastThree("&amp;");
  }

  lemma StepsLt()
    ensures Chain("<", ESCAPES) == "&lt;"
  {
    ChainUnfolds("<");
    ReplaceAllSingle('<', '&', "&amp;");
    ReplaceAllSingle('<', '<', "&lt;");
    KeptByLastTwo("&lt;");
  }

  lemma StepsGt()
    ensures Chain(">", ESCAPES) == "&gt;"
  {
    ChainUnfolds(">");
    ReplaceAllSingle('>', '&', "&amp;");
    ReplaceAllSingle('>', '<', "&lt;");
    ReplaceAllSingle('>', '>', "&gt;");
    ReplaceAllAbsent("&gt;", '"', "&quot;");
  }

  lemma StepsOther(c: char)
    requires c != '&' && c != '<' && c != '>'
    ensures Chain([c], ESCAPES) == EscapeChar(c)
  {
    ChainUnfolds([c]);
    ReplaceAllSingle(c, '&', "&amp;");
    ReplaceAllSingle(c, '<', "&lt;");
    ReplaceAllSingle(c, '>', "&gt;");
    ReplaceAllSingle(c, '"', "&quot;");
  }

  lemma EscapeSingleChar(c: char)
    ensures Chain([c], ESCAPES) == EscapeChar(c)
  {
    if c == '&' {
      StepsAmp();
    } else if c == '<' {
      StepsLt();
    } else if c == '>' {
      StepsGt();
    } else {
      StepsOther(c);
    }
  }

  lemma EscapeHtmlPerChar(s: string)
    ensures EscapeHtml(s) == FlatMap(s, EscapeChar)
  {
    forall c ensures Chain([c], ESCAPES) == EscapeChar(c) {
      EscapeSingleChar(c);
    }
    ChainIsFlatMap(s, ESCAPES, EscapeChar);
  }

  /** Escaped text holds no '<', '>' or '"'; an apostrophe is written as it
      is, so this escaping is not safe inside a single-quoted attribute. */
  lemma EscapeHtmlSafe(s: string)
    ensures '<' !in EscapeHtml(s) && '>' !in EscapeHtml(s) && '"' !in EscapeHtml(s)
    ensures EscapeHtml("'") == "'"
  {
    EscapeHtmlPerChar(s);
    FlatMapAvoids(s, EscapeChar, '<');
    FlatMapAvoids(s, EscapeChar, '>');
    FlatMapAvoids(s, EscapeChar, '"');
    EscapeSingleChar('\'');
  }

  /** Text with none of '&', '<', '>', '"' is left as it is. */
  lemma EscapeHtmlIdentity(s: string)
    requires forall k :: 0 <= k < |s| ==> s[k] !in "&<>\""
    ensures EscapeHtml(s) == s
  {
    EscapeHtmlPerChar(s);
    FlatMapIdentity(s, EscapeChar);
  }

  // ------------------------------------------------------------ the map

  /** A cell of the greenhouse map: a box number, highlighted or not. */
  datatype MapCell = MapCell(id: int, highlighted: bool)

  /** A row of the map: a compass mark, the cells, and whether an empty
      cell closes the row. */
  datatype MapRow = MapRow(compass: string, cells: seq<MapCell>, trailingBlank: bool)

  function Cells(ids: seq<int>, boxId: int): (r: seq<MapCell>)
    ensures |r| == |ids|
    ensures forall k :: 0 <= k < |r| ==> r[k] == MapCell(ids[k], ids[k] == boxId)
  {
    if ids == [] then [] else [MapCell(ids[0], ids[0] == boxId)] + Cells(ids[1..], boxId)
  }

  /** `buildGreenhouseMap`: Kronen's north and south rows of seven, any
      other greenhouse's west row of eight and east row of seven. */
  function GreenhouseMap(greenhouse: string, boxId: int): seq<MapRow> {
    if greenhouse == KRONEN then
      [MapRow("N \U{2191}", Cells(Range(1, 8), boxId), false),
       MapRow("S \U{2193}", Cells(Range(8, 15), boxId), false)]
    else
      [MapRow("W \U{2190}", Cells(Range(15, 23), boxId), false),
       MapRow("E \U{2192}", Cells(Range(23, 30), boxId), true)]
  }

  /** The box numbers a map shows, row after row. */
  function MapIds(rows: seq<MapRow>): seq<int> {
    if rows == [] then [] else CellIds(rows[0].cells) + MapIds(rows[1..])
  }

  function CellIds(cells: seq<MapCell>): (r: seq<int>)
    ensures |r| == |cells| && forall k :: 0 <= k < |r| ==> r[k] == cells[k].id
  {
    if cells == [] then [] else [cells[0].id] + CellIds(cells[1..])
  }

  lemma CellsIds(lo: int, hi: int, boxId: int)
    requires lo <= hi
    ensures CellIds(Cells(Range(lo, hi), boxId)) == Range(lo, hi)
  {
  }

  lemma MapIdsTwo(a: MapRow, b: MapRow)
    ensures MapIds([a, b]) == CellIds(a.cells) + CellIds(b.cells)
  {
    assert [a, b][1..] == [b];
    assert [b][1..] == [];
    assert MapIds([b]) == CellIds(b.cells) + MapIds([]);
    assert CellIds(b.cells) + [] == CellIds(b.cells);
  }

  lemma RangeSplit(lo: int, mid: int, hi: int)
    requires lo <= mid <= hi
    ensures Range(lo, mid) + Range(mid, hi) == Range(lo, hi)
  {
    assert forall k :: 0 <= k < hi - lo ==> (Range(lo, mid) + Range(mid, hi))[k] == lo + k;
  }

  /** The map shows, in order, exactly the boxes of the greenhouse it is
      drawn for: 1-14 for Kronen and 15-29 for any other. */
  lemma MapShowsGreenhouse(greenhouse: string, boxId: int)
    ensures MapIds(GreenhouseMap(greenhouse, boxId)) ==
      if greenhouse == KRONEN then Range(KRONEN_BOX_START, KRONEN_BOX_END + 1)
      else Range(SOEN_BOX_START, SOEN_BOX_END + 1)
  {
    var rows := GreenhouseMap(greenhouse, boxId);
    MapIdsTwo(rows[0], rows[1]);
    assert rows == [rows[0], rows[1]];
    if greenhouse == KRONEN {
      CellsIds(1, 8, boxId);
      CellsIds(8, 15, boxId);
      RangeSplit(1, 8, 15);
    } else {
      CellsIds(15, 23, boxId);
      CellsIds(23, 30, boxId);
      RangeSplit(15, 23, 30);
    }
  }

  /** Only the cell of the recipient's box is highlighted. */
  lemma MapHighlightsOnlyBox(greenhouse: string, boxId: int)
    ensures forall r, k ::
      (0 <= r < |GreenhouseMap(greenhouse, boxId)| && 0 <= k < |GreenhouseMap(greenhouse, boxId)[r].cells|) ==>
      (GreenhouseMap(greenhouse, boxId)[r].cells[k].highlighted <==> GreenhouseMap(greenhouse, boxId)[r].cells[k].id == boxId)
  {
  }

  // ------------------------------------------------------------ the e-mail

  /** The page's lang attribute and title, then its content in order: the
      greeting, the introduction, the optional switch note, the box
      details, the location text, the map text and map, the care list, the
      community link, the contact list and the closing. Texts are
      translation entries, written through `EscapeHtml` by `Rendered`. */
  datatype ConfirmationBody = ConfirmationBody(
    lang: string,
    title: Msg,
    greeting: Msg,
    intro: Msg,
    switchNote: Option<Msg>,
    boxNumber: string,
    boxName: string,
    greenhouse: string,
    location: Msg,
    mapDesc: Msg,
    boxMap: seq<MapRow>,
    care: seq<Msg>,
    whatsappUrl: string,
    contacts: seq<Contact>,
    closing: Msg,
    signature: Msg)

  /** `EmailContent`. */
  datatype EmailContent = EmailContent(subject: string, body: ConfirmationBody, from: string, replyTo: string)

  function CareGuidelines(n: nat): (r: seq<Msg>)
    ensures |r| == n && forall k :: 0 <= k < n ==> r[k] == CareGuideline(k)
  {
    if n == 0 then [] else CareGuidelines(n - 1) + [CareGuideline(n - 1)]
  }

  /** The box the resident was switched away from: looked up only for a
      truthy (present, non-zero) id, and kept only when the catalogue has it. */
  function SwitchedBox(switchedFromBoxId: Option<int>): Option<CatalogEntry> {
    if switchedFromBoxId.Some? && switchedFromBoxId.value != 0 then FindBox(switchedFromBoxId.value)
    else None
  }

  /** `buildConfirmationEmail`. */
  function BuildConfirmationEmail(data: ConfirmationData): (r: EmailContent)
    ensures r.subject == Wording(data.language, Subject)
    ensures r.from == EMAIL_FROM && r.replyTo == EMAIL_REPLY_TO
    ensures r.body.lang == LanguageCode(data.language) && r.body.title == Subject
    ensures r.body.greeting == Greeting(data.recipientName)
    ensures r.body.boxNumber == "#" + IntToString(data.boxId)
    ensures r.body.switchNote.Some? <==>
      data.switchedFromBoxId.Some? && 1 <= data.switchedFromBoxId.value <= TOTAL_BOX_COUNT
    ensures |r.body.care| == CARE_GUIDELINE_COUNT
    ensures r.body.whatsappUrl == WHATSAPP_GROUP_URL && r.body.contacts == ORGANIZER_CONTACTS
    ensures r.replyTo == ORGANIZER_CONTACTS[0].email
  {
    FindBoxSpec(if data.switchedFromBoxId.Some? then data.switchedFromBoxId.value else 0);
    var box := AdminEmailTemplates.CatalogBoxRef(data.boxId);
    var switched := SwitchedBox(data.switchedFromBoxId);
    var kronen := box.greenhouse == KRONEN;
    EmailContent(
      Wording(data.language, Subject),
      ConfirmationBody(
        LanguageCode(data.language),
        Subject,
        Greeting(data.recipientName),
        ConfirmationIntro,
        if switched.Some? then Some(SwitchNote(switched.value.name, switched.value.greenhouse)) else None,
        "#" + IntToString(data.boxId),
        box.name,
        box.greenhouse,
        if kronen then KronenLocation else SoenLocation,
        if kronen then KronenMapDesc else SoenMapDesc,
        GreenhouseMap(box.greenhouse, data.boxId),
        CareGuidelines(CARE_GUIDELINE_COUNT),
        WHATSAPP_GROUP_URL,
        ORGANIZER_CONTACTS,
        Closing,
        TeamSignature),
      EMAIL_FROM,
      EMAIL_REPLY_TO)
  }

  /** The greeting as it appears in the page: the recipient's name is only
      ever written escaped. */
  lemma GreetingIsEscaped(data: ConfirmationData)
    ensures var g := EscapeHtml(Wording(data.language, BuildConfirmationEmail(data).body.greeting));
      '<' !in g && '>' !in g && '"' !in g
  {
    EscapeHtmlSafe(Wording(data.language, Greeting(data.recipientName)));
  }

  /** The box details, location text and map follow the catalogue entry of
      the box: a Kronen box gets Kronen's texts and map, a Søen box Søen's,
      and the map highlights the box's own cell. */
  lemma CatalogBoxDetails(data: ConfirmationData)
    requires 1 <= data.boxId <= TOTAL_BOX_COUNT
    ensures var b := BuildConfirmationEmail(data).body;
      var entry := BOX_CATALOG[data.boxId - 1];
      b.boxName == entry.name && b.greenhouse == entry.greenhouse &&
      (b.location == KronenLocation <==> data.boxId <= KRONEN_BOX_END) &&
      (b.mapDesc == KronenMapDesc <==> data.boxId <= KRONEN_BOX_END) &&
      data.boxId in MapIds(b.boxMap)
  {
    CatalogIds();
    CatalogGreenhouses();
    var entry := BOX_CATALOG[data.boxId - 1];
    MapShowsGreenhouse(entry.greenhouse, data.boxId);
    if entry.greenhouse == KRONEN {
      assert Range(1, 15)[data.boxId - 1] == data.boxId;
    } else {
      assert Range(15, 30)[data.boxId - 15] == data.boxId;
    }
  }

  /** A box the catalogue does not know is shown as "#id" in "Unknown", and,
      "Unknown" not being "Kronen", with Søen's location text and map. */
  lemma UnknownBoxFallback(data: ConfirmationData)
    requires !(1 <= data.boxId <= TOTAL_BOX_COUNT)
    ensures var b := BuildConfirmationEmail(data).body;
      b.boxName == "#" + IntToString(data.boxId) && b.greenhouse == "Unknown" &&
      b.location == SoenLocation && b.mapDesc == SoenMapDesc &&
      MapIds(b.boxMap) == Range(SOEN_BOX_START, SOEN_BOX_END + 1)
  {
    assert "Unknown" != KRONEN by { assert "Unknown"[0] != KRONEN[0]; }
    MapShowsGreenhouse("Unknown", data.boxId);
  }

  /** The switch note names the box switched from, as the catalogue has it. */
  lemma SwitchNoteNamesOldBox(data: ConfirmationData, oldId: int)
    requires data.switchedFromBoxId == Some(oldId) && 1 <= oldId <= TOTAL_BOX_COUNT
    ensures BuildConfirmationEmail(data).body.switchNote ==
      Some(SwitchNote(BOX_CATALOG[oldId - 1].name, BOX_CATALOG[oldId - 1].greenhouse))
  {
    FindBoxSpec(oldId);
  }
}
