/** The fixed tables of the allocation: the two greenhouses, the 29-box
    catalogue, the eligible street and house numbers, and the label an
    administrative hold writes. */
module Constants {
  import opened Wrappers

  const KRONEN: string := "Kronen"
  const SOEN: string := "S\U{00F8}en"
  const GREENHOUSES: seq<string> := [KRONEN, SOEN]

  datatype CatalogEntry = CatalogEntry(id: int, name: string, greenhouse: string)

  const BOX_CATALOG: seq<CatalogEntry> := [
    CatalogEntry(1, "Linaria", KRONEN),
    CatalogEntry(2, "Harebell", KRONEN),
    CatalogEntry(3, "Stellaria", KRONEN),
    CatalogEntry(4, "Honeysuckle", KRONEN),
    CatalogEntry(5, "Daisy", KRONEN),
    CatalogEntry(6, "Hawthorn", KRONEN),
    CatalogEntry(7, "Alder", KRONEN),
    CatalogEntry(8, "Linden", KRONEN),
    CatalogEntry(9, "Thistle", KRONEN),
    CatalogEntry(10, "Yarrow", KRONEN),
    CatalogEntry(11, "Seabuck", KRONEN),
    CatalogEntry(12, "Anemone", KRONEN),
    CatalogEntry(13, "Jenny", KRONEN),
    CatalogEntry(14, "Buttercup", KRONEN),
    CatalogEntry(15, "Robin", SOEN),
    CatalogEntry(16, "Mallard", SOEN),
    CatalogEntry(17, "Wagtail", SOEN),
    CatalogEntry(18, "Greenfinch", SOEN),
    CatalogEntry(19, "Blue tit", SOEN),
    CatalogEntry(20, "Great tit", SOEN),
    CatalogEntry(21, "Mute swan", SOEN),
    CatalogEntry(22, "Nuthatch", SOEN),
    CatalogEntry(23, "Coot", SOEN),
    CatalogEntry(24, "Hooded crow", SOEN),
    CatalogEntry(25, "Gray goose", SOEN),
    CatalogEntry(26, "Barn swallow", SOEN),
    CatalogEntry(27, "Magpie", SOEN),
    CatalogEntry(28, "Chaffinch", SOEN),
    CatalogEntry(29, "Black bird", SOEN)
  ]

  const TOTAL_BOX_COUNT: int := 29
  const KRONEN_BOX_START: int := 1
  const KRONEN_BOX_END: int := 14
  const SOEN_BOX_START: int := 15
  const SOEN_BOX_END: int := 29

  const EMAIL_FROM: string := "greenspace@un17hub.com"
  const EMAIL_REPLY_TO: string := "elise7284@gmail.com"

  const ELIGIBLE_STREET: string := "Else Alfelts Vej"
  const HOUSE_NUMBER_MIN: int := 122
  const HOUSE_NUMBER_MAX: int := 202

  /** 138, 144 and then every number from 161 to 202. */
  const FLOOR_DOOR_REQUIRED_NUMBERS: seq<int> :=
    [138, 144] + Range(161, 203)

  /** The integers lo, lo + 1, ..., hi - 1 in increasing order. */
  function Range(lo: int, hi: int): (r: seq<int>)
    decreases hi - lo
    ensures |r| == if lo < hi then hi - lo else 0
    ensures forall k :: 0 <= k < |r| ==> r[k] == lo + k
  {
    if lo < hi then [lo] + Range(lo + 1, hi) else []
  }

  /** A person the notification e-mails name as a contact. */
  datatype Contact = Contact(name: string, email: string)

  const ORGANIZER_CONTACTS: seq<Contact> := [
    Contact("Elise Larson", "elise7284@gmail.com"),
    Contact("Lena Filthaut", "lena@gmail.com")
  ]

  const WHATSAPP_GROUP_URL: string := "https://chat.whatsapp.com/FqYOqLLsz98HmDcdsr8a3i"

  /** The opening moment written into a fresh settings row. */
  const DEFAULT_OPENING_DATETIME: string := "2026-04-01T10:00:00"
  const OPENING_TIMEZONE: string := "Europe/Copenhagen"

  const RESERVED_LABEL_DEFAULT: string := "Admin Hold"

  const SEED_ADMIN_EMAILS: seq<string> := ["elise7284@gmail.com", "lena@gmail.com"]

  /** The catalogue holds the 29 boxes with ids 1..29 in order, and the
      declared total agrees with it. */
  lemma CatalogIds()
    ensures |BOX_CATALOG| == TOTAL_BOX_COUNT
    ensures forall i :: 0 <= i < |BOX_CATALOG| ==> BOX_CATALOG[i].id == i + 1
  {
  }

  /** Kronen holds exactly boxes 1-14 and Soen exactly boxes 15-29, which are
      the two declared ranges. */
  lemma CatalogGreenhouses()
    ensures forall i :: 0 <= i < |BOX_CATALOG| ==>
      (BOX_CATALOG[i].greenhouse == KRONEN <==> KRONEN_BOX_START <= BOX_CATALOG[i].id <= KRONEN_BOX_END)
    ensures forall i :: 0 <= i < |BOX_CATALOG| ==>
      (BOX_CATALOG[i].greenhouse == SOEN <==> SOEN_BOX_START <= BOX_CATALOG[i].id <= SOEN_BOX_END)
    ensures forall i :: 0 <= i < |BOX_CATALOG| ==> BOX_CATALOG[i].greenhouse in GREENHOUSES
  {
    assert KRONEN != SOEN by { assert KRONEN[1] != SOEN[1]; }
  }

  /** No two catalogue entries share a name. */
  lemma CatalogNamesDistinct()
    ensures forall i, j :: 0 <= i < j < |BOX_CATALOG| ==> BOX_CATALOG[i].name != BOX_CATALOG[j].name
  {
  }

  /** The floor/door list is exactly {138, 144} together with 161..202. */
  lemma FloorDoorRequiredMembers(n: int)
    ensures n in FLOOR_DOOR_REQUIRED_NUMBERS <==> n == 138 || n == 144 || 161 <= n <= 202
  {
    var tail := Range(161, 203);
    assert FLOOR_DOOR_REQUIRED_NUMBERS == [138, 144] + tail;
    if 161 <= n <= 202 {
      assert tail[n - 161] == n;
    }
  }

  /** `BOX_CATALOG.find((b) => b.id === id)`. */
  function FindInCatalog(entries: seq<CatalogEntry>, id: int): (r: Option<CatalogEntry>)
    ensures r.Some? ==> r.value in entries && r.value.id == id
    ensures r.None? ==> forall k :: 0 <= k < |entries| ==> entries[k].id != id
  {
    if entries == [] then None
    else if entries[0].id == id then Some(entries[0])
    else FindInCatalog(entries[1..], id)
  }

  function FindBox(id: int): Option<CatalogEntry> {
    FindInCatalog(BOX_CATALOG, id)
  }

  /** A box id is found exactly when it lies in 1..29, and then the entry
      found is the catalogue's entry at that position. */
  lemma FindBoxSpec(id: int)
    ensures FindBox(id).Some? <==> 1 <= id <= TOTAL_BOX_COUNT
    ensures FindBox(id).Some? ==> FindBox(id).value == BOX_CATALOG[id - 1]
  {
    CatalogIds();
    if 1 <= id <= TOTAL_BOX_COUNT {
      assert BOX_CATALOG[id - 1].id == id;
    }
  }
}
