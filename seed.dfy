/** The seed: the two greenhouses, the 29 catalogue boxes, the opening
    setting and the first administrators. Every insert skips rows that are
    already there, so seeding twice changes nothing the second time. */
module Seed {
  import opened Wrappers
  import opened Enums
  import opened Constants
  import opened Schema
  import opened Database

  /** `getGreenhouseRows`: one row per greenhouse name. */
  function GreenhouseRows(): seq<string> {
    GREENHOUSES
  }

  /** A `planter_boxes` row. */
  datatype BoxRow = BoxRow(id: int, box: PlanterBox)

  function BoxRowOf(entry: CatalogEntry): BoxRow {
    BoxRow(entry.id, PlanterBox(entry.name, entry.greenhouse, Available, None))
  }

  /** `getBoxRows`. */
  function BoxRows(): (r: seq<BoxRow>)
    ensures |r| == |BOX_CATALOG|
    ensures forall i :: 0 <= i < |r| ==> r[i] == BoxRowOf(BOX_CATALOG[i])
  {
    seq(|BOX_CATALOG|, i requires 0 <= i < |BOX_CATALOG| => BoxRowOf(BOX_CATALOG[i]))
  }

  /** One row per catalogue entry, with its id, name and greenhouse: ids
      1..29 in order, each box available and unlabelled. */
  lemma BoxRowsSpec()
    ensures |BoxRows()| == TOTAL_BOX_COUNT
    ensures forall i :: 0 <= i < |BoxRows()| ==>
      var row := BoxRows()[i];
      row.id == i + 1 && row.id == BOX_CATALOG[i].id &&
      row.box.name == BOX_CATALOG[i].name && row.box.greenhouseName == BOX_CATALOG[i].greenhouse &&
      row.box.greenhouseName in GREENHOUSES && row.box.state == Available && row.box.reservedLabel.None?
  {
    CatalogIds();
    CatalogGreenhouses();
  }

  // ------------------------------------------------------ insert if absent

  /** `insertInto("greenhouses")` with `onConflict(name).doNothing()`. */
  function InsertGreenhouses(existing: seq<string>, rows: seq<string>): (r: seq<string>)
    ensures |existing| <= |r| && r[..|existing|] == existing
    ensures forall n :: n in r <==> n in existing || n in rows
    ensures GreenhousesValid(existing) ==> GreenhousesValid(r)
    decreases |rows|
  {
    if rows == [] then existing
    else
      assert rows == [rows[0]] + rows[1..];
      var next := if rows[0] in existing then existing else existing + [rows[0]];
      assert next[..|existing|] == existing;
      InsertGreenhouses(next, rows[1..])
  }

  /** `insertInto("planter_boxes")` with `onConflict(id).doNothing()`: a
      box already there keeps its row. */
  function InsertBoxes(boxes: map<int, PlanterBox>, rows: seq<BoxRow>): (r: map<int, PlanterBox>)
    ensures forall id :: id in r <==> id in boxes || exists row :: row in rows && row.id == id
    ensures forall id :: id in boxes ==> r[id] == boxes[id]
    ensures forall id :: id in r && id !in boxes ==> exists row :: row in rows && row.id == id && r[id] == row.box
    decreases |rows|
  {
    if rows == [] then boxes
    else
      assert rows == [rows[0]] + rows[1..];
      InsertBoxes(if rows[0].id in boxes then boxes else boxes[rows[0].id := rows[0].box], rows[1..])
  }

  /** The opening time as the seed writes it: the default date and time in
      the Copenhagen zone. */
  const OPENING_TIMESTAMP: string := DEFAULT_OPENING_DATETIME + " " + OPENING_TIMEZONE

  /** The settings row is written only when there is none. */
  function SettingsSeeded(t: Tables): Tables {
    if |t.settings| > 0 then t
    else t.(settings := [SettingsRow(t.nextUuid, OPENING_TIMESTAMP)], nextUuid := t.nextUuid + 1)
  }

  predicate HasAdminEmail(admins: seq<AdminRow>, email: string) {
    exists k :: 0 <= k < |admins| && admins[k].email == email
  }

  /** One pass of the admin loop: an admin and its credential, unless an
      admin with the e-mail exists. */
  function AdminSeeded(t: Tables, email: string, passwordHash: string): Tables {
    if HasAdminEmail(t.admins, email) then t
    else t.(admins := t.admins + [AdminRow(t.nextUuid, email)],
            credentials := t.credentials + [Credential(t.nextUuid, passwordHash)],
            nextUuid := t.nextUuid + 1)
  }

  /** The admin loop over a list of e-mails: afterwards every e-mail has an
      admin, earlier admins stay, and only the admins, their credentials and
      the id counter change. */
  function AdminsSeeded(t: Tables, emails: seq<string>, passwordHash: string): (r: Tables)
    ensures r == t.(admins := r.admins, credentials := r.credentials, nextUuid := r.nextUuid)
    ensures |t.admins| <= |r.admins| && r.admins[..|t.admins|] == t.admins
    ensures forall e :: e in emails ==> HasAdminEmail(r.admins, e)
    decreases |emails|
  {
    if emails == [] then t
    else
      var before := AdminsSeeded(t, emails[..|emails| - 1], passwordHash);
      var last := emails[|emails| - 1];
      assert emails == emails[..|emails| - 1] + [last];
      AdminSeededGrows(before, last, passwordHash);
      AdminSeeded(before, last, passwordHash)
  }

  /** One pass keeps every admin and leaves one with the e-mail. */
  lemma AdminSeededGrows(t: Tables, email: string, passwordHash: string)
    ensures var r := AdminSeeded(t, email, passwordHash);
      |t.admins| <= |r.admins| && r.admins[..|t.admins|] == t.admins &&
      HasAdminEmail(r.admins, email) &&
      forall e :: HasAdminEmail(t.admins, e) ==> HasAdminEmail(r.admins, e)
  {
    var r := AdminSeeded(t, email, passwordHash);
    if !HasAdminEmail(t.admins, email) {
      assert r.admins[|t.admins|].email == email;
      forall e | HasAdminEmail(t.admins, e) ensures HasAdminEmail(r.admins, e) {
        var k :| 0 <= k < |t.admins| && t.admins[k].email == e;
        assert r.admins[k] == t.admins[k];
      }
    }
  }

  /** The first three inserts: greenhouses, boxes and the settings row.
      Registrations, the waitlist, the log, e-mails and accounts are left
      alone. */
  function CatalogSeeded(t: Tables, boxRows: seq<BoxRow>): (r: Tables)
    ensures r.registrations == t.registrations && r.waitlist == t.waitlist && r.audit == t.audit
    ensures r.emails == t.emails && r.admins == t.admins && r.credentials == t.credentials
    ensures r.sessions == t.sessions && r.clock == t.clock
  {
    var t1 := t.(greenhouses := InsertGreenhouses(t.greenhouses, GreenhouseRows()));
    SettingsSeeded(t1.(boxes := InsertBoxes(t1.boxes, boxRows)))
  }

  /** The whole seed over a given list of box rows. */
  function SeededWith(t: Tables, boxRows: seq<BoxRow>, passwordHash: string): Tables {
    AdminsSeeded(CatalogSeeded(t, boxRows), SEED_ADMIN_EMAILS, passwordHash)
  }

  /** `seed`, with the hash of the initial password already computed. */
  function Seeded(t: Tables, passwordHash: string): Tables {
    SeededWith(t, BoxRows(), passwordHash)
  }

  /** `seed`. */
  method Seed(db: Db, passwordHash: string)
    modifies db
    ensures db.Snapshot() == Seeded(old(db.Snapshot()), passwordHash)
  {
    var boxRows := BoxRows();
    SeedCatalog(db, boxRows);
    SeedAdmins(db, passwordHash);
  }

  /** The greenhouse, box and settings inserts. */
  method SeedCatalog(db: Db, boxRows: seq<BoxRow>)
    modifies db
    ensures db.Snapshot() == CatalogSeeded(old(db.Snapshot()), boxRows)
  {
    ghost var t := db.Snapshot();
    db.greenhouses := InsertGreenhouses(db.greenhouses, GreenhouseRows());
    db.boxes := InsertBoxes(db.boxes, boxRows);
    ghost var t2 := db.Snapshot();
    assert t2 == t.(greenhouses := t2.greenhouses).(boxes := t2.boxes);
    if |db.settings| == 0 {
      var id := db.NewId();
      db.settings := [SettingsRow(id, OPENING_TIMESTAMP)];
    }
    assert db.Snapshot() == SettingsSeeded(t2);
  }

  /** The admin loop: for each seed e-mail without an admin, an admin and
      its credential. */
  method SeedAdmins(db: Db, passwordHash: string)
    modifies db
    ensures db.Snapshot() == AdminsSeeded(old(db.Snapshot()), SEED_ADMIN_EMAILS, passwordHash)
  {
    ghost var t := db.Snapshot();
    for k := 0 to |SEED_ADMIN_EMAILS|
      invariant db.Snapshot() == AdminsSeeded(t, SEED_ADMIN_EMAILS[..k], passwordHash)
    {
      ghost var before := db.Snapshot();
      var email := SEED_ADMIN_EMAILS[k];
      if !HasAdminEmail(db.admins, email) {
        var id := db.NewId();
        db.admins := db.admins + [AdminRow(id, email)];
        db.credentials := db.credentials + [Credential(id, passwordHash)];
      }
      assert db.Snapshot() == AdminSeeded(before, email, passwordHash);
      assert SEED_ADMIN_EMAILS[..k + 1][..k] == SEED_ADMIN_EMAILS[..k];
    }
    assert SEED_ADMIN_EMAILS[..|SEED_ADMIN_EMAILS|] == SEED_ADMIN_EMAILS;
  }

  // ---------------------------------------------------------- constraints

  lemma InsertGreenhousesKeepsValid(t: Tables, rows: seq<string>)
    requires Valid(t)
    ensures var t' := t.(greenhouses := InsertGreenhouses(t.greenhouses, rows));
      Valid(t') && (Consistent(t) ==> Consistent(t'))
  {
  }

  /** Boxes with ids in range, in a known greenhouse, available and
      unlabelled: no active registration can reference a box that was not
      there, so occupancy still holds. */
  lemma InsertBoxesKeepsValid(t: Tables, rows: seq<BoxRow>)
    requires Valid(t)
    requires forall row :: row in rows ==>
      1 <= row.id <= TOTAL_BOX_COUNT && row.box.greenhouseName in t.greenhouses &&
      row.box.state == Available && row.box.reservedLabel.None?
    ensures var t' := t.(boxes := InsertBoxes(t.boxes, rows));
      Valid(t') && (Consistent(t) ==> Consistent(t'))
  {
  }

  lemma SettingsSeededKeepsValid(t: Tables)
    requires Valid(t)
    ensures Valid(SettingsSeeded(t)) && (Consistent(t) ==> Consistent(SettingsSeeded(t)))
  {
  }

  /** An admin whose e-mail is new, under a fresh id, with one credential. */
  lemma AdminSeededKeepsValid(t: Tables, email: string, passwordHash: string)
    requires Valid(t)
    ensures Valid(AdminSeeded(t, email, passwordHash))
    ensures Consistent(t) ==> Consistent(AdminSeeded(t, email, passwordHash))
  {
    if !HasAdminEmail(t.admins, email) {
      var a := t.admins + [AdminRow(t.nextUuid, email)];
      var c := t.credentials + [Credential(t.nextUuid, passwordHash)];
      forall id | IsAdmin(t.admins, id) ensures IsAdmin(a, id) {
        var k :| 0 <= k < |t.admins| && t.admins[k].id == id;
        assert a[k].id == id;
      }
      assert IsAdmin(a, t.nextUuid) by { assert a[|t.admins|].id == t.nextUuid; }
      forall i | 0 <= i < |t.credentials| ensures t.credentials[i].adminId != t.nextUuid {
        var k :| 0 <= k < |t.admins| && t.admins[k].id == t.credentials[i].adminId;
      }
      forall i, j | 0 <= i < j < |a| ensures a[i].id < a[j].id && a[i].email != a[j].email {
        if j == |t.admins| {
          assert a[i] == t.admins[i];
        } else {
          assert a[i] == t.admins[i] && a[j] == t.admins[j];
        }
      }
      forall i | 0 <= i < |c| ensures IsAdmin(a, c[i].adminId) {
        if i < |t.credentials| {
          assert c[i] == t.credentials[i];
        }
      }
      forall i, j | 0 <= i < j < |c| ensures c[i].adminId != c[j].adminId {
        if j == |t.credentials| {
          assert c[i] == t.credentials[i];
        } else {
          assert c[i] == t.credentials[i] && c[j] == t.credentials[j];
        }
      }
    }
  }

  lemma {:induction false} AdminsSeededKeepsValid(t: Tables, emails: seq<string>, passwordHash: string)
    requires Valid(t)
    ensures Valid(AdminsSeeded(t, emails, passwordHash))
    ensures Consistent(t) ==> Consistent(AdminsSeeded(t, emails, passwordHash))
    decreases |emails|
  {
    if emails != [] {
      var prefix := emails[..|emails| - 1];
      AdminsSeededKeepsValid(t, prefix, passwordHash);
      AdminSeededKeepsValid(AdminsSeeded(t, prefix, passwordHash), emails[|emails| - 1], passwordHash);
    }
  }

  /** Box rows as the catalogue gives them: ids in range, in a seeded
      greenhouse, available and unlabelled. */
  predicate CatalogRows(boxRows: seq<BoxRow>) {
    forall row :: row in boxRows ==>
      1 <= row.id <= TOTAL_BOX_COUNT && row.box.greenhouseName in GREENHOUSES &&
      row.box.state == Available && row.box.reservedLabel.None?
  }

  lemma BoxRowsAreCatalogRows()
    ensures CatalogRows(BoxRows())
  {
    BoxRowsSpec();
    forall row | row in BoxRows()
      ensures 1 <= row.id <= TOTAL_BOX_COUNT && row.box.greenhouseName in GREENHOUSES &&
              row.box.state == Available && row.box.reservedLabel.None?
    {
      var i :| 0 <= i < |BoxRows()| && BoxRows()[i] == row;
    }
  }

  lemma SeededWithKeepsValid(t: Tables, boxRows: seq<BoxRow>, passwordHash: string)
    requires Valid(t) && CatalogRows(boxRows)
    ensures Valid(SeededWith(t, boxRows, passwordHash))
    ensures Consistent(t) ==> Consistent(SeededWith(t, boxRows, passwordHash))
  {
    var t1 := t.(greenhouses := InsertGreenhouses(t.greenhouses, GreenhouseRows()));
    InsertGreenhousesKeepsValid(t, GreenhouseRows());
    InsertBoxesKeepsValid(t1, boxRows);
    var t2 := t1.(boxes := InsertBoxes(t1.boxes, boxRows));
    SettingsSeededKeepsValid(t2);
    AdminsSeededKeepsValid(SettingsSeeded(t2), SEED_ADMIN_EMAILS, passwordHash);
  }

  /** Seeding keeps every schema constraint and the occupancy bookkeeping,
      whatever the database held before. */
  lemma SeedKeepsValid(t: Tables, passwordHash: string)
    requires Valid(t)
    ensures Valid(Seeded(t, passwordHash))
    ensures Consistent(t) ==> Consistent(Seeded(t, passwordHash))
  {
    BoxRowsAreCatalogRows();
    SeededWithKeepsValid(t, BoxRows(), passwordHash);
  }

  // ---------------------------------------------------------- idempotence

  lemma {:induction false} InsertGreenhousesNoop(existing: seq<string>, rows: seq<string>)
    requires forall n :: n in rows ==> n in existing
    ensures InsertGreenhouses(existing, rows) == existing
    decreases |rows|
  {
    if rows != [] {
      assert rows[0] in rows;
      InsertGreenhousesNoop(existing, rows[1..]);
    }
  }

  lemma {:induction false} InsertBoxesNoop(boxes: map<int, PlanterBox>, rows: seq<BoxRow>)
    requires forall row :: row in rows ==> row.id in boxes
    ensures InsertBoxes(boxes, rows) == boxes
    decreases |rows|
  {
    if rows != [] {
      assert rows[0] in rows;
      InsertBoxesNoop(boxes, rows[1..]);
    }
  }

  lemma {:induction false} AdminsSeededNoop(t: Tables, emails: seq<string>, passwordHash: string)
    requires forall e :: e in emails ==> HasAdminEmail(t.admins, e)
    ensures AdminsSeeded(t, emails, passwordHash) == t
    decreases |emails|
  {
    if emails != [] {
      AdminsSeededNoop(t, emails[..|emails| - 1], passwordHash);
      assert emails[|emails| - 1] in emails;
    }
  }

  /** Seeding twice over the same box rows is seeding once, whatever
      password hash the second run computes: every greenhouse name and box
      id is present, a settings row exists, and every seed e-mail has an
      admin. */
  lemma SeededWithIdempotent(t: Tables, boxRows: seq<BoxRow>, passwordHash: string, laterHash: string)
    ensures SeededWith(SeededWith(t, boxRows, passwordHash), boxRows, laterHash) == SeededWith(t, boxRows, passwordHash)
  {
    var s := SeededWith(t, boxRows, passwordHash);
    InsertGreenhousesNoop(s.greenhouses, GreenhouseRows());
    var s1 := s.(greenhouses := InsertGreenhouses(s.greenhouses, GreenhouseRows()));
    assert s1 == s;
    InsertBoxesNoop(s.boxes, boxRows);
    var s2 := s1.(boxes := InsertBoxes(s1.boxes, boxRows));
    assert s2 == s;
    assert SettingsSeeded(s2) == s;
    AdminsSeededNoop(s, SEED_ADMIN_EMAILS, laterHash);
  }

  /** Seeding a seeded database changes nothing. */
  lemma SeedIdempotent(t: Tables, passwordHash: string, laterHash: string)
    ensures Seeded(Seeded(t, passwordHash), laterHash) == Seeded(t, passwordHash)
  {
    SeededWithIdempotent(t, BoxRows(), passwordHash, laterHash);
  }

  // ------------------------------------------------------ the first seed

  /** The tables right after the initial migration. */
  const EMPTY: Tables := Tables([], map[], [], [], [], [], [], [], [], [], 0, 0)

  /** What seeding does to each table: it leaves the allocation tables
      and the log alone. */
  lemma SeededTables(t: Tables, boxRows: seq<BoxRow>, passwordHash: string)
    ensures var s := SeededWith(t, boxRows, passwordHash);
      s.greenhouses == InsertGreenhouses(t.greenhouses, GreenhouseRows()) &&
      s.boxes == InsertBoxes(t.boxes, boxRows) &&
      s.registrations == t.registrations && s.waitlist == t.waitlist && s.audit == t.audit &&
      s.emails == t.emails && s.sessions == t.sessions &&
      s.settings == (if |t.settings| > 0 then t.settings else [SettingsRow(t.nextUuid, OPENING_TIMESTAMP)])
  {
  }

  /** Into an empty table, rows with ids 1..n in order insert exactly the
      boxes 1..n, each from its own row. */
  lemma InsertBoxesIntoEmpty(rows: seq<BoxRow>)
    requires forall i :: 0 <= i < |rows| ==> rows[i].id == i + 1
    ensures var boxes := InsertBoxes(map[], rows);
      (forall id :: id in boxes <==> 1 <= id <= |rows|) &&
      (forall id :: id in boxes ==> boxes[id] == rows[id - 1].box)
  {
    var boxes := InsertBoxes(map[], rows);
    forall id | 1 <= id <= |rows| ensures id in boxes {
      assert rows[id - 1] in rows;
    }
    forall id | id in boxes ensures 1 <= id <= |rows| && boxes[id] == rows[id - 1].box {
      var row :| row in rows && row.id == id && boxes[id] == row.box;
      var i :| 0 <= i < |rows| && rows[i] == row;
    }
  }

  /** Seeding the empty database gives the two greenhouses in catalogue
      order, nothing registered, waiting or logged, one settings row and the
      two seed admins. */
  lemma SeededWithFromEmpty(boxRows: seq<BoxRow>, passwordHash: string)
    ensures var s := SeededWith(EMPTY, boxRows, passwordHash);
      s.greenhouses == GREENHOUSES &&
      s.registrations == [] && s.waitlist == [] && s.audit == [] &&
      s.settings == [SettingsRow(0, OPENING_TIMESTAMP)] &&
      |s.admins| == |SEED_ADMIN_EMAILS| && |s.credentials| == |SEED_ADMIN_EMAILS|
  {
    SeededTables(EMPTY, boxRows, passwordHash);
    GreenhousesIntoEmpty();
    SeededAdmins(boxRows, passwordHash);
  }

  /** Into an empty table the two greenhouses go in catalogue order. */
  lemma GreenhousesIntoEmpty()
    ensures InsertGreenhouses([], GreenhouseRows()) == GREENHOUSES
  {
    assert KRONEN != SOEN by { assert KRONEN[1] != SOEN[1]; }
    assert InsertGreenhouses([KRONEN], [SOEN]) == [KRONEN, SOEN];
  }

  /** Rows numbered 1..n give exactly the boxes 1..n, each from its row. */
  lemma SeededBoxesFromEmpty(boxRows: seq<BoxRow>, passwordHash: string)
    requires forall i :: 0 <= i < |boxRows| ==> boxRows[i].id == i + 1
    ensures var boxes := SeededWith(EMPTY, boxRows, passwordHash).boxes;
      (forall id :: id in boxes <==> 1 <= id <= |boxRows|) &&
      (forall id :: id in boxes ==> boxes[id] == boxRows[id - 1].box)
  {
    SeededTables(EMPTY, boxRows, passwordHash);
    InsertBoxesIntoEmpty(boxRows);
  }

  /** The first seed: the catalogue's 29 boxes, each with its catalogue
      name and greenhouse, available and unlabelled. */
  lemma SeedFromEmpty(passwordHash: string)
    ensures var s := Seeded(EMPTY, passwordHash);
      Consistent(s) &&
      s.greenhouses == GREENHOUSES &&
      (forall id :: id in s.boxes <==> 1 <= id <= TOTAL_BOX_COUNT) &&
      (forall id :: id in s.boxes ==>
        s.boxes[id] == PlanterBox(BOX_CATALOG[id - 1].name, BOX_CATALOG[id - 1].greenhouse, Available, None)) &&
      s.registrations == [] && s.waitlist == [] && s.audit == [] &&
      s.settings == [SettingsRow(0, OPENING_TIMESTAMP)] &&
      |s.admins| == |SEED_ADMIN_EMAILS| && |s.credentials| == |SEED_ADMIN_EMAILS|
  {
    SeedFromEmptyConsistent(passwordHash);
    SeedFromEmptyBoxes(passwordHash);
    SeededWithFromEmpty(BoxRows(), passwordHash);
  }

  /** The empty database satisfies every constraint. */
  lemma EmptyConsistent()
    ensures Valid(EMPTY) && Consistent(EMPTY)
  {
  }

  lemma SeedFromEmptyConsistent(passwordHash: string)
    ensures Consistent(Seeded(EMPTY, passwordHash))
  {
    EmptyConsistent();
    SeedKeepsValid(EMPTY, passwordHash);
  }

  /** The first seed's boxes are the catalogue's. */
  lemma SeedFromEmptyBoxes(passwordHash: string)
    ensures var boxes := Seeded(EMPTY, passwordHash).boxes;
      (forall id :: id in boxes <==> 1 <= id <= TOTAL_BOX_COUNT) &&
      (forall id :: id in boxes ==>
        boxes[id] == PlanterBox(BOX_CATALOG[id - 1].name, BOX_CATALOG[id - 1].greenhouse, Available, None))
  {
    BoxRowsSpec();
    SeededBoxesFromEmpty(BoxRows(), passwordHash);
  }

  /** The first seed creates one admin and one credential per seed e-mail. */
  lemma SeededAdmins(boxRows: seq<BoxRow>, passwordHash: string)
    ensures |SeededWith(EMPTY, boxRows, passwordHash).admins| == |SEED_ADMIN_EMAILS|
    ensures |SeededWith(EMPTY, boxRows, passwordHash).credentials| == |SEED_ADMIN_EMAILS|
  {
    var t3 := CatalogSeeded(EMPTY, boxRows);
    assert SEED_ADMIN_EMAILS[0][0] != SEED_ADMIN_EMAILS[1][0];
    AdminsSeededCount(t3, SEED_ADMIN_EMAILS, passwordHash);
  }

  /** Starting without admins, the loop adds one admin and one credential
      per distinct e-mail. */
  lemma AdminsSeededCount(t: Tables, emails: seq<string>, passwordHash: string)
    requires t.admins == [] && t.credentials == []
    requires forall i, j :: 0 <= i < j < |emails| ==> emails[i] != emails[j]
    ensures |AdminsSeeded(t, emails, passwordHash).admins| == |emails|
    ensures |AdminsSeeded(t, emails, passwordHash).credentials| == |emails|
    decreases |emails|
  {
    if emails != [] {
      var prefix := emails[..|emails| - 1];
      AdminsSeededCount(t, prefix, passwordHash);
      var before := AdminsSeeded(t, prefix, passwordHash);
      var last := emails[|emails| - 1];
      if HasAdminEmail(before.admins, last) {
        var k :| 0 <= k < |before.admins| && before.admins[k].email == last;
        AdminsSeededEmails(t, prefix, passwordHash);
      }
    }
  }

  /** Starting without admins, every admin the loop adds has one of the
      listed e-mails. */
  lemma {:induction false} AdminsSeededEmails(t: Tables, emails: seq<string>, passwordHash: string)
    requires t.admins == []
    ensures forall k :: 0 <= k < |AdminsSeeded(t, emails, passwordHash).admins| ==>
      AdminsSeeded(t, emails, passwordHash).admins[k].email in emails
    decreases |emails|
  {
    if emails != [] {
      var prefix := emails[..|emails| - 1];
      AdminsSeededEmails(t, prefix, passwordHash);
      assert forall e :: e in prefix ==> e in emails;
    }
  }
}
