/** Address, e-mail, name and box-id validation, and the apartment key that
    the allocation engine uses as the identity of a household. */
module Validators {
  import opened Wrappers
  import opened Text
  import opened Constants

  datatype ValidationResult = Valid | Invalid(error: string)

  /** A JavaScript number as the validators see it: an integer, or anything
      `Number.isInteger` rejects (NaN, the infinities, fractions). */
  datatype Number = Integer(value: int) | NonInteger

  // ---------------------------------------------------------------- e-mail

  /** A character the class `[^\s@]` accepts. */
  predicate PlainChar(c: char) {
    c != '@' && !IsWhitespace(c)
  }

  /** Every character of s[lo..hi] is plain. */
  predicate PlainRun(s: string, lo: int, hi: int)
    requires 0 <= lo <= hi <= |s|
  {
    forall k :: lo <= k < hi ==> PlainChar(s[k])
  }

  /** The pattern `^[^\s@]+@[^\s@]+\.[^\s@]+$`, read off its structure: three
      non-empty runs of plain characters joined by an '@' and a '.'. */
  ghost predicate MatchesEmailRegex(s: string) {
    exists at, dot | 0 < at && at + 1 < dot < |s| - 1 ::
      s[at] == '@' && s[dot] == '.' &&
      PlainRun(s, 0, at) && PlainRun(s, at + 1, dot) && PlainRun(s, dot + 1, |s|)
  }

  function IndexOf(s: string, c: char): (r: Option<nat>)
    ensures r.Some? ==> r.value < |s| && s[r.value] == c && c !in s[..r.value]
    ensures r.None? ==> c !in s
  {
    if s == [] then None
    else if s[0] == c then Some(0)
    else
      var rest := IndexOf(s[1..], c);
      if rest.Some? then Some(rest.value + 1) else None
  }

  /** The e-mail check as a decision procedure: one '@' that is not first,
      no whitespace, and a '.' strictly inside the part after the '@' that
      is neither its first nor its last character. */
  predicate EmailFormat(s: string) {
    IndexOf(s, '@').Some? && EmailFormatAt(s, IndexOf(s, '@').value)
  }

  predicate EmailFormatAt(s: string, at: nat) {
    at > 0 &&
    (forall k :: 0 <= k < |s| ==> !IsWhitespace(s[k])) &&
    (forall k :: at < k < |s| ==> s[k] != '@') &&
    (exists dot :: at + 1 < dot < |s| - 1 && s[dot] == '.')
  }

  lemma EmailFormatToRegex(s: string)
    requires EmailFormat(s)
    ensures MatchesEmailRegex(s)
  {
    var at := IndexOf(s, '@').value;
    var dot :| at + 1 < dot < |s| - 1 && s[dot] == '.';
    forall k | 0 <= k < at ensures PlainChar(s[k]) {
      assert s[..at][k] == s[k];
    }
    assert PlainRun(s, 0, at);
    assert PlainRun(s, at + 1, dot);
    assert PlainRun(s, dot + 1, |s|);
  }

  lemma RegexToEmailFormat(s: string)
    requires MatchesEmailRegex(s)
    ensures EmailFormat(s)
  {
    var at, dot :| 0 < at && at + 1 < dot < |s| - 1 &&
      s[at] == '@' && s[dot] == '.' &&
      PlainRun(s, 0, at) && PlainRun(s, at + 1, dot) && PlainRun(s, dot + 1, |s|);
    assert forall k :: 0 <= k < |s| && k != at ==> PlainChar(s[k]);
    assert IndexOf(s, '@') == Some(at);
    assert EmailFormatAt(s, at);
  }

  /** The decision procedure decides exactly the regular expression. */
  lemma EmailFormatIsRegex(s: string)
    ensures EmailFormat(s) <==> MatchesEmailRegex(s)
  {
    if EmailFormat(s) { EmailFormatToRegex(s); }
    if MatchesEmailRegex(s) { RegexToEmailFormat(s); }
  }

  /** `validateEmail`. */
  function ValidateEmail(email: string): ValidationResult {
    if email == "" then Invalid("Email is required")
    else
      var trimmed := Trim(email);
      if |trimmed| == 0 then Invalid("Email is required")
      else if !EmailFormat(trimmed) then Invalid("Invalid email format")
      else Valid
  }

  /** An address is accepted exactly when its trimmed form matches the
      pattern; an empty or blank one is reported as missing. */
  lemma ValidateEmailSpec(email: string)
    ensures ValidateEmail(email).Valid? <==> MatchesEmailRegex(Trim(email))
    ensures AllWhitespace(email) ==> ValidateEmail(email) == Invalid("Email is required")
  {
    EmailFormatIsRegex(Trim(email));
    TrimEmptyIff(email);
  }

  // ------------------------------------------------------- street, number

  /** `validateStreet`. */
  function ValidateStreet(street: string): ValidationResult {
    if street == "" then Invalid("Street is required")
    else if Trim(street) != ELIGIBLE_STREET then Invalid("Street must be " + ELIGIBLE_STREET)
    else Valid
  }

  lemma ValidateStreetSpec(street: string)
    ensures ValidateStreet(street).Valid? <==> Trim(street) == ELIGIBLE_STREET
  {
    if street == "" {
      assert Trim(street) == "";
    }
  }

  /** `validateHouseNumber`; `None` is a missing value. */
  function ValidateHouseNumber(houseNumber: Option<Number>): ValidationResult {
    match houseNumber
    case None => Invalid("House number is required")
    case Some(NonInteger) => Invalid("House number must be a whole number")
    case Some(Integer(n)) =>
      if n < HOUSE_NUMBER_MIN || n > HOUSE_NUMBER_MAX then
        Invalid("House number must be between " + IntToString(HOUSE_NUMBER_MIN)
          + " and " + IntToString(HOUSE_NUMBER_MAX))
      else Valid
  }

  lemma ValidateHouseNumberSpec(houseNumber: Option<Number>)
    ensures ValidateHouseNumber(houseNumber).Valid? <==>
      houseNumber.Some? && houseNumber.value.Integer? &&
      HOUSE_NUMBER_MIN <= houseNumber.value.value <= HOUSE_NUMBER_MAX
  {
  }

  /** `isFloorDoorRequired`: membership in the floor/door list. */
  function IsFloorDoorRequired(houseNumber: Number): bool {
    houseNumber.Integer? && houseNumber.value in FLOOR_DOOR_REQUIRED_NUMBERS
  }

  lemma IsFloorDoorRequiredSpec(houseNumber: Number)
    ensures IsFloorDoorRequired(houseNumber) <==>
      houseNumber.Integer? &&
      (houseNumber.value == 138 || houseNumber.value == 144 || 161 <= houseNumber.value <= 202)
  {
    if houseNumber.Integer? {
      FloorDoorRequiredMembers(houseNumber.value);
    }
  }

  /** A floor or door counts as given when it is present and not blank. */
  predicate Given(field: Option<string>) {
    field.Some? && |Trim(field.value)| > 0
  }

  /** `validateFloorDoor`. */
  function ValidateFloorDoor(houseNumber: Number, floor: Option<string>, door: Option<string>): ValidationResult {
    if !IsFloorDoorRequired(houseNumber) then Valid
    else if !Given(floor) || !Given(door) then
      Invalid("Floor and door are required for house number " + IntToString(houseNumber.value))
    else Valid
  }

  lemma ValidateFloorDoorSpec(houseNumber: Number, floor: Option<string>, door: Option<string>)
    ensures ValidateFloorDoor(houseNumber, floor, door).Valid? <==>
      !IsFloorDoorRequired(houseNumber) ||
      (floor.Some? && !AllWhitespace(floor.value) && door.Some? && !AllWhitespace(door.value))
  {
    if floor.Some? { TrimEmptyIff(floor.value); }
    if door.Some? { TrimEmptyIff(door.value); }
  }

  /** `validateAddress`: street, then house number, then floor/door. */
  function ValidateAddress(street: string, houseNumber: Number, floor: Option<string>, door: Option<string>): ValidationResult {
    var streetResult := ValidateStreet(street);
    if !streetResult.Valid? then streetResult
    else
      var houseResult := ValidateHouseNumber(Some(houseNumber));
      if !houseResult.Valid? then houseResult
      else
        var floorDoorResult := ValidateFloorDoor(houseNumber, floor, door);
        if !floorDoorResult.Valid? then floorDoorResult
        else Valid
  }

  /** The address is valid exactly when all three checks pass, and otherwise
      the reported error is that of the first check that fails. */
  lemma ValidateAddressFirstFailure(street: string, houseNumber: Number, floor: Option<string>, door: Option<string>)
    ensures ValidateAddress(street, houseNumber, floor, door).Valid? <==>
      Trim(street) == ELIGIBLE_STREET && houseNumber.Integer? &&
      HOUSE_NUMBER_MIN <= houseNumber.value <= HOUSE_NUMBER_MAX &&
      ValidateFloorDoor(houseNumber, floor, door).Valid?
    ensures !ValidateStreet(street).Valid? ==>
      ValidateAddress(street, houseNumber, floor, door) == ValidateStreet(street)
    ensures ValidateStreet(street).Valid? && !ValidateHouseNumber(Some(houseNumber)).Valid? ==>
      ValidateAddress(street, houseNumber, floor, door) == ValidateHouseNumber(Some(houseNumber))
    ensures ValidateStreet(street).Valid? && ValidateHouseNumber(Some(houseNumber)).Valid? ==>
      ValidateAddress(street, houseNumber, floor, door) == ValidateFloorDoor(houseNumber, floor, door)
  {
    ValidateStreetSpec(street);
    ValidateHouseNumberSpec(Some(houseNumber));
  }

  // --------------------------------------------------------- apartment key

  /** `field?.trim().toLowerCase()`, with "" standing for a falsy result. */
  function KeyPart(field: Option<string>): string {
    if field.Some? then Lower(Trim(field.value)) else ""
  }

  /** `normalizeApartmentKey`: "street number", then "/floor-door" when both
      are given, "/floor" when only the floor is; a door without a floor is
      dropped. */
  function NormalizeApartmentKey(street: string, houseNumber: int, floor: Option<string>, door: Option<string>): string {
    var base := Lower(Trim(street)) + " " + IntToString(houseNumber);
    var floorPart := KeyPart(floor);
    var doorPart := KeyPart(door);
    if floorPart != "" && doorPart != "" then base + "/" + floorPart + "-" + doorPart
    else if floorPart != "" then base + "/" + floorPart
    else base
  }

  /** The three shapes a key can take. */
  lemma ApartmentKeyFormat(street: string, houseNumber: int, floor: Option<string>, door: Option<string>)
    ensures var base := Lower(Trim(street)) + " " + IntToString(houseNumber);
      var key := NormalizeApartmentKey(street, houseNumber, floor, door);
      (Given(floor) && Given(door) ==> key == base + "/" + Lower(Trim(floor.value)) + "-" + Lower(Trim(door.value))) &&
      (Given(floor) && !Given(door) ==> key == base + "/" + Lower(Trim(floor.value))) &&
      (!Given(floor) ==> key == base)
  {
  }

  lemma TrimUpperCommute(s: string)
    ensures Trim(Upper(s)) == Upper(Trim(s))
  {
    TrimStartUpper(s);
    TrimEndUpper(TrimStart(s));
  }

  lemma {:induction false} TrimStartUpper(s: string)
    ensures TrimStart(Upper(s)) == Upper(TrimStart(s))
  {
    if s != [] {
      assert Upper(s)[1..] == Upper(s[1..]);
      assert IsWhitespace(Upper(s)[0]) <==> IsWhitespace(s[0]);
      TrimStartUpper(s[1..]);
    }
  }

  lemma {:induction false} TrimEndUpper(s: string)
    ensures TrimEnd(Upper(s)) == Upper(TrimEnd(s))
  {
    if s != [] {
      assert Upper(s)[..|s| - 1] == Upper(s[..|s| - 1]);
      assert IsWhitespace(Upper(s)[|s| - 1]) <==> IsWhitespace(s[|s| - 1]);
      TrimEndUpper(s[..|s| - 1]);
    }
  }

  /** Lower-casing after trimming forgets case and surrounding whitespace. */
  lemma CanonicalIgnoresCaseAndPadding(before: string, s: string, after: string)
    requires AllWhitespace(before) && AllWhitespace(after)
    ensures Lower(Trim(before + Upper(s) + after)) == Lower(Trim(s))
  {
    TrimPadded(before, Upper(s), after);
    TrimUpperCommute(s);
    LowerIgnoresCase(Trim(s));
  }

  /** The key ignores the case and the surrounding whitespace of street,
      floor and door. */
  lemma ApartmentKeyIgnoresCaseAndPadding(
    street: string, houseNumber: int, floor: string, door: string,
    before: string, after: string)
    requires AllWhitespace(before) && AllWhitespace(after)
    ensures NormalizeApartmentKey(before + Upper(street) + after, houseNumber,
              Some(before + Upper(floor) + after), Some(before + Upper(door) + after))
         == NormalizeApartmentKey(street, houseNumber, Some(floor), Some(door))
  {
    CanonicalIgnoresCaseAndPadding(before, street, after);
    CanonicalIgnoresCaseAndPadding(before, floor, after);
    CanonicalIgnoresCaseAndPadding(before, door, after);
  }

  /** A blank floor counts as no floor at all. */
  lemma BlankFloorIsAbsent(street: string, houseNumber: int, floor: string, door: Option<string>)
    requires AllWhitespace(floor)
    ensures NormalizeApartmentKey(street, houseNumber, Some(floor), door)
         == NormalizeApartmentKey(street, houseNumber, None, door)
  {
    TrimEmptyIff(floor);
  }

  // ------------------------------------------------------------ name, box

  /** `validateName`. */
  function ValidateName(name: string): ValidationResult {
    if name == "" then Invalid("Name is required")
    else if |Trim(name)| == 0 then Invalid("Name is required")
    else Valid
  }

  lemma ValidateNameSpec(name: string)
    ensures ValidateName(name).Valid? <==> !AllWhitespace(name)
  {
    TrimEmptyIff(name);
  }

  /** `validateBoxId`. */
  function ValidateBoxId(boxId: Option<Number>): ValidationResult {
    match boxId
    case None => Invalid("Box ID is required")
    case Some(NonInteger) => Invalid("Box ID must be between 1 and " + IntToString(TOTAL_BOX_COUNT))
    case Some(Integer(n)) =>
      if n < 1 || n > TOTAL_BOX_COUNT then Invalid("Box ID must be between 1 and " + IntToString(TOTAL_BOX_COUNT))
      else Valid
  }

  lemma ValidateBoxIdSpec(boxId: Option<Number>)
    ensures ValidateBoxId(boxId).Valid? <==>
      boxId.Some? && boxId.value.Integer? && 1 <= boxId.value.value <= TOTAL_BOX_COUNT
  {
  }
}
