/** Reading the house number out of an address from the Danish address
    register (DAWA), where a number may carry a letter suffix ("138A"). */
module Dawa {
  import opened Wrappers
  import opened Text

  /** The longest prefix of s made of ASCII digits. */
  function LeadingDigits(s: string): (r: string)
    ensures |r| <= |s| && r == s[..|r|]
    ensures forall i :: 0 <= i < |r| ==> IsDigit(r[i])
    ensures |r| == |s| || !IsDigit(s[|r|])
  {
    if s == [] || !IsDigit(s[0]) then [] else [s[0]] + LeadingDigits(s[1..])
  }

  /** `parseDawaHouseNumber`: the value of the leading digit run, or `None`
      when the string does not start with a digit. */
  function ParseDawaHouseNumber(husnr: string): (r: Option<nat>)
    ensures r.None? <==> husnr == [] || !IsDigit(husnr[0])
  {
    var digits := LeadingDigits(husnr);
    if digits == [] then None else Some(DigitsValue(digits))
  }

  lemma {:induction false} LeadingDigitsOfSplit(digits: string, rest: string)
    requires forall i :: 0 <= i < |digits| ==> IsDigit(digits[i])
    requires rest == [] || !IsDigit(rest[0])
    ensures LeadingDigits(digits + rest) == digits
  {
    if digits != [] {
      assert (digits + rest)[1..] == digits[1..] + rest;
      LeadingDigitsOfSplit(digits[1..], rest);
    } else {
      assert digits + rest == rest;
    }
  }

  /** A non-empty digit run followed by anything that does not continue it
      parses to the run's value: the suffix is ignored. */
  lemma ParseDawaHouseNumberSpec(digits: string, rest: string)
    requires digits != [] && forall i :: 0 <= i < |digits| ==> IsDigit(digits[i])
    requires rest == [] || !IsDigit(rest[0])
    ensures ParseDawaHouseNumber(digits + rest) == Some(DigitsValue(digits))
  {
    LeadingDigitsOfSplit(digits, rest);
  }

  /** A rendered number, with or without a letter suffix, reads back as
      that number: "138A" and "138" both give 138. */
  lemma ParseDawaHouseNumberRoundTrip(n: nat, suffix: string)
    requires suffix == [] || !IsDigit(suffix[0])
    ensures ParseDawaHouseNumber(NatToString(n) + suffix) == Some(n)
  {
    ParseDawaHouseNumberSpec(NatToString(n), suffix);
    DigitsValueOfNatToString(n);
  }
}
