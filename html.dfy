/** Escaping text for HTML by a chain of global replacements, as both e-mail
    template files do, and the per-character reading of such a chain. */
module Html {
  import opened Text

  /** `text.replace(/c1/g, r1).replace(/c2/g, r2)...`, applied left to right. */
  function Chain(s: string, rules: seq<(char, string)>): string
    decreases |rules|
  {
    if rules == [] then s else Chain(ReplaceAll(s, rules[0].0, rules[0].1), rules[1..])
  }

  /** Each character replaced by its image, images concatenated. */
  function FlatMap(s: string, image: char -> string): string {
    if s == [] then [] else image(s[0]) + FlatMap(s[1..], image)
  }

  lemma {:induction false} ChainAppend(a: string, b: string, rules: seq<(char, string)>)
    ensures Chain(a + b, rules) == Chain(a, rules) + Chain(b, rules)
    decreases |rules|
  {
    if rules != [] {
      ReplaceAllAppend(a, b, rules[0].0, rules[0].1);
      ChainAppend(ReplaceAll(a, rules[0].0, rules[0].1), ReplaceAll(b, rules[0].0, rules[0].1), rules[1..]);
    }
  }

  lemma {:induction false} ChainEmpty(rules: seq<(char, string)>)
    ensures Chain([], rules) == []
    decreases |rules|
  {
    if rules != [] {
      ChainEmpty(rules[1..]);
    }
  }

  /** A replacement chain acts character by character: once its effect on
      every single character is known, its effect on any string is. */
  lemma {:induction false} ChainIsFlatMap(s: string, rules: seq<(char, string)>, image: char -> string)
    requires forall c :: Chain([c], rules) == image(c)
    ensures Chain(s, rules) == FlatMap(s, image)
  {
    if s == [] {
      ChainEmpty(rules);
    } else {
      assert s == [s[0]] + s[1..];
      ChainAppend([s[0]], s[1..], rules);
      ChainIsFlatMap(s[1..], rules, image);
      assert Chain([s[0]], rules) == image(s[0]);
    }
  }

  lemma ReplaceAllSingle(c: char, x: char, rep: string)
    ensures ReplaceAll([c], x, rep) == if c == x then rep else [c]
  {
    assert [c][1..] == [];
  }

  /** A character that no image contains is absent from every output. */
  lemma {:induction false} FlatMapAvoids(s: string, image: char -> string, x: char)
    requires forall c :: x !in image(c)
    ensures x !in FlatMap(s, image)
  {
    if s != [] {
      FlatMapAvoids(s[1..], image, x);
    }
  }

  /** A flat map whose image fixes every character of s leaves s alone. */
  lemma {:induction false} FlatMapIdentity(s: string, image: char -> string)
    requires forall k :: 0 <= k < |s| ==> image(s[k]) == [s[k]]
    ensures FlatMap(s, image) == s
  {
    if s != [] {
      assert image(s[0]) == [s[0]];
      FlatMapIdentity(s[1..], image);
    }
  }
}
