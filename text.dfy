/** The string helper `capitalizeFirstLetter` (public/script.js), used on the
    weather description shown on a card. */
module Text {

  predicate IsLowerAscii(c: char)
  {
    'a' <= c <= 'z'
  }

  /** `toUpperCase` on one character, for the ASCII letters. */
  function ToUpperAscii(c: char): (u: char)
    ensures IsLowerAscii(c) ==> 'A' <= u <= 'Z' && u as int - 'A' as int == c as int - 'a' as int
    ensures !IsLowerAscii(c) ==> u == c
  {
    if IsLowerAscii(c) then (c as int - 32) as char else c
  }

  /**
   * `charAt(0).toUpperCase() + slice(1)`: the first character upper-cased,
   * the rest unchanged; the empty string (where `charAt(0)` is empty) stays
   * empty.
   */
  function CapitalizeFirstLetter(s: string): (r: string)
    ensures |r| == |s|
    ensures forall i :: 1 <= i < |s| ==> r[i] == s[i]
    ensures |s| > 0 ==> r[0] == ToUpperAscii(s[0]) && !IsLowerAscii(r[0])
  {
    if s == [] then [] else [ToUpperAscii(s[0])] + s[1..]
  }

  /** Capitalising twice is capitalising once. */
  lemma CapitalizeIdempotent(s: string)
    ensures CapitalizeFirstLetter(CapitalizeFirstLetter(s)) == CapitalizeFirstLetter(s)
  {
    var r := CapitalizeFirstLetter(s);
    var rr := CapitalizeFirstLetter(r);
    if s != [] {
      assert rr[0] == r[0];
      assert forall i :: 0 <= i < |rr| ==> rr[i] == r[i];
    }
  }
}
