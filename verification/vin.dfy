/**
 * VIN text normalisation of the scanner page: the character class
 * `[A-HJ-NPR-Z0-9]` (upper-case letters without I, O and Q, and digits),
 * `cleanVIN` and `extractVIN`. No check digit is computed anywhere.
 */
module Vin {
  import opened Wrappers
  import Seqs

  const VinLength: nat := 17
  const PartialVinLength: nat := 14

  /** `[A-HJ-NPR-Z0-9]`; lower-case letters are outside the class. */
  predicate IsVinChar(c: char) {
    ('A' <= c <= 'H') || ('J' <= c <= 'N') || c == 'P' || ('R' <= c <= 'Z') || ('0' <= c <= '9')
  }

  predicate AllVinChars(s: string) {
    forall i :: 0 <= i < |s| ==> IsVinChar(s[i])
  }

  function Min(a: nat, b: nat): nat { if a <= b then a else b }

  /** `text.replace(/[^A-HJ-NPR-Z0-9]/g, '')`: every character outside the class removed, the rest kept in order. */
  function StripNonVin(s: string): (r: string)
    ensures AllVinChars(r)
    ensures |r| <= |s|
    ensures forall i :: 0 <= i < |r| ==> r[i] in s
    ensures forall i :: 0 <= i < |s| && IsVinChar(s[i]) ==> s[i] in r
    ensures AllVinChars(s) ==> r == s
    // exactly the class characters, in their order: `filter` by the class
    ensures r == Seqs.Filter(s, IsVinChar)
    decreases |s|
  {
    if |s| == 0 then "" else (if IsVinChar(s[0]) then [s[0]] else "") + StripNonVin(s[1..])
  }

  /** Stripping works piece by piece: the stripped text of `a + b` is that of `a` followed by that of `b`. */
  lemma StripNonVinAppend(a: string, b: string)
    ensures StripNonVin(a + b) == StripNonVin(a) + StripNonVin(b)
  {
    Seqs.FilterAppend(a, b, IsVinChar);
  }

  /** `cleanVIN`: the stripped text cut to its first 17 characters. */
  function CleanVin(s: string): (r: string)
    ensures AllVinChars(r)
    ensures |r| <= VinLength
    ensures |r| == Min(|StripNonVin(s)|, VinLength)
    ensures r == StripNonVin(s)[..|r|]
  {
    var t := StripNonVin(s);
    t[..Min(|t|, VinLength)]
  }

  /** Cleaning a cleaned VIN changes nothing. */
  lemma CleanVinIdempotent(s: string)
    ensures CleanVin(CleanVin(s)) == CleanVin(s)
  {
    var r := CleanVin(s);
    assert StripNonVin(r) == r;
  }

  /** A well-formed VIN survives cleaning unchanged. */
  lemma CleanVinKeepsValidVin(s: string)
    requires |s| == VinLength && AllVinChars(s)
    ensures CleanVin(s) == s
  {
  }

  /** The class drops lower-case letters rather than upper-casing them. */
  lemma CleanVinDropsLowerCase()
    ensures CleanVin("1hgA") == "1A"
  {
    assert StripNonVin("A") == "A" by { assert StripNonVin("A"[1..]) == ""; }
    assert StripNonVin("gA") == "A" by { assert "gA"[1..] == "A"; }
    assert StripNonVin("hgA") == "A" by { assert "hgA"[1..] == "gA"; }
    assert StripNonVin("1hgA") == "1A" by { assert "1hgA"[1..] == "hgA"; }
  }

  /** The number of consecutive class characters starting at `i`. */
  function RunLength(s: string, i: nat): (n: nat)
    requires i <= |s|
    ensures i + n <= |s|
    ensures forall k :: i <= k < i + n ==> IsVinChar(s[k])
    ensures i + n < |s| ==> !IsVinChar(s[i + n])
    decreases |s| - i
  {
    if i < |s| && IsVinChar(s[i]) then 1 + RunLength(s, i + 1) else 0
  }

  /**
   * The first match of the global pattern `[A-HJ-NPR-Z0-9]{lo,hi}` searched
   * from position `i`: the leftmost position where at least `lo` class
   * characters start, taking as many as possible up to `hi`.
   */
  function FirstRun(s: string, lo: nat, hi: nat, i: nat): (r: Option<string>)
    requires 1 <= lo <= hi && i <= |s|
    ensures r.Some? ==> lo <= |r.value| <= hi && AllVinChars(r.value)
    decreases |s| - i
  {
    if i == |s| then None
    else
      var n := RunLength(s, i);
      if n >= lo then Some(s[i..i + Min(n, hi)]) else FirstRun(s, lo, hi, i + 1)
  }

  /** `extractVIN`: the first 17-character run of the cleaned text, else its first run of 14 to 17, else `null`. */
  function ExtractVin(text: string): (r: Option<string>)
    ensures r.Some? ==> PartialVinLength <= |r.value| <= VinLength && AllVinChars(r.value)
  {
    var clean := StripNonVin(text);
    match FirstRun(clean, VinLength, VinLength, 0)
    case Some(m) => Some(m)
    case None => FirstRun(clean, PartialVinLength, VinLength, 0)
  }

  lemma {:induction false} RunLengthOfVinText(s: string, i: nat)
    requires i <= |s| && AllVinChars(s)
    ensures RunLength(s, i) == |s| - i
    decreases |s| - i
  {
    if i < |s| {
      RunLengthOfVinText(s, i + 1);
    }
  }

  /** On text made only of class characters, the first match starts where the search starts. */
  lemma {:induction false} FirstRunOfVinText(s: string, lo: nat, hi: nat, i: nat)
    requires 1 <= lo <= hi && i <= |s| && AllVinChars(s)
    ensures FirstRun(s, lo, hi, i) == if |s| - i >= lo then Some(s[i..i + Min(|s| - i, hi)]) else None
    decreases |s| - i
  {
    if i < |s| {
      RunLengthOfVinText(s, i);
      if |s| - i < lo {
        FirstRunOfVinText(s, lo, hi, i + 1);
      }
    }
  }

  /** `extractVIN` returns `null` exactly when the cleaned text is shorter than 14 characters. */
  lemma ExtractVinNullIffShort(text: string)
    ensures ExtractVin(text).None? <==> |StripNonVin(text)| < PartialVinLength
  {
    var clean := StripNonVin(text);
    FirstRunOfVinText(clean, VinLength, VinLength, 0);
    FirstRunOfVinText(clean, PartialVinLength, VinLength, 0);
  }

  /** With 17 or more cleaned characters, `extractVIN` returns the first 17 of them. */
  lemma ExtractVinTakesFirstSeventeen(text: string)
    requires |StripNonVin(text)| >= VinLength
    ensures ExtractVin(text) == Some(StripNonVin(text)[..VinLength])
  {
    FirstRunOfVinText(StripNonVin(text), VinLength, VinLength, 0);
  }

  /** Whenever `extractVIN` finds something, it is exactly `cleanVIN` of the same text, 14 to 17 characters long. */
  lemma ExtractVinAgreesWithCleanVin(text: string)
    requires ExtractVin(text).Some?
    ensures ExtractVin(text).value == CleanVin(text)
    ensures PartialVinLength <= |ExtractVin(text).value| <= VinLength
  {
    var clean := StripNonVin(text);
    FirstRunOfVinText(clean, VinLength, VinLength, 0);
    FirstRunOfVinText(clean, PartialVinLength, VinLength, 0);
  }
}
