/**
 ASCII case mapping: the part of Java's String.toUpperCase / toLowerCase that the
 image-status codec relies on. Characters outside 'a'..'z' / 'A'..'Z' are left alone.
 */
module Ascii {

  predicate IsLower(c: char) {
    'a' <= c <= 'z'
  }

  predicate IsUpper(c: char) {
    'A' <= c <= 'Z'
  }

  /** True iff no character of `s` is a lower-case letter. */
  predicate NoLower(s: string) {
    forall i :: 0 <= i < |s| ==> !IsLower(s[i])
  }

  /** True iff no character of `s` is an upper-case letter. */
  predicate NoUpper(s: string) {
    forall i :: 0 <= i < |s| ==> !IsUpper(s[i])
  }

  function UpperChar(c: char): (r: char)
    ensures !IsLower(r)
    ensures !IsLower(c) ==> r == c
    ensures IsLower(c) ==> IsUpper(r) && r as int + 32 == c as int
  {
    if IsLower(c) then (c as int - 32) as char else c
  }

  function LowerChar(c: char): (r: char)
    ensures !IsUpper(r)
    ensures !IsUpper(c) ==> r == c
    ensures IsUpper(c) ==> IsLower(r) && r as int == c as int + 32
  {
    if IsUpper(c) then (c as int + 32) as char else c
  }

  /** Character-wise upper-casing; the result has no lower-case letters. */
  function Upper(s: string): (r: string)
    ensures |r| == |s|
    ensures forall i :: 0 <= i < |s| ==> r[i] == UpperChar(s[i])
    ensures NoLower(r)
  {
    if s == [] then [] else [UpperChar(s[0])] + Upper(s[1..])
  }

  /** Character-wise lower-casing; the result has no upper-case letters. */
  function Lower(s: string): (r: string)
    ensures |r| == |s|
    ensures forall i :: 0 <= i < |s| ==> r[i] == LowerChar(s[i])
    ensures NoUpper(r)
  {
    if s == [] then [] else [LowerChar(s[0])] + Lower(s[1..])
  }

  /** Upper-casing twice is upper-casing once. */
  lemma UpperIdempotent(s: string)
    ensures Upper(Upper(s)) == Upper(s)
  {
    var u := Upper(s);
    assert forall i :: 0 <= i < |u| ==> UpperChar(u[i]) == u[i];
  }

  /** Lower-casing a string without lower-case letters is undone by upper-casing it. */
  lemma UpperLowerInverse(s: string)
    requires NoLower(s)
    ensures Upper(Lower(s)) == s
  {
    var l := Lower(s);
    forall i | 0 <= i < |s|
      ensures Upper(l)[i] == s[i]
    {
      assert !IsLower(s[i]);
    }
  }

  /** On strings without lower-case letters, lower-casing loses nothing. */
  lemma LowerInjective(s: string, t: string)
    requires NoLower(s) && NoLower(t)
    requires Lower(s) == Lower(t)
    ensures s == t
  {
    UpperLowerInverse(s);
    UpperLowerInverse(t);
  }

  /** Lower(s) is t as soon as t lower-cases s character by character. */
  lemma LowerIs(s: string, t: string)
    requires |s| == |t|
    requires forall i :: 0 <= i < |s| ==> LowerChar(s[i]) == t[i]
    ensures Lower(s) == t
  {
  }
}
