/** Case-insensitive substring matching, as the search box uses it:
    `toLowerCase` (restricted to the ASCII letters) and `includes`. */
module Text {

  function LowerChar(c: char): (l: char)
    ensures 'A' <= c <= 'Z' ==> l as int == c as int + 32
    ensures !('A' <= c <= 'Z') ==> l == c
    ensures !('A' <= l <= 'Z')
  {
    if 'A' <= c <= 'Z' then (c as int + 32) as char else c
  }

  function Lower(s: string): (r: string)
    ensures |r| == |s|
    ensures forall i :: 0 <= i < |s| ==> r[i] == LowerChar(s[i])
  {
    seq(|s|, i requires 0 <= i < |s| => LowerChar(s[i]))
  }

  /** A string's JavaScript `length`: the number of UTF-16 code units, two
      for a character outside the Basic Multilingual Plane and one for any
      other. */
  function Utf16Length(s: string): (n: nat)
    ensures n == |s| + |Astral(s)|
    ensures |s| <= n <= 2 * |s|
    ensures (forall i :: 0 <= i < |s| ==> s[i] as int < 0x1_0000) ==> n == |s|
  {
    if |s| == 0 then 0
    else
      var t := s[..|s| - 1];
      assert Astral(s) == Astral(t) + (if s[|s| - 1] as int < 0x1_0000 then {} else {|s| - 1});
      Utf16Length(t) + (if s[|s| - 1] as int < 0x1_0000 then 1 else 2)
  }

  /** The positions of the characters outside the Basic Multilingual Plane,
      each of which JavaScript stores as a surrogate pair. */
  ghost function Astral(s: string): set<nat> {
    set i: nat | i < |s| && s[i] as int >= 0x1_0000
  }

  /** A character outside the Basic Multilingual Plane counts twice. */
  lemma Utf16LengthExamples()
    ensures Utf16Length("abc") == 3
    ensures Utf16Length("\U{1F355}\U{1F355}") == 4
  {
    assert "\U{1F355}\U{1F355}"[..1] == "\U{1F355}";
  }

  /** `needle` occurs in `haystack` starting at position `k`. */
  predicate OccursAt(needle: string, haystack: string, k: int) {
    0 <= k <= |haystack| - |needle| && haystack[k..k + |needle|] == needle
  }

  /** `needle` occurs in `haystack` at some position. */
  ghost predicate IsSubstring(needle: string, haystack: string) {
    exists k :: OccursAt(needle, haystack, k)
  }

  /** `haystack.includes(needle)`: tries every starting position from the
      left. */
  function Includes(haystack: string, needle: string): (b: bool)
    ensures b <==> IsSubstring(needle, haystack)
    decreases |haystack|
  {
    if needle <= haystack then
      assert OccursAt(needle, haystack, 0);
      true
    else if |haystack| == 0 then
      false
    else
      var rest := Includes(haystack[1..], needle);
      assert rest ==> IsSubstring(needle, haystack) by {
        if rest {
          var k :| OccursAt(needle, haystack[1..], k);
          assert haystack[k + 1..k + 1 + |needle|] == haystack[1..][k..k + |needle|];
          assert OccursAt(needle, haystack, k + 1);
        }
      }
      assert IsSubstring(needle, haystack) ==> rest by {
        if IsSubstring(needle, haystack) {
          var k :| OccursAt(needle, haystack, k);
          assert k != 0;
          assert haystack[1..][k - 1..k - 1 + |needle|] == haystack[k..k + |needle|];
          assert OccursAt(needle, haystack[1..], k - 1);
        }
      }
      rest
  }

  /** Lower-casing twice is lower-casing once. */
  lemma LowerIdempotent(s: string)
    ensures Lower(Lower(s)) == Lower(s)
  {
  }

  /** The empty string occurs in every string. */
  lemma EmptyIsSubstring(haystack: string)
    ensures Includes(haystack, "")
  {
    assert OccursAt("", haystack, 0);
  }

  /** An occurrence survives lower-casing both sides. */
  lemma LowerKeepsOccurrence(needle: string, haystack: string)
    requires IsSubstring(needle, haystack)
    ensures IsSubstring(Lower(needle), Lower(haystack))
  {
    var k :| OccursAt(needle, haystack, k);
    assert Lower(haystack)[k..k + |needle|] == Lower(needle);
    assert OccursAt(Lower(needle), Lower(haystack), k);
  }
}
