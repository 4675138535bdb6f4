/**
 * The two string operations the rule engine relies on: Python's `str.lower`
 * (restricted to ASCII letters) and the `in` operator on strings, which
 * tests for a contiguous substring.
 */
module Text {

  /** Lower-cases one ASCII capital letter; every other character is kept. */
  function LowerChar(c: char): (d: char)
    ensures 'A' <= c <= 'Z' ==> d as int == c as int + 32
    ensures !('A' <= c <= 'Z') ==> d == c
    ensures !('A' <= d <= 'Z')
  {
    if 'A' <= c <= 'Z' then (c as int + 32) as char else c
  }

  /** `s.lower()` for ASCII text. */
  function Lower(s: string): (t: string)
    ensures |t| == |s|
    ensures forall i :: 0 <= i < |s| ==> t[i] == LowerChar(s[i])
  {
    seq(|s|, i requires 0 <= i < |s| => LowerChar(s[i]))
  }

  /** Lower-casing twice is the same as lower-casing once. */
  lemma LowerIdempotent(s: string)
    ensures Lower(Lower(s)) == Lower(s)
  {
  }

  /** `needle in hay` for Python strings: needle occurs at some offset of hay. */
  ghost predicate IsSubstring(needle: string, hay: string)
  {
    exists i :: 0 <= i <= |hay| && needle <= hay[i..]
  }

  /** The executable substring test, scanning hay from the left. */
  function Contains(hay: string, needle: string): (found: bool)
    ensures found <==> IsSubstring(needle, hay)
    decreases |hay|
  {
    if needle <= hay then
      assert hay[0..] == hay;
      true
    else if hay == [] then
      false
    else
      var rest := Contains(hay[1..], needle);
      assert forall i :: 1 <= i <= |hay| ==> hay[i..] == hay[1..][i - 1..];
      assert IsSubstring(needle, hay[1..]) ==> IsSubstring(needle, hay) by {
        if IsSubstring(needle, hay[1..]) {
          var j :| 0 <= j <= |hay[1..]| && needle <= hay[1..][j..];
          assert hay[j + 1..] == hay[1..][j..];
        }
      }
      assert IsSubstring(needle, hay) ==> IsSubstring(needle, hay[1..]) by {
        if IsSubstring(needle, hay) {
          var j :| 0 <= j <= |hay| && needle <= hay[j..];
          assert j != 0;
          assert needle <= hay[1..][j - 1..];
        }
      }
      rest
  }

  /** A string that occurs at a known offset is found. */
  lemma OccursAt(needle: string, hay: string, i: nat)
    requires i <= |hay| && needle <= hay[i..]
    ensures Contains(hay, needle)
  {
  }
}
