/**
 * The two string operations the search boxes use: `toLowerCase` and
 * `includes`.
 */
module Text {

  /** `toLowerCase` on one character, for the ASCII letters. */
  function LowerChar(c: char): char
  {
    if 'A' <= c <= 'Z' then (c as int + 32) as char else c
  }

  /**
   * `s.toLowerCase()`: the same length, no upper-case ASCII letter left, and
   * every character either kept or an upper-case letter moved to its
   * lower-case form.
   */
  function Lower(s: string): (r: string)
    ensures |r| == |s|
    ensures forall i :: 0 <= i < |r| ==> !('A' <= r[i] <= 'Z')
    ensures forall i :: 0 <= i < |r| ==> r[i] == s[i] || ('A' <= s[i] <= 'Z' && r[i] as int == s[i] as int + 32)
  {
    seq(|s|, i requires 0 <= i < |s| => LowerChar(s[i]))
  }

  /** `s.startsWith(prefix)`. */
  predicate StartsWith(s: string, prefix: string)
  {
    |prefix| <= |s| && s[..|prefix|] == prefix
  }

  /** `needle` sits in `s` at offset `i`. */
  predicate OccursAt(s: string, needle: string, i: int)
  {
    0 <= i <= |s| - |needle| && s[i..i + |needle|] == needle
  }

  /** An occurrence in the tail of `s` is an occurrence in `s` one place later. */
  lemma OccursInTail(s: string, needle: string)
    requires s != []
    ensures forall i :: 0 <= i ==> (OccursAt(s[1..], needle, i) <==> OccursAt(s, needle, i + 1))
  {
    forall i | 0 <= i
      ensures OccursAt(s[1..], needle, i) <==> OccursAt(s, needle, i + 1)
    {
      if 0 <= i <= |s| - 1 - |needle| {
        assert s[1..][i..i + |needle|] == s[i + 1..i + 1 + |needle|];
      }
    }
  }

  /**
   * `s.includes(needle)`: tried at every offset, left to right; it holds
   * exactly when `needle` occurs in `s` at some offset.
   */
  predicate Includes(s: string, needle: string)
    ensures Includes(s, needle) <==> exists i :: OccursAt(s, needle, i)
  {
    assert StartsWith(s, needle) <==> OccursAt(s, needle, 0);
    if s == [] then
      StartsWith(s, needle)
    else
      OccursInTail(s, needle);
      assert forall i :: OccursAt(s, needle, i) ==> i == 0 || OccursAt(s[1..], needle, i - 1);
      StartsWith(s, needle) || Includes(s[1..], needle)
  }

  /** An empty search term matches every string. */
  lemma EmptyIsIncluded(s: string)
    ensures Includes(s, "")
  {
    assert StartsWith(s, "");
  }
}
