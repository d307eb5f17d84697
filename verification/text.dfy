/**
 The two string operations the dashboard's search relies on: lower-casing
 (`toLowerCase`) and substring search (`includes`). Lower-casing is modelled
 on the ASCII letters only; every other character is left as it is.
 */
module Text {

  predicate IsUpper(c: char) {
    'A' <= c <= 'Z'
  }

  /** Lower-case one character: ASCII capitals move to their small letter. */
  function LowerChar(c: char): (r: char)
    ensures !IsUpper(r)
    ensures !IsUpper(c) ==> r == c
    ensures IsUpper(c) ==> r as int == c as int + ('a' as int - 'A' as int)
  {
    if IsUpper(c) then (c as int + 32) as char else c
  }

  /**
   Lower-case a whole string, character by character: the result has the
   same length and no capitals, each capital is replaced by its small letter
   and every other character stays where it was.
   */
  function Lower(s: string): (r: string)
    ensures |r| == |s|
    ensures forall i :: 0 <= i < |r| ==> !IsUpper(r[i])
    ensures forall i :: 0 <= i < |s| && !IsUpper(s[i]) ==> r[i] == s[i]
    ensures forall i :: 0 <= i < |s| && IsUpper(s[i]) ==> r[i] as int == s[i] as int + ('a' as int - 'A' as int)
  {
    seq(|s|, i requires 0 <= i < |s| => LowerChar(s[i]))
  }

  /** `needle` occurs in `hay` starting at position `i`. */
  predicate OccursAt(hay: string, needle: string, i: int) {
    0 <= i && i + |needle| <= |hay| && hay[i..i + |needle|] == needle
  }

  /** `hay` contains `needle` as a contiguous substring (`hay.includes(needle)`). */
  predicate Contains(hay: string, needle: string) {
    exists i | 0 <= i <= |hay| :: OccursAt(hay, needle, i)
  }

  /** The left-to-right search a substring test performs. */
  method Includes(hay: string, needle: string) returns (found: bool)
    ensures found <==> Contains(hay, needle)
  {
    if |needle| > |hay| {
      return false;
    }
    var i := 0;
    while i <= |hay| - |needle|
      invariant 0 <= i <= |hay| - |needle| + 1
      invariant forall j :: 0 <= j < i ==> !OccursAt(hay, needle, j)
    {
      if hay[i..i + |needle|] == needle {
        assert OccursAt(hay, needle, i);
        return true;
      }
      i := i + 1;
    }
    return false;
  }

  /** Lower-casing twice is lower-casing once. */
  lemma LowerIdempotent(s: string)
    ensures Lower(Lower(s)) == Lower(s)
  {
    var l := Lower(s);
    assert forall i :: 0 <= i < |l| ==> Lower(l)[i] == l[i];
  }

  /** Every string contains the empty string, at position 0. */
  lemma ContainsEmpty(hay: string)
    ensures Contains(hay, "")
  {
    assert OccursAt(hay, "", 0);
  }

  /**
   No position of `s` holds `c`: the same as `c !in s`, stated index by
   index. On string literals the verifier checks this form character by
   character and cheaply, where `!in` would have it search the whole literal
   at once.
   */
  predicate Lacks(s: string, c: char) {
    forall i | 0 <= i < |s| :: s[i] != c
  }

  /** A needle holding a character the haystack lacks cannot occur in it. */
  lemma MissingCharNotContained(hay: string, needle: string, c: char)
    requires c in needle && Lacks(hay, c)
    ensures !Contains(hay, needle)
  {
    var k :| 0 <= k < |needle| && needle[k] == c;
    forall i | 0 <= i <= |hay|
      ensures !OccursAt(hay, needle, i)
    {
      if i + |needle| <= |hay| {
        assert hay[i..i + |needle|][k] == hay[i + k];
      }
    }
  }

  /** A letter absent from `s` in both of its cases (`c` small, `u` capital) is absent from `Lower(s)`. */
  lemma LowerMissingLetter(s: string, c: char, u: char)
    requires 'a' <= c <= 'z' && u as int == c as int - 32
    requires Lacks(s, c) && Lacks(s, u)
    ensures Lacks(Lower(s), c)
  {
    forall i | 0 <= i < |s|
      ensures Lower(s)[i] != c
    {
      assert s[i] != c && s[i] != u;
    }
  }
}
