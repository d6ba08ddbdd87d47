/** Strings as the controllers use them: lower-casing (`toLowerCase`) and
    substring containment (`includes`). */
module Text {

  /** Lower-cases one character. Only the ASCII letters are folded. */
  function LowerChar(c: char): char
  {
    if 'A' <= c <= 'Z' then (c as int + 32) as char else c
  }

  /** Lower-cases a string character by character. */
  function Lower(s: string): (r: string)
    ensures |r| == |s|
    ensures forall i :: 0 <= i < |s| ==> r[i] == LowerChar(s[i])
  {
    seq(|s|, i requires 0 <= i < |s| => LowerChar(s[i]))
  }

  /** Lower-casing distributes over concatenation. */
  lemma LowerAppend(a: string, b: string)
    ensures Lower(a + b) == Lower(a) + Lower(b)
  {
  }

  predicate IsPrefix(p: string, s: string)
  {
    |p| <= |s| && s[..|p|] == p
  }

  /** The reference meaning of containment: `needle` occurs at offset `i` of `hay`. */
  ghost predicate OccursAt(hay: string, needle: string, i: int)
  {
    0 <= i && i + |needle| <= |hay| && hay[i..i + |needle|] == needle
  }

  /** Occurrences in `hay[1..]` are the occurrences in `hay` shifted by one;
      an occurrence at offset 0 is a prefix. */
  lemma OccursShift(hay: string, needle: string)
    ensures OccursAt(hay, needle, 0) ==> IsPrefix(needle, hay)
    ensures |hay| > 0 ==> forall i :: OccursAt(hay[1..], needle, i) ==> OccursAt(hay, needle, i + 1)
    ensures |hay| > 0 ==> forall i :: 0 < i && OccursAt(hay, needle, i) ==> OccursAt(hay[1..], needle, i - 1)
  {
    if |hay| > 0 {
      forall i | OccursAt(hay[1..], needle, i) ensures OccursAt(hay, needle, i + 1) {
        assert hay[i + 1..i + 1 + |needle|] == hay[1..][i..i + |needle|];
      }
      forall i | 0 < i && OccursAt(hay, needle, i) ensures OccursAt(hay[1..], needle, i - 1) {
        assert hay[1..][i - 1..i - 1 + |needle|] == hay[i..i + |needle|];
      }
    }
  }

  /** `hay.includes(needle)`: a scan that tries every starting position in
      turn. It succeeds exactly when the needle occurs at some offset. */
  function Contains(hay: string, needle: string): (r: bool)
    ensures r <==> exists i :: OccursAt(hay, needle, i)
    decreases |hay|
  {
    OccursShift(hay, needle);
    if IsPrefix(needle, hay) then
      assert OccursAt(hay, needle, 0);
      true
    else if |hay| == 0 then
      false
    else
      Contains(hay[1..], needle)
  }

  /** Every string contains the empty string, so an empty query matches everything. */
  lemma ContainsEmpty(hay: string)
    ensures Contains(hay, "")
  {
    assert IsPrefix("", hay);
  }

  /** A string containing `a + b` contains `a`: longer queries match less. */
  lemma ContainsPrefixOfNeedle(hay: string, a: string, b: string)
    requires Contains(hay, a + b)
    ensures Contains(hay, a)
  {
    var i :| OccursAt(hay, a + b, i);
    assert hay[i..i + |a|] == (a + b)[..|a|] == a;
    assert OccursAt(hay, a, i);
  }
}
