/** Case-insensitive substring search, the model of the listing's `search` match. */
module Text {

  /** ASCII lower-casing of one character; every other character is kept. */
  function LowerChar(c: char): (r: char)
    ensures 'A' <= c <= 'Z' ==> r as int == c as int + 32
    ensures !('A' <= c <= 'Z') ==> r == c
    ensures !('A' <= r <= 'Z')
  {
    if 'A' <= c <= 'Z' then (c as int + 32) as char else c
  }

  function Lower(s: string): (r: string)
    ensures |r| == |s|
    ensures forall i :: 0 <= i < |s| ==> r[i] == LowerChar(s[i])
    ensures forall i :: 0 <= i < |r| ==> !('A' <= r[i] <= 'Z')
    ensures forall i :: 0 <= i < |r| && !('A' <= s[i] <= 'Z') ==> r[i] == s[i]
  {
    seq(|s|, i requires 0 <= i < |s| => LowerChar(s[i]))
  }

  /** Lower-casing twice is lower-casing once: lower-cased text compares as it is. */
  lemma LowerIdempotent(s: string)
    ensures Lower(Lower(s)) == Lower(s)
  {
  }

  /** `needle` occurs in `hay` starting at position `i`. */
  ghost predicate OccursAt(needle: string, hay: string, i: nat) {
    i + |needle| <= |hay| && hay[i..i + |needle|] == needle
  }

  predicate IsPrefix(p: string, s: string) {
    |p| <= |s| && s[..|p|] == p
  }

  /** Substring test, decided by trying every starting position in turn. */
  function Contains(hay: string, needle: string): (r: bool)
    ensures r <==> exists i: nat :: OccursAt(needle, hay, i)
    decreases |hay|
  {
    if IsPrefix(needle, hay) then
      assert OccursAt(needle, hay, 0);
      true
    else if hay == [] then
      assert forall i: nat :: !OccursAt(needle, hay, i);
      false
    else
      var r := Contains(hay[1..], needle);
      assert forall i: nat :: OccursAt(needle, hay[1..], i) <==> OccursAt(needle, hay, i + 1) by {
        forall i: nat ensures OccursAt(needle, hay[1..], i) <==> OccursAt(needle, hay, i + 1) {
          if i + |needle| <= |hay[1..]| {
            assert hay[1..][i..i + |needle|] == hay[i + 1..i + 1 + |needle|];
          }
        }
      }
      assert !OccursAt(needle, hay, 0);
      assert (exists i: nat :: OccursAt(needle, hay, i)) ==> exists i: nat :: OccursAt(needle, hay[1..], i) by {
        if exists i: nat :: OccursAt(needle, hay, i) {
          var i: nat :| OccursAt(needle, hay, i);
          assert i > 0;
          assert OccursAt(needle, hay[1..], i - 1);
        }
      }
      r
  }

  /** `needle` occurs in `hay` when both are lower-cased (the search's `i` option). */
  predicate ContainsIgnoringCase(hay: string, needle: string) {
    Contains(Lower(hay), Lower(needle))
  }

  /** A literal occurrence is always found, whatever the case of the letters. */
  lemma ExactOccurrenceFound(hay: string, needle: string)
    requires Contains(hay, needle)
    ensures ContainsIgnoringCase(hay, needle)
  {
    var i: nat :| OccursAt(needle, hay, i);
    assert Lower(hay)[i..i + |needle|] == Lower(needle) by {
      forall k | 0 <= k < |needle| ensures Lower(hay)[i..i + |needle|][k] == Lower(needle)[k] {
        assert hay[i..i + |needle|][k] == needle[k];
      }
    }
    assert OccursAt(Lower(needle), Lower(hay), i);
  }
}
