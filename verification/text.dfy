/** The two string operations the search box relies on: `toLowerCase`,
    restricted to the ASCII letters, and `includes`, the substring test. */
module Text {

  predicate IsUpperAscii(c: char)
  {
    'A' <= c <= 'Z'
  }

  /** Lower-case of one character: `A`..`Z` map to `a`..`z`, everything
      else is left as it is. */
  function LowerChar(c: char): (r: char)
    ensures !IsUpperAscii(r)
    ensures IsUpperAscii(c) ==> r as int == c as int + 32
    ensures !IsUpperAscii(c) ==> r == c
  {
    if IsUpperAscii(c) then (c as int + 32) as char else c
  }

  /** `s.toLowerCase()` over the ASCII letters. */
  function Lower(s: string): (r: string)
    ensures |r| == |s|
    ensures forall i :: 0 <= i < |s| ==> r[i] == LowerChar(s[i])
  {
    seq(|s|, i requires 0 <= i < |s| => LowerChar(s[i]))
  }

  /** `needle` occurs in `hay` starting at position `i`. */
  ghost predicate OccursAt(hay: string, needle: string, i: int)
  {
    0 <= i && i + |needle| <= |hay| && hay[i..i + |needle|] == needle
  }

  /** `hay.includes(needle)`: some position of `hay` starts a copy of
      `needle`. The empty needle occurs everywhere, a longer needle
      nowhere. */
  function Includes(hay: string, needle: string): (r: bool)
    ensures r <==> exists i :: OccursAt(hay, needle, i)
    ensures |needle| == 0 ==> r
    ensures |needle| > |hay| ==> !r
    decreases |hay|
  {
    if |needle| > |hay| then
      assert forall i :: !OccursAt(hay, needle, i);
      false
    else if hay[..|needle|] == needle then
      assert OccursAt(hay, needle, 0);
      true
    else
      var r := Includes(hay[1..], needle);
      assert forall i :: OccursAt(hay[1..], needle, i) <==> OccursAt(hay, needle, i + 1) by {
        forall i
          ensures OccursAt(hay[1..], needle, i) <==> OccursAt(hay, needle, i + 1)
        {
          if 0 <= i && i + |needle| <= |hay[1..]| {
            assert hay[1..][i..i + |needle|] == hay[i + 1..i + 1 + |needle|];
          }
        }
      }
      assert !OccursAt(hay, needle, 0);
      assert r <==> exists i :: OccursAt(hay, needle, i) by {
        if r {
          var i :| OccursAt(hay[1..], needle, i);
          assert OccursAt(hay, needle, i + 1);
        }
        if exists i :: OccursAt(hay, needle, i) {
          var i :| OccursAt(hay, needle, i);
          assert i != 0;
          assert OccursAt(hay[1..], needle, i - 1);
        }
      }
      r
  }

  /** Lower-casing commutes with taking a slice (true of this ASCII
      mapping, which works character by character). */
  lemma LowerSlice(s: string, i: nat, j: nat)
    requires i <= j <= |s|
    ensures Lower(s[i..j]) == Lower(s)[i..j]
  {
  }

  /** Under the ASCII lower-casing, a query that occurs verbatim in a
      title still occurs once both are lower-cased. */
  lemma {:induction false} VerbatimOccurrenceMatches(title: string, query: string)
    requires Includes(title, query)
    ensures Includes(Lower(title), Lower(query))
  {
    var i :| OccursAt(title, query, i);
    LowerSlice(title, i, i + |query|);
    assert OccursAt(Lower(title), Lower(query), i);
  }
}
