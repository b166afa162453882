/** String helpers behind the song search and the download path convention.
    Swift's `.caseInsensitive` comparison is Unicode-aware; this model folds
    case with ASCII lower-casing only. */
module Text {

  predicate IsUpper(c: char) {
    'A' <= c <= 'Z'
  }

  /** ASCII lower-casing; every other character is left alone. */
  function Lower(c: char): (r: char)
    ensures !IsUpper(r)
    ensures !IsUpper(c) ==> r == c
    ensures IsUpper(c) ==> r as int == c as int + 32
  {
    if IsUpper(c) then (c as int + 32) as char else c
  }

  /** The case fold of a whole string. */
  function Fold(s: string): (r: string)
    ensures |r| == |s|
    ensures forall i :: 0 <= i < |s| ==> r[i] == Lower(s[i])
  {
    seq(|s|, i requires 0 <= i < |s| => Lower(s[i]))
  }

  lemma FoldIdempotent(s: string)
    ensures Fold(Fold(s)) == Fold(s)
  {
  }

  /** Swift's `hasPrefix`. */
  predicate IsPrefix(p: string, s: string) {
    |p| <= |s| && s[..|p|] == p
  }

  /** `needle` occurs in `hay` starting at position `i`. */
  ghost predicate OccursAt(hay: string, needle: string, i: int) {
    0 <= i && i + |needle| <= |hay| && hay[i..i + |needle|] == needle
  }

  /** Substring search: `needle` is a prefix of some suffix of `hay`. */
  predicate Contains(hay: string, needle: string)
    decreases |hay|
  {
    IsPrefix(needle, hay) || (|hay| > 0 && Contains(hay[1..], needle))
  }

  /** `Contains` finds exactly the occurrences of the needle. */
  lemma {:induction false} ContainsIffOccurs(hay: string, needle: string)
    ensures Contains(hay, needle) <==> exists i :: OccursAt(hay, needle, i)
    decreases |hay|
  {
    if |hay| == 0 {
      if Contains(hay, needle) {
        assert OccursAt(hay, needle, 0);
      }
    } else {
      ContainsIffOccurs(hay[1..], needle);
      if IsPrefix(needle, hay) {
        assert OccursAt(hay, needle, 0);
      } else if Contains(hay[1..], needle) {
        var i :| OccursAt(hay[1..], needle, i);
        assert hay[1..][i..i + |needle|] == hay[i + 1..i + 1 + |needle|];
        assert OccursAt(hay, needle, i + 1);
      }
      if exists i :: OccursAt(hay, needle, i) {
        var i :| OccursAt(hay, needle, i);
        if i == 0 {
          assert IsPrefix(needle, hay);
        } else {
          assert hay[1..][i - 1..i - 1 + |needle|] == hay[i..i + |needle|];
          assert OccursAt(hay[1..], needle, i - 1);
        }
      }
    }
  }

  /** Case-insensitive substring search, as `range(of:options: .caseInsensitive) != nil`. */
  predicate ContainsIgnoringCase(hay: string, needle: string) {
    Contains(Fold(hay), Fold(needle))
  }

  /** Folding the search text first does not change any answer. */
  lemma FoldedNeedleSameAnswer(hay: string, needle: string)
    ensures ContainsIgnoringCase(hay, Fold(needle)) == ContainsIgnoringCase(hay, needle)
  {
    FoldIdempotent(needle);
  }

  /** An exact occurrence is in particular a case-insensitive one. */
  lemma ExactMatchIgnoringCase(hay: string, needle: string)
    requires Contains(hay, needle)
    ensures ContainsIgnoringCase(hay, needle)
  {
    ContainsIffOccurs(hay, needle);
    var i :| OccursAt(hay, needle, i);
    var fh, fn := Fold(hay), Fold(needle);
    assert forall j :: 0 <= j < |needle| ==> fh[i..i + |needle|][j] == Lower(hay[i + j]) == fn[j];
    assert OccursAt(fh, fn, i);
    ContainsIffOccurs(fh, fn);
  }
}
