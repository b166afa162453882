/** The search bar's filter over the song list. */
module Search {
  import opened Base
  import opened Text
  import opened Songs
  import opened Subsequence

  /** The filter closure: the song has a title, and the title contains the
      search text ignoring case. A song without a title never matches. */
  predicate Matches(x: Song, text: string) {
    x.title.Some? && ContainsIgnoringCase(x.title.value, text)
  }

  /** `songs.filter { Matches($0, text) }`. */
  function KeepMatching(songs: seq<Song>, text: string): seq<Song>
    decreases |songs|
  {
    if |songs| == 0 then []
    else
      var rest := KeepMatching(songs[1..], text);
      if Matches(songs[0], text) then [songs[0]] + rest else rest
  }

  /** The filter keeps the relative order, keeps only matching songs, and keeps
      every copy of every matching song. */
  lemma {:induction false} KeepMatchingSpec(songs: seq<Song>, text: string)
    ensures IsSubsequence(KeepMatching(songs, text), songs)
    ensures forall i :: 0 <= i < |KeepMatching(songs, text)| ==> Matches(KeepMatching(songs, text)[i], text)
    ensures forall x :: multiset(KeepMatching(songs, text))[x] == if Matches(x, text) then multiset(songs)[x] else 0
    decreases |songs|
  {
    if |songs| > 0 {
      assert songs == [songs[0]] + songs[1..];
      KeepMatchingSpec(songs[1..], text);
    }
  }

  /** The list shown after the search text changes: the whole list for an
      empty text, the matching songs otherwise. It is computed from the full
      list alone, never from the previously shown list. */
  function Filter(songs: seq<Song>, text: string): (r: seq<Song>)
    ensures |text| == 0 ==> r == songs
    ensures IsSubsequence(r, songs)
    ensures |text| > 0 ==> forall i :: 0 <= i < |r| ==> r[i].title.Some? && Matches(r[i], text)
    ensures |text| > 0 ==> forall x :: x in r <==> x in songs && Matches(x, text)
    ensures |text| > 0 ==> forall x :: multiset(r)[x] == if Matches(x, text) then multiset(songs)[x] else 0
  {
    if |text| == 0 then
      SubsequenceReflexive(songs);
      songs
    else
      KeepMatchingSpec(songs, text);
      KeepMatching(songs, text)
  }

  /** The filter is the only order-preserving subsequence of `songs` that keeps
      every copy of each matching song and nothing else. */
  lemma {:induction false} KeepMatchingIsUnique(songs: seq<Song>, text: string, r: seq<Song>)
    requires IsSubsequence(r, songs)
    requires forall x :: multiset(r)[x] == if Matches(x, text) then multiset(songs)[x] else 0
    ensures r == KeepMatching(songs, text)
    decreases |songs|
  {
    var k := KeepMatching(songs, text);
    if |r| == 0 {
      KeepMatchingSpec(songs, text);
      assert |multiset(k)| == 0;
    } else {
      var s0, tail := songs[0], songs[1..];
      assert songs == [s0] + tail;
      if Matches(s0, text) {
        assert multiset(r)[s0] == multiset(tail)[s0] + 1;
        if r[0] == s0 && IsSubsequence(r[1..], tail) {
          assert r == [s0] + r[1..];
          KeepMatchingIsUnique(tail, text, r[1..]);
        } else {
          assert IsSubsequence(r, tail);
          SubsequenceMultiset(r, tail);
          assert false;
        }
      } else {
        assert s0 !in r;
        assert r[0] != s0;
        KeepMatchingIsUnique(tail, text, r);
      }
    }
  }

  /** Filtering the filtered list again with the same text changes nothing. */
  lemma {:induction false} KeepMatchingIdempotent(songs: seq<Song>, text: string)
    ensures KeepMatching(KeepMatching(songs, text), text) == KeepMatching(songs, text)
    decreases |songs|
  {
    if |songs| > 0 {
      KeepMatchingIdempotent(songs[1..], text);
      var rest := KeepMatching(songs[1..], text);
      if Matches(songs[0], text) {
        assert ([songs[0]] + rest)[1..] == rest;
      }
    }
  }

  /** Upper and lower case in the search text are not told apart. */
  lemma {:induction false} KeepMatchingIgnoresCase(songs: seq<Song>, text: string)
    ensures KeepMatching(songs, Fold(text)) == KeepMatching(songs, text)
    decreases |songs|
  {
    if |songs| > 0 {
      KeepMatchingIgnoresCase(songs[1..], text);
      if songs[0].title.Some? {
        FoldedNeedleSameAnswer(songs[0].title.value, text);
      }
    }
  }

  /** A song whose title contains the text exactly, same case, is listed. */
  lemma ExactTitleMatchIsListed(songs: seq<Song>, text: string, x: Song)
    requires x in songs
    requires x.title.Some? && Contains(x.title.value, text)
    ensures x in KeepMatching(songs, text)
  {
    ExactMatchIgnoringCase(x.title.value, text);
    KeepMatchingSpec(songs, text);
    assert multiset(KeepMatching(songs, text))[x] > 0;
  }

  /** One step of the filter: the song at `i` is kept or dropped, then the rest follows. */
  lemma KeepMatchingStep(songs: seq<Song>, text: string, i: nat)
    requires i < |songs|
    ensures KeepMatching(songs[i..], text)
      == (if Matches(songs[i], text) then [songs[i]] else []) + KeepMatching(songs[i + 1..], text)
  {
  }

  /** The same `filter` as a loop over the list, building the result by appending. */
  method FilterLoop(songs: seq<Song>, text: string) returns (r: seq<Song>)
    ensures r == Filter(songs, text)
  {
    if |text| == 0 {
      return songs;
    }
    r := [];
    var i := 0;
    assert songs[0..] == songs;
    while i < |songs|
      invariant 0 <= i <= |songs|
      invariant r + KeepMatching(songs[i..], text) == KeepMatching(songs, text)
    {
      KeepMatchingStep(songs, text, i);
      if Matches(songs[i], text) {
        assert r + KeepMatching(songs[i..], text) == (r + [songs[i]]) + KeepMatching(songs[i + 1..], text);
        r := r + [songs[i]];
      }
      i := i + 1;
    }
    assert songs[|songs|..] == [];
  }
}
