/** The `Song` managed object as the song list sees it. Songs are reference
    objects in the app: the full list, the filtered list and the player queue
    hold the same objects, so a change made through one list is seen through all
    of them. Here a song is a value with a `key` standing for its object
    identity, and a change to one object is applied, by key, to every list. */
module Songs {
  import opened Base
  import opened Subsequence

  /** Object identity of a stored song. */
  type Key = nat

  datatype Song = Song(
    key: Key,
    id: Option<string>,         // remote identifier, with or without the "id:" prefix
    title: Option<string>,
    artist: Option<string>,
    filePath: Option<string>,   // remote path used when cancelling a download
    isDownloading: bool)

  /** The two in-place mutations the song list makes on a song object. */
  datatype Change =
    | SetDownloading(downloading: bool)
    | SetTags(newTitle: Option<string>, newArtist: Option<string>)

  function Apply(x: Song, c: Change): (r: Song)
    ensures r.key == x.key && r.id == x.id && r.filePath == x.filePath
  {
    match c
    case SetDownloading(b) => x.(isDownloading := b)
    case SetTags(t, a) => x.(title := t, artist := a)
  }

  /** The view of list `s` after the object with key `k` has been changed by `c`. */
  function Touch(s: seq<Song>, k: Key, c: Change): (r: seq<Song>)
    ensures |r| == |s|
    ensures forall i :: 0 <= i < |s| ==> r[i].key == s[i].key
    ensures forall i :: 0 <= i < |s| && s[i].key != k ==> r[i] == s[i]
    ensures forall i :: 0 <= i < |s| && s[i].key == k ==> r[i] == Apply(s[i], c)
    decreases |s|
  {
    if |s| == 0 then []
    else [if s[0].key == k then Apply(s[0], c) else s[0]] + Touch(s[1..], k, c)
  }

  /** No stored object appears twice in a list. */
  predicate DistinctKeys(s: seq<Song>) {
    forall i, j :: 0 <= i < j < |s| ==> s[i].key != s[j].key
  }

  /** Changing an object keeps a derived list a subsequence of its source. */
  lemma {:induction false} TouchPreservesSubsequence(a: seq<Song>, b: seq<Song>, k: Key, c: Change)
    ensures IsSubsequence(a, b) ==> IsSubsequence(Touch(a, k, c), Touch(b, k, c))
    decreases |b|
  {
    if IsSubsequence(a, b) && |a| > 0 {
      assert Touch(b, k, c)[1..] == Touch(b[1..], k, c);
      if a[0] == b[0] && IsSubsequence(a[1..], b[1..]) {
        TouchPreservesSubsequence(a[1..], b[1..], k, c);
        assert Touch(a, k, c)[1..] == Touch(a[1..], k, c);
      } else {
        TouchPreservesSubsequence(a, b[1..], k, c);
      }
    }
  }

  /** The list `s` without the stored object whose key is `k`. */
  function RemoveKey(s: seq<Song>, k: Key): (r: seq<Song>)
    ensures forall x :: x in r <==> x in s && x.key != k
    ensures IsSubsequence(r, s)
    decreases |s|
  {
    if |s| == 0 then []
    else if s[0].key == k then RemoveKey(s[1..], k)
    else [s[0]] + RemoveKey(s[1..], k)
  }

  lemma {:induction false} RemoveAbsentKey(s: seq<Song>, k: Key)
    requires forall i :: 0 <= i < |s| ==> s[i].key != k
    ensures RemoveKey(s, k) == s
    decreases |s|
  {
    if |s| > 0 {
      RemoveAbsentKey(s[1..], k);
    }
  }

  /** With distinct keys, removing a song's key removes exactly its one position. */
  lemma {:induction false} RemoveUniqueKey(s: seq<Song>, i: nat)
    requires DistinctKeys(s) && i < |s|
    ensures RemoveKey(s, s[i].key) == s[..i] + s[i + 1..]
    decreases i
  {
    var k := s[i].key;
    DistinctTail(s);
    if i == 0 {
      RemoveAbsentKey(s[1..], k);
    } else {
      assert s[1..][i - 1] == s[i];
      RemoveUniqueKey(s[1..], i - 1);
      ConsOfSplice(s, i);
    }
  }

  /** Putting the head back in front of the tail with position `i - 1` cut out
      gives the list with position `i` cut out. */
  lemma ConsOfSplice(s: seq<Song>, i: nat)
    requires 0 < i < |s|
    ensures [s[0]] + (s[1..][..i - 1] + s[1..][i..]) == s[..i] + s[i + 1..]
  {
    assert s[1..][..i - 1] == s[1..i] && s[1..][i..] == s[i + 1..];
    assert [s[0]] + s[1..i] == s[..i];
  }

  /** Dropping the head keeps the keys distinct, and no later song shares the head's key. */
  lemma DistinctTail(s: seq<Song>)
    requires DistinctKeys(s) && |s| > 0
    ensures DistinctKeys(s[1..])
    ensures forall j :: 0 <= j < |s[1..]| ==> s[1..][j].key != s[0].key
  {
    forall j | 0 <= j < |s[1..]| ensures s[1..][j].key != s[0].key {
      assert s[1..][j] == s[j + 1];
    }
  }
}
