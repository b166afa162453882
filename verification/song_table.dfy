/** The song table's data: the full library in store order and the list the
    table currently shows, with the search, row-count and delete handlers. */
module SongTable {
  import opened Base
  import opened Songs
  import opened Search
  import opened Subsequence

  /** `songs` is the library as read back from the store; `filtered` is what
      the table shows. */
  datatype Library = Library(songs: seq<Song>, filtered: seq<Song>)

  /** Every stored object appears once in the library, and the shown list is
      drawn from the library in library order. */
  predicate Valid(lib: Library) {
    DistinctKeys(lib.songs) && IsSubsequence(lib.filtered, lib.songs)
  }

  /** The state after loading: the whole library is shown. */
  function Loaded(songs: seq<Song>): (r: Library)
    requires DistinctKeys(songs)
    ensures Valid(r) && r.filtered == r.songs == songs
  {
    SubsequenceReflexive(songs);
    Library(songs, songs)
  }

  /** The search bar's text changed. */
  function SearchTextChanged(lib: Library, text: string): (r: Library)
    ensures r.songs == lib.songs
    ensures DistinctKeys(lib.songs) ==> Valid(r)
    ensures |text| == 0 ==> r.filtered == lib.songs
    ensures |text| > 0 ==> forall x :: x in r.filtered <==> x in lib.songs && Matches(x, text)
  {
    Library(lib.songs, Filter(lib.songs, text))
  }

  /** A new search replaces the previous one: what was shown before does not matter. */
  lemma SearchForgetsPreviousFilter(lib: Library, first: string, second: string)
    ensures SearchTextChanged(SearchTextChanged(lib, first), second) == SearchTextChanged(lib, second)
  {
  }

  /** Searching twice with the same text, or filtering the shown list again, is the same as once. */
  lemma SearchIdempotent(lib: Library, text: string)
    ensures SearchTextChanged(SearchTextChanged(lib, text), text) == SearchTextChanged(lib, text)
    ensures Filter(SearchTextChanged(lib, text).filtered, text) == SearchTextChanged(lib, text).filtered
  {
    KeepMatchingIdempotent(lib.songs, text);
  }

  /** `numberOfRowsInSection`: one placeholder row for an empty library,
      otherwise one row per shown song. */
  function RowCount(lib: Library): (n: nat)
    ensures |lib.songs| == 0 ==> n == 1
    ensures |lib.songs| > 0 ==> n == |lib.filtered|
  {
    if |lib.songs| == 0 then 1 else |lib.filtered|
  }

  /** The table is never longer than the library (or the placeholder). */
  lemma RowCountBounded(lib: Library)
    requires Valid(lib)
    ensures RowCount(lib) <= if |lib.songs| == 0 then 1 else |lib.songs|
  {
    SubsequenceMultiset(lib.filtered, lib.songs);
  }

  /** After a search the table is empty exactly when the library has songs, the
      text is not empty, and no title contains the text; an empty text shows
      the whole library. */
  lemma RowCountAfterSearch(lib: Library, text: string)
    ensures RowCount(SearchTextChanged(lib, text)) == 0
      <==> |lib.songs| > 0 && |text| > 0 && forall x :: x in lib.songs ==> !Matches(x, text)
    ensures |text| == 0 ==> RowCount(SearchTextChanged(lib, text)) == if |lib.songs| == 0 then 1 else |lib.songs|
  {
  }

  /** `UITableViewCellEditingStyle`. */
  datatype EditingStyle = NoEditing | DeleteStyle | InsertStyle

  /** `commit editingStyle forRowAt`: deletes the song shown at `row` from the
      store, reads the library back and shows all of it again; nothing happens
      unless more than one song is shown and the edit is a delete. The store
      hands back the remaining objects in their previous order. The table then
      deletes one row: it showed `RowCount(lib)` rows and now shows the whole
      remaining library, so UIKit aborts the app unless those differ by
      exactly one, that is unless no search had narrowed the shown list. */
  function CommitEdit(lib: Library, style: EditingStyle, row: nat): (r: Outcome<Library>)
    requires Valid(lib)
    requires row < RowCount(lib)
    ensures !(|lib.filtered| > 1 && style == DeleteStyle) ==> r == Ok(lib)
    ensures |lib.filtered| > 1 && style == DeleteStyle ==>
      (r.Ok? <==> lib.filtered == lib.songs)
    ensures r.Crash? ==> r.trap == RowCountMismatch
    ensures r.Ok? ==> Valid(r.value)
    ensures r.Ok? && |lib.filtered| > 1 && style == DeleteStyle ==>
      && r.value.filtered == r.value.songs
      && |r.value.songs| == |lib.songs| - 1
      && RowCount(r.value) == RowCount(lib) - 1
      && IsSubsequence(r.value.songs, lib.songs)
      && lib.filtered[row] !in r.value.songs
      && forall x :: x in lib.songs && x.key != lib.filtered[row].key ==> x in r.value.songs
    ensures r.Ok? && |lib.filtered| >= 1 ==> |r.value.filtered| >= 1
  {
    if |lib.filtered| > 1 && style == DeleteStyle then
      var rest := Remaining(lib, row);
      SubsequenceReflexive(rest);
      if |rest| == |lib.filtered| - 1 then Ok(Library(rest, rest)) else Crash(RowCountMismatch)
    else
      Ok(lib)
  }

  /** The library the store hands back after the song shown at `row` is
      deleted. It is one shorter than the shown list exactly when the shown
      list was the whole library. */
  function Remaining(lib: Library, row: nat): (rest: seq<Song>)
    requires Valid(lib) && row < |lib.filtered|
    ensures DistinctKeys(rest)
    ensures |rest| == |lib.songs| - 1
    ensures IsSubsequence(rest, lib.songs)
    ensures lib.filtered[row] !in rest
    ensures forall x :: x in lib.songs && x.key != lib.filtered[row].key ==> x in rest
    ensures |rest| == |lib.filtered| - 1 <==> lib.filtered == lib.songs
  {
    var victim := lib.filtered[row];
    SubsequenceMultiset(lib.filtered, lib.songs);
    assert victim in multiset(lib.songs);
    var i :| 0 <= i < |lib.songs| && lib.songs[i] == victim;
    RemoveUniqueKey(lib.songs, i);
    var rest := RemoveKey(lib.songs, victim.key);
    assert DistinctKeys(rest) by {
      assert rest == lib.songs[..i] + lib.songs[i + 1..];
    }
    SameLengthSubsequence(lib.filtered, lib.songs);
    rest
  }

  /** A delete removes exactly the library position holding the song shown at
      `row`; every other song keeps its place. */
  lemma DeleteRemovesThatSong(lib: Library, row: nat)
    requires Valid(lib) && row < RowCount(lib) && |lib.filtered| > 1
    ensures CommitEdit(lib, DeleteStyle, row).Ok? ==>
      exists i :: (0 <= i < |lib.songs| && lib.songs[i] == lib.filtered[row]
                   && CommitEdit(lib, DeleteStyle, row).value.songs == lib.songs[..i] + lib.songs[i + 1..])
  {
    SubsequenceMultiset(lib.filtered, lib.songs);
    assert lib.filtered[row] in multiset(lib.songs);
    var i :| 0 <= i < |lib.songs| && lib.songs[i] == lib.filtered[row];
    RemoveUniqueKey(lib.songs, i);
  }
}
