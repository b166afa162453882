/** Selecting a row, starting its download, and the download's completion.
    The network and the audio player are outside the model: the handlers emit
    effects (cancel a download, start a download, play a file), and the
    download's completion callback is a separate event that may arrive at any
    later point, once per started download. */
module Player {
  import opened Base
  import opened Text
  import opened Songs
  import opened Search
  import opened SongTable

  /** What the song list asks of the outside world. */
  datatype Effect =
    | CancelDownload(path: string)            // cancel the download of a remote path
    | StartDownload(song: Key, path: string)  // download a remote path for a song
    | PlayFile(url: string)                   // hand a downloaded file to the audio player

  /** A started download: the song object its completion callback captured,
      and the remote path it asked for. */
  datatype Fetch = Fetch(song: Key, path: string)

  /** Tags read from a downloaded file. */
  datatype Tags = Tags(title: Option<string>, artist: Option<string>)

  /** The view controller's selection fields together with the player helper's
      globals that the song list reads and writes. */
  datatype Player = Player(
    lib: Library,
    queue: seq<Song>,                  // the play queue
    selected: Option<nat>,             // row of the selected index path
    last: Option<nat>,                 // row of the last index path a download was started for
    previous: Option<int>,             // row of the previous-song index path
    next: Option<int>,                 // row of the next-song index path
    isSongDownloading: bool,           // the global "a song is downloading" flag
    currentIndexInQueue: Option<nat>,  // the queue position of the song now playing
    fetches: seq<Fetch>,               // every download started, oldest first
    completed: set<nat>)               // downloads whose completion callback has run

  /** The new state of a handler together with the effects it issued, in order. */
  datatype Step = Step(player: Player, effects: seq<Effect>)

  /** What every reachable state satisfies. */
  predicate Consistent(p: Player) {
    && Valid(p.lib)
    && (|p.fetches| > 0 ==> p.selected.Some?)
    && (forall f :: f in p.completed ==> f < |p.fetches|)
  }

  /** The state in which the view controller starts: the shown list is the
      song list it was created with, no row has been selected yet, and the
      player helper's globals hold an empty queue and no download. */
  function Initial(songs: seq<Song>): (p: Player)
    requires DistinctKeys(songs)
    ensures Consistent(p)
    ensures p.lib.filtered == p.lib.songs == songs
    ensures !p.isSongDownloading && p.fetches == [] && p.last == None
    ensures p.selected == None && p.previous == None && p.next == None
    ensures p.queue == [] && p.currentIndexInQueue == None && p.completed == {}
  {
    Player(Loaded(songs), [], None, None, None, None, false, None, [], {})
  }

  /** The search text changed. Only the shown list is replaced: the selected
      and last rows are kept as they were, so they may now name other songs or
      lie past the end of the list. */
  function SearchChanged(p: Player, text: string): (q: Player)
    requires Consistent(p)
    ensures Consistent(q)
    ensures q.lib.songs == p.lib.songs && q.lib.filtered == Filter(p.lib.songs, text)
    ensures q.(lib := p.lib) == p
  {
    p.(lib := SearchTextChanged(p.lib, text))
  }

  /** A table edit was committed; as with a search, the row fields are kept.
      A delete the table rejects ends the app. */
  function EditCommitted(p: Player, style: EditingStyle, row: nat): (q: Outcome<Player>)
    requires Consistent(p) && row < RowCount(p.lib)
    ensures q.Ok? <==> CommitEdit(p.lib, style, row).Ok?
    ensures q.Crash? ==> q.trap == RowCountMismatch
    ensures q.Ok? ==> && Consistent(q.value)
                      && q.value.lib == CommitEdit(p.lib, style, row).value
                      && q.value.(lib := p.lib) == p
  {
    match CommitEdit(p.lib, style, row)
    case Crash(t) => Crash(t)
    case Ok(lib) => Ok(p.(lib := lib))
  }

  const IdPrefix: string := "id:"

  /** The remote path for a song id: the id itself when it already starts
      with "id:", otherwise the id with "id:" put in front. */
  function NormaliseId(id: string): (path: string)
    ensures IsPrefix(IdPrefix, path)
    ensures IsPrefix(IdPrefix, id) ==> path == id
    ensures !IsPrefix(IdPrefix, id) ==> |path| == |id| + |IdPrefix| && path[|IdPrefix|..] == id
  {
    if IsPrefix(IdPrefix, id) then id else IdPrefix + id
  }

  /** Normalising an already normalised path changes nothing. */
  lemma NormaliseIdIdempotent(id: string)
    ensures NormaliseId(NormaliseId(id)) == NormaliseId(id)
  {
  }

  /** Two ids give the same path exactly when they agree once the prefix is dropped. */
  lemma NormaliseIdSamePath(a: string, b: string)
    ensures NormaliseId(a) == NormaliseId(b) <==> Unprefixed(a) == Unprefixed(b)
  {
  }

  /** An id with one leading "id:" removed, if it has one. */
  function Unprefixed(id: string): string {
    if IsPrefix(IdPrefix, id) then id[|IdPrefix|..] else id
  }

  /** Change the song object `k` in every list that holds it. */
  function TouchAll(p: Player, k: Key, c: Change): (q: Player)
    ensures Consistent(p) ==> Consistent(q)
    ensures q.lib.songs == Touch(p.lib.songs, k, c)
    ensures q.lib.filtered == Touch(p.lib.filtered, k, c)
    ensures q.queue == Touch(p.queue, k, c)
    ensures q.(lib := p.lib, queue := p.queue) == p
  {
    TouchPreservesSubsequence(p.lib.filtered, p.lib.songs, k, c);
    p.(lib := Library(Touch(p.lib.songs, k, c), Touch(p.lib.filtered, k, c)), queue := Touch(p.queue, k, c))
  }

  /** Cancelling the previous row's download traps: the global flag is set
      and the last row is past the end of the shown list, or its song has no
      file path. */
  predicate CancelTraps(p: Player) {
    && p.isSongDownloading
    && p.last.Some?
    && (p.last.value >= |p.lib.filtered| || p.lib.filtered[p.last.value].filePath.None?)
  }

  /** A cancel is issued for the previous row exactly when there is one and the
      global flag is set. */
  predicate CancelIssued(p: Player) {
    p.isSongDownloading && p.last.Some?
  }

  /** The cancel issued when switching away from the last row, if any. */
  function CancelPrevious(p: Player): (r: Outcome<seq<Effect>>)
    ensures r.Crash? <==> CancelTraps(p)
    ensures r.Ok? ==> |r.value| == (if CancelIssued(p) then 1 else 0)
    ensures r.Ok? && CancelIssued(p) ==>
      r.value[0] == CancelDownload(p.lib.filtered[p.last.value].filePath.value)
  {
    match p.last
    case None => Ok([])
    case Some(prev) =>
      if !p.isSongDownloading then Ok([])
      else if prev >= |p.lib.filtered| then Crash(IndexOutOfRange)
      else
        match p.lib.filtered[prev].filePath
        case None => Crash(NilUnwrapped)
        case Some(path) => Ok([CancelDownload(path)])
  }

  /** Start downloading the song shown at `index`: mark it and the global flag
      as downloading and ask for its normalised id. A song without an id traps. */
  function PrepareForPlaySong(p: Player, index: nat): (r: Outcome<Step>)
    requires Consistent(p) && p.selected.Some?
    requires index < |p.lib.filtered|
    ensures r.Crash? <==> p.lib.filtered[index].id.None?
    ensures r.Ok? ==> DownloadStarted(p, p.lib.filtered[index], r.value)
  {
    var song := p.lib.filtered[index];
    match song.id
    case None => Crash(NilUnwrapped)
    case Some(id) =>
      var path := NormaliseId(id);
      var q := TouchAll(p, song.key, SetDownloading(true));
      Ok(Step(q.(isSongDownloading := true, fetches := p.fetches + [Fetch(song.key, path)]),
              [StartDownload(song.key, path)]))
  }

  /** `s` is `p` after one download was started for `song`: both downloading
      flags are set, one fetch for the song's normalised id is recorded and
      requested, and no other song and no other field changes. */
  predicate DownloadStarted(p: Player, song: Song, s: Step)
    requires song.id.Some?
  {
    var q := s.player;
    var path := NormaliseId(song.id.value);
    && Consistent(q)
    && q.isSongDownloading
    && (forall x :: x in q.lib.filtered && x.key == song.key ==> x.isDownloading)
    && q.lib.songs == Touch(p.lib.songs, song.key, SetDownloading(true))
    && q.lib.filtered == Touch(p.lib.filtered, song.key, SetDownloading(true))
    && q.queue == Touch(p.queue, song.key, SetDownloading(true))
    && q.fetches == p.fetches + [Fetch(song.key, path)]
    && s.effects == [StartDownload(song.key, path)]
    && q.(lib := p.lib, queue := p.queue, isSongDownloading := p.isSongDownloading, fetches := p.fetches) == p
  }

  /** `didSelectRowAt`: the play queue becomes the shown list and the row is
      recorded as selected. Selecting the row a download was last started for
      does nothing more. Selecting another row first cancels the previous row's
      download, only while the global flag is set, then records the row as the
      last one together with its unclamped neighbours, and starts its download. */
  function Select(p: Player, row: nat): (r: Outcome<Step>)
    requires Consistent(p)
    requires row < |p.lib.filtered|
    ensures r.Ok? ==> Consistent(r.value.player)
    ensures p.last == Some(row) ==>
      r == Ok(Step(p.(queue := p.lib.filtered, selected := Some(row)), []))
    ensures p.last != Some(row) ==>
      (r.Crash? <==> CancelTraps(p) || p.lib.filtered[row].id.None?)
    ensures p.last != Some(row) && r.Ok? ==> SwitchedTo(p, row, r.value)
  {
    var q := p.(queue := p.lib.filtered, selected := Some(row));
    if q.last == Some(row) then
      Ok(Step(q, []))
    else
      match CancelPrevious(q)
      case Crash(t) => Crash(t)
      case Ok(cancels) =>
        var moved := q.(previous := Some(row - 1), next := Some(row + 1), last := Some(row));
        match PrepareForPlaySong(moved, row)
        case Crash(t) => Crash(t)
        case Ok(started) => Ok(Step(started.player, cancels + started.effects))
  }

  /** `s` is the result of switching from `p`'s last row to `row`: at most one
      cancel, for the previous row's file path and only while the global flag
      was set, followed by exactly one download start for the new row. The
      library and shown list change only in the new song's downloading flag. */
  predicate SwitchedTo(p: Player, row: nat, s: Step)
    requires row < |p.lib.filtered|
  {
    var song := p.lib.filtered[row];
    var q := s.player;
    var n := if CancelIssued(p) then 1 else 0;
    && song.id.Some?
    && |s.effects| == n + 1
    && (CancelIssued(p) ==> p.last.value < |p.lib.filtered| && p.lib.filtered[p.last.value].filePath.Some?
                            && s.effects[0] == CancelDownload(p.lib.filtered[p.last.value].filePath.value))
    && s.effects[n] == StartDownload(song.key, NormaliseId(song.id.value))
    && q.selected == Some(row) && q.last == Some(row)
    && q.previous == Some(row - 1) && q.next == Some(row + 1)
    && q.isSongDownloading
    && q.lib.songs == Touch(p.lib.songs, song.key, SetDownloading(true))
    && q.lib.filtered == Touch(p.lib.filtered, song.key, SetDownloading(true))
    && q.queue == q.lib.filtered
    && q.lib.filtered[row].isDownloading
    && q.fetches == p.fetches + [Fetch(song.key, NormaliseId(song.id.value))]
    && q.completed == p.completed
    && q.currentIndexInQueue == p.currentIndexInQueue
  }

  /** The completion callback of download `f`: both downloading flags go
      false, the selected row at this moment becomes the queue position, the
      downloaded song takes the file's tags, and the file is played. A missing
      file URL traps. */
  function Complete(p: Player, f: nat, url: Option<string>, tags: Tags): (r: Outcome<Step>)
    requires Consistent(p)
    requires f < |p.fetches| && f !in p.completed
    ensures r.Ok? <==> url.Some?
    ensures r.Ok? ==> Completed(p, f, url.value, tags, r.value)
  {
    // a download only starts from a selection, so the selected row is set
    var row := p.selected.value;
    var k := p.fetches[f].song;
    var q := TouchAll(TouchAll(p, k, SetDownloading(false)), k, SetTags(tags.title, tags.artist));
    var done := q.(isSongDownloading := false, currentIndexInQueue := Some(row), completed := p.completed + {f});
    match url
    case None => Crash(NilUnwrapped)
    case Some(u) => Ok(Step(done, [PlayFile(u)]))
  }

  /** `s` is `p` after the completion of download `f`. */
  predicate Completed(p: Player, f: nat, url: string, tags: Tags, s: Step)
    requires f < |p.fetches|
  {
    var q := s.player;
    var k := p.fetches[f].song;
    && Consistent(q)
    && !q.isSongDownloading
    && q.currentIndexInQueue == p.selected
    && q.completed == p.completed + {f}
    && s.effects == [PlayFile(url)]
    && Retagged(p.lib.songs, q.lib.songs, k, tags)
    && Retagged(p.lib.filtered, q.lib.filtered, k, tags)
    && Retagged(p.queue, q.queue, k, tags)
    && q.(lib := p.lib, queue := p.queue, isSongDownloading := p.isSongDownloading,
          currentIndexInQueue := p.currentIndexInQueue, completed := p.completed) == p
  }

  /** `after` is the list `before` once the downloaded song `k` has stopped
      downloading and taken the file's tags; every other song is unchanged. */
  predicate Retagged(before: seq<Song>, after: seq<Song>, k: Key, tags: Tags) {
    && |after| == |before|
    && forall i :: 0 <= i < |before| ==>
         after[i] == if before[i].key == k
                     then before[i].(isDownloading := false, title := tags.title, artist := tags.artist)
                     else before[i]
  }

  /** Downloads started whose completion callback has not run yet. */
  function Outstanding(p: Player): set<nat> {
    set f | 0 <= f < |p.fetches| && f !in p.completed
  }

  /** Switching rows adds exactly one outstanding download, whether or not a
      cancel was issued: a cancel does not complete the earlier download. */
  lemma SelectAddsOneDownload(p: Player, row: nat)
    requires Consistent(p) && row < |p.lib.filtered|
    requires p.last != Some(row) && Select(p, row).Ok?
    ensures Outstanding(Select(p, row).value.player) == Outstanding(p) + {|p.fetches|}
    ensures |p.fetches| !in Outstanding(p)
  {
  }

  /** A completion retires exactly its own download. */
  lemma CompleteRetiresOneDownload(p: Player, f: nat, url: string, tags: Tags)
    requires Consistent(p) && f < |p.fetches| && f !in p.completed
    ensures Outstanding(Complete(p, f, Some(url), tags).value.player) == Outstanding(p) - {f}
    ensures f in Outstanding(p)
  {
  }
}
