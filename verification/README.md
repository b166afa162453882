# Streambox song list — a Dafny model

Streambox streams songs from a Dropbox folder and plays them. This project
models the song list of its main screen (`SongsViewController`): the full
library and the searched list the table shows, the placeholder row of an empty
library, the guarded delete, what selecting a row does (cancel the previous
download, start a new one), the download's completion callback, and the
minutes/seconds split of the player's clock.

Modules, one per concern:

- `Base` — Swift optionals, and `Outcome`: a handler either runs to the end or
  ends the app (a force-unwrapped nil, a subscript out of range, or a table
  update that UIKit rejects).
- `Text` — ASCII case folding, `hasPrefix`, substring search.
- `Subsequence` — order-preserving subsequences.
- `Songs` — the `Song` object. Songs are reference objects shared by the full
  list, the shown list and the play queue; a `key` stands for the object's
  identity, and a change to one object (`Touch`) is applied to every list.
- `Search` — the search filter.
- `SongTable` — the library state (`songs`, `filtered`), search, row count, delete.
- `Player` — selection, download start, completion, as events over one
  immutable state record. The network and the audio player are effects the
  handlers emit (`CancelDownload`, `StartDownload`, `PlayFile`); a download's
  completion is a separate event naming the download it belongs to.
- `TimeFormat` — Swift's truncating `/` and `%`, and `secondsToMinutesSeconds`.
- `Scenarios` — concrete runs on small libraries.

Behaviour worth knowing, all proved about the model:

- Cancelling goes through a helper that builds a fresh request for the
  previous song's `filePath` and cancels that new request. The original
  download, which asked for the song's "id:" path, keeps running. Its completion can
  arrive after the user has switched songs. `StaleCompletionSuppressesCancel`
  shows such a completion clearing the global "downloading" flag while the new
  song still downloads. A later switch then issues no cancel, and two
  downloads are outstanding. The cancel of the previous download at
  `SongsViewController.swift:248-251` shows the code means to keep one
  download in flight, but it does not ensure it; the model follows the code.
- The last-selected row is not adjusted when the shown list changes.
  `StaleLastRowTraps` deletes a song while the last row downloads; the next
  selection subscripts past the end of the list and traps.
- A delete shows the whole remaining library while the table deletes a single
  row. If a search had narrowed the shown list, the new row count is not the
  old count minus one, and UIKit aborts the app (`DeleteDuringSearchAborts`).
- A cancel names the song's `filePath`, while a download asks for the
  normalised `id`.
- Switching away from a downloading song does not clear that song's own
  `isDownloading` flag; only its completion does (`SwitchCancelsPrevious`).

## Model

| member | source | states |
|---|---|---|
| `Search.Filter` | Streambox/Streambox/SongsViewController.swift:447-449 | empty text shows the library unchanged; otherwise an order-preserving subsequence of the library holding exactly the songs with a title containing the text ignoring case, every copy of each, and none without a title |
| `Search.KeepMatchingSpec` | Streambox/Streambox/SongsViewController.swift:447-449 | the filter closure keeps order, keeps only matching songs and keeps every copy of every matching song |
| `Search.KeepMatchingIsUnique` | Streambox/Streambox/SongsViewController.swift:447-449 | the filter is the only order-preserving subsequence that keeps all copies of the matching songs and nothing else |
| `Search.KeepMatchingIdempotent` | Streambox/Streambox/SongsViewController.swift:447-449 | filtering the filtered list again with the same text gives the same list |
| `Search.KeepMatchingIgnoresCase` | Streambox/Streambox/SongsViewController.swift:448 | searching a text or its lower-cased form shows the same list |
| `Search.ExactTitleMatchIsListed` | Streambox/Streambox/SongsViewController.swift:448 | a song whose title contains the text with the same case is listed |
| `Search.FilterLoop` | Streambox/Streambox/SongsViewController.swift:447-449 | the filter computed by a loop that appends matching songs equals the filter |
| `Text.ContainsIffOccurs` | Streambox/Streambox/SongsViewController.swift:448 | substring search answers yes exactly when the text occurs at some position of the title |
| `Text.ExactMatchIgnoringCase` | Streambox/Streambox/SongsViewController.swift:448 | an exact occurrence is also a case-insensitive one |
| `Text.FoldedNeedleSameAnswer` | Streambox/Streambox/SongsViewController.swift:448 | lower-casing the search text first never changes whether a title matches |
| `SongTable.SearchTextChanged` | Streambox/Streambox/SongsViewController.swift:445-452 | a search keeps the library, keeps the state valid, and shows exactly the matching songs (all songs for an empty text) |
| `SongTable.SearchForgetsPreviousFilter` | Streambox/Streambox/SongsViewController.swift:447 | the shown list depends only on the library and the latest text, never on the list shown before |
| `SongTable.SearchIdempotent` | Streambox/Streambox/SongsViewController.swift:447-449 | repeating a search, or filtering the shown list again, changes nothing |
| `SongTable.RowCount` | Streambox/Streambox/SongsViewController.swift:133-144 | one placeholder row for an empty library, otherwise one row per shown song |
| `SongTable.RowCountBounded` | Streambox/Streambox/SongsViewController.swift:136-143 | the table never has more rows than the library has songs (or the one placeholder) |
| `SongTable.RowCountAfterSearch` | Streambox/Streambox/SongsViewController.swift:136-143 | after a search the table has no rows exactly when the library is not empty, the text is not empty and no title matches; an empty text gives one row per song |
| `SongTable.CommitEdit` | Streambox/Streambox/SongsViewController.swift:272-289 | nothing changes unless more than one song is shown and the edit is a delete; a delete succeeds exactly when no search had narrowed the shown list, and otherwise ends the app on the table's row-count check; a successful delete removes the shown song from the library, shows the whole remaining library, drops the row count by exactly one, keeps the order and never leaves the shown list empty |
| `SongTable.Remaining` | Streambox/Streambox/SongsViewController.swift:277-278 | the library read back after the delete lacks the deleted object, keeps every other object in order and is one shorter; it is one shorter than the shown list exactly when the shown list was the whole library |
| `SongTable.DeleteRemovesThatSong` | Streambox/Streambox/SongsViewController.swift:277-279 | a delete that succeeds removes exactly the library position holding the shown song and no other |
| `SongTable.Loaded` | Streambox/Streambox/SongsViewController.swift:109-110 | after loading, the shown list is the whole library |
| `Songs.RemoveKey` | Streambox/Streambox/SongsViewController.swift:277-278 | deleting an object and reading the store back leaves exactly the other songs, in order |
| `Songs.RemoveUniqueKey` | Streambox/Streambox/SongsViewController.swift:277-278 | with distinct objects, deleting one removes exactly its single position |
| `Songs.Touch` | Streambox/Streambox/SongsViewController.swift:322 | changing a song object changes it in every position of a list that holds it and nothing else |
| `Songs.TouchPreservesSubsequence` | Streambox/Streambox/SongsViewController.swift:322 | changing a song object keeps the shown list a subsequence of the library |
| `Player.NormaliseId` | Streambox/Streambox/SongsViewController.swift:311-318 | the download path always starts with "id:"; an id that has it is kept, any other id gets it put in front of it |
| `Player.NormaliseIdIdempotent` | Streambox/Streambox/SongsViewController.swift:311-318 | normalising twice is normalising once |
| `Player.NormaliseIdSamePath` | Streambox/Streambox/SongsViewController.swift:311-318 | two ids give the same path exactly when they agree with one leading "id:" removed |
| `Player.CancelPrevious` | Streambox/Streambox/SongsViewController.swift:244-257 | a cancel for the previous row's file path is issued exactly when there is a previous row and the global downloading flag is set; a stale row or a missing path traps |
| `Player.PrepareForPlaySong` | Streambox/Streambox/SongsViewController.swift:299-324 | starting a download sets the global and the song's downloading flags, records and requests one download for the normalised id, and changes nothing else; a song without an id traps |
| `Player.Select` | Streambox/Streambox/SongsViewController.swift:231-268 | the queue becomes the shown list; reselecting the last row issues nothing; another row issues at most one cancel (previous file path, only while downloading) then exactly one download start, records the row as last with unclamped neighbours row-1 and row+1, changes the library and shown list only in the new song's downloading flag, and traps exactly in the cancel or missing-id cases |
| `Player.Complete` | Streambox/Streambox/SongsViewController.swift:324-351 | a completion clears both downloading flags, records the row selected at that moment as the queue position, gives the downloaded song the file's tags, leaves other songs alone and plays the file; a missing file URL traps |
| `Player.SelectAddsOneDownload` | Streambox/Streambox/SongsViewController.swift:242-265 | switching rows adds exactly one outstanding download, whether or not a cancel was issued |
| `Player.CompleteRetiresOneDownload` | Streambox/Streambox/SongsViewController.swift:324-340 | a completion retires exactly its own download |
| `Player.SearchChanged` | Streambox/Streambox/SongsViewController.swift:445-452 | a search replaces only the shown list; the selection rows are kept |
| `Player.EditCommitted` | Streambox/Streambox/SongsViewController.swift:272-289 | a delete replaces only the library lists and keeps the selection rows, or ends the app exactly when the table edit does |
| `Player.Initial` | Streambox/Streambox/SongsViewController.swift:31-40 | the controller starts showing the song list it was created with: no row selected, last, previous or next, an empty queue with no position, and no download started or completed |
| `Scenarios.SearchAnShowsCanon` | Streambox/Streambox/SongsViewController.swift:447-449 | of "Aria", "Ballad" and "Canon", searching "an" shows only "Canon" |
| `Scenarios.SwitchCancelsPrevious` | Streambox/Streambox/SongsViewController.swift:242-265 | choosing "Aria" then "Ballad" cancels Aria's file path and starts "id:ballad" without doubling the prefix; Aria stays marked as downloading |
| `Scenarios.StaleCompletionSuppressesCancel` | Streambox/Streambox/SongsViewController.swift:248-251 | a late completion of the cancelled download clears the global flag, so the next switch cancels nothing and two downloads stay outstanding |
| `Scenarios.LateCompletionThenSwitch` | Streambox/Streambox/SongsViewController.swift:337-340 | from the state after the switch, the late completion plays Aria and records Ballad's row as the queue position |
| `Scenarios.StaleLastRowTraps` | Streambox/Streambox/SongsViewController.swift:251 | after a delete shrinks the list below the last row, the next selection traps on the stale row |
| `Scenarios.DeleteDuringSearchAborts` | Streambox/Streambox/SongsViewController.swift:272-280 | searching "a" in "Aria", "Bolero", "Canon" shows "Aria" and "Canon"; deleting "Aria" then ends the app on the table's row-count check |
| `TimeFormat.MinutesSeconds` | Streambox/Streambox/SongsViewController.swift:431-433 | for non-negative input, minutes and seconds both lie in 0..59 and recombine to the input modulo an hour; for negative input both lie in -59..0 and recombine to Swift's remainder |
| `TimeFormat.SplitThenJoin` | Streambox/Streambox/SongsViewController.swift:431-433 | within the first hour, splitting then recombining gives the input |
| `TimeFormat.JoinThenSplit` | Streambox/Streambox/SongsViewController.swift:431-433 | any clock reading with minutes and seconds in 0..59 splits back into itself |
| `TimeFormat.MinutesSecondsDropsHours` | Streambox/Streambox/SongsViewController.swift:432 | a non-negative time and the same time whole hours later read the same |
| `TimeFormat.SwiftDiv` | Streambox/Streambox/SongsViewController.swift:432 | Swift's quotient rounds toward zero: `b * q` lies between zero and the dividend, within one divisor of it |
| `TimeFormat.SwiftRem` | Streambox/Streambox/SongsViewController.swift:432 | Swift's remainder takes the sign of the dividend and is smaller than the divisor |

## Left out

- Search.Filter: titles are compared code point by code point after ASCII lower-casing. Foundation's `range(of:options:)` without `.literal` compares Unicode text, so any non-ASCII text can differ: non-ASCII case pairs, and canonically equivalent spellings such as a precomposed "é" against "e" followed by a combining acute accent, match in the app and not here.
- UIKit presentation: cell contents, row heights, progress bar alpha and progress, enabling the search bar, `reloadData`, and the animation of `deleteRows`. These are framework UI. The row-count check `deleteRows` makes is modelled.
- The `selectedCell!` unwrap in `didSelectRowAt`: `cellForRow` returns nil for a row that is not on screen; which rows are on screen is UI state, so the model assumes the cell exists.
- Audio playback: `playSongAsURL` (AVAudioPlayer and AVAudioSession), `updateTime` (floating-point playback times), reading ID3 tags (the tags arrive as a parameter of the completion event) and the now-playing info centre.
- Player.Complete: the artwork is not modelled, nor the force unwraps in converting it to PNG; the artwork comes from the audio helper, which is not part of this model.
- Download progress: the progress callback writes a floating-point fraction to the song; floats are out of scope.
- Startup and notifications: NotificationCenter observers, the timer, and Crashlytics event logging are I/O. `reloadSongs` first appends the old song list to the global `SongPlayerHelper.songQueue`, then reads the store and sets both lists; `SongTable.Loaded` models only the two lists, not that queue append.
- Player.Initial: starts with the shown list equal to the song list. `viewDidLoad` reassigns only the song list from the store; the shown list keeps the value it took from the global song list when the controller was created. So the first screen shows the whole store only if that global already held it, which the model assumes. `SongPlayerHelper` is not part of this model, so the model also assumes its globals start with `isSongDownloading` false and an empty `songQueue`.
- Core Data: `CoreDataHelper` is not part of this model. Deleting a song and reading the store back is modelled as removing that object from the list, with the remaining order kept.
- `prepareForPlaySongInitial`: it repeats the download start but always puts "id:" in front of the id, so it does not keep ids that already have the prefix.
- DropboxHelper: listing, folder checks, the transfer itself and unique file naming are network and file I/O. Cancelling is the `CancelDownload` effect. A download's end is the completion event. A download that never completes is a completion event that never happens.
- Concurrency: progress and completion callbacks are taken as events that arrive one at a time, in any order, not interleaved.
- Swift `Int` overflow in `row - 1` and `row + 1` is not modelled; rows are far below the 64-bit range.
