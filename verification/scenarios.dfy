/** Concrete runs of the song list on small libraries. */
module Scenarios {
  import opened Base
  import opened Text
  import opened Songs
  import opened Search
  import opened SongTable
  import opened Player
  import opened Subsequence

  const Aria := Song(0, Some("aria"), Some("Aria"), None, Some("/Music/Aria.mp3"), false)
  const Ballad := Song(1, Some("id:ballad"), Some("Ballad"), None, Some("/Music/Ballad.mp3"), false)
  const Canon := Song(2, Some("canon"), Some("Canon"), None, Some("/Music/Canon.mp3"), false)
  const Bolero := Song(3, Some("bolero"), Some("Bolero"), None, Some("/Music/Bolero.mp3"), false)

  function Library3(): (s: seq<Song>)
    ensures DistinctKeys(s)
  {
    [Aria, Ballad, Canon]
  }

  /** A text with a character the title lacks cannot occur in the title. */
  lemma MissingCharacterNoMatch(hay: string, needle: string, j: nat)
    requires j < |needle| && needle[j] !in hay
    ensures !Contains(hay, needle)
  {
  }

  /** Searching "an" shows only "Canon": "Aria" and "Ballad" do not contain it. */
  lemma SearchAnShowsCanon()
    ensures Filter(Library3(), "an") == [Canon]
  {
    assert Fold("an") == "an";
    assert Fold("Aria") == "aria";
    assert Fold("Ballad") == "ballad";
    assert Fold("Canon") == "canon";
    MissingCharacterNoMatch("aria", "an", 1);
    MissingCharacterNoMatch("ballad", "an", 1);
    assert OccursAt("canon", "an", 1);
    ContainsIffOccurs("canon", "an");
    assert !Matches(Aria, "an") && !Matches(Ballad, "an") && Matches(Canon, "an");
    assert KeepMatching([Canon], "an") == [Canon];
    assert KeepMatching([Ballad, Canon], "an") == [Canon];
    assert KeepMatching(Library3(), "an") == [Canon];
  }

  /** An id that does not start with 'i' lacks the "id:" prefix. */
  lemma NoIdPrefix(id: string)
    requires |id| > 0 && id[0] != 'i'
    ensures NormaliseId(id) == IdPrefix + id
  {
  }

  /** Choose "Aria", then "Ballad" before Aria's download finished: the switch
      cancels Aria's file path and starts Ballad's download under its id, which
      already carries the "id:" prefix. */
  lemma SwitchCancelsPrevious()
    ensures var s1 := Select(Initial(Library3()), 0);
      && s1.Ok?
      && s1.value.effects == [StartDownload(0, "id:aria")]
      && var s2 := Select(s1.value.player, 1);
      && s2.Ok?
      && s2.value.effects == [CancelDownload("/Music/Aria.mp3"), StartDownload(1, "id:ballad")]
      && AfterSwitchToBallad(s2.value.player)
  {
    NoIdPrefix("aria");
    assert IsPrefix(IdPrefix, "id:ballad");
    var p0 := Initial(Library3());
    assert p0.lib.filtered == Library3();
    var s1 := Select(p0, 0);
    assert s1.Ok?;
    assert IdPrefix + "aria" == "id:aria";
    assert s1.value.effects == [StartDownload(0, "id:aria")];
    assert s1.value.player.lib.filtered[2] == Canon;
  }

  /** The state reached by choosing "Aria", then "Ballad". Aria is still
      marked as downloading: the switch resets only its progress bar. */
  predicate AfterSwitchToBallad(p: Player) {
    && Consistent(p)
    && p.isSongDownloading
    && p.fetches == [Fetch(0, "id:aria"), Fetch(1, "id:ballad")]
    && p.completed == {}
    && p.selected == Some(1) && p.last == Some(1)
    && |p.lib.filtered| == 3 && p.lib.filtered[2] == Canon
    && p.lib.filtered[0].key == 0 && p.lib.filtered[0].isDownloading
  }

  /** Cancelling does not stop the earlier download, so its completion can
      still arrive after the switch: it clears the global flag while Ballad is
      still downloading, plays Aria, and records Ballad's row as the queue
      position. A switch to "Canon" after that issues no cancel at all, and two
      downloads are then outstanding. */
  lemma StaleCompletionSuppressesCancel()
    ensures var s1 := Select(Initial(Library3()), 0);
      && s1.Ok?
      && var s2 := Select(s1.value.player, 1);
      && s2.Ok?
      && var s3 := Complete(s2.value.player, 0, Some("file:///Aria.mp3"), Tags(Some("Aria"), None));
      && s3.Ok?
      && s3.value.effects == [PlayFile("file:///Aria.mp3")]
      && !s3.value.player.isSongDownloading
      && s3.value.player.currentIndexInQueue == Some(1)
      && 1 in Outstanding(s3.value.player)
      && var s4 := Select(s3.value.player, 2);
      && s4.Ok?
      && s4.value.effects == [StartDownload(2, "id:canon")]
      && Outstanding(s4.value.player) == {1, 2}
  {
    SwitchCancelsPrevious();
    var s2 := Select(Select(Initial(Library3()), 0).value.player, 1);
    LateCompletionThenSwitch(s2.value.player);
  }

  lemma LateCompletionThenSwitch(p: Player)
    requires AfterSwitchToBallad(p)
    ensures var s3 := Complete(p, 0, Some("file:///Aria.mp3"), Tags(Some("Aria"), None));
      && s3.Ok?
      && s3.value.effects == [PlayFile("file:///Aria.mp3")]
      && !s3.value.player.isSongDownloading
      && s3.value.player.currentIndexInQueue == Some(1)
      && 1 in Outstanding(s3.value.player)
      && var s4 := Select(s3.value.player, 2);
      && s4.Ok?
      && s4.value.effects == [StartDownload(2, "id:canon")]
      && Outstanding(s4.value.player) == {1, 2}
  {
    NoIdPrefix("canon");
    assert IdPrefix + "canon" == "id:canon";
    var s3 := Complete(p, 0, Some("file:///Aria.mp3"), Tags(Some("Aria"), None));
    var q := s3.value.player;
    assert q.lib.filtered[2] == Canon;
    assert Outstanding(q) == {1};
    SelectAddsOneDownload(q, 2);
  }

  /** The last row is not adjusted when the list shrinks. Start "Canon" (row
      2), delete "Aria" while it downloads, then choose row 0: cancelling
      reads row 2 of a two-song list and traps. */
  lemma StaleLastRowTraps()
    ensures var s1 := Select(Initial(Library3()), 2);
      && s1.Ok?
      && var p := s1.value.player;
      && Consistent(p) && 0 < RowCount(p.lib)
      && var edited := EditCommitted(p, DeleteStyle, 0);
      && edited.Ok?
      && |edited.value.lib.filtered| == 2
      && Select(edited.value, 0) == Crash(IndexOutOfRange)
  {
  }

  /** In "Aria", "Bolero", "Canon", searching "a" leaves "Aria" and "Canon" on
      screen; deleting "Aria" then shows the two remaining library songs
      where the table expects one row, so the delete ends the app. */
  lemma DeleteDuringSearchAborts()
    ensures DistinctKeys([Aria, Bolero, Canon])
    ensures var lib := SearchTextChanged(Loaded([Aria, Bolero, Canon]), "a");
      && lib.filtered == [Aria, Canon]
      && CommitEdit(lib, DeleteStyle, 0) == Crash(RowCountMismatch)
  {
    SearchAShowsAriaAndCanon();
    var lib := SearchTextChanged(Loaded([Aria, Bolero, Canon]), "a");
    assert lib == Library([Aria, Bolero, Canon], [Aria, Canon]);
  }

  /** Searching "a" in "Aria", "Bolero", "Canon" keeps "Aria" and "Canon". */
  lemma SearchAShowsAriaAndCanon()
    ensures KeepMatching([Aria, Bolero, Canon], "a") == [Aria, Canon]
  {
    assert Fold("a") == "a";
    assert Fold("Aria") == "aria";
    assert Fold("Bolero") == "bolero";
    assert Fold("Canon") == "canon";
    MissingCharacterNoMatch("bolero", "a", 0);
    assert Contains("anon", "a");
    assert Contains("canon", "a");
    assert Matches(Aria, "a") && !Matches(Bolero, "a") && Matches(Canon, "a");
    assert KeepMatching([Canon], "a") == [Canon];
    assert KeepMatching([Bolero, Canon], "a") == [Canon];
    assert KeepMatching([Aria, Bolero, Canon], "a") == [Aria, Canon];
  }
}
