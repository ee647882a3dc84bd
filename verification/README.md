# Music library and playlists — a Dafny model

This project models the core of a small music player written in Java: a list with one
selected position, songs with ratings and play counts, the music library that owns the
songs and tells its observers about every change, the three kinds of playlist built over
the library (a manual one and two bounded "smart" ones), and the list of playlists. It
proves properties of that model.

The model follows the code as written, including where it departs from its own documentation:

- `add` on the selection list does not select the new element.
- `remove` does not clear the selected index, which can then dangle past the end.
- Raising or lowering a rating does not saturate.
- A playlist's `remove` always answers false.
- `processRemoved` always works on index 1.
- The most-liked playlist's scan starts its minimum at "not rated".
- The list of playlists reports only its last playlist as "playing".

Where the code departs from what it evidently intends, the model has both versions (see
"## Findings"). The playlist classes use the version as written. The corrected
definitions sit beside them in module `PlaylistSpec`, with the intended properties proved
about them.

Files and modules:

- `SelectionList.dfy` (module `SelectionLists`): the list with selection. The value
  `Sel(elems, selected)` and the functions that say what each operation does to it. Class
  `SelectionList` has a sequence field and a raw integer index. Reading the selected element
  needs a valid index as a precondition; there is no class invariant.
- `Rate.dfy` (module `Rates`): ratings 0..5 and their comparison.
- `SongMetaInfo.dfy` (module `MetaInfo`): the tag record and its text rendering.
- `Song.dfy` (module `Songs`): class `Song`. The play counter and the rating are mutable
  fields. Membership in lists is by object identity, as in the source (songs have no
  `equals`).
- `Player.dfy` (module `Devices`): the playback device. It is reduced to the ordered log of
  load/play/stop calls it receives. Its state reports (ENDED, STOPED) are inputs to the
  listeners' `OnPlayerStateChange`.
- `MusicLibrary.dfy` (module `Library`): class `MusicLibrary`. Emitting an event appends
  `Added`, `Removed` or `Rated` to the field `events`.
- `PlaylistSpec.dfy` (module `PlaylistSpec`): what each playlist operation does to the
  playlist's list value, as functions. It also holds the eviction policies, the processing
  of a removed song, and the lemmas about them.
- `Playlist.dfy` (module `Playlists`): class `Playlist`. The field `kind` (Manual,
  MostLiked, MostRecentlyAdded) dispatches the operations a subclass overrides. Each
  operation is proved to change the list as the matching `PlaylistSpec` function says.
- `PlaylistList.dfy` (module `PlaylistLists`): class `PlaylistList`.

## Model

| member | source | states |
|---|---|---|
| SelectionLists.NextIndex | main/src/util/adts/AbsQListWithSelection.java:59-64 | from an index below size-1 steps forward by one, otherwise gives -1 (no wrap); from -1 on a non-empty list gives 0; an index in -1..size lands in -1..size-1 |
| SelectionLists.PreviousIndex | main/src/util/adts/AbsQListWithSelection.java:70-75 | steps back by one from an index above 0, otherwise gives -1; an index in -1..size lands in -1..size-1 |
| SelectionLists.RemoveAt | main/src/util/adts/ArrayQListWithSelection.java:46-49 | deleting position i: one element fewer, the prefix before i kept, the suffix shifted down by one, the multiset loses exactly that element |
| SelectionLists.RemoveSelected | main/src/util/adts/ArrayQListWithSelection.java:46-49 | with nothing selected nothing changes; otherwise the selected element goes (size-1, multiset minus that element) and the selected index is left as it was |
| SelectionLists.RemoveLastSelectedDangles | main/src/util/adts/ArrayQListWithSelection.java:46-49 | removing the selected last element leaves the index equal to the new size, pointing past the end |
| SelectionLists.SelectionList.constructor | main/src/util/adts/AbsQListWithSelection.java:19-21 | a new list is empty and nothing is selected (index -1) |
| SelectionLists.SelectionList.SomeSelected | main/src/util/adts/AbsQListWithSelection.java:40-42 | some element is selected exactly when the index is not -1 |
| SelectionLists.SelectionList.IndexSelected | main/src/util/adts/AbsQListWithSelection.java:51-53 | the raw index, -1 when nothing is selected |
| SelectionLists.SelectionList.Size | main/src/util/adts/ArrayQListWithSelection.java:57-59 | the number of elements |
| SelectionLists.SelectionList.Get | main/src/util/adts/ArrayQListWithSelection.java:69-71 | needs 0 <= i < size; gives the i-th element in insertion order |
| SelectionLists.SelectionList.GetSelected | main/src/util/adts/ArrayQListWithSelection.java:90-92 | needs a selected index inside the list; is `Get(IndexSelected())` |
| SelectionLists.SelectionList.Select | main/src/util/adts/AbsQListWithSelection.java:30-32 | stores any index without a bounds check; -1 clears the selection |
| SelectionLists.SelectionList.Add | main/src/util/adts/ArrayQListWithSelection.java:34-36 | appends at the end and leaves the selected index unchanged (the element is not selected) |
| SelectionLists.SelectionList.Remove | main/src/util/adts/ArrayQListWithSelection.java:46-49 | the new value is `RemoveSelected` of the old one |
| SelectionLists.SelectionList.Next | main/src/util/adts/AbsQListWithSelection.java:59-64 | the index becomes `NextIndex` of the old index; the elements are untouched |
| SelectionLists.SelectionList.Previous | main/src/util/adts/AbsQListWithSelection.java:70-75 | the index becomes `PreviousIndex` of the old index; the elements are untouched |
| Rates.Unrated | main/src/domain/core/Rate.java:20-22 | the default rating has value 0 and differs from every rating built from 1..5 |
| Rates.OfValue | main/src/domain/core/Rate.java:30-32 | needs 1 <= v <= 5 and stores v unchanged (no clamping) |
| Rates.Compare | main/src/domain/core/Rate.java:42-44 | gives -1, 0 or 1 with the sign of the difference of the stored values |
| Rates.EqualsRate | main/src/domain/core/Rate.java:51-53 | holds exactly when the two ratings are equal |
| Rates.CompareIsTotalOrder | main/src/domain/core/Rate.java:42-44 | the comparison is antisymmetric, transitive and total |
| MetaInfo.Rendered | main/src/domain/core/SongMetaInfo.java:36-67 | the rendering starts with "["; without artists it ends with ", ["; with artists it ends with "]]" |
| MetaInfo.ArtistsUpToIsJoin | main/src/domain/core/SongMetaInfo.java:58-64 | after n rounds the loop has written the first n artists joined by "; ", then "; " or, after the last artist, "]]" |
| MetaInfo.RenderedShape | main/src/domain/core/SongMetaInfo.java:37-64 | the rendering is "[", title, ", ", album, ", ", genre, ", [" and the joined artists plus "]]"; a missing tag is written "unkown" |
| MetaInfo.ToString | main/src/domain/core/SongMetaInfo.java:36-67 | building the text piece by piece, with a loop over the artists, gives `Rendered(m)` |
| Songs.Decimal | main/src/domain/core/Song.java:162-164 | the text of a number is a non-empty string of digits |
| Songs.DecimalRoundTrip | main/src/domain/core/Song.java:162-164 | the decimal text of n reads back as n |
| Songs.Raised | main/src/domain/core/Song.java:69-71 | needs a value below 5; gives value+1, which compares greater |
| Songs.Lowered | main/src/domain/core/Song.java:77-79 | needs a value above 1; gives value-1, which compares smaller |
| Songs.RaiseThenLowerRestores | main/src/domain/core/Song.java:69-79 | raising and then lowering a rating in 1..4 gives the same rating back |
| Songs.Song.constructor | main/src/domain/core/Song.java:28-33 | a new song keeps its tags and file name, has never been played and is not rated |
| Songs.Song.IncTimesPlayed | main/src/domain/core/Song.java:39-41 | the play count grows by exactly one; nothing else changes |
| Songs.Song.IncRating | main/src/domain/core/Song.java:69-71 | needs a rating below 5; the rating becomes `Raised` of the old one and nothing else changes |
| Songs.Song.DecRating | main/src/domain/core/Song.java:77-79 | needs a rating above 1; the rating becomes `Lowered` of the old one and nothing else changes |
| Songs.Song.EqualsSong | main/src/domain/core/Song.java:136-140 | returns (does not throw) unless every field before a missing title, genre or album of this song matched; holds exactly when file name, rating, play count and all tags are equal |
| Songs.Song.ToString | main/src/domain/core/Song.java:159-166 | the text starts with the tag rendering and ends with the decimal play count; it is `SongText` of the song's fields, whose middle parts `SongTextReadsBack` states |
| Songs.SongTextReadsBack | main/src/domain/core/Song.java:159-166 | the text is the tag rendering, " --- ", the rating, " -- " and the play count, and both numbers read back from their positions |
| Songs.EqualsSongIsEquivalence | main/src/domain/core/Song.java:136-140 | a song compares with itself exactly when all its tags are present, and is then equal to itself; songs that compare both ways agree |
| Songs.EqualsSongStopsAtMismatch | main/src/domain/core/Song.java:136-140 | songs that differ in file name, rating or play count compare unequal without reaching the tags, whatever tags are missing |
| Library.MusicLibrary.constructor | main/src/domain/core/MusicLibrary.java:37-43 | a new library is empty, has nothing selected, plays nothing and has emitted nothing |
| Library.MusicLibrary.IsPlaying | main/src/domain/core/MusicLibrary.java:64-66 | true exactly when a song is playing (the field is set by `play` and cleared by `stop`) |
| Library.MusicLibrary.Play | main/src/domain/core/MusicLibrary.java:51-57 | needs a selected song; stops first if something plays, then loads and plays the selected song, which becomes the playing one |
| Library.MusicLibrary.Stop | main/src/domain/core/MusicLibrary.java:73-76 | nothing plays afterwards and the device gets one stop call |
| Library.MusicLibrary.IncRateSelected | main/src/domain/core/MusicLibrary.java:86-89 | the selected song's rating goes up by one and exactly one Rated event for it is emitted |
| Library.MusicLibrary.DecRateSelected | main/src/domain/core/MusicLibrary.java:99-102 | the selected song's rating goes down by one and exactly one Rated event for it is emitted |
| Library.MusicLibrary.GetSongs | main/src/domain/core/MusicLibrary.java:127-134 | gives all songs in library order |
| Library.MusicLibrary.OnPlayerStateChange | main/src/domain/core/MusicLibrary.java:173-180 | no effect when nothing plays; ENDED counts one more play of the playing song (not the selected one); STOPED stops; the playing song's rating never changes, nor its play count except on ENDED |
| Library.MusicLibrary.Select | main/src/domain/core/MusicLibrary.java:191-193 | needs 0 <= i <= size as documented; selects i |
| Library.MusicLibrary.Add | main/src/domain/core/MusicLibrary.java:204-207 | appends the song (selection unchanged) and emits exactly one Added event for it |
| Library.MusicLibrary.Next | main/src/domain/core/MusicLibrary.java:241-246 | the index becomes `NextIndex` of the old index |
| Library.MusicLibrary.Previous | main/src/domain/core/MusicLibrary.java:258-263 | the index becomes `PreviousIndex` of the old index |
| Library.MusicLibrary.Remove | main/src/domain/core/MusicLibrary.java:273-279 | with a selection, deletes that song, keeps the index and emits one Removed event with the song selected before; without one, no change and no event |
| Library.MusicLibrary.EqualsLibrary | main/src/domain/core/MusicLibrary.java:307-319 | true exactly when both libraries have the same size and are pairwise equal songs; libraries of different sizes compare no songs, so only equal-sized ones need comparable pairs |
| PlaylistSpec.AddIfAbsent | main/src/domain/playlists/AbsPlaylist.java:102-109 | an absent song is appended and selected at the last position, with the earlier songs unchanged; a present one changes nothing; no duplicate is ever introduced |
| PlaylistSpec.RemoveAutomatic | main/src/domain/playlists/SmartPlaylist.java:41-49 | whether or not `index` is the selected one, exactly the element at `index` is removed and the selected index keeps its value |
| PlaylistSpec.Reinserted | main/src/domain/playlists/AbsPlaylist.java:159-176 | the element moved from `from` to `to`: positions before `to` and after `from` unchanged, those between shifted down by one, same size and multiset |
| PlaylistSpec.MoveUpSelected | main/src/domain/playlists/AbsPlaylist.java:159-176 | the selected element is now at i and selected there; size and multiset are preserved |
| PlaylistSpec.MoveUpKeepsDistinct | main/src/domain/playlists/AbsPlaylist.java:159-176 | moving a song up keeps a playlist free of duplicates |
| PlaylistSpec.RemoveAtKeepsDistinct | main/src/domain/playlists/SmartPlaylist.java:41-49 | removing a position keeps a duplicate-free list duplicate-free, and the removed song is gone |
| PlaylistSpec.FoundIndex | main/src/domain/playlists/AbsPlaylist.java:308-316 | the index the scan computes is 1 when the song is found, wherever it is, and 0 otherwise |
| PlaylistSpec.PurgeManual | main/src/domain/playlists/AbsPlaylist.java:305-327 | as written in a manual playlist: absent song, no change; with two or more songs the song at position 1 is deleted and the index restored; with one song, index 1 is selected and the removal raises |
| PlaylistSpec.PurgeSmart | main/src/domain/playlists/AbsPlaylist.java:305-327 | as written in a smart playlist: absent song, no change; otherwise the policy's eviction position is deleted instead, and the index is restored |
| PlaylistSpec.PurgeManualRemovesWrongSong | main/src/domain/playlists/AbsPlaylist.java:311-325 | removing a from [a, b] leaves [a] |
| PlaylistSpec.PurgeManualRaisesOnSingleSong | main/src/domain/playlists/AbsPlaylist.java:318-325 | removing the only song of a manual playlist raises and keeps the song |
| PlaylistSpec.IndexOf | main/src/domain/playlists/AbsPlaylist.java:308-316 | the first position holding the song |
| PlaylistSpec.Purge | main/src/domain/playlists/AbsPlaylist.java:305-327 | corrected: exactly one occurrence of the removed song goes, the selected index is kept, and an absent song changes nothing |
| PlaylistSpec.PurgeRemovesTheSong | main/src/domain/playlists/AbsPlaylist.java:19-20 | corrected: afterwards the song is not in the playlist, every other song still is, and there are still no duplicates |
| PlaylistSpec.LowestScan | main/src/domain/playlists/MostLikedSongsPlaylist.java:71-87 | the index the scan has recorded after n ratings is a position below n (0 before any) |
| PlaylistSpec.LowestRatedIndex | main/src/domain/playlists/MostLikedSongsPlaylist.java:71-87 | a position of a non-empty playlist |
| PlaylistSpec.LowestScanFinds | main/src/domain/playlists/MostLikedSongsPlaylist.java:77-84 | while no rating so far is <= 0 the minimum is still 0 and the index 0; otherwise the minimum is the smallest rating and the index its last occurrence |
| PlaylistSpec.LowestRatedIndexIs | main/src/domain/playlists/MostLikedSongsPlaylist.java:71-87 | with all ratings positive the result is 0; if some rating is <= 0 it is the last position of the smallest rating |
| PlaylistSpec.LowestRatedIndexEvictsBest | main/src/domain/playlists/MostLikedSongsPlaylist.java:71-87 | on ratings [5, 1, 1, 1, 1] the scan picks position 0, the best-rated song, where the lowest is at 1 |
| PlaylistSpec.MinRatedIndex | main/src/domain/playlists/MostLikedSongsPlaylist.java:71-87 | corrected: the first position whose rating is the smallest |
| PlaylistSpec.MostLikedAdd | main/src/domain/playlists/MostLikedSongsPlaylist.java:44-48 | at most 5 songs afterwards, the song is there, and a duplicate-free playlist stays duplicate-free |
| PlaylistSpec.MostLikedAddOutcome | main/src/domain/playlists/MostLikedSongsPlaylist.java:44-48 | a new song ends last and selected; a song already there that survives eviction is not appended again, so a full playlist shrinks to 4 |
| PlaylistSpec.MostLikedEvictsOldestWhenAllRated | main/src/domain/playlists/MostLikedSongsPlaylist.java:44-47 | when every song is rated 1 or more, adding to a full playlist drops the oldest, whatever the ratings |
| PlaylistSpec.Window | main/src/domain/playlists/MostRecentlyAddedSongsPlaylist.java:18 | at most the last 5 elements |
| PlaylistSpec.RecentAdd | main/src/domain/playlists/MostRecentlyAddedSongsPlaylist.java:42-46 | at most 5 songs, the song is there; a new song is appended last and selected after the oldest is evicted from a full playlist |
| PlaylistSpec.RecentAddAllKeepsLastN | main/src/domain/playlists/MostRecentlyAddedSongsPlaylist.java:42-46 | adding distinct new songs one after another leaves exactly the last 5 of all songs, in order (first in, first out) |
| PlaylistSpec.WindowOfSuffix | main/src/domain/playlists/MostRecentlyAddedSongsPlaylist.java:43-45 | dropping songs that would fall out of the last 5 anyway does not change the last 5 |
| PlaylistSpec.DistinctSuffix | main/src/domain/playlists/MostRecentlyAddedSongsPlaylist.java:59-61 | a suffix of a duplicate-free list is duplicate-free |
| PlaylistSpec.RecentAddStep | main/src/domain/playlists/MostRecentlyAddedSongsPlaylist.java:42-46 | one addition of a new song, followed by the songs still to come, is a suffix of the whole stream that keeps its last 5 |
| Playlists.Ratings | main/src/domain/playlists/MostLikedSongsPlaylist.java:77-78 | the rating values of the songs in order, each in 0..5 |
| Playlists.Playlist.NewManual | main/src/domain/playlists/ManualPlaylist.java:22-24 | a new manual playlist has the given name, is empty, has nothing selected and nothing played |
| Playlists.Playlist.NewMostLiked | main/src/domain/playlists/MostLikedSongsPlaylist.java:27-29 | "Most Liked", empty, nothing selected or played |
| Playlists.Playlist.NewMostRecentlyAdded | main/src/domain/playlists/MostRecentlyAddedSongsPlaylist.java:25-27 | "Most Recently Added", empty, nothing selected or played |
| Playlists.Playlist.EvictIndexOf | main/src/domain/playlists/MostRecentlyAddedSongsPlaylist.java:59-61 | a position of a non-empty playlist; 0 (the oldest) in the most recently added playlist |
| Playlists.Playlist.InPlaylist | main/src/domain/playlists/AbsPlaylist.java:353-361 | true exactly when the song is in the playlist (by reference) |
| Playlists.Playlist.BaseAdd | main/src/domain/playlists/AbsPlaylist.java:102-109 | the list becomes `AddIfAbsent` of the old one; the answer is true exactly when the song was absent |
| Playlists.Playlist.BaseRemove | main/src/domain/playlists/AbsPlaylist.java:121-131 | the list becomes `RemoveSelected` of the old one and the answer is always false |
| Playlists.Playlist.RemoveAutomatic | main/src/domain/playlists/SmartPlaylist.java:41-49 | the select/remove/select sequence gives `PlaylistSpec.RemoveAutomatic` of the old list |
| Playlists.Playlist.ScanLowestRated | main/src/domain/playlists/MostLikedSongsPlaylist.java:71-87 | the loop gives `LowestRatedIndex` of the songs' ratings |
| Playlists.Playlist.Remove | main/src/domain/playlists/MostLikedSongsPlaylist.java:61-64 | manual: raises exactly when the index is past the end (state unchanged), otherwise deletes the selected song and answers false; smart: raises exactly when the playlist is empty (position 0 selected), otherwise removes the eviction position, keeps the index and answers whether nothing is selected; no duplicates and at most 5 songs are kept |
| Playlists.Playlist.Add | main/src/domain/playlists/MostRecentlyAddedSongsPlaylist.java:42-46 | manual: `AddIfAbsent`, true exactly when added; most liked: `MostLikedAdd`; most recently added: `RecentAdd`; each answers as its code computes, and the invariant is kept |
| Playlists.Playlist.SmartAdd | main/src/domain/playlists/MostLikedSongsPlaylist.java:44-48 | evict while full, then add if absent: `MostLikedAdd` or `RecentAdd` of the old list |
| Playlists.Playlist.EvictWhileFull | main/src/domain/playlists/MostLikedSongsPlaylist.java:45-46 | the loop evicts exactly once from a full playlist and never from one with fewer than 5 songs |
| Playlists.Playlist.MoveUpSelected | main/src/domain/playlists/AbsPlaylist.java:159-176 | manual: the list becomes `MoveUpSelected` of the old one and the answer is true; smart (SmartPlaylist.java:57-59): false and no change |
| Playlists.Playlist.Reinsert | main/src/domain/playlists/AbsPlaylist.java:164-170 | the copying loop gives the remaining songs with the moved one inserted before position i, in a new list with nothing selected |
| Playlists.Playlist.Select | main/src/domain/playlists/AbsPlaylist.java:142-144 | needs 0 <= i < size; selects i and keeps the songs |
| Playlists.Playlist.Next | main/src/domain/playlists/AbsPlaylist.java:200-205 | the index becomes `NextIndex` of the old one |
| Playlists.Playlist.Previous | main/src/domain/playlists/AbsPlaylist.java:217-222 | the index becomes `PreviousIndex` of the old one |
| Playlists.Playlist.Stop | main/src/domain/playlists/AbsPlaylist.java:267-269 | only stops the library; the playlist's own playing song is kept |
| Playlists.Playlist.IsPlaying | main/src/domain/playlists/AbsPlaylist.java:242-244 | true exactly when a song was played through the playlist (the field is never cleared for a playlist) |
| Playlists.Playlist.Play | main/src/domain/playlists/AbsPlaylist.java:253-259 | needs a selected song; stops the library first if the playlist ever played, then loads and plays the selected song, which becomes the playing one |
| Playlists.Playlist.OnPlayerStateChange | main/src/domain/playlists/AbsPlaylist.java:286-298 | no effect before the playlist played; ENDED counts a play of the playing song, steps to the next song and plays it, or stops at the end; STOPED stops; the playing song's rating never changes, nor its play count except on ENDED |
| Playlists.Playlist.FindRemoved | main/src/domain/playlists/AbsPlaylist.java:307-316 | the scan finds the song exactly when it is in the playlist, and computes the index `FoundIndex` (1 when found) |
| Playlists.Playlist.ProcessRemoved | main/src/domain/playlists/AbsPlaylist.java:305-327 | the loop and the select/remove/select give `PurgeManual` (manual) or `PurgeSmart` with the policy's position (smart) |
| Playlists.Playlist.ProcessEvent | main/src/domain/playlists/MostLikedSongsPlaylist.java:96-101 | Removed is purged in every kind; Rated adds to the most liked, Added to the most recently added (MostRecentlyAddedSongsPlaylist.java:71-76); every other event is ignored (ManualPlaylist.java:32-35) |
| PlaylistLists.CountPlaying | main/src/domain/playlists/PlaylistList.java:65-69 | how many playlists have played: at most one per playlist |
| PlaylistLists.CountPlayingZero | main/src/domain/playlists/PlaylistList.java:65-69 | the count is 0 exactly when no playlist has played |
| PlaylistLists.Stops | main/src/domain/playlists/PlaylistList.java:65-69 | the calls `stop` makes: as many stop calls as asked for |
| PlaylistLists.LastPlayingMissesEarlierPlaylists | main/src/domain/playlists/PlaylistList.java:51-58 | with a playing playlist followed by an idle one, the last-wins answer is false although one plays |
| PlaylistLists.PlaylistList.constructor | main/src/domain/playlists/PlaylistList.java:25-31 | exactly two new empty playlists, most liked then most recently added, over the library; nothing selected |
| PlaylistLists.PlaylistList.Play | main/src/domain/playlists/PlaylistList.java:38-44 | needs a selected playlist; if it has a selected song, a playlist that played is stopped (and stopped again by its own play), then the song is loaded and played; otherwise nothing happens |
| PlaylistLists.PlaylistList.IsPlaying | main/src/domain/playlists/PlaylistList.java:51-58 | the answer of the last playlist, false when there are none |
| PlaylistLists.PlaylistList.IsAnyPlaying | main/src/domain/playlists/PlaylistList.java:46-50 | corrected: true exactly when some playlist is playing |
| PlaylistLists.PlaylistList.StopEach | main/src/domain/playlists/PlaylistList.java:66-69 | the loop over the playlists makes one stop call per playlist that has played, and the library stops playing if there was one |
| PlaylistLists.PlaylistList.StopIfPlaying | main/src/domain/playlists/PlaylistList.java:67-69 | a playlist that has played is stopped: one stop call and the library no longer plays; an idle one is left alone |
| PlaylistLists.PlaylistList.Stop | main/src/domain/playlists/PlaylistList.java:65-69 | one stop call per playlist that has played; the library stops playing if there was one |
| PlaylistLists.PlaylistList.Add | main/src/domain/playlists/PlaylistList.java:121-123 | appends the playlist without selecting it |
| PlaylistLists.PlaylistList.Remove | main/src/domain/playlists/PlaylistList.java:173-176 | no change without a selection; otherwise the selected playlist is deleted and the index kept |
| PlaylistLists.PlaylistList.Select | main/src/domain/playlists/PlaylistList.java:111-113 | needs 0 <= i < size; selects i |
| PlaylistLists.PlaylistList.Next | main/src/domain/playlists/PlaylistList.java:149-154 | the index becomes `NextIndex` of the old one |
| PlaylistLists.PlaylistList.Previous | main/src/domain/playlists/PlaylistList.java:160-165 | the index becomes `PreviousIndex` of the old one |

## Left out

- The device itself: audio decoding, its threads, and the registration of listeners. The player is the call log `Devices.Player.calls`. Each listener's reaction to a state report is a method called with the report. The order in which the library and the playlists receive one report is not modelled.
- The observer machinery (`AbsSubject`, `registerListener`, `emitEvent`): the library appends each event to `events`. A playlist reacts through `ProcessEvent` when it is given an event. Delivery to every registered playlist, and its order, is not modelled.
- Metadata extraction from MP3 files, and the controllers and application wiring (`MusicLibraryController`, `PlaylistListController`, `LEITunes`). They are file I/O through a foreign library, or glue that only forwards calls.
- Regular-expression matching (`SongMetaInfo.matches`, `Song.matches`, `MusicLibrary.getMatches`): thin wrappers over the Java regex library.
- The display-only `toString` of the library, the playlists and the list of playlists. Iterators, and getters that only forward to the list (`size`, `get`, `getSelected`, `someSelected`, `getIndexSelected`, `getName`, `getPlayer`), are covered by the selection-list members they forward to.
- The `instanceof Song` check in `AbsPlaylist.add`: every song in the model is a `Song`. A null artists list is not modelled; the list is always a sequence. A null name inside the list, which the rendering would write as "null", is not modelled either: every name is a string.
- Songs.Song.IncTimesPlayed: the play counter is unbounded. The 32-bit `int` counter of the source would wrap after 2^31-1 plays.
- Songs.Song.IncRating and Songs.Song.DecRating need a rating below 5 and above 1, because the 1..5 rating constructor demands it. The saturation the library's documentation promises at 5 and 1 is not in the code, and is not claimed.
- Library.MusicLibrary.IncRateSelected and Library.MusicLibrary.DecRateSelected: same preconditions as above, for the same reason.
- Playlists.Playlist.Remove, Add, ProcessRemoved and ProcessEvent assume the invariant `Valid`: no duplicate songs, a selected index of at least -1, and at most 5 songs in a smart playlist. Every operation of the model keeps it. A playlist whose index was set below -1 by other means is not covered.
- PlaylistLists.PlaylistList.Play and Stop assume that every playlist in the list plays through one library, as the application builds them.
- When `processRemoved` raises in a manual playlist, the model returns `raised = true` with the state at the moment of the exception. It does not model the exception propagating through the library's event delivery.

## Findings

| source | as written | input that shows it | evidently intended | confidence | as-written member | corrected member |
|---|---|---|---|---|---|---|
| main/src/domain/playlists/AbsPlaylist.java:308-316 | `index` is incremented only on the match, so the removal always works on position 1 | a manual playlist [a, b] and the library removes a: b is deleted and a stays; a manual playlist [a] raises | delete the removed song's own position | high (not executed) | PlaylistSpec.PurgeManualRemovesWrongSong | PlaylistSpec.PurgeRemovesTheSong |
| main/src/domain/playlists/MostLikedSongsPlaylist.java:72-80 | the running minimum starts at the "not rated" value 0 and moves on `<=`; when every song in the playlist has been rated (1..5), as songs that arrive through a rating event are, the scan always answers 0 (a song added by hand and never rated counts as 0, and then the last such song goes) | a full playlist rated [5, 1, 1, 1, 1] evicts the song rated 5 | evict the lowest-rated song | high (not executed) | PlaylistSpec.LowestRatedIndexEvictsBest | PlaylistSpec.MinRatedIndex |
| main/src/domain/playlists/PlaylistList.java:51-58 | each playlist overwrites the answer, so only the last one counts | two playlists, the first playing and the second idle: the answer is false | report whether any playlist is playing | high (not executed) | PlaylistLists.LastPlayingMissesEarlierPlaylists | PlaylistLists.PlaylistList.IsAnyPlaying |
