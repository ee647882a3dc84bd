/**
  Playlists over a music library: a named selection list of distinct songs, the song played
  through the playlist, and the reaction to the library's events and the device's state changes.

  The three kinds of playlist share one class; the operations a kind overrides dispatch on
  `kind`. A manual playlist is edited by hand; the two smart playlists (most liked, most
  recently added) hold at most N = 5 songs and fill and evict themselves.
*/
module Playlists {
  import opened SelectionLists
  import opened Rates
  import opened Songs
  import opened Devices
  import opened Library
  import opened PlaylistSpec

  datatype Kind = Manual | MostLiked | MostRecentlyAdded

  /** The stored rating values of the songs `s`, in order. */
  function Ratings(s: seq<Song>): (r: seq<int>)
    reads s
    ensures |r| == |s|
    ensures forall k :: 0 <= k < |s| ==> r[k] == s[k].rate.value && NoRate <= r[k] <= MaxRate
  {
    if |s| == 0 then [] else Ratings(s[..|s| - 1]) + [s[|s| - 1].rate.value]
  }

  /**
    A playlist of songs of one library. The list operations throw when a manual playlist's
    index dangles past the end. Where a caller can check that beforehand (`remove`) it is a
    precondition; inside `processRemoved` the program itself moves the index there, so that
    throw is a real outcome and is returned as `raised`.
  */
  class Playlist {
    const name: string
    const kind: Kind
    const library: MusicLibrary
    var list: SelectionList<Song>
    var playing: Song?

    /**
      What every operation keeps: the selected index is -1 or a position (possibly one past a
      removal), no song appears twice, and a smart playlist holds at most N songs.
    */
    ghost predicate Valid()
      reads this, list
    {
      list.selected >= -1 && Distinct(list.elems) && (kind != Manual ==> |list.elems| <= N)
    }

    /** A new manual playlist with the given name: empty, nothing selected, nothing played. */
    constructor NewManual(name: string, library: MusicLibrary)
      ensures this.name == name && kind == Manual && this.library == library
      ensures fresh(list) && list.elems == [] && list.selected == -1 && playing == null
      ensures Valid()
    {
      this.name := name;
      kind := Manual;
      this.library := library;
      list := new SelectionList();
      playing := null;
    }

    /** The "Most Liked" playlist: empty, nothing selected, nothing played. */
    constructor NewMostLiked(library: MusicLibrary)
      ensures name == "Most Liked" && kind == MostLiked && this.library == library
      ensures fresh(list) && list.elems == [] && list.selected == -1 && playing == null
      ensures Valid()
    {
      name := "Most Liked";
      kind := MostLiked;
      this.library := library;
      list := new SelectionList();
      playing := null;
    }

    /** The "Most Recently Added" playlist: empty, nothing selected, nothing played. */
    constructor NewMostRecentlyAdded(library: MusicLibrary)
      ensures name == "Most Recently Added" && kind == MostRecentlyAdded && this.library == library
      ensures fresh(list) && list.elems == [] && list.selected == -1 && playing == null
      ensures Valid()
    {
      name := "Most Recently Added";
      kind := MostRecentlyAdded;
      this.library := library;
      list := new SelectionList();
      playing := null;
    }

    /** The position a smart playlist evicts from the songs `elems`: the lowest rated or the oldest. */
    function EvictIndexOf(elems: seq<Song>): (i: int)
      reads this, elems
      ensures 0 <= i && (|elems| > 0 ==> i < |elems|)
      ensures kind == MostRecentlyAdded ==> i == 0
    {
      if kind == MostLiked then LowestRatedIndex(Ratings(elems)) else 0
    }

    /** Whether `s` is in the playlist, by reference. */
    method InPlaylist(s: Song) returns (found: bool)
      ensures found <==> s in list.elems
    {
      found := false;
      var j := 0;
      while j < list.Size() && !found
        invariant 0 <= j <= |list.elems|
        invariant found <==> s in list.elems[..j]
      {
        found := found || list.Get(j) == s;
        j := j + 1;
      }
      assert list.elems[..|list.elems|] == list.elems;
    }

    /** The base `add`: append and select a song that is not there yet; report whether it was added. */
    method BaseAdd(song: Song) returns (added: bool)
      modifies list
      ensures list.Value() == AddIfAbsent(old(list.Value()), song)
      ensures added <==> song !in old(list.elems)
    {
      var ogSize := list.Size();
      var present := InPlaylist(song);
      if !present {
        list.Add(song);
        list.Select(list.Size() - 1);
      }
      added := list.Size() == ogSize + 1 && list.SomeSelected() && list.IndexSelected() == list.Size() - 1;
    }

    /**
      The base `remove`: delete the selected song, if any. The index is not cleared, so the
      result, which is meant to report a removal, is always false.
    */
    method BaseRemove() returns (removed: bool)
      requires list.selected == -1 || 0 <= list.selected < |list.elems|
      modifies list
      ensures list.Value() == RemoveSelected(old(list.Value()))
      ensures !removed
    {
      removed := false;
      if list.SomeSelected() {
        list.Remove();
        if !list.SomeSelected() {
          removed := true;
        }
      }
    }

    /** removeAutomatic: delete the song at `index` and put the selected index back as it was. */
    method RemoveAutomatic(index: int)
      requires 0 <= index < |list.elems|
      modifies list
      ensures list.Value() == PlaylistSpec.RemoveAutomatic(old(list.Value()), index)
    {
      var ogSelected := list.IndexSelected();
      if ogSelected != index {
        list.Select(index);
        var _ := BaseRemove();
        list.Select(ogSelected);
      } else {
        var _ := BaseRemove();
      }
    }

    /** getLowestRatedIndex: the scan with a running minimum that starts at "not rated" and moves on `<=`. */
    method ScanLowestRated() returns (index: int)
      ensures index == LowestRatedIndex(Ratings(list.elems))
    {
      var lowestRate := Unrated();
      index := 0;
      var i := 0;
      while i < list.Size()
        invariant 0 <= i <= |list.elems|
        invariant (lowestRate.value, index) == LowestScan(Ratings(list.elems), i)
      {
        var currentRate := list.Get(i).rate;
        if Compare(currentRate, lowestRate) <= 0 {
          lowestRate := currentRate;
          index := i;
        }
        i := i + 1;
      }
    }

    /**
      `remove()`: a manual playlist deletes the selected song (and answers false); a smart one
      evicts by its policy and answers whether nothing is selected afterwards. The list throws
      when a manual playlist's index dangles past the end, and when a smart playlist is empty
      (it selects position 0 and removes there); `raised` reports that, with the state the
      exception leaves.
    */
    method Remove() returns (removed: bool, raised: bool)
      requires Valid()
      modifies list
      ensures Valid()
      ensures kind == Manual ==> !removed && (raised <==> old(list.selected) >= |old(list.elems)|)
      ensures kind == Manual && raised ==> list.Value() == old(list.Value())
      ensures kind == Manual && !raised ==> list.Value() == RemoveSelected(old(list.Value()))
      ensures kind != Manual ==> (raised <==> |old(list.elems)| == 0)
      ensures kind != Manual && raised ==> list.Value() == Sel([], 0) && !removed
      ensures kind != Manual && !raised ==>
                list.Value() == PlaylistSpec.RemoveAutomatic(old(list.Value()), old(EvictIndexOf(list.elems)))
                && (removed <==> list.selected == -1)
    {
      raised := false;
      if kind == Manual {
        if list.IndexSelected() >= list.Size() {
          return false, true;
        }
        removed := BaseRemove();
        if old(list.selected) != -1 {
          RemoveAtKeepsDistinct(old(list.elems), old(list.selected));
        }
      } else {
        var index := 0;
        if kind == MostLiked {
          index := ScanLowestRated();
        }
        if list.Size() == 0 {
          list.Select(index);
          return false, true;
        }
        RemoveAtKeepsDistinct(list.elems, index);
        RemoveAutomatic(index);
        removed := !list.SomeSelected();
      }
    }

    /**
      `add(song)`. A manual playlist appends and selects an absent song and answers whether it
      did. A smart playlist first evicts while it holds N songs, then does the same; the most
      liked one answers whether `song` is now the last and selected song, the most recently
      added one whether the last song is selected.
    */
    method Add(song: Song) returns (ok: bool)
      requires Valid()
      modifies list
      ensures Valid()
      ensures kind == Manual ==>
                list.Value() == AddIfAbsent(old(list.Value()), song) && (ok <==> song !in old(list.elems))
      ensures kind == MostLiked ==>
                list.Value() == MostLikedAdd(old(list.Value()), old(Ratings(list.elems)), song)
                && (ok <==> list.selected == |list.elems| - 1 && list.elems[list.selected] == song)
      ensures kind == MostRecentlyAdded ==>
                list.Value() == RecentAdd(old(list.Value()), song) && (ok <==> list.selected == |list.elems| - 1)
    {
      if kind == Manual {
        ok := BaseAdd(song);
      } else {
        ok := SmartAdd(song);
      }
    }

    /** The smart playlists' `add`: evict while full, add if absent, and report as each kind does. */
    method SmartAdd(song: Song) returns (ok: bool)
      requires Valid() && kind != Manual
      modifies list
      ensures Valid()
      ensures kind == MostLiked ==>
                list.Value() == MostLikedAdd(old(list.Value()), old(Ratings(list.elems)), song)
                && (ok <==> list.selected == |list.elems| - 1 && list.elems[list.selected] == song)
      ensures kind == MostRecentlyAdded ==>
                list.Value() == RecentAdd(old(list.Value()), song) && (ok <==> list.selected == |list.elems| - 1)
    {
      ghost var v0 := list.Value();
      ghost var evict := EvictIndexOf(list.elems);
      ghost var ratings := Ratings(list.elems);
      EvictWhileFull();
      ghost var kept := list.Value();
      var _ := BaseAdd(song);
      assert list.Value() == AddIfAbsent(kept, song);
      if |v0.elems| >= N {
        RemoveAtKeepsDistinct(v0.elems, evict);
      }
      if kind == MostLiked {
        assert evict == LowestRatedIndex(ratings);
        assert list.Value() == MostLikedAdd(v0, ratings, song);
        ok := list.Size() <= N && list.IndexSelected() == list.Size() - 1 && list.GetSelected() == song;
      } else {
        assert list.Value() == RecentAdd(v0, song);
        ok := list.Size() <= N && list.IndexSelected() == list.Size() - 1;
      }
    }

    /** The eviction loop of a smart playlist's `add`: `remove()` while it holds N songs or more. */
    method EvictWhileFull()
      requires Valid() && kind != Manual
      modifies list
      ensures Valid() && |list.elems| < N
      ensures list.Value() == if |old(list.elems)| >= N
                               then PlaylistSpec.RemoveAutomatic(old(list.Value()), old(EvictIndexOf(list.elems)))
                               else old(list.Value())
    {
      ghost var v0 := list.Value();
      ghost var evict := EvictIndexOf(list.elems);
      while list.Size() >= N
        invariant Valid()
        invariant list.Value() == v0 || (|v0.elems| >= N && list.Value() == PlaylistSpec.RemoveAutomatic(v0, evict))
        invariant list.Value() == v0 ==> EvictIndexOf(list.elems) == evict
        decreases |list.elems|
      {
        var _, _ := Remove();
      }
    }

    /**
      `moveUpSelected(i)`. A manual playlist rebuilds its list with the selected song taken out
      and put back in at `i`, selects `i` and answers true; a smart playlist refuses and changes nothing.
    */
    method MoveUpSelected(i: int) returns (moved: bool)
      requires Valid()
      requires kind == Manual ==> 0 <= i < list.selected < |list.elems|
      modifies this`list, list
      ensures Valid()
      ensures kind == Manual ==> moved && list.Value() == PlaylistSpec.MoveUpSelected(old(list.Value()), i)
      ensures kind != Manual ==> !moved && list == old(list) && list.Value() == old(list.Value())
    {
      if kind != Manual {
        return false;
      }
      MoveUpKeepsDistinct(list.Value(), i);
      ghost var v0 := list.Value();
      var selected := list.GetSelected();
      list.Remove();
      var newList := Reinsert(list.elems, selected, i);
      newList.Select(i);
      list := newList;
      assert list.elems == Reinserted(v0.elems, v0.selected, i);
      moved := list.IndexSelected() == i && list.GetSelected() == selected;
    }

    /** The loop of `moveUpSelected`: a new list with `selected` added just before position `i` of `rest`. */
    static method Reinsert(rest: seq<Song>, selected: Song, i: int) returns (newList: SelectionList<Song>)
      requires 0 <= i < |rest|
      ensures fresh(newList) && newList.selected == -1
      ensures newList.elems == rest[..i] + [selected] + rest[i..]
    {
      newList := new SelectionList<Song>();
      var j := 0;
      while j < |rest|
        invariant 0 <= j <= |rest|
        invariant j <= i ==> newList.elems == rest[..j]
        invariant j > i ==> newList.elems == rest[..i] + [selected] + rest[i..j]
        invariant newList.selected == -1
      {
        if j == i {
          newList.Add(selected);
          assert newList.elems == rest[..i] + [selected];
        }
        newList.Add(rest[j]);
        if j < i {
          assert rest[..j + 1] == rest[..j] + [rest[j]];
        } else {
          assert rest[i..j + 1] == rest[i..j] + [rest[j]];
        }
        j := j + 1;
      }
      assert rest[i..|rest|] == rest[i..];
    }

    /** Selects the song at position `i`. */
    method Select(i: int)
      requires Valid()
      requires 0 <= i < |list.elems|
      modifies list`selected
      ensures Valid()
      ensures list.selected == i && list.elems == old(list.elems)
    {
      list.Select(i);
    }

    /** Steps the selection forward, or clears it at the end; the songs stay as they are. */
    method Next()
      requires Valid()
      modifies list`selected
      ensures Valid()
      ensures list.selected == NextIndex(old(list.selected), |list.elems|)
    {
      if list.IndexSelected() < list.Size() - 1 {
        list.Next();
      } else {
        list.Select(-1);
      }
    }

    /** Steps the selection back, or clears it at the front; the songs stay as they are. */
    method Previous()
      requires Valid()
      modifies list`selected
      ensures Valid()
      ensures list.selected == PreviousIndex(old(list.selected), |list.elems|)
    {
      if list.IndexSelected() > 0 {
        list.Previous();
      } else {
        list.Select(-1);
      }
    }

    /** A song was played through this playlist (the field is set by `Play` and never cleared). */
    predicate IsPlaying()
      reads this
    {
      playing != null
    }

    /** Stopping a playlist stops the library (whose playing song is cleared); the playlist's own is kept. */
    method Stop()
      modifies library`playing, library.player
      ensures library.playing == null
      ensures library.player.calls == old(library.player.calls) + [StopCall]
    {
      library.Stop();
    }

    /** Stops the library first if this playlist has played, then loads and starts the selected song. */
    method Play()
      requires 0 <= list.selected < |list.elems|
      modifies this`playing, library`playing, library.player
      ensures playing == list.elems[list.selected] && IsPlaying()
      ensures library.playing == if old(playing) != null then null else old(library.playing)
      ensures library.player.calls == old(library.player.calls) + (if old(playing) != null then [StopCall] else [])
                                      + [LoadCall(playing.fileName), PlayCall]
    {
      if IsPlaying() {
        Stop();
      }
      playing := list.GetSelected();
      library.player.Load(playing.fileName);
      library.player.Play();
    }

    /**
      The reaction to the device's state changes once a song was played through the playlist:
      ENDED counts one more play of that song, steps to the next song and plays it, or stops
      at the end of the playlist; STOPED stops.
    */
    method OnPlayerStateChange(state: PlayingState)
      requires Valid()
      modifies this`playing, list`selected, library`playing, library.player
      modifies (if playing == null then {} else {playing})`timesPlayed
      ensures Valid()
      ensures old(playing) != null && state != Ended ==> old(playing).timesPlayed == old(playing.timesPlayed)
      ensures old(playing) == null || state == OtherState ==>
                playing == old(playing) && list.selected == old(list.selected)
                && library.playing == old(library.playing) && library.player.calls == old(library.player.calls)
      ensures old(playing) != null && state == Stoped ==>
                playing == old(playing) && list.selected == old(list.selected)
                && library.playing == null && library.player.calls == old(library.player.calls) + [StopCall]
      ensures old(playing) != null && state == Ended ==>
                old(playing).timesPlayed == old(playing.timesPlayed) + 1
                && list.selected == NextIndex(old(list.selected), |list.elems|)
                && library.playing == null
                && (list.selected != -1 ==>
                      playing == list.elems[list.selected]
                      && library.player.calls == old(library.player.calls) + [StopCall, LoadCall(playing.fileName), PlayCall])
                && (list.selected == -1 ==>
                      playing == old(playing) && library.player.calls == old(library.player.calls) + [StopCall])
    {
      if IsPlaying() {
        if state == Ended {
          playing.IncTimesPlayed();
          Next();
          if list.SomeSelected() {
            Play();
          } else {
            Stop();
          }
        } else if state == Stoped {
          Stop();
        }
      }
    }

    /** The scan of processRemoved: whether the song is in the playlist, and the index it computes. */
    method FindRemoved(removed: Song) returns (found: bool, index: int)
      ensures found <==> removed in list.elems
      ensures index == FoundIndex(list.elems, removed)
    {
      found := false;
      index := 0;
      var j := 0;
      while j < list.Size() && !found
        invariant 0 <= j <= |list.elems|
        invariant found <==> removed in list.elems[..j]
        invariant index == if found then 1 else 0
      {
        if list.Get(j) == removed {
          found := true;
          index := index + 1;
        }
        j := j + 1;
      }
      assert list.elems[..|list.elems|] == list.elems;
    }

    /**
      processRemoved: look for the removed song; if it is there, select the index the scan
      computed, `remove()`, and select the original index again. The computed index is 1
      whenever the song is found, so a manual playlist deletes its second song (or raises when
      it has one song) and a smart one evicts by its policy.
    */
    method ProcessRemoved(removed: Song) returns (raised: bool)
      requires Valid()
      modifies list
      ensures Valid()
      ensures kind == Manual ==> Outcome(list.Value(), raised) == PurgeManual(old(list.Value()), removed)
      ensures kind != Manual ==>
                !raised && list.Value() == PurgeSmart(old(list.Value()), removed, old(EvictIndexOf(list.elems)))
    {
      raised := false;
      ghost var evict := EvictIndexOf(list.elems);
      var removedInPlaylist, index := FindRemoved(removed);
      if removedInPlaylist {
        var ogSelected := list.IndexSelected();
        if ogSelected != index {
          list.Select(index);
          assert EvictIndexOf(list.elems) == evict;
          var _, r := Remove();
          raised := r;
          if !raised {
            list.Select(ogSelected);
          }
        } else {
          var _, r := Remove();
          raised := r;
        }
      }
    }

    /**
      processEvent: every kind purges a removed song; the most liked playlist adds a rated
      song and the most recently added playlist an added one; other events are ignored.
    */
    method ProcessEvent(e: LibraryEvent) returns (raised: bool)
      requires Valid()
      modifies list
      ensures Valid()
      ensures e.Removed? && kind == Manual ==> Outcome(list.Value(), raised) == PurgeManual(old(list.Value()), e.song)
      ensures e.Removed? && kind != Manual ==>
                !raised && list.Value() == PurgeSmart(old(list.Value()), e.song, old(EvictIndexOf(list.elems)))
      ensures e.Rated? && kind == MostLiked ==>
                !raised && list.Value() == MostLikedAdd(old(list.Value()), old(Ratings(list.elems)), e.song)
      ensures e.Added? && kind == MostRecentlyAdded ==> !raised && list.Value() == RecentAdd(old(list.Value()), e.song)
      ensures (e.Added? && kind != MostRecentlyAdded) || (e.Rated? && kind != MostLiked) ==>
                !raised && list.Value() == old(list.Value())
    {
      raised := false;
      match e
      case Removed(s) =>
        raised := ProcessRemoved(s);
      case Rated(s) =>
        if kind == MostLiked {
          var _ := Add(s);
        }
      case Added(s) =>
        if kind == MostRecentlyAdded {
          var _ := Add(s);
        }
    }
  }
}
