/**
  The music library: the canonical selection list of songs, the song currently playing
  (independent of the selection), and the events it emits for its observers.

  Emitting an event appends it to `events`; delivering each event to the registered
  playlists is their `ProcessEvent` (see module Playlists).
*/
module Library {
  import opened SelectionLists
  import opened Rates
  import opened Songs
  import opened Devices

  /** What the library tells its observers: which song was added, removed or rated. */
  datatype LibraryEvent = Added(song: Song) | Removed(song: Song) | Rated(song: Song)

  class MusicLibrary {
    const songs: SelectionList<Song>
    var playing: Song?
    const player: Player
    var events: seq<LibraryEvent>

    /** A new library is empty, has nothing selected, plays nothing and has emitted nothing. */
    constructor (player: Player)
      ensures this.player == player && fresh(songs)
      ensures songs.elems == [] && songs.selected == -1
      ensures playing == null && events == []
    {
      songs := new SelectionList();
      playing := null;
      this.player := player;
      events := [];
    }

    predicate IsPlaying()
      reads this
    {
      playing != null
    }

    /** Stops whatever plays first, then loads and starts the selected song. */
    method Play()
      requires 0 <= songs.selected < |songs.elems|
      modifies this`playing, player
      ensures playing == songs.elems[songs.selected] && IsPlaying()
      ensures player.calls == old(player.calls) + (if old(playing) != null then [StopCall] else [])
                              + [LoadCall(playing.fileName), PlayCall]
    {
      if IsPlaying() {
        Stop();
      }
      playing := songs.GetSelected();
      player.Load(playing.fileName);
      player.Play();
    }

    /** Always forgets the playing song and stops the device. */
    method Stop()
      modifies this`playing, player
      ensures playing == null && !IsPlaying()
      ensures player.calls == old(player.calls) + [StopCall]
    {
      playing := null;
      player.Stop();
    }

    /** Raises the selected song's rating by one (no saturation at 5) and emits Rated for it. */
    method IncRateSelected()
      requires 0 <= songs.selected < |songs.elems|
      requires songs.elems[songs.selected].rate.value < MaxRate
      modifies songs.GetSelected()`rate, this`events
      ensures songs.elems[songs.selected].rate == Raised(old(songs.elems[songs.selected].rate))
      ensures events == old(events) + [Rated(songs.elems[songs.selected])]
    {
      songs.GetSelected().IncRating();
      events := events + [Rated(songs.GetSelected())];
    }

    /** Lowers the selected song's rating by one (no saturation at 1) and emits Rated for it. */
    method DecRateSelected()
      requires 0 <= songs.selected < |songs.elems|
      requires songs.elems[songs.selected].rate.value > MinRate
      modifies songs.GetSelected()`rate, this`events
      ensures songs.elems[songs.selected].rate == Lowered(old(songs.elems[songs.selected].rate))
      ensures events == old(events) + [Rated(songs.elems[songs.selected])]
    {
      songs.GetSelected().DecRating();
      events := events + [Rated(songs.GetSelected())];
    }

    /** All songs of the library, in library order. */
    method GetSongs() returns (all: seq<Song>)
      ensures all == songs.elems
    {
      all := [];
      var i := 0;
      while i < songs.Size()
        invariant 0 <= i <= |songs.elems|
        invariant all == songs.elems[..i]
      {
        all := all + [songs.Get(i)];
        i := i + 1;
      }
    }

    /**
      The reaction to the device's state changes: while a song plays, ENDED counts one more
      play of the playing song (not of the selected one) and STOPED stops.
    */
    method OnPlayerStateChange(state: PlayingState)
      modifies this`playing, player, (if playing == null then {} else {playing})`timesPlayed
      ensures old(playing) != null && state != Ended ==> old(playing).timesPlayed == old(playing.timesPlayed)
      ensures old(playing) == null || state == OtherState ==>
                playing == old(playing) && player.calls == old(player.calls)
      ensures old(playing) != null && state == Ended ==>
                playing == old(playing) && playing.timesPlayed == old(playing.timesPlayed) + 1
                && player.calls == old(player.calls)
      ensures old(playing) != null && state == Stoped ==>
                playing == null && player.calls == old(player.calls) + [StopCall]
    {
      if IsPlaying() {
        if state == Ended {
          playing.IncTimesPlayed();
        } else if state == Stoped {
          Stop();
        }
      }
    }

    /** Selects the song at position `i`; the documented bound admits `i == size`, which selects past the end. */
    method Select(i: int)
      requires 0 <= i <= |songs.elems|
      modifies songs`selected
      ensures songs.selected == i && songs.SomeSelected()
    {
      songs.Select(i);
    }

    /** Appends `e` (the selection is not moved) and emits Added for it. */
    method Add(e: Song)
      modifies songs`elems, this`events
      ensures songs.elems == old(songs.elems) + [e]
      ensures events == old(events) + [Added(e)]
    {
      songs.Add(e);
      events := events + [Added(e)];
    }

    /** Steps the selection forward, or clears it at the end. */
    method Next()
      modifies songs`selected
      ensures songs.selected == NextIndex(old(songs.selected), |songs.elems|)
    {
      if songs.IndexSelected() < songs.Size() - 1 {
        songs.Next();
      } else {
        songs.Select(-1);
      }
    }

    /** Steps the selection back, or clears it at the front. */
    method Previous()
      modifies songs`selected
      ensures songs.selected == PreviousIndex(old(songs.selected), |songs.elems|)
    {
      if songs.IndexSelected() > 0 {
        songs.Previous();
      } else {
        songs.Select(-1);
      }
    }

    /**
      Removes the selected song and emits Removed with the song selected before the removal;
      the selected index is left as it was. Without a selection nothing happens.
    */
    method Remove()
      requires songs.selected == -1 || 0 <= songs.selected < |songs.elems|
      modifies songs`elems, this`events
      ensures songs.Value() == RemoveSelected(old(songs.Value()))
      ensures old(songs.selected) == -1 ==> events == old(events)
      ensures old(songs.selected) != -1 ==> events == old(events) + [Removed(old(songs.elems[songs.selected]))]
    {
      if songs.SomeSelected() {
        var selected := songs.GetSelected();
        songs.Remove();
        events := events + [Removed(selected)];
      }
    }

    /**
      Two libraries are equal when they have the same size and are pairwise equal songs. Libraries
      of different sizes compare no songs; otherwise every pair is compared, so none may throw.
    */
    method EqualsLibrary(m: MusicLibrary) returns (areEqual: bool)
      requires |songs.elems| == |m.songs.elems| ==>
                 forall i :: 0 <= i < |songs.elems| ==> songs.elems[i].CanCompare(m.songs.elems[i])
      ensures areEqual <==> |songs.elems| == |m.songs.elems|
                            && forall i :: 0 <= i < |songs.elems| ==> songs.elems[i].EqualsSong(m.songs.elems[i])
    {
      areEqual := true;
      if songs.Size() == m.songs.Size() {
        var i := 0;
        while i < songs.Size()
          invariant 0 <= i <= |songs.elems|
          invariant areEqual <==> forall k :: 0 <= k < i ==> songs.elems[k].EqualsSong(m.songs.elems[k])
        {
          if !songs.Get(i).EqualsSong(m.songs.Get(i)) {
            areEqual := false;
          }
          i := i + 1;
        }
      } else {
        areEqual := false;
      }
    }
  }
}
