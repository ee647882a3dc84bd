/**
  The list of playlists of a library: a selection list of playlists that starts with the two
  smart playlists and lets the selected playlist play.
*/
module PlaylistLists {
  import opened SelectionLists
  import opened Devices
  import opened Library
  import opened Playlists

  /** How many of the playlists `ps` have played a song (and so report that they are playing). */
  function CountPlaying(ps: seq<Playlist>): (n: nat)
    reads ps
    ensures n <= |ps|
  {
    if |ps| == 0 then 0
    else CountPlaying(ps[..|ps| - 1]) + (if ps[|ps| - 1].playing != null then 1 else 0)
  }

  /** The count is 0 exactly when no playlist has played. */
  lemma {:induction false} CountPlayingZero(ps: seq<Playlist>)
    ensures CountPlaying(ps) == 0 <==> forall k :: 0 <= k < |ps| ==> ps[k].playing == null
  {
    if |ps| > 0 {
      var front := ps[..|ps| - 1];
      CountPlayingZero(front);
      assert forall k :: 0 <= k < |front| ==> front[k] == ps[k];
    }
  }

  /** What `isPlaying` computes as written: the answer of the last playlist, false for no playlists. */
  predicate LastPlaying(ps: seq<Playlist>)
    reads ps
  {
    |ps| > 0 && ps[|ps| - 1].playing != null
  }

  /** As written, a playing playlist followed by an idle one makes the list report that nothing plays. */
  lemma LastPlayingMissesEarlierPlaylists(a: Playlist, b: Playlist)
    requires a.playing != null && b.playing == null
    ensures !LastPlaying([a, b])
    ensures CountPlaying([a, b]) > 0
  {
    assert [a, b][..1] == [a];
  }

  /** Counting one more playlist adds one exactly when that playlist has played. */
  lemma CountPlayingStep(ps: seq<Playlist>, i: int)
    requires 0 <= i < |ps|
    ensures CountPlaying(ps[..i + 1]) == CountPlaying(ps[..i]) + (if ps[i].playing != null then 1 else 0)
  {
    assert ps[..i + 1][..i] == ps[..i];
  }

  /** `n` stop calls in a row. */
  function Stops(n: nat): (calls: seq<PlayerCall>)
    ensures |calls| == n
  {
    if n == 0 then [] else Stops(n - 1) + [StopCall]
  }

  /** One more stop call after `calls + Stops(n)` gives `calls + Stops(n + 1)`. */
  lemma StopsAppend(calls: seq<PlayerCall>, n: nat)
    ensures calls + Stops(n + 1) == calls + Stops(n) + [StopCall]
  {
  }

  class PlaylistList {
    /** The library the playlists were made over (the source keeps it only inside each playlist). */
    ghost const library: MusicLibrary
    const playlists: SelectionList<Playlist>

    /** Every playlist in the list plays through this list's library. */
    ghost predicate Valid()
      reads this, playlists, playlists.elems
    {
      forall k :: 0 <= k < |playlists.elems| ==> playlists.elems[k].library == library
    }

    /** Starts with the most liked and the most recently added playlists, both empty; nothing is selected. */
    constructor (library: MusicLibrary)
      ensures this.library == library && fresh(playlists)
      ensures |playlists.elems| == 2 && playlists.selected == -1
      ensures fresh(playlists.elems[0]) && fresh(playlists.elems[1])
      ensures playlists.elems[0].kind == MostLiked && playlists.elems[1].kind == MostRecentlyAdded
      ensures forall k :: 0 <= k < 2 ==> playlists.elems[k].Valid() && playlists.elems[k].list.elems == []
      ensures Valid()
    {
      this.library := library;
      var ps := new SelectionList<Playlist>();
      var mostLiked := new Playlist.NewMostLiked(library);
      var mostRecentlyAdded := new Playlist.NewMostRecentlyAdded(library);
      ps.Add(mostLiked);
      ps.Add(mostRecentlyAdded);
      playlists := ps;
    }

    /**
      Plays the selected song of the selected playlist, if that playlist has one. A playlist that
      has played is stopped first, and its `play` stops once more, so two stop calls precede the load.
    */
    method Play()
      requires Valid()
      requires 0 <= playlists.selected < |playlists.elems|
      requires var p := playlists.elems[playlists.selected]; p.list.selected == -1 || 0 <= p.list.selected < |p.list.elems|
      modifies playlists.GetSelected()`playing, library`playing, library.player
      ensures var p := playlists.elems[playlists.selected];
              p.list.selected == -1 ==>
                p.playing == old(p.playing) && library.playing == old(library.playing)
                && library.player.calls == old(library.player.calls)
      ensures var p := playlists.elems[playlists.selected];
              p.list.selected != -1 ==>
                p.playing == p.list.elems[p.list.selected]
                && library.playing == (if old(p.playing) != null then null else old(library.playing))
                && library.player.calls == old(library.player.calls) + (if old(p.playing) != null then [StopCall, StopCall] else [])
                                           + [LoadCall(p.playing.fileName), PlayCall]
    {
      var p := playlists.GetSelected();
      if p.list.SomeSelected() {
        if p.IsPlaying() {
          p.Stop();
        }
        p.Play();
      }
    }

    /**
      Reports what the last playlist reports: every playlist overwrites the answer in turn, so
      the result is not "some playlist is playing".
    */
    method IsPlaying() returns (isPlaying: bool)
      ensures isPlaying <==> LastPlaying(playlists.elems)
    {
      isPlaying := false;
      var i := 0;
      while i < playlists.Size()
        invariant 0 <= i <= |playlists.elems|
        invariant isPlaying <==> i > 0 && playlists.elems[i - 1].playing != null
      {
        isPlaying := playlists.Get(i).IsPlaying();
        i := i + 1;
      }
    }

    /** Whether some playlist is playing, as documented: the answers are combined instead of overwritten. */
    method IsAnyPlaying() returns (isPlaying: bool)
      ensures isPlaying <==> exists k :: 0 <= k < |playlists.elems| && playlists.elems[k].playing != null
      ensures isPlaying <==> CountPlaying(playlists.elems) > 0
    {
      CountPlayingZero(playlists.elems);
      isPlaying := false;
      var i := 0;
      while i < playlists.Size()
        invariant 0 <= i <= |playlists.elems|
        invariant isPlaying <==> exists k :: 0 <= k < i && playlists.elems[k].playing != null
      {
        isPlaying := isPlaying || playlists.Get(i).IsPlaying();
        i := i + 1;
      }
    }

    /** Stops every playlist that reports playing: one stop call each, in list order. */
    method Stop()
      requires Valid()
      modifies library`playing, library.player
      ensures library.player.calls == old(library.player.calls) + Stops(CountPlaying(playlists.elems))
      ensures CountPlaying(playlists.elems) > 0 ==> library.playing == null
      ensures CountPlaying(playlists.elems) == 0 ==> library.playing == old(library.playing)
    {
      StopEach(playlists.elems, library);
    }

    /** The loop of `stop` over the playlists `ps`, which all play through `library`. */
    static method StopEach(ps: seq<Playlist>, ghost library: MusicLibrary)
      requires forall k :: 0 <= k < |ps| ==> ps[k].library == library
      modifies library`playing, library.player
      ensures library.player.calls == old(library.player.calls) + Stops(CountPlaying(ps))
      ensures library.playing == if CountPlaying(ps) > 0 then null else old(library.playing)
    {
      ghost var count := 0;
      for i := 0 to |ps|
        invariant count == CountPlaying(ps[..i])
        invariant library.player.calls == old(library.player.calls) + Stops(count)
        invariant library.playing == if count > 0 then null else old(library.playing)
      {
        CountPlayingStep(ps, i);
        StopsAppend(old(library.player.calls), count);
        StopIfPlaying(ps[i]);
        if ps[i].playing != null {
          count := count + 1;
        }
      }
      assert ps[..|ps|] == ps;
    }

    /** One round of `stop`: a playlist that reports playing is stopped. */
    static method StopIfPlaying(p: Playlist)
      modifies p.library`playing, p.library.player
      ensures p.library.player.calls == old(p.library.player.calls) + (if p.playing != null then [StopCall] else [])
      ensures p.playing != null ==> p.library.playing == null
      ensures p.playing == null ==> p.library.playing == old(p.library.playing)
    {
      if p.IsPlaying() {
        p.Stop();
      }
    }

    /** Appends a playlist; it is not selected. */
    method Add(e: Playlist)
      modifies playlists`elems
      ensures playlists.elems == old(playlists.elems) + [e] && playlists.selected == old(playlists.selected)
      ensures old(Valid()) && e.library == library ==> Valid()
    {
      playlists.Add(e);
    }

    /** Removes the selected playlist, if any; the selected index stays as it was. */
    method Remove()
      requires playlists.selected == -1 || 0 <= playlists.selected < |playlists.elems|
      modifies playlists`elems
      ensures playlists.Value() == RemoveSelected(old(playlists.Value()))
      ensures old(Valid()) ==> Valid()
    {
      if playlists.SomeSelected() {
        playlists.Remove();
      }
    }

    /** Selects the playlist at position `i`. */
    method Select(i: int)
      requires 0 <= i < |playlists.elems|
      modifies playlists`selected
      ensures playlists.selected == i
    {
      playlists.Select(i);
    }

    /** Steps the selection forward, or clears it at the end. */
    method Next()
      modifies playlists`selected
      ensures playlists.selected == NextIndex(old(playlists.selected), |playlists.elems|)
    {
      if playlists.IndexSelected() < playlists.Size() - 1 {
        playlists.Next();
      } else {
        playlists.Select(-1);
      }
    }

    /** Steps the selection back, or clears it at the front. */
    method Previous()
      modifies playlists`selected
      ensures playlists.selected == PreviousIndex(old(playlists.selected), |playlists.elems|)
    {
      if playlists.IndexSelected() > 0 {
        playlists.Previous();
      } else {
        playlists.Select(-1);
      }
    }
  }
}
