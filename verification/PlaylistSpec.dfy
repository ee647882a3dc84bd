/**
  What the playlist operations do to a playlist's list value (elements and raw selected
  index), written as functions. The class in module Playlists is proved to follow them.
  Everything here follows the code as written, including where it departs from its own
  documentation; the corrected definitions are kept apart and named as such.
*/
module PlaylistSpec {
  import opened SelectionLists

  /** The bound of both smart playlists. */
  const N: nat := 5

  predicate Distinct<E(==)>(s: seq<E>)
  {
    forall i, j :: 0 <= i < j < |s| ==> s[i] != s[j]
  }

  /** AbsPlaylist.add: a song that is not there yet is appended and selected; a present one changes nothing. */
  function AddIfAbsent<E(==)>(v: Sel<E>, x: E): (r: Sel<E>)
    ensures x in r.elems
    ensures x !in v.elems ==> |r.elems| == |v.elems| + 1 && r.selected == |r.elems| - 1 && r.elems[r.selected] == x
    ensures x !in v.elems ==> r.elems[..|v.elems|] == v.elems
    ensures x in v.elems ==> r == v
    ensures Distinct(v.elems) ==> Distinct(r.elems)
  {
    if x in v.elems then v else Sel(v.elems + [x], |v.elems|)
  }

  /**
    SmartPlaylist.removeAutomatic: select `index`, remove, and select the original index again
    (or just remove when `index` is the selected one). Either way the element at `index` goes
    and the selected index keeps its old value.
  */
  function RemoveAutomatic<E>(v: Sel<E>, index: int): (r: Sel<E>)
    requires 0 <= index < |v.elems|
    ensures r.elems == RemoveAt(v.elems, index)
    ensures r.selected == v.selected
  {
    if v.selected != index then
      var removed := RemoveSelected(Sel(v.elems, index));
      Sel(removed.elems, v.selected)
    else
      RemoveSelected(v)
  }

  /** The selected element `s[from]` taken out and put back in at position `to`. */
  function Reinserted<E>(s: seq<E>, from: int, to: int): (r: seq<E>)
    requires 0 <= to < from < |s|
    ensures |r| == |s|
    ensures r[to] == s[from]
    ensures forall k :: 0 <= k < to ==> r[k] == s[k]
    ensures forall k :: to < k <= from ==> r[k] == s[k - 1]
    ensures forall k :: from < k < |s| ==> r[k] == s[k]
    ensures multiset(r) == multiset(s)
  {
    assert s == s[..to] + s[to..from] + [s[from]] + s[from + 1..];
    s[..to] + [s[from]] + s[to..from] + s[from + 1..]
  }

  /** AbsPlaylist.moveUpSelected: the selected element moves up to `i` and stays selected there. */
  function MoveUpSelected<E>(v: Sel<E>, i: int): (r: Sel<E>)
    requires 0 <= i < v.selected < |v.elems|
    ensures |r.elems| == |v.elems| && multiset(r.elems) == multiset(v.elems)
    ensures r.selected == i && r.elems[i] == v.elems[v.selected]
  {
    Sel(Reinserted(v.elems, v.selected, i), i)
  }

  /** Moving an element up keeps a duplicate-free list duplicate-free. */
  lemma MoveUpKeepsDistinct<E>(v: Sel<E>, i: int)
    requires 0 <= i < v.selected < |v.elems|
    requires Distinct(v.elems)
    ensures Distinct(MoveUpSelected(v, i).elems)
  {
    var s, r := v.elems, MoveUpSelected(v, i).elems;
    var from := v.selected;
    forall p, q | 0 <= p < q < |r|
      ensures r[p] != r[q]
    {
      // the positions in `s` that r[p] and r[q] came from
      var sp := if p < i || p > from then p else if p == i then from else p - 1;
      var sq := if q < i || q > from then q else if q == i then from else q - 1;
      assert r[p] == s[sp];
      assert r[q] == s[sq];
      assert sp != sq;
    }
  }

  /** Removing an element keeps a duplicate-free list duplicate-free, and the removed element is gone. */
  lemma RemoveAtKeepsDistinct<E>(s: seq<E>, i: int)
    requires 0 <= i < |s|
    ensures Distinct(s) ==> Distinct(RemoveAt(s, i)) && s[i] !in RemoveAt(s, i)
  {
    var r := RemoveAt(s, i);
    if !Distinct(s) {
      return;
    }
    forall p, q | 0 <= p < q < |r|
      ensures r[p] != r[q]
    {
      var sp := if p < i then p else p + 1;
      var sq := if q < i then q else q + 1;
      assert r[p] == s[sp] && r[q] == s[sq] && sp < sq;
    }
    forall k | 0 <= k < |r|
      ensures r[k] != s[i]
    {
      var sk := if k < i then k else k + 1;
      assert r[k] == s[sk] && sk != i;
    }
  }

  // ---------------------------------------------------------------------------------
  // processRemoved, as written: the found index is 1 whatever the song's position.

  /** The state after processRemoved, and whether the removal raised an index-out-of-range exception. */
  datatype Outcome<E> = Outcome(after: Sel<E>, raised: bool)

  /**
    The index processRemoved computes while scanning for the removed song `x`:
    the counter starts at 0 and is incremented only on the match.
  */
  function FoundIndex<E(==)>(s: seq<E>, x: E): (index: int)
    ensures x in s ==> index == 1
    ensures x !in s ==> index == 0
  {
    if |s| == 0 then 0
    else if s[0] == x then 1
    else FoundIndex(s[1..], x)
  }

  /**
    processRemoved with the plain AbsPlaylist.remove (a ManualPlaylist): select the computed
    index, remove, restore the original index. The list's remove raises when that index is
    outside the list, after the index has been selected.
  */
  function PurgeManual<E(==)>(v: Sel<E>, x: E): (o: Outcome<E>)
    ensures x !in v.elems ==> o == Outcome(v, false)
    ensures x in v.elems && |v.elems| >= 2 ==> o == Outcome(Sel(RemoveAt(v.elems, 1), v.selected), false)
    ensures x in v.elems && |v.elems| == 1 ==> o == Outcome(Sel(v.elems, 1), true)
  {
    if x !in v.elems then Outcome(v, false)
    else
      var og := v.selected;
      var index := FoundIndex(v.elems, x);
      if og != index then
        var chosen := Sel(v.elems, index);
        if index < |chosen.elems| then
          Outcome(Sel(RemoveSelected(chosen).elems, og), false)
        else
          Outcome(chosen, true)
      else if og < |v.elems| then
        Outcome(RemoveSelected(v), false)
      else
        Outcome(v, true)
  }

  /**
    processRemoved in a smart playlist: the `remove()` it calls is the overridden one, which
    evicts the element at the policy's index `evict` (lowest rated or oldest) instead of the
    selected one; the original selected index is restored.
  */
  function PurgeSmart<E(==)>(v: Sel<E>, x: E, evict: int): (r: Sel<E>)
    requires x in v.elems ==> 0 <= evict < |v.elems|
    ensures x !in v.elems ==> r == v
    ensures x in v.elems ==> r.elems == RemoveAt(v.elems, evict) && r.selected == v.selected
  {
    if x !in v.elems then v
    else
      var og := v.selected;
      var index := FoundIndex(v.elems, x);
      if og != index then
        Sel(RemoveAutomatic(Sel(v.elems, index), evict).elems, og)
      else
        RemoveAutomatic(v, evict)
  }

  /** As written, removing the first song of [a, b] from a manual playlist removes b and keeps a. */
  lemma PurgeManualRemovesWrongSong<E>(a: E, b: E, sel: int)
    requires a != b
    ensures PurgeManual(Sel([a, b], sel), a) == Outcome(Sel([a], sel), false)
    ensures a in PurgeManual(Sel([a, b], sel), a).after.elems
  {
    assert RemoveAt([a, b], 1) == [a];
  }

  /** As written, removing the only song of a manual playlist raises instead of emptying it. */
  lemma PurgeManualRaisesOnSingleSong<E>(a: E, sel: int)
    ensures PurgeManual(Sel([a], sel), a).raised
    ensures PurgeManual(Sel([a], sel), a).after.elems == [a]
  {
  }

  /** The position of `x` in `s`: its first occurrence. */
  function IndexOf<E(==)>(s: seq<E>, x: E): (i: int)
    requires x in s
    ensures 0 <= i < |s| && s[i] == x
    ensures forall k :: 0 <= k < i ==> s[k] != x
  {
    if s[0] == x then 0 else 1 + IndexOf(s[1..], x)
  }

  /** processRemoved as intended: the removed song's own position is deleted and the selected index kept. */
  function Purge<E(==)>(v: Sel<E>, x: E): (r: Sel<E>)
    ensures r.selected == v.selected
    ensures x !in v.elems ==> r == v
    ensures x in v.elems ==> multiset(r.elems) == multiset(v.elems) - multiset{x}
  {
    if x !in v.elems then v
    else
      var i := IndexOf(v.elems, x);
      Sel(RemoveAt(v.elems, i), v.selected)
  }

  /** In a duplicate-free playlist the intended purge leaves no trace of the song and keeps the rest in order. */
  lemma PurgeRemovesTheSong<E>(v: Sel<E>, x: E)
    requires Distinct(v.elems)
    ensures x !in Purge(v, x).elems
    ensures Distinct(Purge(v, x).elems)
    ensures forall y :: y in v.elems && y != x ==> y in Purge(v, x).elems
  {
    if x in v.elems {
      var i := IndexOf(v.elems, x);
      RemoveAtKeepsDistinct(v.elems, i);
      forall y | y in v.elems && y != x
        ensures y in Purge(v, x).elems
      {
        var m := multiset(Purge(v, x).elems);
        assert multiset(v.elems)[y] > 0;
        assert m[y] == multiset(v.elems)[y];
      }
    }
  }

  // ---------------------------------------------------------------------------------
  // MostLikedSongsPlaylist

  /**
    The state of getLowestRatedIndex's scan after the first `n` ratings: the running minimum,
    which starts at the "no rate" value 0, and the index recorded on every `<=`.
  */
  function LowestScan(r: seq<int>, n: int): (state: (int, int))
    requires 0 <= n <= |r|
    ensures 0 <= state.1 && (n > 0 ==> state.1 < n)
    decreases n
  {
    if n == 0 then (0, 0)
    else
      var (lowest, index) := LowestScan(r, n - 1);
      if r[n - 1] <= lowest then (r[n - 1], n - 1) else (lowest, index)
  }

  /** getLowestRatedIndex as written. */
  function LowestRatedIndex(r: seq<int>): (i: int)
    ensures 0 <= i && (|r| > 0 ==> i < |r|)
  {
    LowestScan(r, |r|).1
  }

  /**
    What the scan finds after `n` ratings: if some rating so far is <= 0, the running minimum is
    the smallest rating and the index is its last occurrence; otherwise the minimum is still 0
    and the index still 0.
  */
  lemma {:induction false} LowestScanFinds(r: seq<int>, n: int)
    requires 0 <= n <= |r|
    ensures var (lowest, index) := LowestScan(r, n);
      if exists k :: 0 <= k < n && r[k] <= 0 then
        0 <= index < n && r[index] == lowest
        && (forall k :: 0 <= k < n ==> lowest <= r[k])
        && (forall k :: index < k < n ==> lowest < r[k])
      else
        lowest == 0 && index == 0
    decreases n
  {
    if n > 0 {
      LowestScanFinds(r, n - 1);
      var (lowest, index) := LowestScan(r, n - 1);
      if !(exists k :: 0 <= k < n - 1 && r[k] <= 0) && r[n - 1] <= 0 {
        assert forall k :: 0 <= k < n - 1 ==> r[k] > 0;
      }
    }
  }

  /**
    getLowestRatedIndex returns the last position of the smallest rating when some rating is 0
    or less, and position 0 when all ratings are positive, whatever they are.
  */
  lemma LowestRatedIndexIs(r: seq<int>)
    ensures (forall k :: 0 <= k < |r| ==> r[k] > 0) ==> LowestRatedIndex(r) == 0
    ensures (exists k :: 0 <= k < |r| && r[k] <= 0) ==>
              var i := LowestRatedIndex(r);
              (forall k :: 0 <= k < |r| ==> r[i] <= r[k]) && (forall k :: i < k < |r| ==> r[i] < r[k])
  {
    LowestScanFinds(r, |r|);
  }

  /** As written, a full playlist of rated songs rated [5, 1, 1, 1, 1] evicts the song rated 5. */
  lemma LowestRatedIndexEvictsBest()
    ensures LowestRatedIndex([5, 1, 1, 1, 1]) == 0
    ensures MinRatedIndex([5, 1, 1, 1, 1]) == 1
  {
    LowestRatedIndexIs([5, 1, 1, 1, 1]);
  }

  /** The lowest-rated position as intended: the first position holding the smallest rating. */
  function MinRatedIndex(r: seq<int>): (i: int)
    requires |r| > 0
    ensures 0 <= i < |r|
    ensures forall k :: 0 <= k < |r| ==> r[i] <= r[k]
    ensures forall k :: 0 <= k < i ==> r[k] > r[i]
  {
    if |r| == 1 then 0
    else
      var j := MinRatedIndex(r[..|r| - 1]);
      if r[|r| - 1] < r[j] then |r| - 1 else j
  }

  /** MostLikedSongsPlaylist.add: evict the lowest-rated entry while full, then add if absent. */
  function MostLikedAdd<E(==)>(v: Sel<E>, ratings: seq<int>, x: E): (r: Sel<E>)
    requires |v.elems| <= N && |ratings| == |v.elems|
    ensures |r.elems| <= N
    ensures x in r.elems
    ensures Distinct(v.elems) ==> Distinct(r.elems)
  {
    if |v.elems| >= N then
      RemoveAtKeepsDistinct(v.elems, LowestRatedIndex(ratings));
      AddIfAbsent(RemoveAutomatic(v, LowestRatedIndex(ratings)), x)
    else
      AddIfAbsent(v, x)
  }

  /**
    A song that was not in the most-liked playlist ends up last and selected; one that was
    there and survives the eviction is not appended again, so a full playlist shrinks to 4.
  */
  lemma MostLikedAddOutcome<E>(v: Sel<E>, ratings: seq<int>, x: E)
    requires |v.elems| <= N && |ratings| == |v.elems| && Distinct(v.elems)
    ensures x !in v.elems ==> var r := MostLikedAdd(v, ratings, x);
              r.selected == |r.elems| - 1 && r.elems[r.selected] == x
    ensures x in v.elems && |v.elems| == N && v.elems[LowestRatedIndex(ratings)] != x ==>
              var r := MostLikedAdd(v, ratings, x);
              |r.elems| == N - 1 && r.selected == v.selected
  {
    if |v.elems| == N {
      var i := LowestRatedIndex(ratings);
      RemoveAtKeepsDistinct(v.elems, i);
      if x in v.elems && v.elems[i] != x {
        var k := IndexOf(v.elems, x);
        var rest := RemoveAt(v.elems, i);
        assert rest[if k < i then k else k - 1] == x;
      }
    }
  }

  /** When every rating is positive (every song in the playlist has been rated), the oldest entry is evicted. */
  lemma MostLikedEvictsOldestWhenAllRated<E>(v: Sel<E>, ratings: seq<int>, x: E)
    requires |v.elems| == N && |ratings| == N && x !in v.elems
    requires forall k :: 0 <= k < N ==> ratings[k] >= 1
    ensures MostLikedAdd(v, ratings, x).elems == v.elems[1..] + [x]
  {
    LowestRatedIndexIs(ratings);
  }

  // ---------------------------------------------------------------------------------
  // MostRecentlyAddedSongsPlaylist

  /** The last (at most) N elements of `s`. */
  function Window<E>(s: seq<E>): (w: seq<E>)
    ensures |w| <= N
  {
    if |s| > N then s[|s| - N..] else s
  }

  /** MostRecentlyAddedSongsPlaylist.add: evict the oldest entry (index 0) while full, then add if absent. */
  function RecentAdd<E(==)>(v: Sel<E>, x: E): (r: Sel<E>)
    requires |v.elems| <= N
    ensures |r.elems| <= N
    ensures x in r.elems
    ensures x !in v.elems ==> r.elems == Window(v.elems + [x]) && r.selected == |r.elems| - 1
    ensures Distinct(v.elems) ==> Distinct(r.elems)
  {
    if |v.elems| >= N then
      RemoveAtKeepsDistinct(v.elems, 0);
      assert RemoveAt(v.elems, 0) + [x] == (v.elems + [x])[1..];
      AddIfAbsent(RemoveAutomatic(v, 0), x)
    else
      AddIfAbsent(v, x)
  }

  /** Adding the songs `xs` one after another. */
  function RecentAddAll<E(==)>(v: Sel<E>, xs: seq<E>): (r: Sel<E>)
    requires |v.elems| <= N
    decreases |xs|
  {
    if |xs| == 0 then v else RecentAddAll(RecentAdd(v, xs[0]), xs[1..])
  }

  lemma DistinctSuffix<E>(s: seq<E>, d: int)
    requires 0 <= d <= |s| && Distinct(s)
    ensures Distinct(s[d..])
  {
    forall p, q | 0 <= p < q < |s| - d
      ensures s[d..][p] != s[d..][q]
    {
      assert s[d..][p] == s[d + p] && s[d..][q] == s[d + q];
    }
  }

  /** Keeping the last N of a list is unaffected by first dropping elements that would not be kept. */
  lemma WindowOfSuffix<E>(s: seq<E>, d: int)
    requires 0 <= d <= |s| && (d == 0 || |s| - d >= N)
    ensures Window(s[d..]) == Window(s)
  {
    if d > 0 && |s| > N {
      assert s[d..][|s| - d - N..] == s[|s| - N..];
    }
  }

  /** One step of adding a fresh song, seen on the whole stream `v.elems + xs`. */
  lemma RecentAddStep<E>(v: Sel<E>, xs: seq<E>) returns (d: int)
    requires |v.elems| <= N && |xs| > 0 && xs[0] !in v.elems
    ensures 0 <= d <= |v.elems + xs| && (d == 0 || |v.elems + xs| - d >= N)
    ensures RecentAdd(v, xs[0]).elems + xs[1..] == (v.elems + xs)[d..]
  {
    var a := v.elems + [xs[0]];
    d := if |a| > N then |a| - N else 0;
    assert Window(a) == a[d..];
    assert v.elems + xs == a + xs[1..];
    assert a[d..] + xs[1..] == (a + xs[1..])[d..];
  }

  /** First-in first-out: after adding distinct new songs one by one, the playlist holds the last N, in order. */
  lemma {:induction false} RecentAddAllKeepsLastN<E>(v: Sel<E>, xs: seq<E>)
    requires |v.elems| <= N
    requires Distinct(v.elems + xs)
    ensures RecentAddAll(v, xs).elems == Window(v.elems + xs)
    decreases |xs|
  {
    if |xs| > 0 {
      var s := v.elems + xs;
      assert xs[0] !in v.elems by {
        assert s[|v.elems|] == xs[0];
        forall k | 0 <= k < |v.elems|
          ensures v.elems[k] != xs[0]
        {
          assert s[k] == v.elems[k];
        }
      }
      var v' := RecentAdd(v, xs[0]);
      var d := RecentAddStep(v, xs);
      DistinctSuffix(s, d);
      RecentAddAllKeepsLastN(v', xs[1..]);
      WindowOfSuffix(s, d);
    }
  }
}
