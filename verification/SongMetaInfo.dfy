/**
  The immutable meta-information of a song and its textual rendering.
  A tag that the metadata extractor could not read is `None` (a null string in the source).
*/
module MetaInfo {

  datatype Option<T> = None | Some(value: T)

  datatype SongMetaInfo = SongMetaInfo(songTitle: Option<string>, genre: Option<string>, artists: seq<string>, album: Option<string>)

  /** The text written for a missing tag (spelled as the program spells it). */
  const NoValue: string := "unkown"

  function FieldText(f: Option<string>): string
  {
    match f
    case Some(t) => t
    case None => NoValue
  }

  /** The fixed part of the rendering: "[" then title, album and genre, each followed by ", ", then "[". */
  function Head(m: SongMetaInfo): string
  {
    "[" + FieldText(m.songTitle) + ", " + FieldText(m.album) + ", " + FieldText(m.genre) + ", ["
  }

  /** What the rendering loop writes for artist `j`: the name, then "; ", or "]]" after the last one. */
  function ArtistPiece(a: seq<string>, j: int): string
    requires 0 <= j < |a|
  {
    a[j] + (if j != |a| - 1 then "; " else "]]")
  }

  /** What the rendering loop has written after its first `n` rounds. */
  function ArtistsUpTo(a: seq<string>, n: int): string
    requires 0 <= n <= |a|
  {
    if n == 0 then "" else ArtistsUpTo(a, n - 1) + ArtistPiece(a, n - 1)
  }

  /** The rendering of a meta-information record; a deterministic function of its four fields. */
  function Rendered(m: SongMetaInfo): (s: string)
    ensures |s| >= 1 && s[0] == '['
    ensures |m.artists| == 0 ==> |s| >= 3 && s[|s| - 3..] == ", ["
    ensures |m.artists| > 0 ==> |s| >= 2 && s[|s| - 2..] == "]]"
  {
    Head(m) + ArtistsUpTo(m.artists, |m.artists|)
  }

  /** Reference definition: the artist names separated by "; ". */
  function JoinArtists(a: seq<string>): string
    requires |a| > 0
  {
    if |a| == 1 then a[0] else JoinArtists(a[..|a| - 1]) + "; " + a[|a| - 1]
  }

  /** After `n` rounds the loop has written the first `n` names joined by "; ", then "; " or "]]". */
  lemma {:induction false} ArtistsUpToIsJoin(a: seq<string>, n: int)
    requires 1 <= n <= |a|
    ensures ArtistsUpTo(a, n) == JoinArtists(a[..n]) + (if n == |a| then "]]" else "; ")
  {
    if n == 1 {
      assert a[..1] == [a[0]];
    } else {
      ArtistsUpToIsJoin(a, n - 1);
      assert a[..n][..n - 1] == a[..n - 1];
    }
  }

  /**
    The rendering is "[", title, ", ", album, ", ", genre (a missing tag written as "unkown"),
    then ", [" and, when there are artists, the names joined by "; " and "]]".
  */
  lemma RenderedShape(m: SongMetaInfo)
    ensures Rendered(m) == "[" + FieldText(m.songTitle) + ", " + FieldText(m.album) + ", " + FieldText(m.genre)
                           + ", [" + (if |m.artists| == 0 then "" else JoinArtists(m.artists) + "]]")
    ensures m.songTitle.None? ==> Rendered(m)[1..1 + |NoValue|] == NoValue
  {
    if |m.artists| > 0 {
      ArtistsUpToIsJoin(m.artists, |m.artists|);
      assert m.artists[..|m.artists|] == m.artists;
    }
  }

  /** Builds the rendering by appending, as the record's `toString` does. */
  method ToString(m: SongMetaInfo) returns (s: string)
    ensures s == Rendered(m)
  {
    s := "[";
    if m.songTitle.Some? {
      s := s + m.songTitle.value;
    } else {
      s := s + NoValue;
    }
    assert s == "[" + FieldText(m.songTitle);
    s := s + ", ";
    if m.album.Some? {
      s := s + m.album.value;
    } else {
      s := s + NoValue;
    }
    assert s == "[" + FieldText(m.songTitle) + ", " + FieldText(m.album);
    s := s + ", ";
    if m.genre.Some? {
      s := s + m.genre.value;
    } else {
      s := s + NoValue;
    }
    s := s + ", [";
    assert s == Head(m);
    var i := 0;
    while i < |m.artists|
      invariant 0 <= i <= |m.artists|
      invariant s == Head(m) + ArtistsUpTo(m.artists, i)
    {
      s := s + m.artists[i];
      if i != |m.artists| - 1 {
        s := s + "; ";
      } else {
        s := s + "]]";
      }
      i := i + 1;
    }
  }
}
