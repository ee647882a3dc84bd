/**
  Songs: immutable meta-information and file name, a play counter that only grows,
  and a rating that is replaced by a new one on every change.
*/
module Songs {
  import opened Rates
  import opened MetaInfo

  function Digit(d: int): char
    requires 0 <= d < 10
  {
    "0123456789"[d]
  }

  /** The decimal text of a natural number, as Java appends an `int` to a string. */
  function Decimal(n: nat): (s: string)
    ensures |s| >= 1
    ensures forall i :: 0 <= i < |s| ==> '0' <= s[i] <= '9'
    decreases n
  {
    if n < 10 then [Digit(n)] else Decimal(n / 10) + [Digit(n % 10)]
  }

  /** Reads a string of decimal digits back as a number. */
  function DecimalValue(s: string): nat
    requires forall i :: 0 <= i < |s| ==> '0' <= s[i] <= '9'
  {
    if |s| == 0 then 0 else 10 * DecimalValue(s[..|s| - 1]) + (s[|s| - 1] as int - '0' as int)
  }

  /** The decimal text of `n` reads back as `n`. */
  lemma {:induction false} DecimalRoundTrip(n: nat)
    ensures DecimalValue(Decimal(n)) == n
    decreases n
  {
    var s := Decimal(n);
    if n >= 10 {
      DecimalRoundTrip(n / 10);
      assert s[..|s| - 1] == Decimal(n / 10);
    }
  }

  /** The rating `incRating` installs: one more, built through the 1..5 constructor (no saturation). */
  function Raised(r: Rate): (r': Rate)
    requires r.value < MaxRate
    ensures r'.value == r.value + 1
    ensures Compare(r', r) > 0
  {
    OfValue(r.value + 1)
  }

  /** The rating `decRating` installs: one less, built through the 1..5 constructor (no saturation). */
  function Lowered(r: Rate): (r': Rate)
    requires r.value > MinRate
    ensures r'.value == r.value - 1
    ensures Compare(r', r) < 0
  {
    OfValue(r.value - 1)
  }

  /** Raising and then lowering a rating gives it back. */
  lemma RaiseThenLowerRestores(r: Rate)
    requires MinRate <= r.value < MaxRate
    ensures Raised(r).value > MinRate
    ensures Lowered(Raised(r)) == r
  {
  }

  class Song {
    const info: SongMetaInfo
    const fileName: string
    var timesPlayed: nat
    var rate: Rate

    /** A new song has never been played and is not rated. */
    constructor (info: SongMetaInfo, fileName: string)
      ensures this.info == info && this.fileName == fileName
      ensures timesPlayed == 0 && rate == Unrated()
    {
      this.info := info;
      this.fileName := fileName;
      timesPlayed := 0;
      rate := Unrated();
    }

    /** One more play; nothing else changes. */
    method IncTimesPlayed()
      modifies this`timesPlayed
      ensures timesPlayed == old(timesPlayed) + 1
    {
      timesPlayed := timesPlayed + 1;
    }

    /** Replaces the rating by one more, which the rating constructor only admits below 5. */
    method IncRating()
      requires rate.value < MaxRate
      modifies this`rate
      ensures rate == Raised(old(rate))
    {
      rate := OfValue(rate.value + 1);
    }

    /** Replaces the rating by one less, which the rating constructor only admits above 1. */
    method DecRating()
      requires rate.value > MinRate
      modifies this`rate
      ensures rate == Lowered(old(rate))
    {
      rate := OfValue(rate.value - 1);
    }

    /**
      Whether `equalsSong(s)` returns instead of throwing. The comparison stops at the first
      mismatch; it calls `equals` on this song's title, genre and album only once every earlier
      field matched, and that call throws when the tag is missing.
    */
    predicate CanCompare(s: Song)
      reads this, s
    {
      fileName == s.fileName && rate == s.rate && timesPlayed == s.timesPlayed ==>
        info.songTitle.Some?
        && (info.songTitle == s.info.songTitle ==>
              info.genre.Some?
              && (info.genre == s.info.genre && info.artists == s.info.artists ==> info.album.Some?))
    }

    /** Field-wise equality: file name, rating, play count and every meta-information field. */
    predicate EqualsSong(s: Song)
      reads this, s
      requires CanCompare(s)
      ensures EqualsSong(s) <==> fileName == s.fileName && rate == s.rate && timesPlayed == s.timesPlayed && info == s.info
    {
      fileName == s.fileName && EqualsRate(rate, s.rate) && timesPlayed == s.timesPlayed
      && s.info.songTitle == Some(info.songTitle.value) && s.info.genre == Some(info.genre.value)
      && info.artists == s.info.artists && s.info.album == Some(info.album.value)
    }

    /** The meta-information text, " --- ", the rating, " -- " and the play count. */
    function ToString(): (str: string)
      reads this
      ensures |Rendered(info)| <= |str| && str[..|Rendered(info)|] == Rendered(info)
      ensures |Decimal(timesPlayed)| <= |str| && str[|str| - |Decimal(timesPlayed)|..] == Decimal(timesPlayed)
      ensures str == SongText(info, rate.value, timesPlayed)
    {
      SongText(info, rate.value, timesPlayed)
    }
  }

  /** A song with every tag compares with itself, equal; songs that can compare both ways agree. */
  lemma EqualsSongIsEquivalence(a: Song, b: Song)
    ensures a.CanCompare(a) <==> a.info.songTitle.Some? && a.info.genre.Some? && a.info.album.Some?
    ensures a.CanCompare(a) ==> a.EqualsSong(a)
    ensures a.CanCompare(b) && b.CanCompare(a) ==> (a.EqualsSong(b) <==> b.EqualsSong(a))
  {
  }

  /** Songs that differ in file name, rating or play count compare unequal, whatever their tags. */
  lemma EqualsSongStopsAtMismatch(a: Song, b: Song)
    requires a.fileName != b.fileName || a.rate != b.rate || a.timesPlayed != b.timesPlayed
    ensures a.CanCompare(b) && !a.EqualsSong(b)
  {
  }

  /**
    The text of a song: its tag rendering, " --- ", its rating, " -- " and its play count,
    as `toString` appends them.
  */
  function SongText(info: SongMetaInfo, rate: nat, timesPlayed: nat): string
  {
    Rendered(info) + " --- " + Decimal(rate) + " -- " + Decimal(timesPlayed)
  }

  /**
    A song's text splits at fixed positions into the tag rendering, " --- ", the rating's
    digits, " -- " and the play count's digits, and both numbers read back from their digits.
  */
  lemma SongTextReadsBack(info: SongMetaInfo, rate: nat, timesPlayed: nat)
    ensures var str, n := SongText(info, rate, timesPlayed), |Rendered(info)|;
            var k := n + 5 + |Decimal(rate)|;
            |str| == k + 4 + |Decimal(timesPlayed)|
            && str[..n] == Rendered(info) && str[n..n + 5] == " --- "
            && str[n + 5..k] == Decimal(rate) && str[k..k + 4] == " -- " && str[k + 4..] == Decimal(timesPlayed)
    ensures DecimalValue(Decimal(rate)) == rate && DecimalValue(Decimal(timesPlayed)) == timesPlayed
  {
    DecimalRoundTrip(rate);
    DecimalRoundTrip(timesPlayed);
    assert |" --- "| == 5 && |" -- "| == 4;
    assert SongText(info, rate, timesPlayed) == Rendered(info) + " --- " + Decimal(rate) + " -- " + Decimal(timesPlayed);
    Pieces(Rendered(info), " --- ", Decimal(rate), " -- ", Decimal(timesPlayed));
  }

  /** Each of five concatenated pieces sits at the position the earlier pieces' lengths give. */
  lemma Pieces(a: string, b: string, c: string, d: string, e: string)
    ensures var s, i, j, k := a + b + c + d + e, |a| + |b|, |a| + |b| + |c|, |a| + |b| + |c| + |d|;
            |s| == k + |e| && s[..|a|] == a && s[|a|..i] == b && s[i..j] == c && s[j..k] == d && s[k..] == e
  {
    var s, i, j, k := a + b + c + d + e, |a| + |b|, |a| + |b| + |c|, |a| + |b| + |c| + |d|;
    assert s[..|a|] == a;
    assert s[|a|..i] == b;
    assert s[i..j] == c;
    assert s[j..k] == d;
  }
}
