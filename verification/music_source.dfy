/**
 * internal/discord/music.go, the pure deciders: which kind of link a query
 * is (the anchored regular expressions of isYouTubeURL and isSpotifyURL),
 * the track extractMusicInfo builds for it, and the audio format
 * playAudioStream picks out of a video's formats.
 *
 * The YouTube client and the yt-dlp program are oracles: the model receives
 * the video the client returned (or its failure) and yt-dlp's output (or
 * the failure of the command) as parameters.
 */
module MusicSource {
  import opened Wrappers
  import opened Text

  /** MusicTrack. The duration is a whole number of seconds. */
  datatype Track = Track(
    title: string,
    url: string,
    duration: int,
    requester: string,
    channelID: string,
    thumbnail: string)

  /** A youtube.Format, reduced to the fields the bot reads. */
  datatype Format = Format(itag: int, mimeType: string, url: string, audioChannels: int)

  /** What ytClient.GetVideo returns, reduced to the fields the bot reads. */
  datatype Video = Video(title: string, duration: int, thumbnails: seq<string>, formats: seq<Format>)

  /** The two errors extractMusicInfo can return. */
  datatype ExtractError = SpotifyUnsupported | SearchUnsupported

  // ---------------------------------------------------------------------------
  // Anchored regular expressions
  // ---------------------------------------------------------------------------

  /**
   * One element of the patterns the bot uses: a literal character, or an
   * optional group `(...)?` of literal characters (`s?` is the group "s").
   */
  datatype Piece = Lit(c: char) | Opt(group: string)

  type Pattern = seq<Piece>

  /** regexp.MatchString for a pattern anchored with `^` and not with `$`: some prefix of `s` matches. */
  predicate Matches(p: Pattern, s: string)
    decreases |p|
  {
    if p == [] then true
    else match p[0]
      case Lit(c) => s != [] && s[0] == c && Matches(p[1..], s[1..])
      case Opt(g) => (HasPrefix(s, g) && Matches(p[1..], s[|g|..])) || Matches(p[1..], s)
  }

  function Lits(t: string): (p: Pattern)
    ensures |p| == |t| && forall i :: 0 <= i < |t| ==> p[i] == Lit(t[i])
  {
    seq(|t|, i requires 0 <= i < |t| => Lit(t[i]))
  }

  /** `^https?://` followed by `rest`. */
  function Scheme(rest: Pattern): Pattern {
    Lits("http") + [Opt("s")] + Lits("://") + rest
  }

  /** `^https?://(www\.)?youtube\.com/watch\?v=` */
  const YouTubeWatch: Pattern := Scheme([Opt("www.")] + Lits("youtube.com/watch?v="))
  /** `^https?://youtu\.be/` */
  const YouTuBe: Pattern := Scheme(Lits("youtu.be/"))
  /** `^https?://(www\.)?youtube\.com/playlist\?` */
  const YouTubePlaylist: Pattern := Scheme([Opt("www.")] + Lits("youtube.com/playlist?"))
  /** `^https?://open\.spotify\.com/` */
  const Spotify: Pattern := Scheme(Lits("open.spotify.com/"))

  /** isYouTubeURL: the patterns are tried in order and the first match answers true. */
  predicate IsYouTubeURL(url: string) {
    Matches(YouTubeWatch, url) || Matches(YouTuBe, url) || Matches(YouTubePlaylist, url)
  }

  predicate IsSpotifyURL(url: string) {
    Matches(Spotify, url)
  }

  lemma {:induction false} MatchesLits(t: string, p: Pattern, s: string)
    ensures Matches(Lits(t) + p, s) <==> HasPrefix(s, t) && Matches(p, s[|t|..])
    decreases |t|
  {
    if t == [] {
      assert Lits(t) + p == p;
      assert s[..0] == t && s[0..] == s;
    } else {
      assert (Lits(t) + p)[0] == Lit(t[0]);
      assert (Lits(t) + p)[1..] == Lits(t[1..]) + p;
      if s != [] && s[0] == t[0] {
        MatchesLits(t[1..], p, s[1..]);
        if |t| <= |s| {
          assert s[..|t|] == [s[0]] + s[1..][..|t| - 1];
          assert t == [t[0]] + t[1..];
          assert s[1..][|t| - 1..] == s[|t|..];
        }
      } else if s != [] {
        assert |t| <= |s| ==> s[..|t|][0] != t[0];
      }
    }
  }

  lemma MatchesOpt(g: string, p: Pattern, s: string)
    ensures Matches([Opt(g)] + p, s) <==> (HasPrefix(s, g) && Matches(p, s[|g|..])) || Matches(p, s)
  {
    assert ([Opt(g)] + p)[1..] == p;
  }

  lemma PrefixSplit(s: string, a: string, b: string)
    ensures HasPrefix(s, a + b) <==> HasPrefix(s, a) && HasPrefix(s[|a|..], b)
  {
    if HasPrefix(s, a + b) {
      assert s[..|a|] == s[..|a + b|][..|a|];
      assert s[|a|..][..|b|] == s[..|a + b|][|a|..];
    }
    if HasPrefix(s, a) && HasPrefix(s[|a|..], b) {
      assert s[..|a + b|] == s[..|a|] + s[|a|..][..|b|];
    }
  }

  /** The two schemes exclude each other: the fifth character is 's' or ':'. */
  lemma SchemesExclusive(s: string)
    ensures HasPrefix(s, "https://") ==> !HasPrefix(s, "http://")
  {
    if HasPrefix(s, "https://") {
      assert s[4] == "https://"[4] == 's';
      assert |s| >= 7 && s[..7][4] == 's';
    }
  }

  /** `https?://` is exactly "http://" or "https://". */
  lemma MatchesScheme(rest: Pattern, s: string)
    ensures Matches(Scheme(rest), s) <==>
      (HasPrefix(s, "https://") && Matches(rest, s[8..])) || (HasPrefix(s, "http://") && Matches(rest, s[7..]))
  {
    var y := Lits("://") + rest;
    assert Scheme(rest) == Lits("http") + ([Opt("s")] + y);
    MatchesLits("http", [Opt("s")] + y, s);
    assert "http" + "s://" == "https://" && "http" + "://" == "http://" && "s" + "://" == "s://";
    PrefixSplit(s, "http", "s://");
    PrefixSplit(s, "http", "://");
    if HasPrefix(s, "http") {
      var s4 := s[4..];
      MatchesOpt("s", y, s4);
      MatchesLits("://", rest, s4);
      PrefixSplit(s4, "s", "://");
      if |s4| >= 3 {
        assert s4[3..] == s[7..];
      }
      if HasPrefix(s4, "s") {
        MatchesLits("://", rest, s4[1..]);
        if |s4| >= 4 {
          assert s4[1..][3..] == s[8..];
        }
      }
    }
  }

  /** `(www\.)?` followed by literal text. */
  lemma MatchesOptionalWww(t: string, s: string)
    ensures Matches([Opt("www.")] + Lits(t), s) <==> HasPrefix(s, t) || HasPrefix(s, "www." + t)
  {
    MatchesOpt("www.", Lits(t), s);
    assert Lits(t) + [] == Lits(t);
    MatchesLits(t, [], s);
    PrefixSplit(s, "www.", t);
    if HasPrefix(s, "www.") {
      MatchesLits(t, [], s[4..]);
    }
  }

  lemma MatchesLiteral(t: string, s: string)
    ensures Matches(Lits(t), s) <==> HasPrefix(s, t)
  {
    assert Lits(t) + [] == Lits(t);
    MatchesLits(t, [], s);
  }

  /** What may follow the scheme in a YouTube link. */
  predicate YouTubeRest(r: string) {
    HasPrefix(r, "youtube.com/watch?v=") || HasPrefix(r, "www.youtube.com/watch?v=")
    || HasPrefix(r, "youtu.be/")
    || HasPrefix(r, "youtube.com/playlist?") || HasPrefix(r, "www.youtube.com/playlist?")
  }

  /**
   * A YouTube link is "http://" or "https://", an optional "www.", and then
   * "youtube.com/watch?v=" or "youtube.com/playlist?"; or the scheme
   * directly followed by "youtu.be/".
   */
  lemma YouTubeURLPrefixes(url: string)
    ensures IsYouTubeURL(url) <==>
      (HasPrefix(url, "https://") && YouTubeRest(url[8..])) || (HasPrefix(url, "http://") && YouTubeRest(url[7..]))
  {
    MatchesScheme([Opt("www.")] + Lits("youtube.com/watch?v="), url);
    MatchesScheme(Lits("youtu.be/"), url);
    MatchesScheme([Opt("www.")] + Lits("youtube.com/playlist?"), url);
    if HasPrefix(url, "https://") {
      HostMatchesRest(url[8..]);
    }
    if HasPrefix(url, "http://") {
      HostMatchesRest(url[7..]);
    }
  }

  /** After the scheme, the three YouTube patterns together accept exactly YouTubeRest. */
  lemma HostMatchesRest(r: string)
    ensures (Matches([Opt("www.")] + Lits("youtube.com/watch?v="), r) || Matches(Lits("youtu.be/"), r)
             || Matches([Opt("www.")] + Lits("youtube.com/playlist?"), r)) <==> YouTubeRest(r)
  {
    MatchesOptionalWww("youtube.com/watch?v=", r);
    MatchesLiteral("youtu.be/", r);
    MatchesOptionalWww("youtube.com/playlist?", r);
    WwwLiterals();
  }

  lemma WwwLiterals()
    ensures "www." + "youtube.com/watch?v=" == "www.youtube.com/watch?v="
    ensures "www." + "youtube.com/playlist?" == "www.youtube.com/playlist?"
  {
  }

  /** A Spotify link is "http://" or "https://" followed by "open.spotify.com/". */
  lemma SpotifyURLPrefixes(url: string)
    ensures IsSpotifyURL(url) <==>
      (HasPrefix(url, "https://") && HasPrefix(url[8..], "open.spotify.com/"))
      || (HasPrefix(url, "http://") && HasPrefix(url[7..], "open.spotify.com/"))
  {
    MatchesScheme(Lits("open.spotify.com/"), url);
    if HasPrefix(url, "https://") {
      MatchesLiteral("open.spotify.com/", url[8..]);
    }
    if HasPrefix(url, "http://") {
      MatchesLiteral("open.spotify.com/", url[7..]);
    }
  }

  lemma RestFirstChar(r: string)
    requires YouTubeRest(r)
    ensures r != [] && (r[0] == 'y' || r[0] == 'w')
  {
    if HasPrefix(r, "youtube.com/watch?v=") { assert r[0] == r[..20][0]; }
    if HasPrefix(r, "www.youtube.com/watch?v=") { assert r[0] == r[..24][0]; }
    if HasPrefix(r, "youtu.be/") { assert r[0] == r[..9][0]; }
    if HasPrefix(r, "youtube.com/playlist?") { assert r[0] == r[..21][0]; }
    if HasPrefix(r, "www.youtube.com/playlist?") { assert r[0] == r[..25][0]; }
  }

  /** No query is both a YouTube and a Spotify link, so the order of the two tests only matters for the log. */
  lemma YouTubeAndSpotifyExclusive(url: string)
    ensures !(IsYouTubeURL(url) && IsSpotifyURL(url))
  {
    YouTubeURLPrefixes(url);
    SpotifyURLPrefixes(url);
    SchemesExclusive(url);
    if IsYouTubeURL(url) {
      var n := if HasPrefix(url, "https://") then 8 else 7;
      var r := url[n..];
      RestFirstChar(r);
      if |r| >= 17 {
        assert r[..17][0] == r[0];
      }
    }
  }

  /** Only the head of the query is examined: whatever follows a YouTube link's prefix keeps it one. */
  lemma YouTubeURLExtends(url: string, tail: string)
    requires IsYouTubeURL(url)
    ensures IsYouTubeURL(url + tail)
  {
    YouTubeURLPrefixes(url);
    YouTubeURLPrefixes(url + tail);
    SchemesExclusive(url);
    if HasPrefix(url, "https://") {
      PrefixOfConcat("https://", url, tail);
      assert (url + tail)[8..] == url[8..] + tail;
      RestExtends(url[8..], tail);
    } else {
      PrefixOfConcat("http://", url, tail);
      assert (url + tail)[7..] == url[7..] + tail;
      RestExtends(url[7..], tail);
    }
  }

  lemma RestExtends(r: string, tail: string)
    requires YouTubeRest(r)
    ensures YouTubeRest(r + tail)
  {
    if HasPrefix(r, "youtube.com/watch?v=") { PrefixOfConcat("youtube.com/watch?v=", r, tail); }
    if HasPrefix(r, "www.youtube.com/watch?v=") { PrefixOfConcat("www.youtube.com/watch?v=", r, tail); }
    if HasPrefix(r, "youtu.be/") { PrefixOfConcat("youtu.be/", r, tail); }
    if HasPrefix(r, "youtube.com/playlist?") { PrefixOfConcat("youtube.com/playlist?", r, tail); }
    if HasPrefix(r, "www.youtube.com/playlist?") { PrefixOfConcat("www.youtube.com/playlist?", r, tail); }
  }

  lemma YouTubeShortLinkExample()
    ensures IsYouTubeURL("https://youtu.be/x")
  {
    var u := "https://youtu.be/x";
    YouTubeURLPrefixes(u);
    assert u[..8] == "https://" && u[8..] == "youtu.be/x" && u[8..][..9] == "youtu.be/";
  }

  /** Every "http://www.youtube.com/watch?v=" link is a YouTube link, whatever the video id. */
  lemma WatchLinkIsYouTube(id: string)
    ensures IsYouTubeURL("http://" + ("www.youtube.com/watch?v=" + id))
  {
    var rest := "www.youtube.com/watch?v=" + id;
    var u := "http://" + rest;
    PrefixOfConcat("http://", "http://", rest);
    assert u[7..] == rest;
    PrefixOfConcat("www.youtube.com/watch?v=", "www.youtube.com/watch?v=", id);
    YouTubeURLPrefixes(u);
  }

  /** The short-link host takes no "www.". */
  lemma YouTubeShortLinkWwwRefused()
    ensures !IsYouTubeURL("https://www.youtu.be/x")
  {
    var u := "https://www.youtu.be/x";
    YouTubeURLPrefixes(u);
    assert u[7..] == "/www.youtu.be/x" && u[8..] == "www.youtu.be/x";
    NotARest(u[7..]);
    NotARest(u[8..]);
  }

  /** A rest shorter than the "www." forms that does not start with 'y' is not a YouTube rest. */
  lemma NotARest(r: string)
    requires r != [] && r[0] != 'y' && |r| < 24
    ensures !YouTubeRest(r)
  {
  }

  /** The scheme is matched case-sensitively. */
  lemma UpperCaseSchemeRefused()
    ensures !IsYouTubeURL("HTTPS://youtube.com/watch?v=x")
  {
    var u := "HTTPS://youtube.com/watch?v=x";
    YouTubeURLPrefixes(u);
    assert u[0] == 'H';
  }

  // ---------------------------------------------------------------------------
  // extractMusicInfo
  // ---------------------------------------------------------------------------

  /**
   * extractYouTubeInfo. `api` is what ytClient.GetVideo returned; on failure
   * the yt-dlp fallback runs, whose output `ytdlp` is None when the command
   * failed. The fallback never fails: it falls back in turn to a fixed title.
   */
  function ExtractYouTubeInfo(url: string, api: Result<Video, string>, ytdlp: Option<string>): (t: Track)
    ensures t.url == url && t.requester == "" && t.channelID == ""
    ensures api.Success? ==> t.title == api.value.title && t.duration == api.value.duration
    ensures api.Success? && api.value.thumbnails != [] ==> t.thumbnail == api.value.thumbnails[0]
    ensures api.Failure? ==> t.duration == 0 && t.thumbnail == ""
    ensures api.Success? && api.value.thumbnails == [] ==> t.thumbnail == ""
    ensures api.Failure? && ytdlp.Some? && ytdlp.value != [] ==> t.title == TrimSpace(ytdlp.value)
    ensures api.Failure? && (ytdlp.None? || ytdlp.value == []) ==> t.title == "YouTube Video"
  {
    match api
    case Success(video) =>
      var thumbnail := if |video.thumbnails| > 0 then video.thumbnails[0] else "";
      Track(video.title, url, video.duration, "", "", thumbnail)
    case Failure(_) =>
      var title := if ytdlp.Some? && |ytdlp.value| > 0 then TrimSpace(ytdlp.value) else "YouTube Video";
      Track(title, url, 0, "", "", "")
  }

  /**
   * extractMusicInfo: a YouTube link yields a track; a Spotify link and any
   * other text yield the "not available yet" errors and no track.
   */
  function ExtractMusicInfo(query: string, api: Result<Video, string>, ytdlp: Option<string>): (r: Result<Track, ExtractError>)
    ensures r.Success? <==> IsYouTubeURL(query)
    ensures r.Success? ==> r.value == ExtractYouTubeInfo(query, api, ytdlp) && r.value.url == query
    ensures !IsYouTubeURL(query) && IsSpotifyURL(query) ==> r == Failure(SpotifyUnsupported)
    ensures !IsYouTubeURL(query) && !IsSpotifyURL(query) ==> r == Failure(SearchUnsupported)
  {
    if IsYouTubeURL(query) then Success(ExtractYouTubeInfo(query, api, ytdlp))
    else if IsSpotifyURL(query) then Failure(SpotifyUnsupported)
    else Failure(SearchUnsupported)
  }

  /** Every Spotify link is refused with the Spotify error, whatever the oracles say. */
  lemma SpotifyAlwaysRefused(query: string, api: Result<Video, string>, ytdlp: Option<string>)
    requires IsSpotifyURL(query)
    ensures ExtractMusicInfo(query, api, ytdlp) == Failure(SpotifyUnsupported)
  {
    YouTubeAndSpotifyExclusive(query);
  }

  // ---------------------------------------------------------------------------
  // Format preference in playAudioStream
  // ---------------------------------------------------------------------------

  /** Formats.WithAudioChannels: the formats that carry audio, in their order. */
  function WithAudioChannels(formats: seq<Format>): (r: seq<Format>)
    ensures |r| <= |formats|
    ensures forall f :: f in r <==> f in formats && f.audioChannels > 0
  {
    if formats == [] then []
    else if formats[0].audioChannels > 0 then [formats[0]] + WithAudioChannels(formats[1..])
    else WithAudioChannels(formats[1..])
  }

  /** The filter keeps order: filtering a concatenation concatenates the filtered parts. */
  lemma {:induction false} WithAudioChannelsAppend(a: seq<Format>, b: seq<Format>)
    ensures WithAudioChannels(a + b) == WithAudioChannels(a) + WithAudioChannels(b)
    decreases |a|
  {
    if a != [] {
      assert (a + b)[0] == a[0] && (a + b)[1..] == a[1..] + b;
      WithAudioChannelsAppend(a[1..], b);
    } else {
      assert a + b == b;
    }
  }

  /** A single format is kept exactly when it carries audio. */
  lemma WithAudioChannelsSingle(f: Format)
    ensures WithAudioChannels([f]) == if f.audioChannels > 0 then [f] else []
  {
    assert [f][1..] == [];
  }

  predicate IsWebm(f: Format) {
    f.itag == 251 || Contains(f.mimeType, "audio/webm")
  }

  predicate IsMp4(f: Format) {
    f.itag == 140 || Contains(f.mimeType, "audio/mp4")
  }

  /** The index of the first element satisfying `p`: the loop with `break`. */
  function FirstWhere(fs: seq<Format>, p: Format -> bool): (r: Option<nat>)
    ensures r.Some? ==> r.value < |fs| && p(fs[r.value]) && forall j :: 0 <= j < r.value ==> !p(fs[j])
    ensures r.None? ==> forall j :: 0 <= j < |fs| ==> !p(fs[j])
  {
    if fs == [] then None
    else if p(fs[0]) then Some(0)
    else match FirstWhere(fs[1..], p)
      case None => None
      case Some(i) => Some(i + 1)
  }

  /**
   * The format to stream among the audio formats: the first WebM/Opus one
   * (itag 251), else the first MP4/AAC one (itag 140), else the first one.
   * None is the "no audio format available" error.
   */
  function SelectFormat(formats: seq<Format>): (r: Option<Format>)
    ensures r.None? <==> formats == []
    ensures r.Some? ==> r.value in formats
  {
    if formats == [] then None
    else match FirstWhere(formats, IsWebm)
      case Some(i) => Some(formats[i])
      case None =>
        match FirstWhere(formats, IsMp4)
        case Some(i) => Some(formats[i])
        case None => Some(formats[0])
  }

  lemma SelectFormatPrefersWebm(formats: seq<Format>, i: nat)
    requires i < |formats| && IsWebm(formats[i])
    requires forall j :: 0 <= j < i ==> !IsWebm(formats[j])
    ensures SelectFormat(formats) == Some(formats[i])
  {
    var w := FirstWhere(formats, IsWebm);
    assert w.Some?;
  }

  lemma SelectFormatThenMp4(formats: seq<Format>, i: nat)
    requires forall j :: 0 <= j < |formats| ==> !IsWebm(formats[j])
    requires i < |formats| && IsMp4(formats[i])
    requires forall j :: 0 <= j < i ==> !IsMp4(formats[j])
    ensures SelectFormat(formats) == Some(formats[i])
  {
    var m := FirstWhere(formats, IsMp4);
    assert m.Some?;
  }

  lemma SelectFormatFallback(formats: seq<Format>)
    requires formats != []
    requires forall j :: 0 <= j < |formats| ==> !IsWebm(formats[j]) && !IsMp4(formats[j])
    ensures SelectFormat(formats) == Some(formats[0])
  {

  }
}
