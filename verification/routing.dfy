/**
 * internal/discord/bot.go and internal/discord/music.go, the pure string
 * logic that decides what a message asks for: the messageCreate dispatch,
 * handleMentionCommand's choice between statistics and music, the
 * isMusicQuery heuristic, handleMusicCommand's command switch, and the
 * argument checks of !leaderboard, !compare and !play.
 */
module Routing {
  import opened Wrappers
  import opened Text
  import opened Utils
  import opened MusicSource

  // ---------------------------------------------------------------------------
  // messageCreate
  // ---------------------------------------------------------------------------

  /** The handler messageCreate hands a message to. */
  datatype Route =
    | Ignored
    | VoiceReport
    | ActivityLookup
    | MentionCommand
    | Stats
    | Leaderboard
    | Compare
    | Weekly
    | Monthly
    | Unhandled

  function NicknameMention(botID: string): string {
    "<@!" + botID + ">"
  }

  predicate IsMentioned(content: string, botID: string) {
    Contains(content, FormatUserMention(botID)) || Contains(content, NicknameMention(botID))
  }

  /** messageCreate: bot authors are ignored, then the switch on the trimmed text. */
  function RouteMessage(authorIsBot: bool, raw: string, botID: string): Route {
    if authorIsBot then Ignored else RouteContent(TrimSpace(raw), botID)
  }

  /** The switch of messageCreate: the first case that applies wins. */
  function RouteContent(content: string, botID: string): Route {
    if content == "!voice" || HasPrefix(content, "!voicechan") then VoiceReport
    else if HasPrefix(content, "!play") then ActivityLookup
    else if IsMentioned(content, botID) then MentionCommand
    else if content == "!stats" then Stats
    else if HasPrefix(content, "!leaderboard") then Leaderboard
    else if HasPrefix(content, "!compare") then Compare
    else if content == "!weekly" then Weekly
    else if content == "!monthly" then Monthly
    else Unhandled
  }

  /** The cases of the switch, in the order they are tried. */
  const Priority: seq<Route> :=
    [VoiceReport, ActivityLookup, MentionCommand, Stats, Leaderboard, Compare, Weekly, Monthly]

  /** When each case of the switch, taken on its own, accepts the trimmed text. */
  predicate Applies(r: Route, content: string, botID: string) {
    match r
    case VoiceReport => content == "!voice" || HasPrefix(content, "!voicechan")
    case ActivityLookup => HasPrefix(content, "!play")
    case MentionCommand => IsMentioned(content, botID)
    case Stats => content == "!stats"
    case Leaderboard => HasPrefix(content, "!leaderboard")
    case Compare => HasPrefix(content, "!compare")
    case Weekly => content == "!weekly"
    case Monthly => content == "!monthly"
    case _ => false
  }

  /**
   * The position of the first route of `routes`, from position `i` on,
   * whose case accepts the text; |routes| if none does.
   */
  function FirstApplicableFrom(routes: seq<Route>, i: nat, content: string, botID: string): (k: nat)
    requires i <= |routes|
    ensures i <= k <= |routes|
    ensures k < |routes| ==> Applies(routes[k], content, botID)
    ensures forall j :: i <= j < k ==> !Applies(routes[j], content, botID)
    decreases |routes| - i
  {
    if i == |routes| then i
    else if Applies(routes[i], content, botID) then i
    else FirstApplicableFrom(routes, i + 1, content, botID)
  }

  function FirstApplicable(routes: seq<Route>, content: string, botID: string): nat {
    FirstApplicableFrom(routes, 0, content, botID)
  }

  /**
   * A message from a person goes to the first case of the switch that
   * accepts it, and is left unhandled exactly when no case accepts it.
   */
  lemma RouteIsFirstApplicable(content: string, botID: string)
    ensures var k := FirstApplicable(Priority, content, botID);
      RouteContent(content, botID) == if k == |Priority| then Unhandled else Priority[k]
  {
    var p := Priority;
    var k := FirstApplicable(p, content, botID);
    if Applies(VoiceReport, content, botID) {
      assert k == 0;
    } else if Applies(ActivityLookup, content, botID) {
      assert k == 1;
    } else if Applies(MentionCommand, content, botID) {
      assert k == 2;
    } else if Applies(Stats, content, botID) {
      assert k == 3;
    } else if Applies(Leaderboard, content, botID) {
      assert k == 4;
    } else if Applies(Compare, content, botID) {
      assert k == 5;
    } else if Applies(Weekly, content, botID) {
      assert k == 6;
    } else if Applies(Monthly, content, botID) {
      assert k == 7;
    } else {
      assert k == 8;
    }
  }

  /** Text that is no command and carries no mention of the bot gets no answer. */
  lemma PlainTextIsUnhandled(content: string, botID: string)
    requires content == [] || content[0] != '!'
    requires !IsMentioned(content, botID)
    ensures RouteContent(content, botID) == Unhandled
  {
    NotPrefixAt(content, "!voice", 0);
    NotPrefixAt(content, "!voicechan", 0);
    NotPrefixAt(content, "!play", 0);
    NotPrefixAt(content, "!stats", 0);
    NotPrefixAt(content, "!leaderboard", 0);
    NotPrefixAt(content, "!compare", 0);
    NotPrefixAt(content, "!weekly", 0);
    NotPrefixAt(content, "!monthly", 0);
  }

  /**
   * The activity lookup is tried before the mention: "!play" followed by
   * anything, a mention of the bot included, is an activity lookup.
   */
  lemma ActivityLookupBeforeMention(content: string, botID: string)
    requires HasPrefix(content, "!play")
    ensures RouteContent(content, botID) == ActivityLookup
  {
    assert content[4] == content[..5][4] == 'y';
    NotPrefixAt(content, "!voice", 4);
    NotPrefixAt(content, "!voicechan", 4);
  }

  // ---------------------------------------------------------------------------
  // handleMentionCommand and isMusicQuery
  // ---------------------------------------------------------------------------

  /** Text with no white space at either end, as TrimSpace leaves it. */
  predicate Trimmed(content: string) {
    content == [] || (!IsSpace(content[0]) && !IsSpace(content[|content| - 1]))
  }

  /** The message with both forms of the bot's mention removed, trimmed. */
  function StripBotMention(raw: string, botID: string): (content: string)
    ensures Trimmed(content)
  {
    TrimSpace(RemoveAll(RemoveAll(TrimSpace(raw), FormatUserMention(botID)), NicknameMention(botID)))
  }

  const MusicWords: seq<string> := ["skip", "stop", "queue", "pause", "resume", "loop", "volume"]

  /** The link-like substrings isMusicQuery looks for in the lower-cased text. */
  predicate HasMusicLink(lower: string) {
    Contains(lower, "youtube.com") || Contains(lower, "youtu.be") || Contains(lower, "spotify.com")
  }

  /** isMusicQuery: a link-like substring, or more than three words. */
  predicate IsMusicQuery(content: string) {
    var lower := ToLower(content);
    HasMusicLink(lower) || |Fields(lower)| > 3
  }

  datatype MentionTarget = ToStats | ToMusic

  /**
   * handleMentionCommand on the text left once the mention is stripped:
   * statistics for nothing or "stats", music for a music word first or a
   * music-like query, statistics otherwise.
   */
  function MentionTargetOf(content: string): MentionTarget {
    if content == "" || ToLower(content) == "stats" then ToStats
    else
      var parts := Fields(content);
      if |parts| > 0 && ToLower(parts[0]) in MusicWords then ToMusic
      else if IsMusicQuery(content) then ToMusic
      else ToStats
  }

  function RouteMention(raw: string, botID: string): MentionTarget {
    MentionTargetOf(StripBotMention(raw, botID))
  }

  /** No character of `s` changes when lower-cased. */
  predicate LowerCase(s: string) {
    forall i :: 0 <= i < |s| ==> LowerChar(s[i]) == s[i]
  }

  /** Lower-casing keeps an all-lower-case substring found at position k. */
  lemma LowerContainsAt(s: string, k: nat, p: string)
    requires k <= |s| && HasPrefix(s[k..], p) && LowerCase(p)
    ensures Contains(ToLower(s), p)
  {
    ToLowerKeepsPrefix(s[k..], p);
    ToLowerOfSlice(s, k);
    ContainsAt(ToLower(s), p, k);
  }

  /** A text starting with `link + rest` holds `link` once lower-cased. */
  lemma LinkFirst(r: string, link: string, rest: string)
    requires HasPrefix(r, link + rest) && LowerCase(link)
    ensures Contains(ToLower(r), link)
  {
    PrefixSplit(r, link, rest);
    assert r[0..] == r;
    LowerContainsAt(r, 0, link);
  }

  lemma LinksAreLowerCase()
    ensures LowerCase("youtube.com") && LowerCase("youtu.be") && LowerCase("spotify.com")
  {
  }

  /** The prefixes the URL patterns accept, cut where the link substrings begin and end. */
  lemma LinkLiterals()
    ensures "youtube.com/watch?v=" == "youtube.com" + "/watch?v="
    ensures "youtube.com/playlist?" == "youtube.com" + "/playlist?"
    ensures "youtu.be/" == "youtu.be" + "/"
    ensures "www.youtube.com/watch?v=" == "www." + "youtube.com/watch?v="
    ensures "www.youtube.com/playlist?" == "www." + "youtube.com/playlist?"
    ensures "open.spotify.com/" == "open." + "spotify.com/"
    ensures "spotify.com/" == "spotify.com" + "/"
  {
  }

  /** The text after the scheme of a link that starts with "https://" or "http://". */
  function AfterScheme(url: string): nat
    requires HasPrefix(url, "https://") || HasPrefix(url, "http://")
  {
    if HasPrefix(url, "https://") then 8 else 7
  }

  lemma HasMusicLinkInSuffix(s: string, k: nat)
    requires k <= |s| && HasMusicLink(s[k..])
    ensures HasMusicLink(s)
  {
    if Contains(s[k..], "youtube.com") { ContainsInSuffix(s, "youtube.com", k); }
    if Contains(s[k..], "youtu.be") { ContainsInSuffix(s, "youtu.be", k); }
    if Contains(s[k..], "spotify.com") { ContainsInSuffix(s, "spotify.com", k); }
  }

  /** The forms without "www." start with the link itself. */
  lemma PlainRestHasLink(r: string)
    requires HasPrefix(r, "youtube.com/watch?v=") || HasPrefix(r, "youtube.com/playlist?") || HasPrefix(r, "youtu.be/")
    ensures HasMusicLink(ToLower(r))
  {
    LinkLiterals();
    LinksAreLowerCase();
    if HasPrefix(r, "youtube.com/watch?v=") {
      LinkFirst(r, "youtube.com", "/watch?v=");
    } else if HasPrefix(r, "youtube.com/playlist?") {
      LinkFirst(r, "youtube.com", "/playlist?");
    } else {
      LinkFirst(r, "youtu.be", "/");
    }
  }

  lemma RestHasLink(r: string)
    requires YouTubeRest(r)
    ensures HasMusicLink(ToLower(r))
  {
    if HasPrefix(r, "www.youtube.com/watch?v=") || HasPrefix(r, "www.youtube.com/playlist?") {
      LinkLiterals();
      PrefixSplit(r, "www.", "youtube.com/watch?v=");
      PrefixSplit(r, "www.", "youtube.com/playlist?");
      PlainRestHasLink(r[4..]);
      ToLowerOfSlice(r, 4);
      HasMusicLinkInSuffix(ToLower(r), 4);
    } else {
      PlainRestHasLink(r);
    }
  }

  lemma YouTubeURLHasLink(url: string)
    requires IsYouTubeURL(url)
    ensures HasMusicLink(ToLower(url))
  {
    YouTubeURLPrefixes(url);
    SchemesExclusive(url);
    var k := AfterScheme(url);
    RestHasLink(url[k..]);
    ToLowerOfSlice(url, k);
    HasMusicLinkInSuffix(ToLower(url), k);
  }

  /** Every link isYouTubeURL accepts also looks like a music query. */
  lemma YouTubeURLIsMusicQuery(url: string)
    requires IsYouTubeURL(url)
    ensures IsMusicQuery(url)
  {
    YouTubeURLHasLink(url);
  }

  lemma SpotifyURLHasLink(url: string)
    requires IsSpotifyURL(url)
    ensures HasMusicLink(ToLower(url))
  {
    SpotifyURLPrefixes(url);
    SchemesExclusive(url);
    var k := AfterScheme(url);
    var r := url[k..];
    LinkLiterals();
    LinksAreLowerCase();
    PrefixSplit(r, "open.", "spotify.com/");
    LinkFirst(r[5..], "spotify.com", "/");
    ToLowerOfSlice(r, 5);
    HasMusicLinkInSuffix(ToLower(r), 5);
    ToLowerOfSlice(url, k);
    HasMusicLinkInSuffix(ToLower(url), k);
  }

  /** Every link isSpotifyURL accepts also looks like a music query. */
  lemma SpotifyURLIsMusicQuery(url: string)
    requires IsSpotifyURL(url)
    ensures IsMusicQuery(url)
  {
    SpotifyURLHasLink(url);
  }

  // ---------------------------------------------------------------------------
  // handleMusicCommand
  // ---------------------------------------------------------------------------

  /** What handleMusicCommand does with a message. */
  datatype MusicRequest =
    | Help
    | NotInVoice
    | NoWords
    | SkipCmd
    | StopCmd
    | QueueCmd
    | PauseCmd
    | ResumeCmd
    | LoopCmd
    | VolumeCmd(parts: seq<string>)
    | PlayCmd(query: string, voiceChannel: string)

  /**
   * handleMusicCommand on the stripped text: the help text for an empty
   * command, a refusal when the author is in no voice channel
   * (`voiceChannel` is None), then the switch on the lower-cased first
   * word; anything else is a play request for the whole text.
   */
  function MusicCommandOf(content: string, voiceChannel: Option<string>): MusicRequest {
    if content == "" then Help
    else if voiceChannel.None? then NotInVoice
    else
      var parts := Fields(content);
      if |parts| == 0 then NoWords
      else MusicSwitch(ToLower(parts[0]), parts, content, voiceChannel.value)
  }

  /**
   * The switch on the lower-cased first word: one of the seven player
   * commands, or else a play request for the whole text.
   */
  function MusicSwitch(command: string, parts: seq<string>, content: string, channel: string): (r: MusicRequest)
    ensures r != Help && r != NotInVoice && r != NoWords
    ensures r.PlayCmd? <==> command !in MusicWords
    ensures r.PlayCmd? ==> r == PlayCmd(content, channel)
  {
    if command == "skip" then SkipCmd
    else if command == "stop" then StopCmd
    else if command == "queue" then QueueCmd
    else if command == "pause" then PauseCmd
    else if command == "resume" then ResumeCmd
    else if command == "loop" then LoopCmd
    else if command == "volume" then VolumeCmd(parts)
    else PlayCmd(content, channel)
  }

  function ParseMusicCommand(raw: string, botID: string, voiceChannel: Option<string>): MusicRequest {
    MusicCommandOf(StripBotMention(raw, botID), voiceChannel)
  }

  /** Non-empty trimmed text has a first word, which starts with the text's first character. */
  lemma TrimmedFields(content: string)
    requires Trimmed(content) && content != []
    ensures |Fields(content)| > 0 && Fields(content)[0][0] == content[0]
  {
    TrimSpaceUnchanged(content);
    FieldsOfTrimmed(content);
  }

  /** Non-empty trimmed text never gets the help text, and the switch always finds a first word. */
  lemma MusicCommandHasAWord(content: string, voiceChannel: Option<string>)
    requires Trimmed(content) && content != []
    ensures MusicCommandOf(content, voiceChannel) != Help
    ensures MusicCommandOf(content, voiceChannel) != NoWords
  {
    TrimmedFields(content);
  }

  lemma MusicTargetIsNotEmpty(content: string)
    requires MentionTargetOf(content) == ToMusic
    ensures content != []
  {
  }

  /** Text that handleMentionCommand sends to music is a command of the music switch. */
  lemma MusicMentionIsACommand(content: string, voiceChannel: Option<string>)
    requires Trimmed(content) && MentionTargetOf(content) == ToMusic
    ensures MusicCommandOf(content, voiceChannel) != Help
    ensures MusicCommandOf(content, voiceChannel) != NoWords
  {
    MusicTargetIsNotEmpty(content);
    MusicCommandHasAWord(content, voiceChannel);
  }

  /** "stats" in any letter case is a single word. */
  lemma StatsIsOneWord(content: string)
    requires ToLower(content) == "stats"
    ensures Fields(content) == [content]
  {
    assert NoSpace(content) by {
      forall i | 0 <= i < |content| ensures !IsSpace(content[i]) {
        assert ToLower(content)[i] == LowerChar(content[i]);
      }
    }
    FieldsOfWord(content);
  }

  /** A message whose first word is a music word goes to music, whatever its case. */
  lemma MusicWordRoutesToMusic(content: string)
    requires Trimmed(content) && content != []
    requires ToLower(Fields(content)[0]) in MusicWords
    ensures MentionTargetOf(content) == ToMusic
  {
    TrimmedFields(content);
    if ToLower(content) == "stats" {
      StatsIsOneWord(content);
    }
  }

  /** A link's first character 'h' keeps it out of "stats" and the music words. */
  lemma LinkIsPlayRequest(content: string, voiceChannel: string)
    requires Trimmed(content) && content != [] && content[0] == 'h' && IsMusicQuery(content)
    ensures MentionTargetOf(content) == ToMusic
    ensures MusicCommandOf(content, Some(voiceChannel)) == PlayCmd(content, voiceChannel)
  {
    TrimmedFields(content);
    NotAMusicWord(ToLower(Fields(content)[0]));
    LinkGoesToMusic(content);
    LinkPlays(content, voiceChannel);
  }

  lemma LinkGoesToMusic(content: string)
    requires content != [] && content[0] == 'h' && IsMusicQuery(content)
    requires |Fields(content)| > 0 && ToLower(Fields(content)[0]) !in MusicWords
    ensures MentionTargetOf(content) == ToMusic
  {
    assert ToLower(content) != "stats" by { assert ToLower(content)[0] == 'h'; }
  }

  lemma LinkPlays(content: string, voiceChannel: string)
    requires content != [] && |Fields(content)| > 0 && ToLower(Fields(content)[0]) !in MusicWords
    ensures MusicCommandOf(content, Some(voiceChannel)) == PlayCmd(content, voiceChannel)
  {
  }

  lemma NotAMusicWord(w: string)
    requires w != [] && w[0] == 'h'
    ensures w !in MusicWords
  {
  }

  lemma SchemeStartsWithH(url: string)
    requires HasPrefix(url, "https://") || HasPrefix(url, "http://")
    ensures url != [] && url[0] == 'h'
  {
    if HasPrefix(url, "https://") { assert url[0] == url[..8][0]; }
    else { assert url[0] == url[..7][0]; }
  }

  /** A mention carrying a YouTube link is a play request for exactly that text. */
  lemma YouTubeLinkMentionPlays(raw: string, botID: string, voiceChannel: string)
    requires IsYouTubeURL(StripBotMention(raw, botID))
    ensures RouteMention(raw, botID) == ToMusic
    ensures ParseMusicCommand(raw, botID, Some(voiceChannel)) == PlayCmd(StripBotMention(raw, botID), voiceChannel)
  {
    var content := StripBotMention(raw, botID);
    YouTubeURLPrefixes(content);
    SchemeStartsWithH(content);
    YouTubeURLIsMusicQuery(content);
    LinkIsPlayRequest(content, voiceChannel);
  }

  /** A mention carrying a Spotify link is a play request, which extraction then refuses. */
  lemma SpotifyLinkMentionRefused(raw: string, botID: string, voiceChannel: string,
                                  api: Result<Video, string>, ytdlp: Option<string>)
    requires IsSpotifyURL(StripBotMention(raw, botID))
    ensures RouteMention(raw, botID) == ToMusic
    ensures ParseMusicCommand(raw, botID, Some(voiceChannel)) == PlayCmd(StripBotMention(raw, botID), voiceChannel)
    ensures ExtractMusicInfo(StripBotMention(raw, botID), api, ytdlp) == Failure(SpotifyUnsupported)
  {
    var content := StripBotMention(raw, botID);
    SpotifyURLPrefixes(content);
    SchemeStartsWithH(content);
    SpotifyURLIsMusicQuery(content);
    LinkIsPlayRequest(content, voiceChannel);
    SpotifyAlwaysRefused(content, api, ytdlp);
  }

  // ---------------------------------------------------------------------------
  // Arguments of !leaderboard, !compare and !play
  // ---------------------------------------------------------------------------

  datatype LeaderboardRequest = LeaderboardUsage | VoiceBoard | PlayUsage | GameBoard(game: string)

  /** handleLeaderboardCommand's checks: "voice", or "play" with a game name of one or more words. */
  function LeaderboardArgs(raw: string): LeaderboardRequest {
    var parts := Fields(TrimSpace(raw));
    if |parts| < 2 then LeaderboardUsage
    else if parts[1] == "voice" then VoiceBoard
    else if parts[1] == "play" then
      if |parts| < 3 then PlayUsage else GameBoard(Join(parts[2..], " "))
    else LeaderboardUsage
  }

  /**
   * The game name is the words after "play", joined by single spaces: it
   * splits back into exactly those words, so runs of white space collapse.
   */
  lemma GameNameIsTheRemainingWords(raw: string)
    requires LeaderboardArgs(raw).GameBoard?
    ensures var parts := Fields(TrimSpace(raw));
      |parts| >= 3 && parts[1] == "play" && Fields(LeaderboardArgs(raw).game) == parts[2..]
  {
    var parts := Fields(TrimSpace(raw));
    assert |parts| >= 3 && parts[1] == "play" && LeaderboardArgs(raw).game == Join(parts[2..], " ");
    var words := parts[2..];
    assert forall i :: 0 <= i < |words| ==> words[i] == parts[i + 2];
    FieldsOfJoin(words);
  }

  datatype CompareRequest = CompareUsage | CompareUsers(user1: string, user2: string)

  /** handleCompareCommand's checks: two words after the command, both user mentions. */
  function CompareArgs(raw: string): CompareRequest {
    var parts := Fields(TrimSpace(raw));
    if |parts| < 3 then CompareUsage
    else
      var m1, m2 := parts[1], parts[2];
      if !IsUserMention(m1) || !IsUserMention(m2) then CompareUsage
      else CompareUsers(ExtractUserIDFromMention(m1), ExtractUserIDFromMention(m2))
  }

  lemma MentionNoSpace(id: string)
    requires NoSpace(id)
    ensures FormatUserMention(id) != [] && NoSpace(FormatUserMention(id))
  {
    var m := FormatUserMention(id);
    forall i | 0 <= i < |m| ensures !IsSpace(m[i]) {
      if 2 <= i < |m| - 1 {
        assert m[i] == id[i - 2];
      }
    }
  }

  /** "!compare @a @b" written with the two users' mentions compares exactly those two users. */
  lemma CompareRoundTrip(id1: string, id2: string)
    requires NoSpace(id1) && !HasPrefix(id1, "!")
    requires NoSpace(id2) && !HasPrefix(id2, "!")
    ensures CompareArgs("!compare " + FormatUserMention(id1) + " " + FormatUserMention(id2)) == CompareUsers(id1, id2)
  {
    var m1, m2 := FormatUserMention(id1), FormatUserMention(id2);
    var words := ["!compare", m1, m2];
    MentionNoSpace(id1);
    MentionNoSpace(id2);
    assert NoSpace("!compare");
    var raw := "!compare " + m1 + " " + m2;
    assert Join(words, " ") == raw by {
      assert Join(words[2..], " ") == m2;
      assert Join(words[1..], " ") == m1 + " " + m2;
    }
    FieldsOfJoin(words);
    assert raw[0] == '!' && raw[|raw| - 1] == m2[|m2| - 1] == '>';
    TrimSpaceUnchanged(raw);
    FormattedMentionIsMention(id1);
    FormattedMentionIsMention(id2);
    MentionRoundTrip(id1);
    MentionRoundTrip(id2);
  }

  /** handlePlayCommand: the trimmed text after "!play"; None is the usage reply, with no lookup. */
  function ActivityName(raw: string): (name: Option<string>)
    ensures name.Some? ==> name.value != []
  {
    var name := TrimSpace(TrimPrefix(TrimSpace(raw), "!play"));
    if name == "" then None else Some(name)
  }

  /** "!play <name>" looks up the activity <name>, for any trimmed non-empty name. */
  lemma ActivityNameOfCommand(name: string)
    requires name != [] && !IsSpace(name[0]) && !IsSpace(name[|name| - 1])
    ensures ActivityName("!play " + name) == Some(name)
  {
    var raw := "!play " + name;
    assert raw[|raw| - 1] == name[|name| - 1];
    TrimSpaceUnchanged(raw);
    assert HasPrefix(raw, "!play") && raw[5..] == " " + name;
    assert TrimLeft(" " + name) == TrimLeft(name) by { assert (" " + name)[1..] == name; }
    TrimSpaceUnchanged(name);
  }

  /** The prefix test does not require a word boundary: "!playlist" looks up an activity named "list". */
  lemma PlaylistLooksUpList()
    ensures ActivityName("!playlist") == Some("list")
  {
    var raw := "!playlist";
    TrimSpaceUnchanged(raw);
    assert HasPrefix(raw, "!play") && raw[5..] == "list";
    TrimSpaceUnchanged("list");
  }
}
