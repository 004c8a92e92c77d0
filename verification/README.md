# playstats-bot in Dafny

A Dafny model of playstats-bot, a Discord bot written in Go. The bot does three things:

- It tracks how long each member spends in voice channels (per guild and per channel) and in games or applications (from presence updates). Each finished stretch is reported to a repository of running totals.
- It answers text commands about those totals: `!voice`, `!play`, `!stats`, `!leaderboard`, `!compare`, `!weekly` and `!monthly`.
- When mentioned, it either answers with stats or acts as a music player. The player keeps a per-guild queue and looks up YouTube links. It streams audio as PCM through ffmpeg, cut into 20 ms frames, to an Opus encoder.

The model is split into modules:

| module | what it models |
|---|---|
| `Wrappers` | `Option` and `Result`, used wherever the source returns an error or may have no value |
| `Text` | the parts of Go's `strings` package the bot relies on: `TrimSpace`, `Fields`, ASCII `ToLower`, `ReplaceAll(s, p, "")`, `Join`, `Split`, `HasPrefix`, `Contains`, decimal printing of integers |
| `Utils` | `pkg/utils`: user and channel mentions, leaderboard entries, truncation, `FormatDuration` with Go's truncating `/` and `%` |
| `Tracking` | `voiceStateUpdate` and `presenceUpdate`: a `Tracker` class whose two maps are updated in place; the repository writes it makes become a log of `RepoCall`s |
| `Routing` | `messageCreate`'s switch; `handleMentionCommand`, `isMusicQuery` and `handleMusicCommand`; the argument checks of `!leaderboard`, `!compare` and `!play` |
| `Reports` | the accumulation loops of `!weekly` and `!monthly`, `formatTopActivities`, and the per-channel lines of `!voice` |
| `MusicSource` | `isYouTubeURL` and `isSpotifyURL` (anchored regular expressions), `extractMusicInfo` and its fallbacks, and the audio-format preference |
| `MusicStream` | `playAudioStream`: its checks, and the read/decode/encode loop over the reused `pcmBuf` and `pcmInt16` arrays |
| `MusicQueue` | the queue steps as functions on values; the `Queue`, `Session` and `MusicBot` classes (the per-guild registry); the player loop |
| `Legacy` | `main.go`, the first single-file version of the bot; only its smaller command switch differs from the later one |

Time is a whole number of seconds. `0` stands for Go's zero `time.Time`, which is how the source tells "no session" from "session started". A missing key in a Go map reads as the zero value, so `StartOf`, `ActivityStart`, `Get` and `GetMap` return zero for an absent key. The clock, the Discord API, the YouTube client, yt-dlp, ffmpeg and the Opus encoder do not appear as such. Each one's answer is a parameter of the operation that consults it. For the encoder and ffmpeg, that parameter is a function.

## Model

| member | source | states |
|---|---|---|
| Utils.FormatUserMention | pkg/utils/discord.go:8-11 | the `<@id>` mention of a user ID; `FormattedMentionIsMention` and `MentionRoundTrip` state that it passes the mention test and that the ID comes back out of it |
| Utils.FormattedMentionIsMention | pkg/utils/discord.go:9-26 | a formatted user mention is recognised as a user mention; a channel mention is not |
| Utils.ExtractUserIDFromMention | pkg/utils/discord.go:13-21 | strips `<@`, `>` and one `!`; `MentionRoundTrip`, `NicknameMentionRoundTrip` and `ExtractThenFormat` state when it inverts `FormatUserMention` |
| Utils.MentionRoundTrip | pkg/utils/discord.go:9-21 | extracting the ID from a formatted mention gives the ID back exactly when the ID does not start with `!` (the extractor strips a leading `!` as a nickname marker) |
| Utils.NicknameMentionRoundTrip | pkg/utils/discord.go:14-21 | the ID is recovered from a nickname mention `<@!id>` |
| Utils.ExtractThenFormat | pkg/utils/discord.go:9-26 | a plain user mention is rebuilt exactly from the ID extracted from it |
| Utils.Medal | pkg/utils/discord.go:29-40 | a medal is one non-empty word with no white space |
| Utils.MedalsDistinct | pkg/utils/discord.go:29-40 | different ranks get different medals (the three medal emoji, then "n.") |
| Utils.FormatLeaderboardEntry | pkg/utils/discord.go:28-43 | medal, mention and duration in one line; `LeaderboardEntryDeterminesMedal` and `LeaderboardEntryDeterminesRank` state that the medal and the rank are recoverable from it, and `MedalsDistinct` that ranks give distinct medals |
| Utils.LeaderboardEntryDeterminesMedal | pkg/utils/discord.go:29-43 | equal entries carry equal medals |
| Utils.LeaderboardEntryDeterminesRank | pkg/utils/discord.go:29-43 | the rank can be read back from an entry: equal entries have equal ranks |
| Utils.TruncateString | pkg/utils/discord.go:51-56 | a string within the limit is returned unchanged; a longer one keeps its first limit-3 bytes and ends in "...", with length exactly the limit |
| Utils.TruncateIdempotent | pkg/utils/discord.go:51-56 | truncating twice is truncating once |
| Utils.Quot | pkg/utils/duration.go:7-8 | Go's int64 division truncates toward zero; it agrees with Euclidean division on non-negative dividends |
| Utils.Rem | pkg/utils/duration.go:8-9 | Go's `%` takes the sign of the dividend; it agrees with Euclidean remainder on non-negative dividends |
| Utils.FormatDuration | pkg/utils/duration.go:5-11 | `H:MM:SS` with Go's truncating division; `DurationDecomposition`, `FormatDurationRoundTrip` and `Reports.DurationIsOneLine` state that the fields recombine to the input, parse back, and hold no line break |
| Utils.DurationDecomposition | pkg/utils/duration.go:6-11 | for a non-negative duration, minutes and seconds are below 60 and hours*3600 + minutes*60 + seconds is the input |
| Utils.FormatDurationExample | pkg/utils/duration.go:6-11 | 3661 seconds prints as "1:01:01" |
| Utils.FormatDurationNegativeExample | pkg/utils/duration.go:6-11 | a negative duration prints each part negative ("-1:-1:-1"), because Go's `/` and `%` truncate |
| Utils.Pad2Parses | pkg/utils/duration.go:10 | `%02d` of a value below 60 is two digits that read back as the value |
| Utils.FormatDurationRoundTrip | pkg/utils/duration.go:6-11 | every non-negative duration is recovered by parsing its "h:mm:ss" text |
| Text.TrimSpace | internal/discord/bot.go:151 | the result is a contiguous slice of the input with only white space before and after it, and it neither starts nor ends with white space |
| Text.Fields | internal/discord/bot.go:195 | every field is a non-empty word without white space |
| Text.FieldsOfJoin | internal/discord/bot.go:334 | words joined by single spaces split back into the same words |
| Text.ToLower | internal/discord/bot.go:229 | lower-casing keeps the length and maps each character on its own |
| Text.RemoveAll | internal/discord/bot.go:182-183 | removing every occurrence of a mention never lengthens the text |
| Text.RemoveAllNoMatch | internal/discord/bot.go:182-183 | text without the mention is left unchanged |
| Text.SplitOfJoin | internal/discord/bot.go:540 | lines joined with a newline split back into the same lines when none of them holds a newline |
| Tracking.VoiceUpdate | internal/discord/bot.go:69-98 | a voice update touches only the session under the key "guild:user"; every other session is kept as it was |
| Tracking.JoinThenLeave | internal/discord/bot.go:75-97 | joining at t1 then leaving at t2 restores the sessions and reports t2-t1 once to the guild total and once to the channel joined |
| Tracking.MoveKeepsSession | internal/discord/bot.go:75-84 | an update naming a channel while a session is live changes nothing and reports nothing |
| Tracking.LeaveWithoutSession | internal/discord/bot.go:84 | leaving without a live session changes nothing and reports nothing |
| Tracking.MoveCreditsFirstChannel | internal/discord/bot.go:75-97 | join, move, leave: the whole stay is credited to the channel first joined |
| Tracking.ActiveSet | internal/discord/bot.go:107-114 | a name is active exactly when it is non-empty and among the presence's activity names |
| Tracking.ActivityKeyParts | internal/discord/bot.go:119-137 | a key built as "user:name" belongs to that user, and stripping the user's prefix gives the name back |
| Tracking.ActivityKeyInjective | internal/discord/bot.go:137 | one user's keys for different activities differ |
| Tracking.OpenStep | internal/discord/bot.go:136-142 | opening one more activity adds just its key, with the current time when no session was recorded |
| Tracking.CloseCalls | internal/discord/bot.go:117-133 | one report per closed key |
| Tracking.PresenceSessions | internal/discord/bot.go:101-143 | the activity sessions after a presence update; `PresenceTracksActiveSet`, `PresenceKeepsStarts`, `PresenceOtherUsersUntouched` and `PresenceIdempotent` state what it keeps, opens and closes |
| Tracking.PresenceTracksActiveSet | internal/discord/bot.go:101-143 | after a presence update, the user has an activity session exactly for each activity in the update |
| Tracking.PresenceKeepsStarts | internal/discord/bot.go:136-142 | an activity still reported keeps its original start time |
| Tracking.OwnersDistinct | internal/discord/bot.go:119-122 | for user IDs without ':', a key belongs to at most one user |
| Tracking.PresenceOtherUsersUntouched | internal/discord/bot.go:117-142 | a presence update leaves every other user's activity sessions as they were |
| Tracking.PresenceIdempotent | internal/discord/bot.go:101-143 | repeating the same presence closes nothing and changes nothing |
| Tracking.ActivityStartThenStop | internal/discord/bot.go:117-142 | an activity started at t1 and missing from a later update at t2 is closed then and reported with length t2-t1 |
| Tracking.Tracker.constructor | internal/discord/bot.go:37-43 | the bot starts with no voice sessions, no activity sessions and nothing reported |
| Tracking.Tracker.VoiceStateUpdate | internal/discord/bot.go:69-98 | the sessions and the reports after the handler are those given by `VoiceUpdate`; activity sessions are untouched |
| Tracking.Tracker.PresenceUpdate | internal/discord/bot.go:101-143 | the three loops leave exactly the sessions given by `PresenceSessions`. The keys closed are exactly the user's keys for inactive activities, each once, in the map's iteration order, and each is reported with its duration. Voice sessions are untouched |
| Routing.RouteContent | internal/discord/bot.go:155-173 | messageCreate's switch on the trimmed text; `RouteIsFirstApplicable` states that it picks the first case, in the switch's order, that accepts the text |
| Routing.FirstApplicableFrom | internal/discord/bot.go:155-173 | searching from a case on returns the first case at or after it that accepts the text, or the number of cases if none does; every case skipped refuses the text |
| Routing.RouteIsFirstApplicable | internal/discord/bot.go:146-173 | the route chosen is the first case, in the switch's order, that accepts the trimmed text; the message is left unhandled exactly when none does |
| Routing.PlainTextIsUnhandled | internal/discord/bot.go:155-173 | text that neither starts with `!` nor mentions the bot gets no answer |
| Routing.ActivityLookupBeforeMention | internal/discord/bot.go:156-159 | any text starting with `!play` (even `!playlist`, even one that mentions the bot) is an activity lookup |
| Routing.StripBotMention | internal/discord/bot.go:178-184 | after both mention forms are removed, the text is trimmed |
| Routing.LowerContainsAt | internal/discord/bot.go:229-236 | a lower-case pattern present in the text is found after lower-casing it |
| Routing.IsMusicQuery | internal/discord/bot.go:217-241 | a link-like substring of the lower-cased text, or more than three words; `YouTubeURLIsMusicQuery` and `SpotifyURLIsMusicQuery` state that every accepted link is a music query |
| Routing.YouTubeURLHasLink | internal/discord/bot.go:217-236 | every URL the music player accepts as YouTube contains one of the link patterns once lower-cased |
| Routing.YouTubeURLIsMusicQuery | internal/discord/bot.go:217-241 | every YouTube URL counts as a music query |
| Routing.SpotifyURLHasLink | internal/discord/bot.go:217-236 | every Spotify URL contains "spotify.com" once lower-cased |
| Routing.SpotifyURLIsMusicQuery | internal/discord/bot.go:217-241 | every Spotify URL counts as a music query |
| Routing.TrimmedFields | internal/discord/music.go:84 | non-empty trimmed text has a first word, which begins with the text's first character |
| Routing.MusicCommandOf | internal/discord/music.go:53-108 | help for an empty text, the refusal outside a voice channel, then the switch on the first word; `MusicSwitch`, `MusicCommandHasAWord` and `LinkIsPlayRequest` state its outcomes |
| Routing.MusicSwitch | internal/discord/music.go:88-107 | the switch never yields the help text, the not-in-voice reply or the no-words case; it yields a play request, for the whole text and the caller's channel, exactly when the first word is none of the player commands |
| Routing.MusicCommandHasAWord | internal/discord/music.go:53-108 | non-empty trimmed text is never answered with the help text or dropped for lack of words |
| Routing.MusicTargetIsNotEmpty | internal/discord/bot.go:187-213 | text routed to the music player is never empty |
| Routing.MusicMentionIsACommand | internal/discord/bot.go:187-213 | anything the mention handler passes on to the music player is a command or a play request, never the help text |
| Routing.MentionTargetOf | internal/discord/bot.go:177-214 | the mention handler's choice between statistics and music; `StatsIsOneWord`, `MusicWordRoutesToMusic` and `MusicTargetIsNotEmpty` state which texts go where |
| Routing.StatsIsOneWord | internal/discord/bot.go:187 | text that lower-cases to "stats" is one word |
| Routing.MusicWordRoutesToMusic | internal/discord/bot.go:194-204 | a first word that is one of the seven player commands, in any case, goes to the music player |
| Routing.LinkIsPlayRequest | internal/discord/bot.go:207-210 | a link-like query starting with `h` goes to the music player and becomes a play request for the user's voice channel |
| Routing.YouTubeLinkMentionPlays | internal/discord/music.go:53-108 | mentioning the bot with a YouTube URL plays that URL in the author's voice channel |
| Routing.SpotifyLinkMentionRefused | internal/discord/music.go:53-169 | a mention with a Spotify URL becomes a play request, which is then refused as unsupported |
| Routing.LeaderboardArgs | internal/discord/bot.go:317-339 | the usage replies, the voice board, or the game board named by the words after "play"; `GameNameIsTheRemainingWords` states that the name splits back into exactly those words |
| Routing.GameNameIsTheRemainingWords | internal/discord/bot.go:317-335 | `!leaderboard play` takes the game name to be the remaining words joined by single spaces, which split back into those words |
| Routing.MentionNoSpace | pkg/utils/discord.go:9-11 | the mention of an ID without white space is one word |
| Routing.CompareArgs | internal/discord/bot.go:392-410 | the usage reply unless the next two words are user mentions, else their IDs; `CompareRoundTrip` states that two formatted mentions give their IDs back |
| Routing.CompareRoundTrip | internal/discord/bot.go:392-410 | `!compare <@a> <@b>` yields exactly the two user IDs a and b |
| Routing.ActivityName | internal/discord/bot.go:273-279 | a looked-up activity name is never empty; an empty name is the usage reply |
| Routing.ActivityNameOfCommand | internal/discord/bot.go:273-279 | `!play <name>` looks up exactly the name, for a name that is not padded with white space |
| Routing.PlaylistLooksUpList | internal/discord/bot.go:273-275 | "!playlist" is taken as a lookup of the activity "list" |
| Legacy.StatsIsNotMentioned | main.go:325 | "!stats" does not mention any bot |
| Legacy.LegacyRouteContent | main.go:283-347 | the older switch that answers only !voice, !play and !stats; `LegacyIsRestriction` relates it to `Routing.RouteContent` |
| Legacy.LegacyIsRestriction | main.go:278-325 | the first version answers exactly `!voice`, `!play` and `!stats`, and routes them as the later switch does; everything else goes unanswered |
| Reports.DurationIsOneLine | pkg/utils/duration.go:6-11 | a formatted duration holds no newline |
| Reports.VoiceTotalOfVoiceRows | internal/discord/bot.go:461-464 | the weekly voice total is the sum of the voice seconds of the rows without an activity |
| Reports.ActivityLinesOfActivityRows | internal/discord/bot.go:461-467 | there is one activity line per activity row, in order, naming its activity and duration |
| Reports.RowsSplit | internal/discord/bot.go:461-467 | every row counts either towards the voice total or as an activity line |
| Reports.VoiceTotalAppend | internal/discord/bot.go:461-464 | the voice total of two runs of rows is the sum of their totals |
| Reports.WeeklyLinesSplit | internal/discord/bot.go:465-473 | the joined activity lines split back into exactly those lines |
| Reports.ActivityLinesOneLine | internal/discord/bot.go:465-466 | each activity line is a single line when activity names hold no newline |
| Reports.WeeklySummary | internal/discord/bot.go:458-468 | the loop computes the voice total and the activity lines of the weekly report |
| Reports.RowsOfWeek | internal/discord/bot.go:496-499 | the rows of a week all carry that week's date |
| Reports.WeekTotalIsWeeklyTotal | internal/discord/bot.go:496-499 | a week's monthly total is the weekly voice total of that week's rows |
| Reports.WeekListedIffVoiceRow | internal/discord/bot.go:493-509 | a week is listed in the monthly report exactly when it has at least one voice row |
| Reports.WeekActivityIsSum | internal/discord/bot.go:500-504 | a week's entry for an activity is the sum of that activity's seconds over the week's rows |
| Reports.MonthlyTotals | internal/discord/bot.go:493-506 | the grouping loop builds the week totals and the per-week activity sums |
| Reports.JoinStartsWithFirst | internal/discord/bot.go:540 | the joined text starts with its first line |
| Reports.TopActivitiesPlaceholderIffEmpty | internal/discord/bot.go:529-541 | the "(belum ada data)" placeholder is shown exactly when there are no activities |
| Reports.TopActivitiesSplit | internal/discord/bot.go:529-541 | with activities, the text has one line per activity, in order |
| Reports.FormatTopActivities | internal/discord/bot.go:529-541 | the loop builds the text specified by `TopActivitiesText` |
| Reports.VoiceChannelLines | internal/discord/bot.go:252-265 | one line per channel, in order, each the channel mention and its duration; with no channels, the single placeholder line |
| Reports.ChannelLineIsNotPlaceholder | internal/discord/bot.go:254-264 | no channel line can be mistaken for the placeholder |
| MusicSource.Lits | internal/discord/music.go:174-176 | a literal pattern has one literal per character |
| MusicSource.MatchesLits | internal/discord/music.go:174-190 | a literal followed by a pattern matches exactly the texts that start with the literal and go on to match the pattern |
| MusicSource.MatchesOpt | internal/discord/music.go:174-176 | an optional group `(www\.)?` matches with or without its text |
| MusicSource.PrefixSplit | internal/discord/music.go:174-176 | a text starts with a+b exactly when it starts with a and continues with b |
| MusicSource.SchemesExclusive | internal/discord/music.go:174 | a text cannot start with both "https://" and "http://" |
| MusicSource.MatchesScheme | internal/discord/music.go:174-190 | `^https?://` matches exactly the texts starting with "https://" or "http://" |
| MusicSource.MatchesOptionalWww | internal/discord/music.go:174-176 | `(www\.)?youtube\.com` matches with or without "www." |
| MusicSource.MatchesLiteral | internal/discord/music.go:175 | a pattern of literals matches exactly the texts that start with it |
| MusicSource.YouTubeURLPrefixes | internal/discord/music.go:172-186 | a URL is a YouTube URL exactly when it starts with the scheme followed by one of the three accepted forms |
| MusicSource.SpotifyURLPrefixes | internal/discord/music.go:189-192 | a URL is a Spotify URL exactly when it starts with "http(s)://open.spotify.com/" |
| MusicSource.RestFirstChar | internal/discord/music.go:174-176 | the part after the scheme starts with `y` or `w` |
| MusicSource.YouTubeAndSpotifyExclusive | internal/discord/music.go:172-192 | no URL is both a YouTube and a Spotify URL |
| MusicSource.YouTubeURLExtends | internal/discord/music.go:172-186 | the patterns are anchored at the start only, so anything may follow a YouTube URL |
| MusicSource.RestExtends | internal/discord/music.go:174-176 | the same holds for the part after the scheme |
| MusicSource.YouTubeShortLinkExample | internal/discord/music.go:175 | "https://youtu.be/x" is accepted |
| MusicSource.WatchLinkIsYouTube | internal/discord/music.go:174 | every "http://www.youtube.com/watch?v=" link, whatever the video id, is accepted |
| MusicSource.YouTubeShortLinkWwwRefused | internal/discord/music.go:175 | "https://www.youtu.be/x" is refused: only youtube.com allows "www." |
| MusicSource.UpperCaseSchemeRefused | internal/discord/music.go:174-176 | matching is case-sensitive: an upper-case scheme is refused |
| MusicSource.ExtractYouTubeInfo | internal/discord/music.go:195-247 | a track keeps the URL. With the YouTube API's answer it takes the title, the duration and the first thumbnail. A video without thumbnails gets an empty thumbnail. Without the API's answer, duration and thumbnail are empty, and the title is yt-dlp's output with surrounding white space trimmed, or "YouTube Video" when yt-dlp failed or printed nothing |
| MusicSource.ExtractMusicInfo | internal/discord/music.go:154-169 | a query yields a track exactly when it is a YouTube URL; a Spotify URL is refused as unsupported, anything else as an unsupported search |
| MusicSource.SpotifyAlwaysRefused | internal/discord/music.go:250-252 | every Spotify URL is refused, whatever the other sources would answer |
| MusicSource.WithAudioChannels | internal/discord/music.go:356 | the formats kept are exactly those with audio channels |
| MusicSource.WithAudioChannelsAppend | internal/discord/music.go:356 | the filter keeps the video's own order: filtering a concatenation is concatenating the filtered parts |
| MusicSource.WithAudioChannelsSingle | internal/discord/music.go:356 | a single format is kept exactly when it has audio channels |
| MusicSource.FirstWhere | internal/discord/music.go:363-375 | the index returned is the first format satisfying the test, or none does |
| MusicSource.SelectFormat | internal/discord/music.go:361-379 | a format is chosen exactly when there is one, and it is one of those offered |
| MusicSource.SelectFormatPrefersWebm | internal/discord/music.go:363-368 | the first WebM audio format (itag 251 or "audio/webm") is chosen when there is one |
| MusicSource.SelectFormatThenMp4 | internal/discord/music.go:369-376 | otherwise the first MP4 audio format (itag 140 or "audio/mp4") is chosen |
| MusicSource.SelectFormatFallback | internal/discord/music.go:377-379 | otherwise the first format is chosen |
| MusicStream.Int16 | internal/discord/music.go:428 | two little-endian bytes read as a signed 16-bit sample, which agrees with the bytes modulo 65536 |
| MusicStream.Int16RoundTrip | internal/discord/music.go:428 | a sample written as bytes reads back as the same sample |
| MusicStream.Int16BytesRoundTrip | internal/discord/music.go:428 | bytes read as a sample write back as the same bytes |
| MusicStream.DecodeFrame | internal/discord/music.go:416-428 | a 3840-byte chunk decodes to 1920 samples, each in the 16-bit range; sample k is bytes 2k and 2k+1 read as a little-endian two's-complement 16-bit value |
| MusicStream.Frames | internal/discord/music.go:419-426 | a stream yields one frame per whole 3840-byte chunk |
| MusicStream.EncodedFrames | internal/discord/music.go:433-440 | no more frames are sent than were read |
| MusicStream.FramesAppend | internal/discord/music.go:419-426 | framing a stream that splits at a frame boundary is framing each part |
| MusicStream.PartialChunkDropped | internal/discord/music.go:420-425 | a trailing partial chunk is dropped (`ReadFull` reports an unexpected end and the loop stops) |
| MusicStream.EncodedFramesAppend | internal/discord/music.go:433-440 | encoding concatenated frames is concatenating their encodings |
| MusicStream.EncodedFramesAllSent | internal/discord/music.go:433-440 | when the encoder never fails, every frame is sent |
| MusicStream.FrameAt | internal/discord/music.go:420-428 | frame k is the decoding of bytes 3840k to 3840k+3840 |
| MusicStream.LastFrame | internal/discord/music.go:420-425 | the loop's last read comes after the last whole frame |
| MusicStream.EncodedFramesStep | internal/discord/music.go:433-440 | each step sends the next frame's encoding or skips a frame the encoder rejects |
| MusicStream.ReadFull | internal/discord/music.go:420-426 | the buffer receives the next bytes of the stream. The status is full, end of stream (no bytes) or unexpected end (some bytes) |
| MusicStream.DecodeInto | internal/discord/music.go:428 | the sample array holds the decoding of the byte buffer |
| MusicStream.StreamPcm | internal/discord/music.go:416-444 | the loop over the reused buffers sends exactly the encodings of the stream's whole frames, in order, skipping those the encoder rejects |
| MusicStream.PlayAudioStream | internal/discord/music.go:344-448 | each failure is reported exactly when every earlier check passed and its own check fails, in the source's order: voice not ready, video lookup, no audio format, ffmpeg, encoder. Playback succeeds exactly when all five pass; then the preferred format was used and the frames sent are those of ffmpeg's output |
| MusicQueue.Stop | internal/discord/music.go:464-470 | the stop command's effect on the queue; `StopIsIdleAndIdempotent` states that it empties and idles the queue and is idempotent |
| MusicQueue.StopIsIdleAndIdempotent | internal/discord/music.go:467-469 | stopping empties the queue, stops playback, resets the position and keeps the loop flag; stopping again changes nothing |
| MusicQueue.ToggleLoop | internal/discord/music.go:531-535 | the loop command's flip; `ToggleLoopInvolution` states that it flips only the flag and undoes itself |
| MusicQueue.ToggleLoopInvolution | internal/discord/music.go:534 | toggling flips the loop flag, and toggling twice restores the queue |
| MusicQueue.Skip | internal/discord/music.go:451-460 | the skip command's effect on the queue; `SkipOnlyMovesCurrent` states that only the position moves, and only on a non-empty queue |
| MusicQueue.SkipOnlyMovesCurrent | internal/discord/music.go:451-460 | skipping an empty queue changes nothing; otherwise it only advances the position by one |
| MusicQueue.Enqueue | internal/discord/music.go:127 | appending a track to the queue; `EnqueueAllAppends` and `Queue.Append` state that tracks are appended in order |
| MusicQueue.EnqueueAllAppends | internal/discord/music.go:127 | enqueuing tracks one by one appends them in order |
| MusicQueue.SkipDuringTrackSkipsNext | internal/discord/music.go:451-461 | a skip while a track plays, followed by the player's own advance (line 333), moves two places: the current track still plays to its end, and the track after it is never played |
| MusicQueue.PlayerLoop | internal/discord/music.go:312-340 | the player keeps tracks and the loop flag. When it finishes it is idle at position 0; otherwise the position stays within the queue |
| MusicQueue.StartPlayer | internal/discord/music.go:308-341 | startMusicPlayer on values; `PlayerPlaysRemainingTracks`, `PlayerRunsOutOfFuel` and `LoopingPlayerNeverStops` state which tracks it plays and whether it finishes |
| MusicQueue.PlayerPlaysRemainingTracks | internal/discord/music.go:312-340 | without loop mode, the player plays the tracks from the current one to the end, in order, and stops idle at position 0 |
| MusicQueue.PlayerRunsOutOfFuel | internal/discord/music.go:312-337 | without loop mode, n steps play the next n tracks when more remain |
| MusicQueue.LoopingPlayerNeverStops | internal/discord/music.go:333-336 | in loop mode the player never finishes; it plays the queue round and round from the current track |
| MusicQueue.ModShift | internal/discord/music.go:333-336 | wrapping the position after each step is wrapping once at the end |
| MusicQueue.ResumesStep | internal/discord/music.go:312-336 | one iteration plays the track at the position and leaves the rest of the run to the advanced queue, so the outcome of the whole loop is unchanged |
| MusicQueue.ResumesEnd | internal/discord/music.go:312-341 | when the loop condition fails, the outcome is the tracks played so far, with the queue ended if it ran off the end and left in place if the iterations ran out |
| MusicQueue.QueueListing | internal/discord/music.go:491-501 | the listing has one line per track |
| MusicQueue.ListingHasOneNowPlaying | internal/discord/music.go:491-501 | at most one line is marked "Now Playing", and one is exactly when the position is within the queue |
| MusicQueue.ListingStatuses | internal/discord/music.go:491-501 | tracks before the position are marked played, those after are numbered by their 1-based position in the queue (the first one after position c is number c+2), and each line carries its track's title |
| MusicQueue.Queue.constructor | internal/discord/music.go:264-270 | a new queue is empty, idle, at position 0, without loop, at volume 0.5 |
| MusicQueue.Queue.Append | internal/discord/music.go:127 | the track is appended and nothing else changes |
| MusicQueue.Queue.SkipTrack | internal/discord/music.go:451-460 | the queue takes the `Skip` step; it reports a skip exactly when the queue had tracks |
| MusicQueue.Queue.Clear | internal/discord/music.go:467-469 | the queue takes the `Stop` step |
| MusicQueue.Queue.FlipLoop | internal/discord/music.go:534-539 | the loop flag is flipped and reported |
| MusicQueue.Queue.Run | internal/discord/music.go:308-341 | the player's loop on the object plays and finishes exactly as `StartPlayer` does on values |
| MusicQueue.Session.constructor | internal/discord/music.go:263-271 | a new session has a new empty queue and no voice connection |
| MusicQueue.MusicBot.constructor | internal/discord/music.go:50 | the registry starts with no sessions |
| MusicQueue.MusicBot.GetOrCreateSession | internal/discord/music.go:260-275 | an existing session is returned unchanged; otherwise a new empty session is registered for that guild alone |
| MusicQueue.MusicBot.HandlePlayMusic | internal/discord/music.go:111-151 | a failed lookup changes nothing. A found track is queued with its requester and channel. Without a ready connection, a failed join leaves it unconnected. Otherwise the player is started exactly when the queue was idle. Other guilds are untouched |
| MusicQueue.MusicBot.HandleSkip | internal/discord/music.go:451-461 | only this guild's queue advances, and only when it has tracks |
| MusicQueue.MusicBot.HandleStop | internal/discord/music.go:464-477 | this guild's queue is emptied and stopped and its voice connection dropped; other guilds are untouched |
| MusicQueue.MusicBot.HandleQueue | internal/discord/music.go:480-504 | nothing changes; an empty queue gets the "queue empty" reply, otherwise the listing of the queue |
| MusicQueue.MusicBot.HandlePause | internal/discord/music.go:507-517 | nothing changes; the reply depends only on whether the queue is playing |
| MusicQueue.MusicBot.HandleResume | internal/discord/music.go:519-529 | nothing changes; the reply depends only on whether the queue is playing |
| MusicQueue.MusicBot.HandleLoop | internal/discord/music.go:531-543 | only this guild's loop flag flips, and the new value is reported |
| MusicQueue.MusicBot.HandleVolume | internal/discord/music.go:545-553 | with fewer than two words, nothing changes and the usage is replied; otherwise the session exists afterwards and the second word is echoed, but no queue or connection changes |
| MusicQueue.MusicBot.StartMusicPlayer | internal/discord/music.go:308-341 | this guild's queue is played as `StartPlayer` specifies; other guilds and the connection are untouched |

## Left out

- Discord transport: sending and editing messages and embeds, their exact text (except the placeholders and line formats above), `connectToVoice`'s 10-second poll (modelled as one boolean outcome), `Speaking`, disconnects, and the 5-second timeout on `OpusSend` (each frame is taken to be delivered).
- Concurrency: the player runs as a goroutine and shares the queue with the command handlers without locking. Each handler and the player's run are modelled as atomic steps, and `SkipDuringTrackSkipsNext` shows the one interleaving the code evidently permits.
- The YouTube client, yt-dlp, ffmpeg and the Opus encoder are not part of this model. Their answers are parameters: a video lookup result, an optional title, a function from format URL to an optional byte stream, and a function from samples to an optional frame.
- The decoding error branch of `binary.Read` (music.go:428-431) is not modelled: a full 3840-byte buffer always decodes into the 1920 samples.
- The repository (SQL queries, upserts, the `GetWeeklyReport`, `GetMonthlyReport` and `GetUserComparison` queries, which repository.go does not define) is not part of this model. Writes become a log of `RepoCall`s and query results are inputs. The schema migration and table creation in main.go are left out for the same reason.
- The clock: `time.Now()` and `time.Since` become an integer `now`. The truncation of fractional seconds, the UTC+7 display zone and `!weekly`'s week-start computation are left out.
- The `!stats` handlers and the `!leaderboard` listings only fetch rows and print them with the formatting lemmas above. Their message texts are not modelled.
- `!monthly`'s output order follows Go's random map iteration, so only the grouped totals are modelled, not the order of the lines.
- `MusicQueue.MusicBot.HandleVolume`: the volume is a `float64` the source never applies; the model keeps it unchanged, as the source does, and does not parse the argument.
- `Text.ToLower`: only ASCII letters are lower-cased. Strings are sequences of characters, so UTF-8 decoding and Unicode case folding are not modelled. `Utils.TruncateString` works on bytes, as Go's `len` and slicing do.
- Integers are unbounded: int64 overflow of sums and durations is not modelled.
- `MusicQueue.PlayerLoop`: the player's loop can run forever in loop mode, so it takes a `fuel` bound of steps. A run that exhausts it reports that it has not finished.
- Where the code and its description differ, the model follows the code. Stopping or running out of tracks resets the position to 0. A zero-byte stream plays successfully with no frames. A move between channels is not a leave, so the stay is credited to the first channel. "!playlist" looks up the activity "list". A week that has only activity rows is left out of `!monthly`.
- main.go's `voiceStateUpdate`, `presenceUpdate`, `formatDuration`, `!voice` and `!play` repeat the later code line for line, so `Tracking`, `Utils.FormatDuration`, `Reports.VoiceChannelLines` and `Routing.ActivityName` stand for them. Only its command switch is modelled separately.
- Configuration loading (`internal/config`) and the program entry points (`cmd/bot/main.go` and main.go's `main`) are not part of this model.
