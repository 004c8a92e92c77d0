/**
 * main.go, the first version of the bot. Its voiceStateUpdate and
 * presenceUpdate are those of Tracking over the global maps, its
 * formatDuration is Utils.FormatDuration, and its !voice and !play
 * arguments are handled as Reports.VoiceChannelLines and
 * Routing.ActivityName do; what differs is its smaller command switch.
 */
module Legacy {
  import opened Text
  import opened Utils
  import opened Routing

  /** main.go's messageCreate switch: only !voice, !play and !stats are answered. */
  function LegacyRouteContent(content: string): Route {
    if content == "!voice" || HasPrefix(content, "!voicechan") then VoiceReport
    else if HasPrefix(content, "!play") then ActivityLookup
    else if content == "!stats" then Stats
    else Unhandled
  }

  function LegacyRouteMessage(authorIsBot: bool, raw: string): Route {
    if authorIsBot then Ignored else LegacyRouteContent(TrimSpace(raw))
  }

  /** "!stats" holds no mention of anyone. */
  lemma StatsIsNotMentioned(botID: string)
    ensures !IsMentioned("!stats", botID)
  {
    NotContainsWithoutFirstChar("!stats", FormatUserMention(botID));
    NotContainsWithoutFirstChar("!stats", NicknameMention(botID));
  }

  /**
   * The first version answers exactly the three commands it shares with
   * the later switch, in the same way, and leaves everything else
   * unanswered.
   */
  lemma LegacyIsRestriction(content: string, botID: string)
    ensures var r := RouteContent(content, botID);
      LegacyRouteContent(content) == if r in {VoiceReport, ActivityLookup, Stats} then r else Unhandled
  {
    StatsIsNotMentioned(botID);
  }
}
