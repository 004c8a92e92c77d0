/**
 * pkg/utils: Discord mention and leaderboard formatting, byte-length
 * truncation, and the H:MM:SS rendering of a number of seconds.
 */
module Utils {
  import opened Wrappers
  import opened Text

  // ---------------------------------------------------------------------------
  // Mentions
  // ---------------------------------------------------------------------------

  function FormatUserMention(userID: string): string {
    "<@" + userID + ">"
  }

  function FormatChannelMention(channelID: string): string {
    "<#" + channelID + ">"
  }

  /** Strip "<@", then ">", then one "!" (the nickname form "<@!id>"). */
  function ExtractUserIDFromMention(mention: string): string {
    TrimPrefix(TrimSuffix(TrimPrefix(mention, "<@"), ">"), "!")
  }

  predicate IsUserMention(text: string) {
    HasPrefix(text, "<@") && HasSuffix(text, ">")
  }

  lemma FormattedMentionIsMention(userID: string)
    ensures IsUserMention(FormatUserMention(userID))
    ensures !IsUserMention(FormatChannelMention(userID))
  {
    assert FormatUserMention(userID)[..2] == "<@";
    assert FormatChannelMention(userID)[1] == '#';
  }

  /** Formatting then extracting gives the ID back exactly when the ID does not start with '!'. */
  lemma MentionRoundTrip(userID: string)
    ensures ExtractUserIDFromMention(FormatUserMention(userID)) == userID <==> !HasPrefix(userID, "!")
  {
    var m := FormatUserMention(userID);
    assert HasPrefix(m, "<@") && m[2..] == userID + ">";
    assert TrimPrefix(m, "<@") == userID + ">";
    assert HasSuffix(userID + ">", ">") && (userID + ">")[..|userID|] == userID;
    assert TrimSuffix(userID + ">", ">") == userID;
  }

  /** The nickname form "<@!id>" yields the same ID as the plain form. */
  lemma NicknameMentionRoundTrip(userID: string)
    requires !HasPrefix(userID, "!")
    ensures ExtractUserIDFromMention("<@!" + userID + ">") == userID
  {
    var m := "<@!" + userID + ">";
    assert HasPrefix(m, "<@") && m[2..] == "!" + userID + ">";
    assert TrimPrefix(m, "<@") == "!" + userID + ">";
    var n := "!" + userID + ">";
    assert HasSuffix(n, ">") && n[..|n| - 1] == "!" + userID;
    assert TrimSuffix(n, ">") == "!" + userID;
    assert HasPrefix("!" + userID, "!") && ("!" + userID)[1..] == userID;
  }

  /** Every mention that is not in nickname form is the formatting of the ID extracted from it. */
  lemma ExtractThenFormat(mention: string)
    requires IsUserMention(mention) && !HasPrefix(mention, "<@!")
    ensures FormatUserMention(ExtractUserIDFromMention(mention)) == mention
  {
    var inner := mention[2..];
    assert TrimPrefix(mention, "<@") == inner;
    assert mention[1] == '@';
    assert mention[|mention| - 1] == '>';
    assert HasSuffix(inner, ">") && TrimSuffix(inner, ">") == mention[2..|mention| - 1];
    var id := mention[2..|mention| - 1];
    assert mention[..3] == mention[..2] + [mention[2]];
    assert mention[2] != '!';
    assert mention == "<@" + id + ">";
  }

  // ---------------------------------------------------------------------------
  // Leaderboard entries
  // ---------------------------------------------------------------------------

  /** Gold, silver and bronze for ranks 1 to 3, "<rank>." for every other rank. */
  function Medal(rank: int): (r: string)
    ensures r != [] && NoSpace(r)
  {
    if rank == 1 then "\U{1F947}"
    else if rank == 2 then "\U{1F948}"
    else if rank == 3 then "\U{1F949}"
    else IntToString(rank) + "."
  }

  function FormatLeaderboardEntry(rank: int, userMention: string, duration: string): string {
    Medal(rank) + " " + userMention + " - " + duration
  }

  lemma MedalsDistinct(a: int, b: int)
    requires a != b
    ensures Medal(a) != Medal(b)
  {
    var ta, tb := IntToString(a) + ".", IntToString(b) + ".";
    assert |IntToString(a)| >= 1 && |IntToString(b)| >= 1;
    if a !in {1, 2, 3} && b !in {1, 2, 3} && ta == tb {
      assert IntToString(a) == ta[..|ta| - 1] == tb[..|tb| - 1] == IntToString(b);
      IntToStringInjective(a, b);
    }
  }

  lemma HeadWordsEqual(a: string, x: string, b: string, y: string)
    requires NoSpace(a) && NoSpace(b)
    requires a + " " + x == b + " " + y
    ensures a == b
  {
    var l := a + (" " + x);
    assert l == a + " " + x && l == b + (" " + y);
    WordLengthOfWord(a, " " + x);
    WordLengthOfWord(b, " " + y);
    assert a == l[..|a|] && b == l[..|b|];
  }

  /** Regroups an entry so that the medal stands alone before the first space. */
  lemma EntryShape(rank: int, userMention: string, duration: string)
    ensures FormatLeaderboardEntry(rank, userMention, duration) == Medal(rank) + " " + (userMention + " - " + duration)
  {
  }

  /** A leaderboard line determines the medal at its head ... */
  lemma LeaderboardEntryDeterminesMedal(r1: int, m1: string, d1: string, r2: int, m2: string, d2: string)
    requires FormatLeaderboardEntry(r1, m1, d1) == FormatLeaderboardEntry(r2, m2, d2)
    ensures Medal(r1) == Medal(r2)
  {
    EntryShape(r1, m1, d1);
    EntryShape(r2, m2, d2);
    HeadWordsEqual(Medal(r1), m1 + " - " + d1, Medal(r2), m2 + " - " + d2);
  }

  /** ... and therefore the rank it was printed for. */
  lemma LeaderboardEntryDeterminesRank(r1: int, m1: string, d1: string, r2: int, m2: string, d2: string)
    requires FormatLeaderboardEntry(r1, m1, d1) == FormatLeaderboardEntry(r2, m2, d2)
    ensures r1 == r2
  {
    LeaderboardEntryDeterminesMedal(r1, m1, d1, r2, m2, d2);
    if r1 != r2 {
      MedalsDistinct(r1, r2);
    }
  }

  // ---------------------------------------------------------------------------
  // Truncation by byte length
  // ---------------------------------------------------------------------------

  const Ellipsis: seq<Byte> := [46, 46, 46]

  /**
   * The slice s[:maxLen-3] panics in the source unless maxLen >= 3, so a caller
   * must not pass a too-long `s` with a smaller bound.
   */
  function TruncateString(s: seq<Byte>, maxLen: int): (r: seq<Byte>)
    requires |s| <= maxLen || maxLen >= 3
    ensures |r| == if |s| <= maxLen then |s| else maxLen
    ensures |s| <= maxLen ==> r == s
    ensures |s| > maxLen ==> r[..maxLen - 3] == s[..maxLen - 3] && r[maxLen - 3..] == Ellipsis
  {
    if |s| <= maxLen then s else s[..maxLen - 3] + Ellipsis
  }

  lemma TruncateIdempotent(s: seq<Byte>, maxLen: int)
    requires |s| <= maxLen || maxLen >= 3
    ensures TruncateString(TruncateString(s, maxLen), maxLen) == TruncateString(s, maxLen)
  {
  }

  // ---------------------------------------------------------------------------
  // Durations: Go's int64 `/` and `%` truncate toward zero
  // ---------------------------------------------------------------------------

  function Quot(a: int, b: int): (q: int)
    requires b > 0
    ensures a >= 0 ==> q == a / b
  {
    if a >= 0 then a / b else -((-a) / b)
  }

  function Rem(a: int, b: int): (r: int)
    requires b > 0
    ensures a >= 0 ==> r == a % b
  {
    a - b * Quot(a, b)
  }

  /** fmt's %02d: zero-padded to width two, the sign counting toward the width. */
  function Pad2(x: int): string {
    if 0 <= x < 10 then "0" + NatToString(x) else IntToString(x)
  }

  function FormatDuration(totalSeconds: int): string {
    var h := Quot(totalSeconds, 3600);
    var m := Quot(Rem(totalSeconds, 3600), 60);
    var s := Rem(totalSeconds, 60);
    IntToString(h) + ":" + Pad2(m) + ":" + Pad2(s)
  }

  /** The three printed fields recombine to the input, minutes and seconds below 60. */
  lemma DurationDecomposition(totalSeconds: int)
    requires totalSeconds >= 0
    ensures var h, m, s := Quot(totalSeconds, 3600), Quot(Rem(totalSeconds, 3600), 60), Rem(totalSeconds, 60);
      h >= 0 && 0 <= m < 60 && 0 <= s < 60 && h * 3600 + m * 60 + s == totalSeconds
  {
    var t := totalSeconds;
    var q, r := t / 3600, t % 3600;
    var m, s := r / 60, r % 60;
    assert t == 3600 * q + r;
    assert r == 60 * m + s;
    assert t == 60 * (60 * q + m) + s;
    RemainderOf(t, 60 * q + m, s, 60);
  }

  /** The remainder of x = n*k + r, with 0 <= r < n, is r. */
  lemma RemainderOf(x: int, k: int, r: int, n: int)
    requires n > 0 && x == n * k + r && 0 <= r < n
    ensures x % n == r
  {
    var k' := x / n;
    assert x == n * k' + x % n;
    assert n * (k - k') == x % n - r;
    if k - k' >= 1 {
      assert false;
    } else if k - k' <= -1 {
      assert false;
    }
  }

  lemma FormatDurationExample()
    ensures FormatDuration(3661) == "1:01:01"
  {
    assert Quot(3661, 3600) == 1 && Rem(3661, 3600) == 61 && Quot(61, 60) == 1 && Rem(3661, 60) == 1;
    assert IntToString(1) == "1" && Pad2(1) == "01";
  }

  /** Go's truncating division gives every field of a negative total a minus sign. */
  lemma FormatDurationNegativeExample()
    ensures FormatDuration(-3661) == "-1:-1:-1"
  {
    assert Quot(-3661, 3600) == -1 && Rem(-3661, 3600) == -61 && Quot(-61, 60) == -1 && Rem(-3661, 60) == -1;
    assert NatToString(1) == "1";
    assert IntToString(-1) == "-1" && Pad2(-1) == "-1";
  }

  /** Reads "H:MM:SS" back into seconds; the inverse of FormatDuration on non-negative input. */
  function ParseDuration(text: string): Option<int> {
    var f := Split(text, ':');
    if |f| == 3 && f[0] != [] && AllDigits(f[0]) && |f[1]| == 2 && AllDigits(f[1]) && |f[2]| == 2 && AllDigits(f[2])
    then Some(ParseNat(f[0]) * 3600 + ParseNat(f[1]) * 60 + ParseNat(f[2]))
    else None
  }

  lemma Pad2Parses(x: int)
    requires 0 <= x < 60
    ensures |Pad2(x)| == 2 && AllDigits(Pad2(x)) && ParseNat(Pad2(x)) == x
  {
    if x < 10 {
      var p := Pad2(x);
      assert p == ['0', DigitChar(x)];
      assert p[..1] == "0" && p[..1][..0] == [];
      assert ParseNat(p[..1]) == 0;
    } else {
      ParseNatToString(x);
      assert NatToString(x / 10) == [DigitChar(x / 10)];
    }
  }

  lemma {:induction false} FormatDurationRoundTrip(totalSeconds: int)
    requires totalSeconds >= 0
    ensures ParseDuration(FormatDuration(totalSeconds)) == Some(totalSeconds)
  {
    DurationDecomposition(totalSeconds);
    var h, m, s := Quot(totalSeconds, 3600), Quot(Rem(totalSeconds, 3600), 60), Rem(totalSeconds, 60);
    var H, M, S := IntToString(h), Pad2(m), Pad2(s);
    Pad2Parses(m);
    Pad2Parses(s);
    ParseNatToString(h);
    assert H == NatToString(h);
    assert ':' !in H && ':' !in M && ':' !in S;
    assert FormatDuration(totalSeconds) == H + [':'] + (M + [':'] + S);
    SplitAfterPiece(H, ':', M + [':'] + S);
    SplitAfterPiece(M, ':', S);
    SplitNoSeparator(S, ':');
    assert Split(FormatDuration(totalSeconds), ':') == [H, M, S];
  }
}
