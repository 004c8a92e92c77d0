/**
 * The accumulation loops behind the reports of internal/discord/bot.go
 * (and of main.go's !voice): the weekly voice total and activity lines,
 * the monthly per-week totals, formatTopActivities, and the per-channel
 * lines of !voice. The rows come from the repository, which is not part
 * of this model; they are inputs here.
 */
module Reports {
  import opened Text
  import opened Utils

  /** A row of the weekly or monthly report; a voice row has an empty activity name. */
  datatype ReportRow = ReportRow(weekStart: string, activityName: string, voiceSeconds: int, activitySeconds: int)

  /** database.ActivityHours. */
  datatype ActivityHours = ActivityHours(userID: string, activityName: string, totalSeconds: int)

  /** database.VoiceChannelHours. */
  datatype VoiceChannelHours = VoiceChannelHours(userID: string, guildID: string, channelID: string, totalSeconds: int)

  predicate NoNewline(s: string) {
    '\n' !in s
  }

  /** A printed duration is one line. */
  lemma DurationIsOneLine(t: int)
    ensures NoNewline(FormatDuration(t))
  {
    var h, m, s := Quot(t, 3600), Quot(Rem(t, 3600), 60), Rem(t, 60);
    IntToStringNoSeparator(h, '\n');
    IntToStringNoSeparator(m, '\n');
    IntToStringNoSeparator(s, '\n');
  }

  // ---------------------------------------------------------------------------
  // !weekly
  // ---------------------------------------------------------------------------

  /** "- <activity>: <H:MM:SS>". */
  function ActivityLine(name: string, seconds: int): string {
    "- " + name + ": " + FormatDuration(seconds)
  }

  function Init<T>(s: seq<T>): seq<T>
    requires s != []
  {
    s[..|s| - 1]
  }

  function Last<T>(s: seq<T>): T
    requires s != []
  {
    s[|s| - 1]
  }

  /** The weekly voice total: the voice seconds of the voice rows, in row order. */
  function VoiceTotal(rows: seq<ReportRow>): int {
    if rows == [] then 0
    else VoiceTotal(Init(rows)) + (if Last(rows).activityName == "" then Last(rows).voiceSeconds else 0)
  }

  /** One line per activity row, in row order. */
  function ActivityLines(rows: seq<ReportRow>): seq<string> {
    if rows == [] then []
    else
      var r := Last(rows);
      ActivityLines(Init(rows)) + (if r.activityName == "" then [] else [ActivityLine(r.activityName, r.activitySeconds)])
  }

  /** The voice rows, and the activity rows, of a report. */
  function VoiceRows(rows: seq<ReportRow>): seq<ReportRow> {
    if rows == [] then []
    else VoiceRows(Init(rows)) + (if Last(rows).activityName == "" then [Last(rows)] else [])
  }

  function ActivityRows(rows: seq<ReportRow>): seq<ReportRow> {
    if rows == [] then []
    else ActivityRows(Init(rows)) + (if Last(rows).activityName != "" then [Last(rows)] else [])
  }

  /** The voice seconds of a sequence of rows, all of them. */
  function SumVoice(rows: seq<ReportRow>): int {
    if rows == [] then 0 else SumVoice(Init(rows)) + Last(rows).voiceSeconds
  }

  /** The voice total adds up the voice rows and nothing else. */
  lemma {:induction false} VoiceTotalOfVoiceRows(rows: seq<ReportRow>)
    ensures VoiceTotal(rows) == SumVoice(VoiceRows(rows))
  {
    if rows != [] {
      VoiceTotalOfVoiceRows(Init(rows));
      var v := VoiceRows(Init(rows));
      if Last(rows).activityName == "" {
        assert VoiceRows(rows) == v + [Last(rows)];
        assert Init(v + [Last(rows)]) == v && Last(v + [Last(rows)]) == Last(rows);
      } else {
        assert VoiceRows(rows) == v;
      }
    }
  }

  /** One activity line per activity row, in row order. */
  lemma {:induction false} ActivityLinesOfActivityRows(rows: seq<ReportRow>)
    ensures |ActivityLines(rows)| == |ActivityRows(rows)|
    ensures forall i :: 0 <= i < |ActivityRows(rows)| ==>
      ActivityLines(rows)[i] == ActivityLine(ActivityRows(rows)[i].activityName, ActivityRows(rows)[i].activitySeconds)
  {
    if rows != [] {
      ActivityLinesOfActivityRows(Init(rows));
    }
  }

  /** Every row is either a voice row or an activity row, never both. */
  lemma {:induction false} RowsSplit(rows: seq<ReportRow>)
    ensures |VoiceRows(rows)| + |ActivityRows(rows)| == |rows|
  {
    if rows != [] {
      RowsSplit(Init(rows));
    }
  }

  /** Reports over consecutive stretches of rows add up. */
  lemma {:induction false} VoiceTotalAppend(a: seq<ReportRow>, b: seq<ReportRow>)
    ensures VoiceTotal(a + b) == VoiceTotal(a) + VoiceTotal(b)
    decreases |b|
  {
    if b == [] {
      assert a + b == a;
    } else {
      assert Init(a + b) == a + Init(b);
      assert Last(a + b) == Last(b);
      VoiceTotalAppend(a, Init(b));
    }
  }

  /** The weekly text splits back into its activity lines, when no activity name holds a line break. */
  lemma WeeklyLinesSplit(rows: seq<ReportRow>)
    requires forall i :: 0 <= i < |rows| ==> NoNewline(rows[i].activityName)
    requires |ActivityLines(rows)| > 0
    ensures Split(Join(ActivityLines(rows), "\n"), '\n') == ActivityLines(rows)
  {
    ActivityLinesOneLine(rows);
    SplitOfJoin(ActivityLines(rows), '\n');
  }

  lemma {:induction false} ActivityLinesOneLine(rows: seq<ReportRow>)
    requires forall i :: 0 <= i < |rows| ==> NoNewline(rows[i].activityName)
    ensures forall i :: 0 <= i < |ActivityLines(rows)| ==> NoNewline(ActivityLines(rows)[i])
  {
    if rows != [] {
      ActivityLinesOneLine(Init(rows));
      var r := Last(rows);
      DurationIsOneLine(r.activitySeconds);
    }
  }

  /** handleWeeklyCommand's loop over the report rows. */
  method WeeklySummary(rows: seq<ReportRow>) returns (voiceTotal: int, activityLines: seq<string>)
    ensures voiceTotal == VoiceTotal(rows)
    ensures activityLines == ActivityLines(rows)
  {
    voiceTotal := 0;
    activityLines := [];
    for i := 0 to |rows|
      invariant voiceTotal == VoiceTotal(rows[..i])
      invariant activityLines == ActivityLines(rows[..i])
    {
      assert Init(rows[..i + 1]) == rows[..i];
      var stat := rows[i];
      if stat.activityName == "" {
        voiceTotal := voiceTotal + stat.voiceSeconds;
      } else {
        activityLines := activityLines + [ActivityLine(stat.activityName, stat.activitySeconds)];
      }
    }
    assert rows[..|rows|] == rows;
  }

  // ---------------------------------------------------------------------------
  // !monthly
  // ---------------------------------------------------------------------------

  /** A Go map read: a missing key reads as zero. */
  function Get(m: map<string, int>, k: string): int {
    if k in m then m[k] else 0
  }

  /** A Go map read of a nested map: a missing key reads as an empty map. */
  function GetMap(m: map<string, map<string, int>>, k: string): map<string, int> {
    if k in m then m[k] else map[]
  }

  /** weekTotals: the voice seconds of each week that has a voice row. */
  function WeekTotals(rows: seq<ReportRow>): map<string, int> {
    if rows == [] then map[]
    else
      var m := WeekTotals(Init(rows));
      var r := Last(rows);
      if r.activityName == "" then m[r.weekStart := Get(m, r.weekStart) + r.voiceSeconds] else m
  }

  /** weekActivities: the seconds of each activity, week by week. */
  function WeekActivities(rows: seq<ReportRow>): map<string, map<string, int>> {
    if rows == [] then map[]
    else
      var m := WeekActivities(Init(rows));
      var r := Last(rows);
      if r.activityName == "" then m
      else
        var inner := GetMap(m, r.weekStart);
        m[r.weekStart := inner[r.activityName := Get(inner, r.activityName) + r.activitySeconds]]
  }

  /** The rows of one week. */
  function RowsOfWeek(rows: seq<ReportRow>, week: string): (r: seq<ReportRow>)
    ensures forall i :: 0 <= i < |r| ==> r[i].weekStart == week
  {
    if rows == [] then []
    else RowsOfWeek(Init(rows), week) + (if Last(rows).weekStart == week then [Last(rows)] else [])
  }

  /** The activity seconds of one activity in one week, summed over its rows. */
  function ActivitySum(rows: seq<ReportRow>, week: string, name: string): int {
    if rows == [] then 0
    else
      var r := Last(rows);
      ActivitySum(Init(rows), week, name) + (if r.weekStart == week && r.activityName == name then r.activitySeconds else 0)
  }

  /** Each week's monthly total is what the weekly report would give for that week's rows. */
  lemma {:induction false} WeekTotalIsWeeklyTotal(rows: seq<ReportRow>, week: string)
    ensures Get(WeekTotals(rows), week) == VoiceTotal(RowsOfWeek(rows, week))
  {
    if rows != [] {
      WeekTotalIsWeeklyTotal(Init(rows), week);
      var r := Last(rows);
      var prev := RowsOfWeek(Init(rows), week);
      if r.weekStart == week {
        assert RowsOfWeek(rows, week) == prev + [r];
        assert Init(prev + [r]) == prev && Last(prev + [r]) == r;
      } else {
        assert RowsOfWeek(rows, week) == prev;
      }
    }
  }

  /**
   * A week is listed in the monthly report exactly when it has a voice
   * row: a week with activity rows only is left out of the text.
   */
  lemma {:induction false} WeekListedIffVoiceRow(rows: seq<ReportRow>, week: string)
    ensures week in WeekTotals(rows) <==> exists i :: 0 <= i < |rows| && rows[i].weekStart == week && rows[i].activityName == ""
  {
    if rows != [] {
      WeekListedIffVoiceRow(Init(rows), week);
      var r := Last(rows);
      if week in WeekTotals(Init(rows)) {
        var i :| 0 <= i < |Init(rows)| && Init(rows)[i].weekStart == week && Init(rows)[i].activityName == "";
        assert rows[i] == Init(rows)[i];
      }
      if exists i :: 0 <= i < |rows| && rows[i].weekStart == week && rows[i].activityName == "" {
        var i :| 0 <= i < |rows| && rows[i].weekStart == week && rows[i].activityName == "";
        if i < |rows| - 1 {
          assert Init(rows)[i] == rows[i];
        }
      }
    }
  }

  /** Each activity's monthly figure for a week is the sum of its rows in that week. */
  lemma {:induction false} WeekActivityIsSum(rows: seq<ReportRow>, week: string, name: string)
    requires name != ""
    ensures Get(GetMap(WeekActivities(rows), week), name) == ActivitySum(rows, week, name)
  {
    if rows != [] {
      WeekActivityIsSum(Init(rows), week, name);
    }
  }

  /** handleMonthlyCommand's grouping loop. */
  method MonthlyTotals(rows: seq<ReportRow>) returns (weekTotals: map<string, int>, weekActivities: map<string, map<string, int>>)
    ensures weekTotals == WeekTotals(rows)
    ensures weekActivities == WeekActivities(rows)
  {
    weekTotals := map[];
    weekActivities := map[];
    for i := 0 to |rows|
      invariant weekTotals == WeekTotals(rows[..i])
      invariant weekActivities == WeekActivities(rows[..i])
    {
      assert Init(rows[..i + 1]) == rows[..i];
      var stat := rows[i];
      var weekStart := stat.weekStart;
      if stat.activityName == "" {
        weekTotals := weekTotals[weekStart := Get(weekTotals, weekStart) + stat.voiceSeconds];
      } else {
        if weekStart !in weekActivities {
          weekActivities := weekActivities[weekStart := map[]];
        }
        var inner := weekActivities[weekStart];
        weekActivities := weekActivities[weekStart := inner[stat.activityName := Get(inner, stat.activityName) + stat.activitySeconds]];
      }
    }
    assert rows[..|rows|] == rows;
  }

  // ---------------------------------------------------------------------------
  // formatTopActivities and the per-channel lines of !voice
  // ---------------------------------------------------------------------------

  const NoActivities := "  (belum ada data)"

  function TopActivityLine(a: ActivityHours): string {
    "  - " + a.activityName + ": " + FormatDuration(a.totalSeconds)
  }

  function TopActivitiesText(activities: seq<ActivityHours>): string {
    if activities == [] then NoActivities
    else Join(seq(|activities|, i requires 0 <= i < |activities| => TopActivityLine(activities[i])), "\n")
  }

  lemma JoinStartsWithFirst(parts: seq<string>, sep: string)
    requires |parts| > 0
    ensures HasPrefix(Join(parts, sep), parts[0])
  {
    if |parts| > 1 {
      assert Join(parts, sep)[..|parts[0]|] == parts[0];
    }
  }

  /** The placeholder is printed exactly when there are no activities. */
  lemma TopActivitiesPlaceholderIffEmpty(activities: seq<ActivityHours>)
    ensures TopActivitiesText(activities) == NoActivities <==> activities == []
  {
    if activities != [] {
      var lines := seq(|activities|, i requires 0 <= i < |activities| => TopActivityLine(activities[i]));
      JoinStartsWithFirst(lines, "\n");
      var t := TopActivitiesText(activities);
      assert t[..|lines[0]|] == lines[0];
      assert t[2] == lines[0][2] == '-';
      assert NoActivities[2] == '(';
    }
  }

  /** The text splits back into one line per activity, in order, when no name holds a line break. */
  lemma TopActivitiesSplit(activities: seq<ActivityHours>)
    requires activities != []
    requires forall i :: 0 <= i < |activities| ==> NoNewline(activities[i].activityName)
    ensures var lines := Split(TopActivitiesText(activities), '\n');
      |lines| == |activities| && forall i :: 0 <= i < |lines| ==> lines[i] == TopActivityLine(activities[i])
  {
    var lines := seq(|activities|, i requires 0 <= i < |activities| => TopActivityLine(activities[i]));
    forall i | 0 <= i < |lines| ensures '\n' !in lines[i] {
      DurationIsOneLine(activities[i].totalSeconds);
    }
    SplitOfJoin(lines, '\n');
  }

  /** formatTopActivities, with its loop over the activities. */
  method FormatTopActivities(activities: seq<ActivityHours>) returns (text: string)
    ensures text == TopActivitiesText(activities)
  {
    if |activities| == 0 {
      return NoActivities;
    }
    var lines: seq<string> := [];
    for i := 0 to |activities|
      invariant lines == seq(i, j requires 0 <= j < i => TopActivityLine(activities[j]))
    {
      TopLinesGrow(lines, activities, i);
      lines := lines + [TopActivityLine(activities[i])];
    }
    text := Join(lines, "\n");
  }

  /** Appending the next activity's line extends the list of the first i lines to the first i + 1. */
  lemma TopLinesGrow(lines: seq<string>, activities: seq<ActivityHours>, i: nat)
    requires i < |activities|
    requires lines == seq(i, j requires 0 <= j < i => TopActivityLine(activities[j]))
    ensures lines + [TopActivityLine(activities[i])]
      == seq(i + 1, j requires 0 <= j < i + 1 => TopActivityLine(activities[j]))
  {
  }

  const NoChannelData := "(belum ada data per channel)"

  /** Appending the next channel's line keeps every earlier line in place. */
  lemma LinesGrow(lines: seq<string>, line: string, chs: seq<VoiceChannelHours>, i: nat)
    requires i < |chs| && |lines| == i && line == ChannelLine(chs[i])
    requires forall j :: 0 <= j < i ==> lines[j] == ChannelLine(chs[j])
    ensures forall j :: 0 <= j <= i ==> (lines + [line])[j] == ChannelLine(chs[j])
  {
  }

  function ChannelLine(ch: VoiceChannelHours): string {
    FormatChannelMention(ch.channelID) + ": " + FormatDuration(ch.totalSeconds)
  }

  /** The per-channel lines of !voice: one line per channel row, or the placeholder alone. */
  method VoiceChannelLines(channelHours: seq<VoiceChannelHours>) returns (lines: seq<string>)
    ensures |lines| == if channelHours == [] then 1 else |channelHours|
    ensures channelHours == [] ==> lines == [NoChannelData]
    ensures forall i :: 0 <= i < |channelHours| ==> lines[i] == ChannelLine(channelHours[i])
  {
    lines := [];
    for i := 0 to |channelHours|
      invariant |lines| == i
      invariant forall j :: 0 <= j < i ==> lines[j] == ChannelLine(channelHours[j])
    {
      var line := ChannelLine(channelHours[i]);
      LinesGrow(lines, line, channelHours, i);
      lines := lines + [line];
    }
    if |lines| == 0 {
      lines := [NoChannelData];
    }
  }

  /** A channel line can never be mistaken for the placeholder. */
  lemma ChannelLineIsNotPlaceholder(ch: VoiceChannelHours)
    ensures ChannelLine(ch) != NoChannelData
  {
    assert ChannelLine(ch)[0] == '<';
  }
}
