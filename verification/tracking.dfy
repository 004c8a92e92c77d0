/**
 * Voice and activity bookkeeping: the voiceStateUpdate and presenceUpdate
 * handlers of internal/discord/bot.go, which main.go repeats over its
 * global maps. Times are whole seconds, 0 stands for Go's zero time.Time,
 * and the repository writes are recorded as calls, in the order made.
 */
module Tracking {
  import opened Text

  /** models.VoiceSession: when the user joined, and the channel joined. */
  datatype VoiceSession = VoiceSession(start: int, channelID: string)

  /** The three "add seconds" writes of the repository. */
  datatype RepoCall =
    | AddVoiceSeconds(userID: string, guildID: string, seconds: int)
    | AddChannelSeconds(userID: string, guildID: string, channelID: string, seconds: int)
    | AddActivitySeconds(userID: string, activityName: string, seconds: int)

  // ---------------------------------------------------------------------------
  // voiceStateUpdate
  // ---------------------------------------------------------------------------

  function SessionKey(guildID: string, userID: string): string {
    guildID + ":" + userID
  }

  /** The start stored under `key`; a missing key reads as the zero time, as a Go map lookup does. */
  function StartOf(sessions: map<string, VoiceSession>, key: string): int {
    if key in sessions then sessions[key].start else 0
  }

  datatype VoiceOutcome = VoiceOutcome(sessions: map<string, VoiceSession>, calls: seq<RepoCall>)

  /**
   * voiceStateUpdate: a channel with no live session starts one; no
   * channel with a live session ends it, reporting its length to the voice
   * and the channel totals. Only the user's own key ever changes.
   */
  function VoiceUpdate(sessions: map<string, VoiceSession>, guildID: string, userID: string,
                       channelID: string, now: int): (o: VoiceOutcome)
    ensures forall k :: k != SessionKey(guildID, userID) ==>
      (k in o.sessions <==> k in sessions) && (k in sessions ==> o.sessions[k] == sessions[k])
  {
    var key := SessionKey(guildID, userID);
    if channelID != "" && StartOf(sessions, key) == 0 then
      VoiceOutcome(sessions[key := VoiceSession(now, channelID)], [])
    else if channelID == "" && StartOf(sessions, key) != 0 then
      var seconds := now - sessions[key].start;
      VoiceOutcome(sessions - {key},
        [AddVoiceSeconds(userID, guildID, seconds), AddChannelSeconds(userID, guildID, sessions[key].channelID, seconds)])
    else
      VoiceOutcome(sessions, [])
  }

  /**
   * Joining and then leaving removes the session again and reports its
   * length exactly once to each total, with the channel joined.
   */
  lemma JoinThenLeave(sessions: map<string, VoiceSession>, guildID: string, userID: string,
                      channelID: string, t1: int, t2: int)
    requires channelID != "" && t1 != 0
    requires SessionKey(guildID, userID) !in sessions
    ensures var o1 := VoiceUpdate(sessions, guildID, userID, channelID, t1);
      var o2 := VoiceUpdate(o1.sessions, guildID, userID, "", t2);
      && o2.sessions == sessions
      && o1.calls + o2.calls == [AddVoiceSeconds(userID, guildID, t2 - t1), AddChannelSeconds(userID, guildID, channelID, t2 - t1)]
  {
    var key := SessionKey(guildID, userID);
    var o1 := VoiceUpdate(sessions, guildID, userID, channelID, t1);
    assert o1.sessions == sessions[key := VoiceSession(t1, channelID)];
    assert o1.sessions - {key} == sessions;
  }

  /** A user with a live session keeps its start and channel when reported in another channel. */
  lemma MoveKeepsSession(sessions: map<string, VoiceSession>, guildID: string, userID: string,
                         channelID: string, now: int)
    requires channelID != "" && StartOf(sessions, SessionKey(guildID, userID)) != 0
    ensures VoiceUpdate(sessions, guildID, userID, channelID, now) == VoiceOutcome(sessions, [])
  {
  }

  /** Leaving without a live session changes nothing and reports nothing. */
  lemma LeaveWithoutSession(sessions: map<string, VoiceSession>, guildID: string, userID: string, now: int)
    requires StartOf(sessions, SessionKey(guildID, userID)) == 0
    ensures VoiceUpdate(sessions, guildID, userID, "", now) == VoiceOutcome(sessions, [])
  {
  }

  /**
   * Join, move, leave: the whole stay is credited to the channel first
   * joined, because a move is not a leave.
   */
  lemma MoveCreditsFirstChannel(sessions: map<string, VoiceSession>, guildID: string, userID: string,
                                c1: string, c2: string, t1: int, tm: int, t2: int)
    requires c1 != "" && c2 != "" && t1 != 0
    requires SessionKey(guildID, userID) !in sessions
    ensures var o1 := VoiceUpdate(sessions, guildID, userID, c1, t1);
      var o2 := VoiceUpdate(o1.sessions, guildID, userID, c2, tm);
      var o3 := VoiceUpdate(o2.sessions, guildID, userID, "", t2);
      o1.calls + o2.calls + o3.calls == [AddVoiceSeconds(userID, guildID, t2 - t1), AddChannelSeconds(userID, guildID, c1, t2 - t1)]
  {
    var o1 := VoiceUpdate(sessions, guildID, userID, c1, t1);
    MoveKeepsSession(o1.sessions, guildID, userID, c2, tm);
    JoinThenLeave(sessions, guildID, userID, c1, t1, t2);
  }

  // ---------------------------------------------------------------------------
  // presenceUpdate
  // ---------------------------------------------------------------------------

  /** The non-empty activity names of a presence update. */
  function ActiveSet(names: seq<string>): (active: set<string>)
    ensures forall n :: n in active <==> n != "" && n in names
  {
    set i | 0 <= i < |names| && names[i] != "" :: names[i]
  }

  function ActivityKey(userID: string, name: string): string {
    userID + ":" + name
  }

  predicate Owned(key: string, userID: string) {
    HasPrefix(key, userID + ":")
  }

  /** The activity name of a key owned by `userID`. */
  function KeyActivity(key: string, userID: string): string {
    TrimPrefix(key, userID + ":")
  }

  lemma ActivityKeyParts(userID: string, name: string)
    ensures Owned(ActivityKey(userID, name), userID)
    ensures KeyActivity(ActivityKey(userID, name), userID) == name
  {
    var key := ActivityKey(userID, name);
    assert key == (userID + ":") + name;
    assert key[..|userID| + 1] == userID + ":";
    assert key[|userID| + 1..] == name;
  }

  lemma ActivityKeyInjective(userID: string, a: string, b: string)
    requires ActivityKey(userID, a) == ActivityKey(userID, b)
    ensures a == b
  {
    ActivityKeyParts(userID, a);
    ActivityKeyParts(userID, b);
  }

  /** The keys the close loop removes: the user's keys whose activity is no longer reported. */
  function ClosedKeys(m: map<string, int>, userID: string, active: set<string>): set<string> {
    set k | k in m && Owned(k, userID) && KeyActivity(k, userID) !in active
  }

  function AfterClose(m: map<string, int>, userID: string, active: set<string>): map<string, int> {
    map k | k in m && k !in ClosedKeys(m, userID, active) :: m[k]
  }

  function ActiveKeys(userID: string, active: set<string>): set<string> {
    set n | n in active :: ActivityKey(userID, n)
  }

  function ActivityStart(m: map<string, int>, key: string): int {
    if key in m then m[key] else 0
  }

  /** The open loop: every active name without a live start gets `now`; other starts stay. */
  function AfterOpen(m: map<string, int>, userID: string, active: set<string>, now: int): map<string, int> {
    map k | k in m.Keys + ActiveKeys(userID, active) ::
      if k in ActiveKeys(userID, active) && ActivityStart(m, k) == 0 then now else m[k]
  }

  /** One turn of the open loop, for a name not handled before. */
  lemma OpenStep(m: map<string, int>, userID: string, done: set<string>, name: string, now: int)
    requires name !in done
    ensures var cur := AfterOpen(m, userID, done, now);
      var key := ActivityKey(userID, name);
      AfterOpen(m, userID, done + {name}, now) == if ActivityStart(cur, key) == 0 then cur[key := now] else cur
  {
    var key := ActivityKey(userID, name);
    if key in ActiveKeys(userID, done) {
      var n :| n in done && ActivityKey(userID, n) == key;
      ActivityKeyInjective(userID, n, name);
    }
    assert ActiveKeys(userID, done + {name}) == ActiveKeys(userID, done) + {key};
  }

  /** The activity sessions after presenceUpdate. */
  function PresenceSessions(m: map<string, int>, userID: string, names: seq<string>, now: int): map<string, int> {
    AfterOpen(AfterClose(m, userID, ActiveSet(names)), userID, ActiveSet(names), now)
  }

  /** The report of one closed key. */
  function CloseCall(m: map<string, int>, userID: string, key: string, now: int): RepoCall
    requires key in m
  {
    AddActivitySeconds(userID, KeyActivity(key, userID), now - m[key])
  }

  function CloseCalls(m: map<string, int>, userID: string, keys: seq<string>, now: int): (calls: seq<RepoCall>)
    requires forall i :: 0 <= i < |keys| ==> keys[i] in m
    ensures |calls| == |keys|
  {
    seq(|keys|, i requires 0 <= i < |keys| => CloseCall(m, userID, keys[i], now))
  }

  /** After the update the user's open activities are exactly the names just reported. */
  lemma PresenceTracksActiveSet(m: map<string, int>, userID: string, names: seq<string>, now: int, name: string)
    ensures ActivityKey(userID, name) in PresenceSessions(m, userID, names, now) <==> name in ActiveSet(names)
  {
    var active := ActiveSet(names);
    var key := ActivityKey(userID, name);
    ActivityKeyParts(userID, name);
    if key in ActiveKeys(userID, active) {
      var n :| n in active && ActivityKey(userID, n) == key;
      ActivityKeyInjective(userID, n, name);
    }
  }

  /** A start already recorded for a name that is still reported is never overwritten. */
  lemma PresenceKeepsStarts(m: map<string, int>, userID: string, names: seq<string>, now: int, name: string)
    requires name in ActiveSet(names)
    requires ActivityKey(userID, name) in m && m[ActivityKey(userID, name)] != 0
    ensures PresenceSessions(m, userID, names, now)[ActivityKey(userID, name)] == m[ActivityKey(userID, name)]
  {
    ActivityKeyParts(userID, name);
    assert ActivityKey(userID, name) in ActiveKeys(userID, ActiveSet(names));
  }

  /** With user IDs free of ':', a key owned by one user is never owned by another. */
  lemma OwnersDistinct(key: string, u: string, v: string)
    requires ':' !in u && ':' !in v && u != v
    requires Owned(key, v)
    ensures !Owned(key, u)
  {
    var pu, pv := u + ":", v + ":";
    assert key[..|pv|] == pv;
    if |u| < |v| {
      assert key[|u|] == pv[|u|] == v[|u|];
      NotPrefixAt(key, pu, |u|);
    } else if |v| < |u| {
      assert key[|v|] == pv[|v|] == ':';
      assert pu[|v|] == u[|v|];
      NotPrefixAt(key, pu, |v|);
    } else {
      var i :| 0 <= i < |u| && u[i] != v[i];
      assert key[i] == pv[i] == v[i];
      NotPrefixAt(key, pu, i);
    }
  }

  /** The keys of every other user are left exactly as they were. */
  lemma PresenceOtherUsersUntouched(m: map<string, int>, userID: string, names: seq<string>, now: int,
                                    other: string, key: string)
    requires ':' !in userID && ':' !in other && userID != other
    requires Owned(key, other)
    ensures key in PresenceSessions(m, userID, names, now) <==> key in m
    ensures key in m ==> PresenceSessions(m, userID, names, now)[key] == m[key]
  {
    OwnersDistinct(key, userID, other);
    if key in ActiveKeys(userID, ActiveSet(names)) {
      var n :| n in ActiveSet(names) && ActivityKey(userID, n) == key;
      ActivityKeyParts(userID, n);
    }
  }

  /**
   * Repeating an update with the same names closes nothing and changes
   * nothing, once every recorded start is a real time.
   */
  lemma PresenceIdempotent(m: map<string, int>, userID: string, names: seq<string>, t1: int, t2: int)
    requires t1 != 0 && forall k :: k in m ==> m[k] != 0
    ensures var m1 := PresenceSessions(m, userID, names, t1);
      ClosedKeys(m1, userID, ActiveSet(names)) == {} && PresenceSessions(m1, userID, names, t2) == m1
  {
    var active := ActiveSet(names);
    var m1 := PresenceSessions(m, userID, names, t1);
    forall k | k in m1 && Owned(k, userID)
      ensures KeyActivity(k, userID) in active
    {
      if k !in AfterClose(m, userID, active) {
        var n :| n in active && ActivityKey(userID, n) == k;
        ActivityKeyParts(userID, n);
      }
    }
    assert AfterClose(m1, userID, active) == m1;
    forall k | k in ActiveKeys(userID, active)
      ensures k in m1 && m1[k] != 0
    {
    }
  }

  /**
   * An activity started at t1 and no longer reported at t2 is closed then,
   * and reported with length t2 - t1.
   */
  lemma ActivityStartThenStop(m: map<string, int>, userID: string, name: string,
                              names1: seq<string>, names2: seq<string>, t1: int, t2: int)
    requires ActivityKey(userID, name) !in m && t1 != 0
    requires name in ActiveSet(names1) && name !in ActiveSet(names2)
    ensures var m1 := PresenceSessions(m, userID, names1, t1);
      var key := ActivityKey(userID, name);
      && key in ClosedKeys(m1, userID, ActiveSet(names2))
      && CloseCall(m1, userID, key, t2) == AddActivitySeconds(userID, name, t2 - t1)
      && key !in PresenceSessions(m1, userID, names2, t2)
  {
    var key := ActivityKey(userID, name);
    ActivityKeyParts(userID, name);
    assert key in ActiveKeys(userID, ActiveSet(names1));
    PresenceTracksActiveSet(PresenceSessions(m, userID, names1, t1), userID, names2, t2, name);
  }

  // ---------------------------------------------------------------------------
  // The handlers over the maps they update in place
  // ---------------------------------------------------------------------------

  /** The bot's two session maps and the writes made so far. */
  class Tracker {
    var sessions: map<string, VoiceSession>
    var activitySessions: map<string, int>
    var calls: seq<RepoCall>

    constructor()
      ensures sessions == map[] && activitySessions == map[] && calls == []
    {
      sessions := map[];
      activitySessions := map[];
      calls := [];
    }

    method VoiceStateUpdate(guildID: string, userID: string, channelID: string, now: int)
      modifies this
      ensures sessions == VoiceUpdate(old(sessions), guildID, userID, channelID, now).sessions
      ensures calls == old(calls) + VoiceUpdate(old(sessions), guildID, userID, channelID, now).calls
      ensures activitySessions == old(activitySessions)
    {
      var key := SessionKey(guildID, userID);
      if channelID != "" && StartOf(sessions, key) == 0 {
        sessions := sessions[key := VoiceSession(now, channelID)];
      }
      if channelID == "" && StartOf(sessions, key) != 0 {
        var start := sessions[key].start;
        var channel := sessions[key].channelID;
        var seconds := now - start;
        sessions := sessions - {key};
        calls := calls + [AddVoiceSeconds(userID, guildID, seconds)];
        calls := calls + [AddChannelSeconds(userID, guildID, channel, seconds)];
      }
    }

    /**
     * presenceUpdate. The close loop visits the keys in Go's unspecified
     * map order; `closed` is the order in which it reported them, each
     * closed key exactly once.
     */
    method PresenceUpdate(userID: string, names: seq<string>, now: int) returns (ghost closed: seq<string>)
      modifies this
      ensures activitySessions == PresenceSessions(old(activitySessions), userID, names, now)
      ensures forall k :: k in closed <==> k in ClosedKeys(old(activitySessions), userID, ActiveSet(names))
      ensures forall i, j :: 0 <= i < j < |closed| ==> closed[i] != closed[j]
      ensures forall i :: 0 <= i < |closed| ==> closed[i] in old(activitySessions)
      ensures calls == old(calls) + CloseCalls(old(activitySessions), userID, closed, now)
      ensures sessions == old(sessions)
    {
      var active: set<string> := {};
      for i := 0 to |names|
        invariant active == set j | 0 <= j < i && names[j] != "" :: names[j]
      {
        if names[i] != "" {
          active := active + {names[i]};
        }
      }
      assert active == ActiveSet(names);

      ghost var m0 := activitySessions;
      ghost var c0 := calls;
      var prefix := userID + ":";
      var remaining := activitySessions.Keys;
      closed := [];
      while remaining != {}
        invariant remaining <= m0.Keys
        invariant forall k :: k in closed <==> k in ClosedKeys(m0, userID, active) && k !in remaining
        invariant forall i, j :: 0 <= i < j < |closed| ==> closed[i] != closed[j]
        invariant forall i :: 0 <= i < |closed| ==> closed[i] in m0
        invariant activitySessions == map k | k in m0 && !(k in ClosedKeys(m0, userID, active) && k !in remaining) :: m0[k]
        invariant calls == c0 + CloseCalls(m0, userID, closed, now)
        invariant sessions == old(sessions)
        decreases remaining
      {
        var key :| key in remaining;
        if HasPrefix(key, prefix) {
          var name := TrimPrefix(key, prefix);
          if name !in active {
            var seconds := now - activitySessions[key];
            activitySessions := activitySessions - {key};
            calls := calls + [AddActivitySeconds(userID, name, seconds)];
            closed := closed + [key];
          }
        }
        remaining := remaining - {key};
      }
      assert activitySessions == AfterClose(m0, userID, active);

      ghost var m1 := activitySessions;
      var todo := active;
      while todo != {}
        invariant todo <= active
        invariant activitySessions == AfterOpen(m1, userID, active - todo, now)
        invariant calls == c0 + CloseCalls(m0, userID, closed, now)
        invariant sessions == old(sessions)
        decreases todo
      {
        var name :| name in todo;
        var key := userID + ":" + name;
        OpenStep(m1, userID, active - todo, name, now);
        assert active - (todo - {name}) == (active - todo) + {name};
        if ActivityStart(activitySessions, key) == 0 {
          activitySessions := activitySessions[key := now];
        }
        todo := todo - {name};
      }
      assert active - todo == active;
    }
  }
}
