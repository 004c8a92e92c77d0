/**
 * internal/discord/music.go: the per-guild music queue, the session that
 * holds it with the voice connection, the guild-to-session registry, the
 * command handlers that change them, and the player loop.
 *
 * Each handler is one atomic step on the registry. The player loop runs
 * as one call, bounded by `fuel` iterations, with no handler interleaved;
 * the effect of a skip issued while a track is playing is stated on the
 * value-level steps (SkipDuringTrackSkipsNext).
 */
module MusicQueue {
  import opened Wrappers
  import opened MusicSource
  import opened MusicStream
  import Utils

  /** The value of a MusicQueue at one moment. */
  datatype QueueState = QueueState(
    tracks: seq<Track>,
    isPlaying: bool,
    current: nat,
    loop: bool,
    volume: real)

  // ---------------------------------------------------------------------------
  // The steps, on values
  // ---------------------------------------------------------------------------

  /** The queue getOrCreateMusicSession gives a guild it has not seen. */
  function NewQueue(): QueueState {
    QueueState([], false, 0, false, 0.5)
  }

  function Enqueue(q: QueueState, t: Track): QueueState {
    q.(tracks := q.tracks + [t])
  }

  /** handleSkipCommand: nothing on an empty queue, else Current++ and nothing else. */
  function Skip(q: QueueState): QueueState {
    if |q.tracks| == 0 then q else q.(current := q.current + 1)
  }

  /** handleStopCommand's effect on the queue. */
  function Stop(q: QueueState): QueueState {
    q.(isPlaying := false, tracks := [], current := 0)
  }

  function ToggleLoop(q: QueueState): QueueState {
    q.(loop := !q.loop)
  }

  /** startMusicPlayer's entry. */
  function BeginPlayback(q: QueueState): QueueState {
    q.(isPlaying := true)
  }

  /** startMusicPlayer after a track: Current++, back to 0 past the end when looping. */
  function Advance(q: QueueState): QueueState {
    var c := q.current + 1;
    q.(current := if c >= |q.tracks| && q.loop then 0 else c)
  }

  /** startMusicPlayer's exit. */
  function EndPlayback(q: QueueState): QueueState {
    q.(isPlaying := false, current := 0)
  }

  lemma StopIsIdleAndIdempotent(q: QueueState)
    ensures Stop(q).tracks == [] && !Stop(q).isPlaying && Stop(q).current == 0
    ensures Stop(q).loop == q.loop && Stop(q).volume == q.volume
    ensures Stop(Stop(q)) == Stop(q)
  {
  }

  lemma ToggleLoopInvolution(q: QueueState)
    ensures ToggleLoop(q).loop != q.loop
    ensures ToggleLoop(ToggleLoop(q)) == q
  {
  }

  lemma SkipOnlyMovesCurrent(q: QueueState)
    ensures |q.tracks| == 0 ==> Skip(q) == q
    ensures |q.tracks| > 0 ==> Skip(q).current == q.current + 1 && Skip(q).(current := q.current) == q
  {
  }

  /** Enqueueing several tracks one by one appends them in order and keeps everything else. */
  function EnqueueAll(q: QueueState, ts: seq<Track>): QueueState
    decreases |ts|
  {
    if ts == [] then q else EnqueueAll(Enqueue(q, ts[0]), ts[1..])
  }

  lemma {:induction false} EnqueueAllAppends(q: QueueState, ts: seq<Track>)
    ensures EnqueueAll(q, ts) == q.(tracks := q.tracks + ts)
    decreases |ts|
  {
    if ts != [] {
      EnqueueAllAppends(Enqueue(q, ts[0]), ts[1..]);
      assert q.tracks + [ts[0]] + ts[1..] == q.tracks + ts;
    }
  }

  /**
   * The player loop reads Current after its own Current++; a skip issued
   * while track c plays has already moved Current to c+1, so the player
   * continues at c+2 and track c+1 is never played.
   */
  lemma SkipDuringTrackSkipsNext(q: QueueState)
    requires q.isPlaying && q.current + 2 < |q.tracks|
    ensures Advance(Skip(q)).current == q.current + 2
    ensures Advance(q).current == q.current + 1
  {
  }

  // ---------------------------------------------------------------------------
  // The player loop, on values
  // ---------------------------------------------------------------------------

  /** Where the player loop stands: the queue, the tracks it played, whether it exited. */
  datatype PlayerOutcome = PlayerOutcome(state: QueueState, played: seq<Track>, finished: bool)

  /**
   * The `for Current < len(Tracks)` loop of startMusicPlayer run for at most
   * `fuel` iterations: `finished` says the loop exited (and the exit reset
   * ran); otherwise the fuel ran out with the loop still going.
   */
  function PlayerLoop(q: QueueState, fuel: nat): (r: PlayerOutcome)
    ensures r.state.tracks == q.tracks && r.state.loop == q.loop && r.state.volume == q.volume
    ensures r.finished ==> !r.state.isPlaying && r.state.current == 0
    ensures !r.finished ==> r.state.isPlaying == q.isPlaying && r.state.current < |q.tracks|
    ensures |r.played| <= fuel
    decreases fuel
  {
    if q.current >= |q.tracks| then PlayerOutcome(EndPlayback(q), [], true)
    else if fuel == 0 then PlayerOutcome(q, [], false)
    else
      var r := PlayerLoop(Advance(q), fuel - 1);
      PlayerOutcome(r.state, [q.tracks[q.current]] + r.played, r.finished)
  }

  /**
   * The player, having played `played`, is at `q` with `fuel` steps left,
   * and the rest of its run completes `whole`.
   */
  ghost predicate Resumes(whole: PlayerOutcome, q: QueueState, fuel: nat, played: seq<Track>) {
    var r := PlayerLoop(q, fuel);
    whole == PlayerOutcome(r.state, played + r.played, r.finished)
  }

  /** One iteration of the player loop: the current track is played, then the queue advances. */
  lemma ResumesStep(whole: PlayerOutcome, q: QueueState, fuel: nat, played: seq<Track>)
    requires q.current < |q.tracks| && fuel > 0
    requires Resumes(whole, q, fuel, played)
    ensures Resumes(whole, Advance(q), fuel - 1, played + [q.tracks[q.current]])
  {
    var r := PlayerLoop(Advance(q), fuel - 1);
    assert played + [q.tracks[q.current]] + r.played == played + ([q.tracks[q.current]] + r.played);
  }

  /** When the loop stops, the outcome is what has been played, with the queue either ended or left where it is. */
  lemma ResumesEnd(whole: PlayerOutcome, q: QueueState, fuel: nat, played: seq<Track>)
    requires q.current >= |q.tracks| || fuel == 0
    requires Resumes(whole, q, fuel, played)
    ensures whole == if q.current >= |q.tracks| then PlayerOutcome(EndPlayback(q), played, true)
                     else PlayerOutcome(q, played, false)
  {
    assert played + [] == played;
  }

  /** startMusicPlayer: IsPlaying set on entry, then the loop. */
  function StartPlayer(q: QueueState, fuel: nat): PlayerOutcome {
    PlayerLoop(BeginPlayback(q), fuel)
  }

  /**
   * Without loop mode the player plays exactly the tracks from Current to the
   * end, in order, in len(Tracks)-Current iterations, and then stops idle.
   */
  lemma {:induction false} PlayerPlaysRemainingTracks(q: QueueState, fuel: nat)
    requires !q.loop && q.current <= |q.tracks| <= q.current + fuel
    ensures PlayerLoop(q, fuel).finished
    ensures PlayerLoop(q, fuel).played == q.tracks[q.current..]
    ensures PlayerLoop(q, fuel).state == EndPlayback(q)
    decreases fuel
  {
    if q.current < |q.tracks| {
      PlayerPlaysRemainingTracks(Advance(q), fuel - 1);
      assert q.tracks[q.current..] == [q.tracks[q.current]] + q.tracks[q.current + 1..];
    }
  }

  /** Without loop mode and with fewer iterations than tracks left, the loop is still going. */
  lemma {:induction false} PlayerRunsOutOfFuel(q: QueueState, fuel: nat)
    requires !q.loop && q.current + fuel < |q.tracks|
    ensures !PlayerLoop(q, fuel).finished
    ensures PlayerLoop(q, fuel).played == q.tracks[q.current .. q.current + fuel]
    ensures PlayerLoop(q, fuel).state.current == q.current + fuel
    decreases fuel
  {
    if fuel > 0 {
      PlayerRunsOutOfFuel(Advance(q), fuel - 1);
      assert q.tracks[q.current .. q.current + fuel]
        == [q.tracks[q.current]] + q.tracks[q.current + 1 .. q.current + fuel];
    }
  }

  /**
   * In loop mode, on a queue that still has a track at Current, the player
   * never exits: it plays the queue round and round from Current.
   */
  lemma {:induction false} LoopingPlayerNeverStops(q: QueueState, fuel: nat)
    requires q.loop && q.current < |q.tracks|
    ensures !PlayerLoop(q, fuel).finished
    ensures |PlayerLoop(q, fuel).played| == fuel
    ensures forall i :: 0 <= i < fuel ==>
      PlayerLoop(q, fuel).played[i] == q.tracks[(q.current + i) % |q.tracks|]
    ensures PlayerLoop(q, fuel).state.current == (q.current + fuel) % |q.tracks|
    decreases fuel
  {
    var n := |q.tracks|;
    if fuel == 0 {
      Utils.RemainderOf(q.current, 0, q.current, n);
    } else {
      var q' := Advance(q);
      if q.current + 1 == n {
        Utils.RemainderOf(q.current + 1, 1, 0, n);
      } else {
        Utils.RemainderOf(q.current + 1, 0, q.current + 1, n);
      }
      assert q'.current == (q.current + 1) % n;
      LoopingPlayerNeverStops(q', fuel - 1);
      var p' := PlayerLoop(q', fuel - 1).played;
      assert PlayerLoop(q, fuel).played == [q.tracks[q.current]] + p';
      RotationStep(q.tracks, q.current, p');
      ModShift(q.current, fuel - 1, n);
    }
  }

  /** Prepending the track at c to the rotation that starts at c + 1 gives the rotation that starts at c. */
  lemma RotationStep(tracks: seq<Track>, c: nat, p': seq<Track>)
    requires c < |tracks|
    requires forall i :: 0 <= i < |p'| ==> p'[i] == tracks[((c + 1) % |tracks| + i) % |tracks|]
    ensures forall i :: 0 <= i < |p'| + 1 ==> ([tracks[c]] + p')[i] == tracks[(c + i) % |tracks|]
  {
    var n := |tracks|;
    var p := [tracks[c]] + p';
    forall i | 0 <= i < |p'| + 1
      ensures p[i] == tracks[(c + i) % n]
    {
      if i == 0 {
        Utils.RemainderOf(c, 0, c, n);
      } else {
        assert p[i] == p'[i - 1];
        ModShift(c, i - 1, n);
      }
    }
  }

  lemma ModShift(c: nat, i: nat, n: nat)
    requires 0 < n
    ensures ((c + 1) % n + i) % n == (c + 1 + i) % n
  {
    var a := c + 1;
    var b := a % n + i;
    assert a + i == n * (a / n) + b;
    assert b == n * (b / n) + b % n;
    assert a + i == n * (a / n) + n * (b / n) + b % n;
    assert n * (a / n) + n * (b / n) == n * (a / n + b / n);
    Utils.RemainderOf(a + i, a / n + b / n, b % n, n);
  }

  // ---------------------------------------------------------------------------
  // The queue listing of handleQueueCommand
  // ---------------------------------------------------------------------------

  datatype EntryStatus = NowPlaying | Played | Upcoming(number: nat)

  datatype QueueLine = QueueLine(status: EntryStatus, title: string, duration: int)

  /** The status shown for position i: now playing at Current, done before it, numbered from 1 after it. */
  function StatusAt(q: QueueState, i: nat): EntryStatus {
    if i == q.current then NowPlaying
    else if i < q.current then Played
    else Upcoming(i + 1)
  }

  function QueueListing(q: QueueState): (lines: seq<QueueLine>)
    ensures |lines| == |q.tracks|
  {
    seq(|q.tracks|, i requires 0 <= i < |q.tracks| => QueueLine(StatusAt(q, i), q.tracks[i].title, q.tracks[i].duration))
  }

  /**
   * At most one line is marked as playing, and there is one exactly when
   * Current points into the queue (after a skip past the end there is none).
   */
  lemma ListingHasOneNowPlaying(q: QueueState)
    ensures forall i, j :: 0 <= i < j < |q.tracks| ==>
      !(QueueListing(q)[i].status == NowPlaying && QueueListing(q)[j].status == NowPlaying)
    ensures (exists i :: 0 <= i < |q.tracks| && QueueListing(q)[i].status == NowPlaying) <==> q.current < |q.tracks|
  {
    if q.current < |q.tracks| {
      assert QueueListing(q)[q.current].status == NowPlaying;
    }
  }

  /** Lines before Current are the played ones, and later lines carry their 1-based position. */
  lemma ListingStatuses(q: QueueState, i: nat)
    requires i < |q.tracks|
    ensures QueueListing(q)[i].status == Played <==> i < q.current
    ensures QueueListing(q)[i].status.Upcoming? <==> i > q.current
    ensures QueueListing(q)[i].status.Upcoming? ==> QueueListing(q)[i].status.number == i + 1
    ensures QueueListing(q)[i].title == q.tracks[i].title
  {
  }

  // ---------------------------------------------------------------------------
  // The objects: queue, session, registry
  // ---------------------------------------------------------------------------

  /** MusicQueue, updated in place by the handlers and the player. */
  class Queue {
    var tracks: seq<Track>
    var isPlaying: bool
    var current: nat
    var loop: bool
    var volume: real

    function State(): QueueState
      reads this
    {
      QueueState(tracks, isPlaying, current, loop, volume)
    }

    constructor ()
      ensures State() == NewQueue()
    {
      tracks := [];
      isPlaying := false;
      current := 0;
      loop := false;
      volume := 0.5;
    }

    method Append(t: Track)
      modifies this
      ensures State() == Enqueue(old(State()), t)
    {
      tracks := tracks + [t];
    }

    method SkipTrack() returns (skipped: bool)
      modifies this
      ensures State() == Skip(old(State()))
      ensures skipped <==> |old(tracks)| > 0
    {
      if |tracks| == 0 {
        return false;
      }
      current := current + 1;
      return true;
    }

    method Clear()
      modifies this
      ensures State() == Stop(old(State()))
    {
      isPlaying := false;
      tracks := [];
      current := 0;
    }

    method FlipLoop() returns (loopNow: bool)
      modifies this
      ensures State() == ToggleLoop(old(State()))
      ensures loopNow == loop
    {
      loop := !loop;
      return loop;
    }

    /** startMusicPlayer's loop, for at most `fuel` tracks. */
    method Run(fuel: nat) returns (played: seq<Track>, finished: bool)
      modifies this
      ensures PlayerOutcome(State(), played, finished) == StartPlayer(old(State()), fuel)
    {
      isPlaying := true;
      ghost var q0 := State();
      played := [];
      var i: nat := 0;
      while current < |tracks| && i < fuel
        invariant i <= fuel
        invariant State() == q0.(current := current)
        invariant Resumes(PlayerLoop(q0, fuel), State(), fuel - i, played)
        decreases fuel - i
      {
        ghost var before := State();
        ResumesStep(PlayerLoop(q0, fuel), before, fuel - i, played);
        played := played + [tracks[current]];
        current := current + 1;
        if current >= |tracks| && loop {
          current := 0;
        }
        i := i + 1;
        assert State() == Advance(before);
      }
      ResumesEnd(PlayerLoop(q0, fuel), State(), fuel - i, played);
      finished := current >= |tracks|;
      if finished {
        isPlaying := false;
        current := 0;
      }
    }
  }

  /** MusicSession: a guild's queue and its voice connection. */
  class Session {
    const queue: Queue
    var voice: VoiceLink

    constructor ()
      ensures fresh(queue) && queue.State() == NewQueue() && voice == NoLink
    {
      queue := new Queue();
      voice := NoLink;
    }
  }

  /** How handlePlayMusic ended. */
  datatype PlayOutcome =
    | ExtractFailed(error: ExtractError)
    | JoinFailed
    | Queued(startPlayer: bool)

  /** The musicSessions registry and the handlers that go through it. */
  class MusicBot {
    var sessions: map<string, Session>

    constructor ()
      ensures sessions == map[]
    {
      sessions := map[];
    }

    /** Different guilds never share a session or a queue. */
    ghost predicate Valid()
      reads this
    {
      forall g1, g2 :: g1 in sessions && g2 in sessions && g1 != g2 ==>
        sessions[g1] != sessions[g2] && sessions[g1].queue != sessions[g2].queue
    }

    /** The objects a handler for `guild` may change. */
    function Footprint(guild: string): set<object>
      reads this
    {
      if guild in sessions then {sessions[guild], sessions[guild].queue} else {}
    }

    /** The queue a guild has, the fresh queue standing in for one not yet created. */
    ghost function QueueOf(guild: string): QueueState
      reads this, Footprint(guild)
    {
      if guild in sessions then sessions[guild].queue.State() else NewQueue()
    }

    ghost function VoiceOf(guild: string): VoiceLink
      reads this, Footprint(guild)
    {
      if guild in sessions then sessions[guild].voice else NoLink
    }

    /** The registry gained `guild` if it lacked it, and no other guild's session or queue changed. */
    twostate predicate OthersUnchanged(guild: string)
      reads this
    {
      && sessions.Keys == old(sessions.Keys) + {guild}
      && forall g :: g in old(sessions) && g != guild ==> sessions[g] == old(sessions[g])
    }

    method GetOrCreateSession(guild: string) returns (s: Session)
      requires Valid()
      modifies this
      ensures Valid()
      ensures guild in sessions && s == sessions[guild]
      ensures guild in old(sessions) ==> sessions == old(sessions)
      ensures guild !in old(sessions) ==>
        && fresh(s) && fresh(s.queue) && sessions == old(sessions)[guild := s]
        && s.queue.State() == NewQueue() && s.voice == NoLink
    {
      if guild in sessions {
        s := sessions[guild];
      } else {
        s := new Session();
        sessions := sessions[guild := s];
      }
    }

    /**
     * handlePlayMusic: an extraction failure changes nothing; otherwise the
     * track, stamped with the requester and the text channel, is appended to
     * the guild's queue, the bot joins the voice channel if not connected
     * (`joinOk` is the outcome of connectToVoice), and the player is started
     * when the queue is not already playing.
     */
    method HandlePlayMusic(
      guild: string, query: string, requester: string, channelID: string,
      api: Result<Video, string>, ytdlp: Option<string>, joinOk: bool)
      returns (outcome: PlayOutcome)
      requires Valid()
      modifies this, Footprint(guild)
      ensures Valid()
      ensures ExtractMusicInfo(query, api, ytdlp).Failure? ==>
        && outcome == ExtractFailed(ExtractMusicInfo(query, api, ytdlp).error)
        && sessions == old(sessions)
        && QueueOf(guild) == old(QueueOf(guild)) && VoiceOf(guild) == old(VoiceOf(guild))
      ensures ExtractMusicInfo(query, api, ytdlp).Success? ==>
        var t := ExtractMusicInfo(query, api, ytdlp).value.(requester := requester, channelID := channelID);
        && OthersUnchanged(guild)
        && QueueOf(guild) == Enqueue(old(QueueOf(guild)), t)
        && (old(VoiceOf(guild)) != Link(true) && !joinOk ==> outcome == JoinFailed && VoiceOf(guild) == old(VoiceOf(guild)))
        && (old(VoiceOf(guild)) == Link(true) || joinOk ==>
              outcome == Queued(!old(QueueOf(guild)).isPlaying) && VoiceOf(guild) == Link(true))
    {
      var extracted := ExtractMusicInfo(query, api, ytdlp);
      if extracted.Failure? {
        return ExtractFailed(extracted.error);
      }
      var t := extracted.value.(requester := requester, channelID := channelID);
      var s := GetOrCreateSession(guild);
      s.queue.Append(t);
      if s.voice != Link(true) {
        if !joinOk {
          return JoinFailed;
        }
        s.voice := Link(true);
      }
      return Queued(!s.queue.isPlaying);
    }

    method HandleSkip(guild: string) returns (skipped: bool)
      requires Valid()
      modifies this, Footprint(guild)
      ensures Valid() && OthersUnchanged(guild)
      ensures QueueOf(guild) == Skip(old(QueueOf(guild))) && VoiceOf(guild) == old(VoiceOf(guild))
      ensures skipped <==> old(QueueOf(guild)).tracks != []
    {
      var s := GetOrCreateSession(guild);
      skipped := s.queue.SkipTrack();
    }

    /** handleStopCommand: the queue is emptied and idle and the voice connection dropped. */
    method HandleStop(guild: string)
      requires Valid()
      modifies this, Footprint(guild)
      ensures Valid() && OthersUnchanged(guild)
      ensures QueueOf(guild) == Stop(old(QueueOf(guild))) && VoiceOf(guild) == NoLink
    {
      var s := GetOrCreateSession(guild);
      s.queue.Clear();
      s.voice := NoLink;
    }

    /** handleQueueCommand: None for an empty queue, else one line per track, built in a loop. */
    method HandleQueue(guild: string) returns (listing: Option<seq<QueueLine>>)
      requires Valid()
      modifies this
      ensures Valid() && OthersUnchanged(guild)
      ensures QueueOf(guild) == old(QueueOf(guild)) && VoiceOf(guild) == old(VoiceOf(guild))
      ensures listing.None? <==> QueueOf(guild).tracks == []
      ensures listing.Some? ==> listing.value == QueueListing(QueueOf(guild))
    {
      var s := GetOrCreateSession(guild);
      var q := s.queue;
      if |q.tracks| == 0 {
        return None;
      }
      var lines: seq<QueueLine> := [];
      var i := 0;
      while i < |q.tracks|
        invariant 0 <= i <= |q.tracks|
        invariant lines == QueueListing(q.State())[..i]
      {
        var status := if i == q.current then NowPlaying else if i < q.current then Played else Upcoming(i + 1);
        lines := lines + [QueueLine(status, q.tracks[i].title, q.tracks[i].duration)];
        i := i + 1;
      }
      return Some(lines);
    }

    /** handlePauseCommand: only a reply; the queue is never changed. */
    method HandlePause(guild: string) returns (wasPlaying: bool)
      requires Valid()
      modifies this
      ensures Valid() && OthersUnchanged(guild)
      ensures QueueOf(guild) == old(QueueOf(guild)) && VoiceOf(guild) == old(VoiceOf(guild))
      ensures wasPlaying == QueueOf(guild).isPlaying
    {
      var s := GetOrCreateSession(guild);
      wasPlaying := s.queue.isPlaying;
    }

    /** handleResumeCommand: only a reply; the queue is never changed. */
    method HandleResume(guild: string) returns (alreadyPlaying: bool)
      requires Valid()
      modifies this
      ensures Valid() && OthersUnchanged(guild)
      ensures QueueOf(guild) == old(QueueOf(guild)) && VoiceOf(guild) == old(VoiceOf(guild))
      ensures alreadyPlaying == QueueOf(guild).isPlaying
    {
      var s := GetOrCreateSession(guild);
      alreadyPlaying := s.queue.isPlaying;
    }

    method HandleLoop(guild: string) returns (loopNow: bool)
      requires Valid()
      modifies this, Footprint(guild)
      ensures Valid() && OthersUnchanged(guild)
      ensures QueueOf(guild) == ToggleLoop(old(QueueOf(guild))) && VoiceOf(guild) == old(VoiceOf(guild))
      ensures loopNow == QueueOf(guild).loop
    {
      var s := GetOrCreateSession(guild);
      loopNow := s.queue.FlipLoop();
    }

    /**
     * handleVolumeCommand: with fewer than two words only the usage reply
     * (None) and no session is created; otherwise the session is created if
     * need be and the second word is echoed back. The volume is never set.
     */
    method HandleVolume(guild: string, parts: seq<string>) returns (reply: Option<string>)
      requires Valid()
      modifies this
      ensures Valid()
      ensures |parts| < 2 ==> reply == None && sessions == old(sessions)
      ensures |parts| >= 2 ==> reply == Some(parts[1]) && OthersUnchanged(guild)
      ensures QueueOf(guild) == old(QueueOf(guild)) && VoiceOf(guild) == old(VoiceOf(guild))
    {
      if |parts| < 2 {
        return None;
      }
      var _ := GetOrCreateSession(guild);
      return Some(parts[1]);
    }

    /** startMusicPlayer for a guild, run for at most `fuel` tracks with no command in between. */
    method StartMusicPlayer(guild: string, fuel: nat) returns (played: seq<Track>, finished: bool)
      requires Valid()
      modifies this, Footprint(guild)
      ensures Valid() && OthersUnchanged(guild)
      ensures PlayerOutcome(QueueOf(guild), played, finished) == StartPlayer(old(QueueOf(guild)), fuel)
      ensures VoiceOf(guild) == old(VoiceOf(guild))
    {
      var s := GetOrCreateSession(guild);
      played, finished := s.queue.Run(fuel);
    }
  }
}
