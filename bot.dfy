/**
 * The Discord side: the message filter, the voice-session tracker, the
 * periodic snapshot sampler and the `/analytics` summary.
 *
 * The bot's clock (`datetime.now()`) is an integer count of microseconds,
 * the resolution of a Python `datetime`; the store's `CURRENT_TIMESTAMP`
 * column receives the same instant in whole seconds (`Seconds`). What the
 * Discord gateway delivers (messages, voice-state changes, the guild list,
 * channel histories) arrives as parameters.
 */
module Bot {
  import opened Wrappers
  import opened Sql
  import opened Store

  const MicrosPerSecond := 1_000_000
  const MicrosPerMinute := 60 * MicrosPerSecond

  /** `channel.history(limit=100, ...)`: at most this many messages per channel. */
  const HistoryLimit := 100

  /** The `/analytics` window, in days. */
  const SummaryDays := 7

  /** Python's `int(x)` on an exact quotient `a / b`: truncation toward zero. */
  function TruncDiv(a: int, b: int): (q: int)
    requires b > 0
    ensures a >= 0 ==> 0 <= q && q * b <= a < q * b + b
    ensures a < 0 ==> q <= 0 && q * b - b < a <= q * b
  {
    if a >= 0 then
      DivBounds(a, b);
      a / b
    else
      DivBounds(-a, b);
      -((-a) / b)
  }

  /** Euclidean division of a natural number brackets it between two multiples of the divisor. */
  lemma DivBounds(n: nat, b: int)
    requires b > 0
    ensures 0 <= n / b && (n / b) * b <= n < (n / b) * b + b
  {
    assert n == (n / b) * b + n % b;
  }

  /** The whole-second time the store stamps a row written at `clock`. */
  function Seconds(clock: int): int
  {
    clock / MicrosPerSecond
  }

  // ---------------------------------------------------------------------------
  // Gateway payloads

  /** A message event: the author's bot flag, the guild (absent in a DM), the channel, the author and the text. */
  datatype Message = Message(authorIsBot: bool, guildId: Option<int>, channelId: int, authorId: int, content: string)

  /** A guild member as a voice-state event reports it. */
  datatype Member = Member(id: int, isBot: bool, guildId: int)

  /** One voice-state change: the member, the channel before and after (absent when not in voice), and when it arrived. */
  datatype VoiceUpdate = VoiceUpdate(member: Member, before: Option<int>, after: Option<int>, clock: int)

  /**
   * What scanning a channel's recent history yields: the messages, a
   * permission refusal (`discord.Forbidden`) or any other failure.
   */
  datatype History = Readable(msgs: seq<Message>) | Forbidden | Broken

  datatype Channel = Channel(id: int, isText: bool, history: History)

  /** A guild as the sampler sees it; `memberCount` may be unknown. */
  datatype Guild = Guild(id: int, memberCount: Option<int>, channels: seq<Channel>)

  // ---------------------------------------------------------------------------
  // Voice-session tracker

  /** The tracker map after one voice-state change, and the activity rows it writes. */
  datatype VoiceOutcome = VoiceOutcome(tracking: map<int, int>, logged: seq<ActivityEvent>)

  /**
   * on_voice_state_update as a transition. Bots are ignored; a join (no
   * channel before, one after) starts the user's session at `clock` and logs
   * `voice_join` with the new channel; a leave (a channel before, none after)
   * of a tracked user logs `voice_leave` with the old channel and the whole
   * seconds elapsed, then ends the session. Everything else changes nothing.
   */
  function VoiceStep(tracking: map<int, int>, e: VoiceUpdate): (r: VoiceOutcome)
    ensures |r.logged| <= 1
    ensures forall a :: a in r.logged ==>
              a.guildId == e.member.guildId && a.userId == e.member.id && a.timestamp == Seconds(e.clock)
    ensures forall v :: v != e.member.id ==>
              (v in r.tracking <==> v in tracking) && (v in tracking ==> r.tracking[v] == tracking[v])
    ensures e.member.isBot || e.before.Some? == e.after.Some? ==> r == VoiceOutcome(tracking, [])
    ensures e.before.Some? && e.after.None? && e.member.id !in tracking ==> r == VoiceOutcome(tracking, [])
    ensures !e.member.isBot && e.before.None? && e.after.Some? ==>
              r.tracking == tracking[e.member.id := e.clock] &&
              r.logged == [ActivityEvent(e.member.guildId, e.member.id, "voice_join", e.after, 0, Seconds(e.clock))]
    ensures !e.member.isBot && e.before.Some? && e.after.None? && e.member.id in tracking ==>
              e.member.id !in r.tracking &&
              r.logged == [ActivityEvent(e.member.guildId, e.member.id, "voice_leave", e.before,
                                         TruncDiv(e.clock - tracking[e.member.id], MicrosPerSecond), Seconds(e.clock))]
  {
    var u := e.member.id;
    if e.member.isBot then VoiceOutcome(tracking, [])
    else if e.before.None? && e.after.Some? then
      VoiceOutcome(tracking[u := e.clock],
                   [ActivityEvent(e.member.guildId, u, "voice_join", e.after, 0, Seconds(e.clock))])
    else if e.before.Some? && e.after.None? && u in tracking then
      VoiceOutcome(tracking - {u},
                   [ActivityEvent(e.member.guildId, u, "voice_leave", e.before,
                                  TruncDiv(e.clock - tracking[u], MicrosPerSecond), Seconds(e.clock))])
    else VoiceOutcome(tracking, [])
  }

  /** A run of voice-state changes from a starting map: the final map and every row written, in order. */
  function Replay(tracking: map<int, int>, es: seq<VoiceUpdate>): VoiceOutcome
    decreases |es|
  {
    if |es| == 0 then VoiceOutcome(tracking, [])
    else
      var prev := Replay(tracking, es[..|es| - 1]);
      var step := VoiceStep(prev.tracking, es[|es| - 1]);
      VoiceOutcome(step.tracking, prev.logged + step.logged)
  }

  /** Events arrive with a clock that never goes backwards. */
  ghost predicate Chronological(es: seq<VoiceUpdate>)
  {
    forall i, j :: 0 <= i < j < |es| ==> es[i].clock <= es[j].clock
  }

  /** Every tracked session started no later than `t`. */
  ghost predicate StartedBy(tracking: map<int, int>, t: int)
  {
    forall u :: u in tracking ==> tracking[u] <= t
  }

  /**
   * With a clock that does not go backwards, every session in the map
   * starts no later than the latest event and every recorded duration is
   * non-negative.
   */
  lemma {:induction false} ReplayDurationsNonNegative(tracking: map<int, int>, es: seq<VoiceUpdate>, t0: int)
    requires StartedBy(tracking, t0)
    requires Chronological(es)
    requires |es| > 0 ==> t0 <= es[0].clock
    ensures forall a :: a in Replay(tracking, es).logged ==> a.duration >= 0
    ensures StartedBy(Replay(tracking, es).tracking, if |es| == 0 then t0 else es[|es| - 1].clock)
    decreases |es|
  {
    if |es| > 0 {
      var init := es[..|es| - 1];
      var e := es[|es| - 1];
      ReplayDurationsNonNegative(tracking, init, t0);
      var prev := Replay(tracking, init);
      var last := if |init| == 0 then t0 else init[|init| - 1].clock;
      assert last <= e.clock;
      var step := VoiceStep(prev.tracking, e);
      forall a | a in step.logged ensures a.duration >= 0 {
        if e.member.id in prev.tracking {
          assert prev.tracking[e.member.id] <= e.clock;
        }
      }
      forall u | u in step.tracking ensures step.tracking[u] <= e.clock {
        if u != e.member.id {
          assert prev.tracking[u] <= last;
        }
      }
    }
  }

  /** An untracked user who joins and then leaves is logged twice and the map is back where it started. */
  lemma JoinThenLeave(tracking: map<int, int>, m: Member, joined: int, left: int, t1: int, t2: int)
    requires !m.isBot && m.id !in tracking
    ensures var r := Replay(tracking, [VoiceUpdate(m, None, Some(joined), t1), VoiceUpdate(m, Some(left), None, t2)]);
            && r.tracking == tracking
            && r.logged == [ActivityEvent(m.guildId, m.id, "voice_join", Some(joined), 0, Seconds(t1)),
                            ActivityEvent(m.guildId, m.id, "voice_leave", Some(left),
                                          TruncDiv(t2 - t1, MicrosPerSecond), Seconds(t2))]
  {
    var es := [VoiceUpdate(m, None, Some(joined), t1), VoiceUpdate(m, Some(left), None, t2)];
    assert es[..1][..0] == [];
    assert es[..1][0] == es[0];
    assert Replay(tracking, es[..1][..0]) == VoiceOutcome(tracking, []);
    var first := Replay(tracking, es[..1]);
    assert first.tracking == tracking[m.id := t1];
    assert first.logged == [ActivityEvent(m.guildId, m.id, "voice_join", Some(joined), 0, Seconds(t1))];
    assert tracking[m.id := t1] - {m.id} == tracking;
  }

  // ---------------------------------------------------------------------------
  // Voice minutes

  /** A non-empty set of users has a member. */
  lemma SomeUser(users: set<int>)
    requires users != {}
    ensures exists u :: u in users
  {
    if forall u :: u !in users {
      assert false;
    }
  }

  /** Microseconds elapsed at `clock` summed over every tracked session. */
  ghost function ElapsedTotal(tracking: map<int, int>, clock: int): (r: int)
    ensures StartedBy(tracking, clock) ==> r >= 0
    decreases tracking.Keys
  {
    if tracking.Keys == {} then 0
    else
      SomeUser(tracking.Keys);
      var u :| u in tracking.Keys;
      (clock - tracking[u]) + ElapsedTotal(tracking - {u}, clock)
  }

  /** The sum does not depend on which session is taken first. */
  lemma {:induction false} ElapsedTotalAny(tracking: map<int, int>, clock: int, u: int)
    requires u in tracking
    ensures ElapsedTotal(tracking, clock) == (clock - tracking[u]) + ElapsedTotal(tracking - {u}, clock)
    decreases tracking.Keys
  {
    var w :| w in tracking && ElapsedTotal(tracking, clock) == (clock - tracking[w]) + ElapsedTotal(tracking - {w}, clock);
    if w != u {
      var both := tracking - {w} - {u};
      assert tracking - {w} - {u} == tracking - {u} - {w};
      assert (tracking - {w}).Keys == tracking.Keys - {w};
      assert (tracking - {u}).Keys == tracking.Keys - {u};
      ElapsedTotalAny(tracking - {w}, clock, u);
      ElapsedTotalAny(tracking - {u}, clock, w);
    }
  }

  /**
   * The snapshot's `voice_minutes`: the tracked sessions' minutes summed
   * and then truncated, across every guild's sessions at once.
   */
  ghost function VoiceMinutes(tracking: map<int, int>, clock: int): (m: int)
    ensures StartedBy(tracking, clock) ==>
              && 0 <= m
              && m * MicrosPerMinute <= ElapsedTotal(tracking, clock) < (m + 1) * MicrosPerMinute
  {
    TruncDiv(ElapsedTotal(tracking, clock), MicrosPerMinute)
  }

  // ---------------------------------------------------------------------------
  // Sampler arithmetic

  /** How many of `channels` are text channels. */
  function TextChannelCount(channels: seq<Channel>): (n: nat)
    ensures n <= |channels|
    ensures n == 0 <==> forall c :: c in channels ==> !c.isText
    decreases |channels|
  {
    if |channels| == 0 then 0
    else
      var init := channels[..|channels| - 1];
      assert forall c :: c in channels <==> c in init || c == channels[|channels| - 1];
      TextChannelCount(init) + if channels[|channels| - 1].isText then 1 else 0
  }

  /** The part of a history scan the `limit=100` keeps. */
  function Scanned(msgs: seq<Message>): (r: seq<Message>)
    ensures |r| == if |msgs| <= HistoryLimit then |msgs| else HistoryLimit
    ensures r <= msgs
  {
    if |msgs| <= HistoryLimit then msgs else msgs[..HistoryLimit]
  }

  /** The number of messages in `msgs` whose author is not a bot. */
  function HumanCount(msgs: seq<Message>): (n: nat)
    ensures n <= |msgs|
    ensures n == 0 <==> forall m :: m in msgs ==> m.authorIsBot
    decreases |msgs|
  {
    if |msgs| == 0 then 0
    else
      var init := msgs[..|msgs| - 1];
      assert forall m :: m in msgs <==> m in init || m == msgs[|msgs| - 1];
      HumanCount(init) + if msgs[|msgs| - 1].authorIsBot then 0 else 1
  }

  /**
   * The sampler's recent-message estimate for a guild: non-bot messages
   * among the first `HistoryLimit` of each text channel's scan. A refused
   * channel is skipped; any other failure abandons the guild (`None`).
   */
  function RecentMessageEstimate(channels: seq<Channel>): (r: Option<nat>)
    ensures r.None? <==> exists c :: c in channels && c.isText && c.history.Broken?
    ensures r.Some? ==> r.value <= HistoryLimit * TextChannelCount(channels)
    ensures r.Some? ==> r.value == SumOf(channels, ChannelHumans)
    decreases |channels|
  {
    if |channels| == 0 then Some(0)
    else
      var init := channels[..|channels| - 1];
      var c := channels[|channels| - 1];
      assert forall x :: x in channels <==> x in init || x == c;
      ScanChannel(RecentMessageEstimate(init), c)
  }

  /** What one channel adds to the estimate when it is counted: its non-bot messages among the first `HistoryLimit`. */
  function ChannelHumans(c: Channel): int
  {
    if c.isText && c.history.Readable? then HumanCount(Scanned(c.history.msgs)) else 0
  }

  /** The estimate after scanning one more channel `c`, given the estimate so far. */
  function ScanChannel(prev: Option<nat>, c: Channel): (r: Option<nat>)
    ensures !c.isText ==> r == prev
    ensures c.isText && c.history.Broken? ==> r.None?
    ensures c.isText && c.history.Forbidden? ==> r == prev
    ensures prev.None? ==> r.None?
    ensures r.Some? ==> prev.Some? && prev.value <= r.value <= prev.value + HistoryLimit
    ensures c.isText && c.history.Readable? && prev.Some? ==> r == Some(prev.value + HumanCount(Scanned(c.history.msgs)))
  {
    if !c.isText then prev
    else match c.history
      case Broken => None
      case Forbidden => prev
      case Readable(msgs) =>
        if prev.None? then None else Some(prev.value + HumanCount(Scanned(msgs)))
  }

  lemma EstimateExtend(channels: seq<Channel>, i: int)
    requires 0 <= i < |channels|
    ensures RecentMessageEstimate(channels[..i + 1]) == ScanChannel(RecentMessageEstimate(channels[..i]), channels[i])
  {
    assert channels[..i + 1][..i] == channels[..i];
  }

  /**
   * The snapshot the sampler writes for `g` at `clock`, or `None` when the
   * guild's scan failed and its `except` clause skipped it.
   */
  ghost function SnapshotOf(g: Guild, tracking: map<int, int>, clock: int): (r: Option<ServerSnapshot>)
    ensures r.None? <==> RecentMessageEstimate(g.channels).None?
    ensures r.Some? ==>
              && r.value.guildId == g.id
              && r.value.memberCount == (if g.memberCount.Some? then g.memberCount.value else 0)
              && r.value.channelCount == TextChannelCount(g.channels)
              && r.value.messageCount == RecentMessageEstimate(g.channels).value
              && r.value.voiceMinutes == VoiceMinutes(tracking, clock)
              && r.value.timestamp == Seconds(clock)
  {
    match RecentMessageEstimate(g.channels)
    case None => None
    case Some(n) =>
      Some(ServerSnapshot(g.id, g.memberCount.GetOr(0), TextChannelCount(g.channels), n,
                          VoiceMinutes(tracking, clock), Seconds(clock)))
  }

  /**
   * The snapshots one sampler tick writes, in guild order: one per guild
   * whose scan did not fail, all carrying the same voice minutes and time.
   */
  ghost function Snapshots(guilds: seq<Guild>, tracking: map<int, int>, clock: int): seq<ServerSnapshot>
    decreases |guilds|
  {
    if |guilds| == 0 then []
    else Snapshots(guilds[..|guilds| - 1], tracking, clock) + SnapshotRows(guilds[|guilds| - 1], tracking, clock)
  }

  /** A tick writes no more snapshots than there are guilds. */
  lemma {:induction false} SnapshotsLength(guilds: seq<Guild>, tracking: map<int, int>, clock: int)
    ensures |Snapshots(guilds, tracking, clock)| <= |guilds|
    decreases |guilds|
  {
    if |guilds| > 0 {
      SnapshotsLength(guilds[..|guilds| - 1], tracking, clock);
    }
  }

  /** Every snapshot of a tick is the snapshot of one of the guilds, with the tick's voice minutes and time. */
  lemma {:induction false} SnapshotsFromGuilds(guilds: seq<Guild>, tracking: map<int, int>, clock: int)
    ensures forall s :: s in Snapshots(guilds, tracking, clock) ==>
              && s.voiceMinutes == VoiceMinutes(tracking, clock)
              && s.timestamp == Seconds(clock)
              && exists g :: g in guilds && SnapshotOf(g, tracking, clock) == Some(s)
    decreases |guilds|
  {
    if |guilds| > 0 {
      var n := |guilds| - 1;
      var init, last := guilds[..n], guilds[n];
      SnapshotsFromGuilds(init, tracking, clock);
      var prev, rows := Snapshots(init, tracking, clock), SnapshotRows(last, tracking, clock);
      forall s: ServerSnapshot | s in prev + rows
        ensures && s.voiceMinutes == VoiceMinutes(tracking, clock)
                && s.timestamp == Seconds(clock)
                && exists g :: g in guilds && SnapshotOf(g, tracking, clock) == Some(s)
      {
        if s in prev {
          var g :| g in init && SnapshotOf(g, tracking, clock) == Some(s);
          var k :| 0 <= k < n && init[k] == g;
          assert guilds[k] == g;
        } else {
          assert SnapshotOf(last, tracking, clock) == Some(s);
        }
      }
    }
  }

  /** A tick writes a snapshot for every guild whose scan did not fail. */
  lemma {:induction false} SnapshotsCoverGuilds(guilds: seq<Guild>, tracking: map<int, int>, clock: int)
    ensures forall g :: g in guilds && RecentMessageEstimate(g.channels).Some? ==>
              exists s :: s in Snapshots(guilds, tracking, clock) && s.guildId == g.id
    decreases |guilds|
  {
    if |guilds| > 0 {
      var n := |guilds| - 1;
      var init, last := guilds[..n], guilds[n];
      SnapshotsCoverGuilds(init, tracking, clock);
      var prev, rows := Snapshots(init, tracking, clock), SnapshotRows(last, tracking, clock);
      forall g: Guild | g in guilds && RecentMessageEstimate(g.channels).Some?
        ensures exists s: ServerSnapshot :: s in prev + rows && s.guildId == g.id
      {
        if g == last {
          var s := SnapshotOf(last, tracking, clock).value;
          assert s in rows;
        } else {
          var k :| 0 <= k < |guilds| && guilds[k] == g;
          assert init[k] == g;
          var s :| s in prev && s.guildId == g.id;
        }
      }
    }
  }

  /** With distinct guild ids, a tick writes at most one snapshot per guild. */
  lemma {:induction false} SnapshotsOnePerGuild(guilds: seq<Guild>, tracking: map<int, int>, clock: int)
    requires DistinctGuildIds(guilds)
    ensures var r := Snapshots(guilds, tracking, clock);
            forall i, j :: 0 <= i < j < |r| ==> r[i].guildId != r[j].guildId
    decreases |guilds|
  {
    if |guilds| > 0 {
      var n := |guilds| - 1;
      var init := guilds[..n];
      var prev := Snapshots(init, tracking, clock);
      SnapshotsFromGuilds(init, tracking, clock);
      SnapshotsExtend(guilds, n, tracking, clock);
      assert guilds[..n + 1] == guilds;
      FreshGuild(guilds, tracking, clock, prev);
      SnapshotsOnePerGuild(init, tracking, clock);
      var last := SnapshotOf(guilds[n], tracking, clock);
      if last.Some? {
        AppendFreshId(prev, last.value);
      } else {
        assert prev + [] == prev;
      }
    }
  }

  /** No guild id occurs twice in the bot's guild list. */
  ghost predicate DistinctGuildIds(guilds: seq<Guild>)
  {
    forall i, j :: 0 <= i < j < |guilds| ==> guilds[i].id != guilds[j].id
  }

  /** The snapshots of the earlier guilds carry none of the last guild's id. */
  lemma FreshGuild(guilds: seq<Guild>, tracking: map<int, int>, clock: int, prev: seq<ServerSnapshot>)
    requires |guilds| > 0 && DistinctGuildIds(guilds)
    requires forall s :: s in prev ==>
               exists g :: g in guilds[..|guilds| - 1] && SnapshotOf(g, tracking, clock) == Some(s)
    ensures DistinctGuildIds(guilds[..|guilds| - 1])
    ensures forall s :: s in prev ==> s.guildId != guilds[|guilds| - 1].id
  {
    var init := guilds[..|guilds| - 1];
    forall s | s in prev ensures s.guildId != guilds[|guilds| - 1].id {
      var g :| g in init && SnapshotOf(g, tracking, clock) == Some(s);
      var k :| 0 <= k < |init| && init[k] == g;
      assert guilds[k] == g;
    }
  }

  /** Appending a snapshot with a new guild id keeps the ids distinct. */
  lemma AppendFreshId(prev: seq<ServerSnapshot>, s: ServerSnapshot)
    requires forall i, j :: 0 <= i < j < |prev| ==> prev[i].guildId != prev[j].guildId
    requires forall x :: x in prev ==> x.guildId != s.guildId
    ensures forall i, j :: 0 <= i < j < |prev + [s]| ==> (prev + [s])[i].guildId != (prev + [s])[j].guildId
  {
    var r := prev + [s];
    forall i, j | 0 <= i < j < |r| ensures r[i].guildId != r[j].guildId {
      if j == |prev| {
        assert r[i] == prev[i] && prev[i] in prev;
      } else {
        assert r[i] == prev[i] && r[j] == prev[j];
      }
    }
  }

  /** The rows one guild adds to a tick's snapshots: its snapshot, or none when its scan failed. */
  ghost function SnapshotRows(g: Guild, tracking: map<int, int>, clock: int): seq<ServerSnapshot>
  {
    if SnapshotOf(g, tracking, clock).Some? then [SnapshotOf(g, tracking, clock).value] else []
  }

  /** The rows one more guild adds to a tick's snapshots. */
  lemma SnapshotsExtend(guilds: seq<Guild>, i: int, tracking: map<int, int>, clock: int)
    requires 0 <= i < |guilds|
    ensures Snapshots(guilds[..i + 1], tracking, clock) ==
            Snapshots(guilds[..i], tracking, clock) + SnapshotRows(guilds[i], tracking, clock)
  {
    assert guilds[..i + 1][..i] == guilds[..i];
  }

  // ---------------------------------------------------------------------------
  // The bot

  class RationsBot {
    /** `voice_tracking`: user id to the clock at which the user joined voice. */
    var voiceTracking: map<int, int>
    const db: Database

    constructor (db: Database)
      ensures this.db == db && voiceTracking == map[]
    {
      this.db := db;
      voiceTracking := map[];
    }

    /**
     * on_message: a message from a human in a guild adds one row with the
     * guild, channel, author and the content's length; anything else adds
     * nothing.
     */
    method OnMessage(msg: Message, clock: int)
      modifies db`messages
      ensures db.messages == if !msg.authorIsBot && msg.guildId.Some?
                             then old(db.messages) + [MessageEvent(msg.guildId.value, msg.channelId, msg.authorId, |msg.content|, Seconds(clock))]
                             else old(db.messages)
    {
      if msg.authorIsBot {
        return;
      }
      if msg.guildId.Some? {
        db.LogMessageActivity(msg.guildId.value, msg.channelId, msg.authorId, |msg.content|, Seconds(clock));
      }
    }

    /** on_voice_state_update: the map and the activity table move as `VoiceStep` says. */
    method OnVoiceStateUpdate(e: VoiceUpdate)
      modifies this`voiceTracking, db`activities
      ensures voiceTracking == VoiceStep(old(voiceTracking), e).tracking
      ensures db.activities == old(db.activities) + VoiceStep(old(voiceTracking), e).logged
    {
      if e.member.isBot {
        return;
      }
      var guildId := e.member.guildId;
      var userId := e.member.id;
      if e.before.None? && e.after.Some? {
        voiceTracking := voiceTracking[userId := e.clock];
        db.LogUserActivity(guildId, userId, "voice_join", e.after, 0, Seconds(e.clock));
      } else if e.before.Some? && e.after.None? {
        if userId in voiceTracking {
          var duration := TruncDiv(e.clock - voiceTracking[userId], MicrosPerSecond);
          db.LogUserActivity(guildId, userId, "voice_leave", e.before, duration, Seconds(e.clock));
          voiceTracking := voiceTracking - {userId};
        }
      }
    }

    /** The microseconds elapsed at `clock` over every tracked session. */
    method TotalVoiceMicros(clock: int) returns (total: int)
      ensures total == ElapsedTotal(voiceTracking, clock)
    {
      total := 0;
      var rest := voiceTracking;
      while rest.Keys != {}
        invariant total + ElapsedTotal(rest, clock) == ElapsedTotal(voiceTracking, clock)
        decreases rest.Keys
      {
        SomeUser(rest.Keys);
        var u :| u in rest.Keys;
        ElapsedTotalAny(rest, clock, u);
        assert (rest - {u}).Keys == rest.Keys - {u};
        total := total + (clock - rest[u]);
        rest := rest - {u};
      }
    }

    /**
     * The body of analytics_update_task for one guild: its snapshot is
     * written unless the scan of its channels failed.
     */
    method SampleGuild(g: Guild, clock: int)
      modifies db`snapshots
      ensures db.snapshots == old(db.snapshots) + SnapshotRows(g, voiceTracking, clock)
    {
      var messageCount := EstimateRecentMessages(g.channels);
      if messageCount.Some? {
        var elapsed := TotalVoiceMicros(clock);
        var voiceMinutes := TruncDiv(elapsed, MicrosPerMinute);
        assert voiceMinutes == VoiceMinutes(voiceTracking, clock);
        db.LogServerAnalytics(g.id, g.memberCount.GetOr(0), TextChannelCount(g.channels), messageCount.value,
                              voiceMinutes, Seconds(clock));
      }
    }

    /**
     * analytics_update_task, one tick: a snapshot per guild in guild order,
     * skipping exactly the guilds whose scan failed.
     */
    method AnalyticsUpdateTask(guilds: seq<Guild>, clock: int)
      modifies db`snapshots
      ensures db.snapshots == old(db.snapshots) + Snapshots(guilds, voiceTracking, clock)
    {
      for i := 0 to |guilds|
        invariant db.snapshots == old(db.snapshots) + Snapshots(guilds[..i], voiceTracking, clock)
      {
        ghost var done := Snapshots(guilds[..i], voiceTracking, clock);
        ghost var added := SnapshotRows(guilds[i], voiceTracking, clock);
        SampleGuild(guilds[i], clock);
        assert db.snapshots == old(db.snapshots) + Snapshots(guilds[..i + 1], voiceTracking, clock) by {
          SnapshotsExtend(guilds, i, voiceTracking, clock);
          assert old(db.snapshots) + done + added == old(db.snapshots) + (done + added);
        }
      }
      assert guilds[..|guilds|] == guilds;
    }
  }

  /** The sampler's scan of one guild's text channels, as `RecentMessageEstimate` describes it. */
  method EstimateRecentMessages(channels: seq<Channel>) returns (r: Option<nat>)
    ensures r == RecentMessageEstimate(channels)
  {
    var count := 0;
    for i := 0 to |channels|
      invariant RecentMessageEstimate(channels[..i]) == Some(count)
    {
      EstimateExtend(channels, i);
      var next := ScanOne(count, channels[i]);
      if next.None? {
        BrokenAborts(channels, i);
        return None;
      }
      count := next.value;
    }
    assert channels[..|channels|] == channels;
    r := Some(count);
  }

  /** One channel of the scan: skipped, counted, or the failure that abandons the guild. */
  method ScanOne(count: nat, c: Channel) returns (next: Option<nat>)
    ensures next == ScanChannel(Some(count), c)
  {
    next := Some(count);
    if c.isText {
      match c.history
      case Broken =>
        next := None;
      case Forbidden =>
      case Readable(msgs) =>
        var humans := CountHumans(Scanned(msgs));
        next := Some(count + humans);
    }
  }

  /** The inner loop of the scan: counts the messages not written by a bot. */
  method CountHumans(msgs: seq<Message>) returns (n: nat)
    ensures n == HumanCount(msgs)
  {
    n := 0;
    for j := 0 to |msgs|
      invariant n == HumanCount(msgs[..j])
    {
      assert msgs[..j + 1][..j] == msgs[..j];
      if !msgs[j].authorIsBot {
        n := n + 1;
      }
    }
    assert msgs[..|msgs|] == msgs;
  }

  /** A failed scan in any text channel makes the whole guild's estimate fail. */
  lemma BrokenAborts(channels: seq<Channel>, i: int)
    requires 0 <= i < |channels| && channels[i].isText && channels[i].history.Broken?
    ensures RecentMessageEstimate(channels) == None
  {
    assert channels[i] in channels;
  }

  // ---------------------------------------------------------------------------
  // The /analytics reply

  function SnapshotMessages(s: ServerSnapshot): int { s.messageCount }
  function SnapshotVoice(s: ServerSnapshot): int { s.voiceMinutes }

  /** The figures `/analytics` shows, or why it shows none. */
  datatype SlashReply =
    | GuildOnly
    | NoData
    | Summary(members: int, channels: int, messages: int, voiceMinutes: int, dataPoints: nat, topChannel: Option<Group<int>>)

  /** The guild's snapshots in the `/analytics` window, in table order. */
  function RecentSnapshots(snapshots: seq<ServerSnapshot>, guildId: int, now: int): seq<ServerSnapshot>
  {
    InWindow(snapshots, SnapshotGuild, SnapshotTime, guildId, WindowStart(now, SummaryDays))
  }

  /**
   * analytics_slash over the store's contents at `now` (in seconds): outside
   * a guild it refuses; with no snapshot in the last seven days it says so;
   * otherwise members and channels come from the newest snapshot, messages
   * and voice minutes are summed over every snapshot in the window, data
   * points counts them, and the top channel is the first message roll-up
   * group.
   */
  function AnalyticsSlash(guildId: Option<int>, snapshots: seq<ServerSnapshot>, messages: seq<MessageEvent>, now: int): (r: SlashReply)
    ensures r.GuildOnly? <==> guildId.None?
    ensures guildId.Some? ==>
              (r.NoData? <==>
               forall s :: s in snapshots ==> !(s.guildId == guildId.value && s.timestamp >= WindowStart(now, SummaryDays)))
  {
    match guildId
    case None => GuildOnly
    case Some(gid) =>
      var analytics := GetServerAnalytics(snapshots, gid, now, SummaryDays);
      var messageAnalytics := GetMessageAnalytics(messages, gid, now, SummaryDays);
      if |analytics| == 0 then NoData
      else
        var latest := analytics[0];
        assert latest in analytics;
        Summary(latest.memberCount, latest.channelCount,
                SumOf(analytics, SnapshotMessages), SumOf(analytics, SnapshotVoice), |analytics|,
                if |messageAnalytics| > 0 then Some(messageAnalytics[0]) else None)
  }

  /**
   * A summary reports the newest in-window snapshot's members and channels,
   * and sums and counts over exactly the in-window snapshots.
   */
  lemma AnalyticsSlashFigures(gid: int, snapshots: seq<ServerSnapshot>, messages: seq<MessageEvent>, now: int)
    ensures var r := AnalyticsSlash(Some(gid), snapshots, messages, now);
            var rows := RecentSnapshots(snapshots, gid, now);
            r.Summary? ==>
              && (exists s :: s in rows && r.members == s.memberCount && r.channels == s.channelCount &&
                               forall t :: t in rows ==> t.timestamp <= s.timestamp)
              && r.messages == SumOf(rows, SnapshotMessages)
              && r.voiceMinutes == SumOf(rows, SnapshotVoice)
              && r.dataPoints == |rows|
  {
    var rows := RecentSnapshots(snapshots, gid, now);
    var analytics := GetServerAnalytics(snapshots, gid, now, SummaryDays);
    assert analytics == SortDesc(rows, SnapshotTime);
    SortDescSum(rows, SnapshotTime, SnapshotMessages);
    SortDescSum(rows, SnapshotTime, SnapshotVoice);
    if |analytics| > 0 {
      SortedHeadIsMax(rows, analytics, SnapshotTime);
    }
  }

  /**
   * A summary's top channel is absent exactly when no message is in the
   * window; otherwise it is a channel with the most in-window messages.
   */
  lemma AnalyticsSlashTopChannel(gid: int, snapshots: seq<ServerSnapshot>, messages: seq<MessageEvent>, now: int)
    ensures var r := AnalyticsSlash(Some(gid), snapshots, messages, now);
            var recent := RecentMessages(messages, gid, now, SummaryDays);
            r.Summary? ==>
              && (r.topChannel.None? <==> |recent| == 0)
              && (r.topChannel.Some? ==>
                    && r.topChannel.value.count == CountKey(recent, MessageChannel, r.topChannel.value.key)
                    && forall c :: CountKey(recent, MessageChannel, c) <= r.topChannel.value.count)
  {
    TopChannelIsBusiest(messages, gid, now, SummaryDays);
  }

}
