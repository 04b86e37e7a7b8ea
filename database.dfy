/**
 * The analytics store: four tables (server snapshots, message events,
 * activity events and OAuth sessions) held as sequences of rows in insertion
 * order. Inserts, the session upsert and the retention purge change the
 * tables in place; the reads are queries over the table contents.
 *
 * Times are whole seconds supplied by the caller: the `now` of a write is the
 * value the row's `timestamp DEFAULT CURRENT_TIMESTAMP` column receives, the
 * `now` of a read or purge is the clock the window or cutoff is measured from.
 */
module Store {
  import opened Wrappers
  import opened Sql

  const SecondsPerDay := 86400

  /** A row of `server_analytics`. */
  datatype ServerSnapshot = ServerSnapshot(
    guildId: int, memberCount: int, channelCount: int, messageCount: int, voiceMinutes: int, timestamp: int)

  /** A row of `message_analytics`. */
  datatype MessageEvent = MessageEvent(
    guildId: int, channelId: int, userId: int, messageLength: int, timestamp: int)

  /** A row of `user_activity`; `channelId` is nullable. */
  datatype ActivityEvent = ActivityEvent(
    guildId: int, userId: int, activityType: string, channelId: Option<int>, duration: int, timestamp: int)

  /** A row of `oauth_sessions`; `userId` is UNIQUE. */
  datatype OAuthSession = OAuthSession(
    userId: int, accessToken: string, refreshToken: Option<string>, expiresAt: Option<int>, createdAt: int)

  // Column accessors, passed to the generic query operators.
  function SnapshotGuild(s: ServerSnapshot): int { s.guildId }
  function SnapshotTime(s: ServerSnapshot): int { s.timestamp }
  function MessageGuild(m: MessageEvent): int { m.guildId }
  function MessageTime(m: MessageEvent): int { m.timestamp }
  function MessageChannel(m: MessageEvent): int { m.channelId }
  function MessageLength(m: MessageEvent): int { m.messageLength }
  function ActivityGuild(a: ActivityEvent): int { a.guildId }
  function ActivityTime(a: ActivityEvent): int { a.timestamp }
  function UserAndType(a: ActivityEvent): (int, string) { (a.userId, a.activityType) }
  function ActivityDuration(a: ActivityEvent): int { a.duration }

  /** `now - timedelta(days=days)`, in seconds. */
  function WindowStart(now: int, days: int): (since: int)
    ensures days >= 0 ==> since <= now
  {
    now - days * SecondsPerDay
  }

  /** A longer window starts no later than a shorter one. */
  lemma WindowStartMonotone(now: int, shorter: int, longer: int)
    requires shorter <= longer
    ensures WindowStart(now, longer) <= WindowStart(now, shorter)
  {
  }

  // ---------------------------------------------------------------------------
  // Reads

  /**
   * get_server_analytics: the guild's snapshots taken at or after
   * `now - days`, newest first.
   */
  function GetServerAnalytics(table: seq<ServerSnapshot>, guildId: int, now: int, days: int := 7): (r: seq<ServerSnapshot>)
    ensures forall x :: multiset(r)[x] ==
              if x.guildId == guildId && x.timestamp >= WindowStart(now, days) then multiset(table)[x] else 0
    ensures forall x :: x in r <==> x in table && x.guildId == guildId && x.timestamp >= WindowStart(now, days)
    ensures forall i, j :: 0 <= i < j < |r| ==> r[i].timestamp >= r[j].timestamp
  {
    var rows := InWindow(table, SnapshotGuild, SnapshotTime, guildId, WindowStart(now, days));
    var r := SortDesc(rows, SnapshotTime);
    SameElements(r, rows);
    r
  }

  /** The guild's message events at or after `now - days`, in table order. */
  function RecentMessages(table: seq<MessageEvent>, guildId: int, now: int, days: int): seq<MessageEvent>
  {
    InWindow(table, MessageGuild, MessageTime, guildId, WindowStart(now, days))
  }

  /** The guild's activity events at or after `now - days`, in table order. */
  function RecentActivity(table: seq<ActivityEvent>, guildId: int, now: int, days: int): seq<ActivityEvent>
  {
    InWindow(table, ActivityGuild, ActivityTime, guildId, WindowStart(now, days))
  }

  /**
   * get_message_analytics: one group per channel with messages in the
   * window, carrying `message_count` and the sum of `message_length` (from
   * which `avg_length` is derived), most active channel first.
   */
  function GetMessageAnalytics(table: seq<MessageEvent>, guildId: int, now: int, days: int := 7): (r: seq<Group<int>>)
    ensures forall i, j :: 0 <= i < j < |r| ==> r[i].count >= r[j].count
    ensures DistinctKeys(r)
    ensures forall m :: m in table && m.guildId == guildId && m.timestamp >= WindowStart(now, days) ==>
              HasKey(r, m.channelId)
    ensures forall g :: g in r ==>
              exists m :: m in table && m.guildId == guildId && m.timestamp >= WindowStart(now, days) && m.channelId == g.key
    ensures forall g :: g in r ==>
              && g.count > 0
              && g.count == CountKey(RecentMessages(table, guildId, now, days), MessageChannel, g.key)
              && g.total == SumKey(RecentMessages(table, guildId, now, days), MessageChannel, MessageLength, g.key)
    ensures SumOf(r, GroupCount) == |RecentMessages(table, guildId, now, days)|
  {
    var rows := RecentMessages(table, guildId, now, days);
    var r := Rollup(rows, MessageChannel, MessageLength);
    RollupKeysInWindow(table, MessageGuild, MessageTime, guildId, WindowStart(now, days), MessageChannel, r);
    r
  }

  /**
   * get_user_activity_stats: one group per (user_id, activity_type) pair with
   * events in the window, carrying `activity_count` and `total_duration`,
   * largest count first.
   */
  function GetUserActivityStats(table: seq<ActivityEvent>, guildId: int, now: int, days: int := 7): (r: seq<Group<(int, string)>>)
    ensures forall i, j :: 0 <= i < j < |r| ==> r[i].count >= r[j].count
    ensures DistinctKeys(r)
    ensures forall a :: a in table && a.guildId == guildId && a.timestamp >= WindowStart(now, days) ==>
              HasKey(r, (a.userId, a.activityType))
    ensures forall g :: g in r ==>
              exists a :: a in table && a.guildId == guildId && a.timestamp >= WindowStart(now, days) && UserAndType(a) == g.key
    ensures forall g :: g in r ==>
              && g.count > 0
              && g.count == CountKey(RecentActivity(table, guildId, now, days), UserAndType, g.key)
              && g.total == SumKey(RecentActivity(table, guildId, now, days), UserAndType, ActivityDuration, g.key)
    ensures SumOf(r, GroupCount) == |RecentActivity(table, guildId, now, days)|
  {
    var rows := RecentActivity(table, guildId, now, days);
    var r := Rollup(rows, UserAndType, ActivityDuration);
    RollupKeysInWindow(table, ActivityGuild, ActivityTime, guildId, WindowStart(now, days), UserAndType, r);
    r
  }

  /** The message roll-up is empty exactly when no message is in the window. */
  lemma MessageAnalyticsEmpty(table: seq<MessageEvent>, guildId: int, now: int, days: int)
    ensures |GetMessageAnalytics(table, guildId, now, days)| == 0 <==> |RecentMessages(table, guildId, now, days)| == 0
  {
    var recent := RecentMessages(table, guildId, now, days);
    var groups := GetMessageAnalytics(table, guildId, now, days);
    if |recent| > 0 {
      assert recent[0] in recent;
      assert HasKey(groups, recent[0].channelId);
    }
    if |groups| > 0 {
      assert groups[0] in groups;
    }
  }

  /** The first group of the message roll-up is a channel with the most messages in the window. */
  lemma TopChannelIsBusiest(table: seq<MessageEvent>, guildId: int, now: int, days: int)
    ensures var recent := RecentMessages(table, guildId, now, days);
            var groups := GetMessageAnalytics(table, guildId, now, days);
            && (|groups| == 0 <==> |recent| == 0)
            && (|groups| > 0 ==>
                  && groups[0].count == CountKey(recent, MessageChannel, groups[0].key)
                  && forall c :: CountKey(recent, MessageChannel, c) <= groups[0].count)
  {
    var recent := RecentMessages(table, guildId, now, days);
    var groups := GetMessageAnalytics(table, guildId, now, days);
    MessageAnalyticsEmpty(table, guildId, now, days);
    forall m | m in recent ensures HasKey(groups, MessageChannel(m)) {
      assert m in table && m.guildId == guildId && m.timestamp >= WindowStart(now, days);
    }
    HeadIsBusiest(recent, MessageChannel, groups);
    if |groups| > 0 {
      assert groups[0] in groups;
    }
  }

  // ---------------------------------------------------------------------------
  // OAuth sessions

  /** The rows of `ss` that belong to user `u`, in table order. */
  function SessionsOf(ss: seq<OAuthSession>, u: int): (r: seq<OAuthSession>)
    ensures forall x :: x in r <==> x in ss && x.userId == u
  {
    if |ss| == 0 then []
    else (if ss[0].userId == u then [ss[0]] else []) + SessionsOf(ss[1..], u)
  }

  /** The rows of `ss` that do not belong to user `u`, in table order. */
  function WithoutUser(ss: seq<OAuthSession>, u: int): (r: seq<OAuthSession>)
    ensures forall x :: x in r <==> x in ss && x.userId != u
  {
    if |ss| == 0 then []
    else (if ss[0].userId != u then [ss[0]] else []) + WithoutUser(ss[1..], u)
  }

  /** The UNIQUE constraint on `user_id`. */
  ghost predicate UniqueUsers(ss: seq<OAuthSession>)
  {
    forall u :: |SessionsOf(ss, u)| <= 1
  }

  lemma {:induction false} SessionsOfConcat(a: seq<OAuthSession>, b: seq<OAuthSession>, u: int)
    ensures SessionsOf(a + b, u) == SessionsOf(a, u) + SessionsOf(b, u)
    decreases |a|
  {
    if |a| == 0 {
      assert a + b == b;
    } else {
      assert (a + b)[1..] == a[1..] + b;
      SessionsOfConcat(a[1..], b, u);
    }
  }

  lemma {:induction false} WithoutUserConcat(a: seq<OAuthSession>, b: seq<OAuthSession>, u: int)
    ensures WithoutUser(a + b, u) == WithoutUser(a, u) + WithoutUser(b, u)
    decreases |a|
  {
    if |a| == 0 {
      assert a + b == b;
    } else {
      assert (a + b)[1..] == a[1..] + b;
      WithoutUserConcat(a[1..], b, u);
    }
  }

  /** Removing user `u`'s rows leaves every other user's rows as they were. */
  lemma {:induction false} SessionsOfWithout(ss: seq<OAuthSession>, u: int, v: int)
    ensures SessionsOf(WithoutUser(ss, u), v) == if v == u then [] else SessionsOf(ss, v)
    decreases |ss|
  {
    if |ss| > 0 {
      SessionsOfWithout(ss[1..], u, v);
      var head := if ss[0].userId != u then [ss[0]] else [];
      SessionsOfConcat(head, WithoutUser(ss[1..], u), v);
    }
  }

  lemma {:induction false} WithoutUserTwice(ss: seq<OAuthSession>, u: int)
    ensures WithoutUser(WithoutUser(ss, u), u) == WithoutUser(ss, u)
    decreases |ss|
  {
    if |ss| > 0 {
      WithoutUserTwice(ss[1..], u);
      var head := if ss[0].userId != u then [ss[0]] else [];
      WithoutUserConcat(head, WithoutUser(ss[1..], u), u);
    }
  }

  /**
   * `INSERT OR REPLACE` keyed by the UNIQUE `user_id`: the conflicting row is
   * deleted and the new row appended. Afterwards `row` is the one row of its
   * user, every other user's rows are untouched, and uniqueness is kept.
   */
  function Upsert(ss: seq<OAuthSession>, row: OAuthSession): (r: seq<OAuthSession>)
    ensures SessionsOf(r, row.userId) == [row]
    ensures forall v :: v != row.userId ==> SessionsOf(r, v) == SessionsOf(ss, v)
    ensures UniqueUsers(ss) ==> UniqueUsers(r)
  {
    var kept := WithoutUser(ss, row.userId);
    SessionsOfConcat(kept, [row], row.userId);
    SessionsOfWithout(ss, row.userId, row.userId);
    assert [row][1..] == [];
    forall v | v != row.userId
      ensures SessionsOf(kept + [row], v) == SessionsOf(ss, v)
    {
      SessionsOfConcat(kept, [row], v);
      SessionsOfWithout(ss, row.userId, v);
    }
    kept + [row]
  }

  /** Storing twice for one user leaves only the second store's row. */
  lemma UpsertLastWins(ss: seq<OAuthSession>, first: OAuthSession, second: OAuthSession)
    requires first.userId == second.userId
    ensures Upsert(Upsert(ss, first), second) == Upsert(ss, second)
  {
    var u := first.userId;
    var kept := WithoutUser(ss, u);
    assert Upsert(ss, first) == kept + [first];
    WithoutUserConcat(kept, [first], u);
    WithoutUserTwice(ss, u);
    assert WithoutUser([first], u) == [] by {
      assert [first][1..] == [];
    }
    assert WithoutUser(kept + [first], u) == kept;
  }

  /** get_oauth_session: the first row of the user, if any. */
  function GetOAuthSession(ss: seq<OAuthSession>, u: int): (r: Option<OAuthSession>)
    ensures r.Some? <==> exists x :: x in ss && x.userId == u
    ensures r.Some? ==> r.value in ss && r.value.userId == u
    ensures UniqueUsers(ss) && r.Some? ==> SessionsOf(ss, u) == [r.value]
  {
    var rows := SessionsOf(ss, u);
    if |rows| == 0 then None
    else
      assert rows[0] in rows;
      assert UniqueUsers(ss) ==> rows == [rows[0]];
      Some(rows[0])
  }

  /** Reading a session back after a store: the stored row for its user, the old answer for others. */
  lemma StoreThenGet(ss: seq<OAuthSession>, row: OAuthSession, v: int)
    ensures GetOAuthSession(Upsert(ss, row), v) == if v == row.userId then Some(row) else GetOAuthSession(ss, v)
  {
  }

  // ---------------------------------------------------------------------------
  // The store

  /** The tables `cleanup_old_data` purges, in the order it visits them. */
  datatype EventTable = ServerAnalyticsTable | MessageAnalyticsTable | UserActivityTable

  const PurgedTables: seq<EventTable> := [ServerAnalyticsTable, MessageAnalyticsTable, UserActivityTable]

  class Database {
    var snapshots: seq<ServerSnapshot>
    var messages: seq<MessageEvent>
    var activities: seq<ActivityEvent>
    var sessions: seq<OAuthSession>

    ghost predicate Valid()
      reads this
    {
      UniqueUsers(sessions)
    }

    /** A fresh database file: the four tables exist and are empty. */
    constructor ()
      ensures Valid()
      ensures snapshots == [] && messages == [] && activities == [] && sessions == []
    {
      snapshots, messages, activities, sessions := [], [], [], [];
    }

    /** log_server_analytics: appends one snapshot row; no other table changes. */
    method LogServerAnalytics(guildId: int, memberCount: int, channelCount: int, messageCount: int, voiceMinutes: int, now: int)
      modifies this`snapshots
      ensures snapshots == old(snapshots) + [ServerSnapshot(guildId, memberCount, channelCount, messageCount, voiceMinutes, now)]
    {
      snapshots := snapshots + [ServerSnapshot(guildId, memberCount, channelCount, messageCount, voiceMinutes, now)];
    }

    /** log_message_activity: appends one message row; no other table changes. */
    method LogMessageActivity(guildId: int, channelId: int, userId: int, messageLength: int, now: int)
      modifies this`messages
      ensures messages == old(messages) + [MessageEvent(guildId, channelId, userId, messageLength, now)]
    {
      messages := messages + [MessageEvent(guildId, channelId, userId, messageLength, now)];
    }

    /** log_user_activity: appends one activity row; no other table changes. */
    method LogUserActivity(guildId: int, userId: int, activityType: string, channelId: Option<int>, duration: int, now: int)
      modifies this`activities
      ensures activities == old(activities) + [ActivityEvent(guildId, userId, activityType, channelId, duration, now)]
    {
      activities := activities + [ActivityEvent(guildId, userId, activityType, channelId, duration, now)];
    }

    /**
     * store_oauth_session: upserts the user's row; `created_at` takes the
     * current time because the replaced row is deleted and a new one inserted.
     */
    method StoreOAuthSession(userId: int, accessToken: string, refreshToken: Option<string>, expiresAt: Option<int>, now: int)
      requires Valid()
      modifies this`sessions
      ensures Valid()
      ensures sessions == Upsert(old(sessions), OAuthSession(userId, accessToken, refreshToken, expiresAt, now))
    {
      sessions := Upsert(sessions, OAuthSession(userId, accessToken, refreshToken, expiresAt, now));
    }

    /** `DELETE FROM <table> WHERE timestamp < cutoff` on one event table. */
    method DeleteOlderThan(table: EventTable, cutoff: int)
      modifies this`snapshots, this`messages, this`activities
      ensures snapshots == if table == ServerAnalyticsTable then Since(old(snapshots), SnapshotTime, cutoff) else old(snapshots)
      ensures messages == if table == MessageAnalyticsTable then Since(old(messages), MessageTime, cutoff) else old(messages)
      ensures activities == if table == UserActivityTable then Since(old(activities), ActivityTime, cutoff) else old(activities)
    {
      match table
      case ServerAnalyticsTable => snapshots := Since(snapshots, SnapshotTime, cutoff);
      case MessageAnalyticsTable => messages := Since(messages, MessageTime, cutoff);
      case UserActivityTable => activities := Since(activities, ActivityTime, cutoff);
    }

    /**
     * cleanup_old_data: removes from each of the three event tables exactly
     * the rows older than `now - days`, keeping the rest in order; the
     * session table is not touched.
     */
    method CleanupOldData(now: int, days: int := 30)
      modifies this`snapshots, this`messages, this`activities
      ensures snapshots == Since(old(snapshots), SnapshotTime, WindowStart(now, days))
      ensures messages == Since(old(messages), MessageTime, WindowStart(now, days))
      ensures activities == Since(old(activities), ActivityTime, WindowStart(now, days))
    {
      var cutoff := WindowStart(now, days);
      for i := 0 to |PurgedTables|
        invariant snapshots == if i > 0 then Since(old(snapshots), SnapshotTime, cutoff) else old(snapshots)
        invariant messages == if i > 1 then Since(old(messages), MessageTime, cutoff) else old(messages)
        invariant activities == if i > 2 then Since(old(activities), ActivityTime, cutoff) else old(activities)
      {
        DeleteOlderThan(PurgedTables[i], cutoff);
      }
    }
  }

  // ---------------------------------------------------------------------------
  // Properties relating writes, purges and reads

  /** A snapshot just written, at a time no earlier than any other row, is the first one read back. */
  lemma LoggedSnapshotReadFirst(table: seq<ServerSnapshot>, row: ServerSnapshot, days: nat)
    requires forall x :: x in table ==> x.timestamp <= row.timestamp
    ensures var r := GetServerAnalytics(table + [row], row.guildId, row.timestamp, days);
            |r| > 0 && r[0].timestamp == row.timestamp
  {
    var r := GetServerAnalytics(table + [row], row.guildId, row.timestamp, days);
    assert row in r;
    var j :| 0 <= j < |r| && r[j] == row;
    assert r[0] in table + [row];
  }

  /** A snapshot strictly newer than every other row of its guild is exactly element 0 of the read. */
  lemma LoggedSnapshotReadNewest(table: seq<ServerSnapshot>, row: ServerSnapshot, days: nat)
    requires forall x :: x in table && x.guildId == row.guildId ==> x.timestamp < row.timestamp
    ensures var r := GetServerAnalytics(table + [row], row.guildId, row.timestamp, days);
            |r| > 0 && r[0] == row
  {
    var r := GetServerAnalytics(table + [row], row.guildId, row.timestamp, days);
    assert row in r;
    var j :| 0 <= j < |r| && r[j] == row;
    assert r[0] in table + [row];
  }

  /** Filtering by a window that starts no earlier than the purge cutoff sees nothing the purge removed. */
  lemma {:induction false} WindowAfterPurge<R(!new)>(rows: seq<R>, guildOf: R -> int, timeOf: R -> int, guildId: int, since: int, cutoff: int)
    requires cutoff <= since
    ensures InWindow(Since(rows, timeOf, cutoff), guildOf, timeOf, guildId, since) == InWindow(rows, guildOf, timeOf, guildId, since)
    decreases |rows|
  {
    if |rows| > 0 {
      var prefix := rows[..|rows| - 1];
      var x := rows[|rows| - 1];
      WindowAfterPurge(prefix, guildOf, timeOf, guildId, since, cutoff);
      var kept := Since(prefix, timeOf, cutoff);
      if timeOf(x) >= cutoff {
        assert (kept + [x])[..|kept + [x]| - 1] == kept;
      }
    }
  }

  /**
   * A purge with a horizon at least as long as a read's window does not
   * change what the read returns (for instance a 30-day cleanup and the
   * 30-day analytics page).
   */
  lemma PurgeInvisibleToReads(db: seq<ServerSnapshot>, msgs: seq<MessageEvent>, acts: seq<ActivityEvent>,
                              guildId: int, now: int, days: int, horizon: int)
    requires days <= horizon
    ensures GetServerAnalytics(Since(db, SnapshotTime, WindowStart(now, horizon)), guildId, now, days)
            == GetServerAnalytics(db, guildId, now, days)
    ensures GetMessageAnalytics(Since(msgs, MessageTime, WindowStart(now, horizon)), guildId, now, days)
            == GetMessageAnalytics(msgs, guildId, now, days)
    ensures GetUserActivityStats(Since(acts, ActivityTime, WindowStart(now, horizon)), guildId, now, days)
            == GetUserActivityStats(acts, guildId, now, days)
  {
    WindowStartMonotone(now, days, horizon);
    WindowAfterPurge(db, SnapshotGuild, SnapshotTime, guildId, WindowStart(now, days), WindowStart(now, horizon));
    WindowAfterPurge(msgs, MessageGuild, MessageTime, guildId, WindowStart(now, days), WindowStart(now, horizon));
    WindowAfterPurge(acts, ActivityGuild, ActivityTime, guildId, WindowStart(now, days), WindowStart(now, horizon));
  }
}
