# Rations analytics core in Dafny

Rations is a Discord analytics bot with a web dashboard. The bot records
what happens in each guild. Every message from a human is logged with its
length. Voice sessions are timed from join to leave. A periodic sampler
writes a snapshot of each guild: members, text channels, recent messages
and voice minutes. The `/analytics` command summarises the last seven days.
The web dashboard lets a user who logged in with Discord OAuth see the
analytics of the guilds in their session.

This project models three parts of that system and proves what each one
promises:

- `wrappers.dfy`, module `Wrappers`: `Option`, which stands for Python's `None` and SQL's NULL.
- `sql.dfy`, module `Sql`: the relational operators the store's SQL text uses.
  - `InWindow` and `Since` are the `WHERE` filters.
  - `GroupBy` (built row by row with `AddRow`) is `GROUP BY`.
  - `SortDesc`, an insertion sort, is `ORDER BY ... DESC`.
  - `Rollup` is the three combined; `SumOf` is `SUM`.
- `database.dfy`, module `Store`: the analytics store (`Database` in `src/database.py`).
  - The four tables are sequence fields of a class, in insertion order.
  - Inserts, the session upsert and the retention purge are methods that change those fields.
  - The reads are functions over the table contents.
- `bot.dfy`, module `Bot`: `RationsBot` in `src/bot.py`.
  - The message filter and the voice-session tracker are methods of a class that holds the `voice_tracking` map and the store.
  - The sampler's loops are methods, proved against spec functions.
  - The `/analytics` reply is a function of the store's contents.
- `web_app.dfy`, module `WebApp`: the route decisions of `src/web_app.py`.
  - Login redirects, the 401/403 answers, guild membership and the window lengths.
  - The OAuth callback's early exits, and the session row it stores.

Time is an integer supplied by the caller:

- The store's `timestamp DEFAULT CURRENT_TIMESTAMP` columns hold whole seconds.
- The bot's `datetime.now()` is a count of microseconds. A row the bot writes at `clock` is stamped `clock / 1_000_000`.
- `int(...)` of an elapsed time truncates toward zero (`Bot.TruncDiv`).

Rows of SQL results are datatypes. A grouped row (`Sql.Group`) carries its
key, its `COUNT(*)` and the `SUM` of its weight column. For messages,
`avg_length` is that sum divided by the count.

## Model

| member | source | states |
|---|---|---|
| `Sql.InWindow` | src/database.py:124-126 | `WHERE guild_id = ? AND timestamp >= ?`: each row is kept exactly as many times as the table holds it when it matches guild and cutoff, and not at all otherwise |
| `Sql.Since` | src/database.py:202 | the rows `DELETE ... WHERE timestamp < ?` leaves: never more than the table held |
| `Sql.SinceMembers` | src/database.py:202 | a row survives the delete exactly when it is in the table and at or after the cutoff |
| `Sql.SinceCounts` | src/database.py:202 | each surviving row is kept as many times as the table holds it, and a row before the cutoff not at all |
| `Sql.SinceConcat` | src/database.py:202 | purging a table is purging each part of it and concatenating, so the survivors keep their order |
| `Sql.SinceIdempotent` | src/database.py:198-202 | purging twice with the same cutoff removes nothing more |
| `Sql.InsertDesc` | src/database.py:127 | inserting into a list ordered by rank keeps it ordered and adds exactly that element |
| `Sql.SortDesc` | src/database.py:127 | `ORDER BY ... DESC`: the result is ordered by rank, newest/highest first, and is a permutation of the input |
| `Sql.SortDescSum` | src/bot.py:203-209 | sorting does not change a column sum |
| `Sql.CountKey` | src/database.py:141-144 | a group's `COUNT(*)` is positive exactly when some row has the key |
| `Sql.FindKey` | src/database.py:144 | the position of the existing group for a key, or the end when there is none |
| `Sql.AddRow` | src/database.py:144 | adding one row to a grouping: the row's key group gains one row and its weight, or a new group with count 1 is appended; other groups and key uniqueness are kept, total count grows by one |
| `Sql.GroupBy` | src/database.py:141-144 | `GROUP BY`: one group per distinct key among the rows, each carrying that key's row count and weight sum; counts add up to the number of rows |
| `Sql.Rollup` | src/database.py:140-146 | grouping then `ORDER BY count DESC`: counts non-increasing, keys distinct and exactly those of the rows, each group's count and sum exact and positive, counts sum to the row count |
| `Sql.HeadIsBusiest` | src/database.py:145 | when groups are ordered by count and cover every row's key, the first group's count is at least that of any key |
| `Sql.SortedHeadIsMax` | src/database.py:127 | the first row of `ORDER BY ... DESC` is one of the rows and ranks at least as high as every one of them |
| `Sql.RollupKeysInWindow` | src/database.py:143-144 | the keys of a roll-up over a guild/time filter are exactly the keys of the table's matching rows |
| `Store.WindowStart` | src/database.py:122 | `datetime.now() - timedelta(days=days)`: for a non-negative number of days the window starts no later than now |
| `Store.GetServerAnalytics` | src/database.py:117-131 | exactly the guild's snapshots taken at or after `now - days` (with multiplicity, none from other guilds), newest first |
| `Store.GetMessageAnalytics` | src/database.py:133-149 | one group per channel with in-window messages of the guild, with that channel's message count and summed length, most active first; counts sum to the number of in-window messages |
| `Store.GetUserActivityStats` | src/database.py:151-167 | one group per (user, activity type) pair in the window, with its event count and summed duration, largest count first |
| `Store.MessageAnalyticsEmpty` | src/database.py:140-146 | the message roll-up is empty exactly when the guild has no message in the window |
| `Store.TopChannelIsBusiest` | src/database.py:145 | the first message group has the most messages of any channel in the window |
| `Store.SessionsOf` | src/database.py:187 | `WHERE user_id = ?`: exactly the user's rows |
| `Store.WithoutUser` | src/database.py:174 | exactly the rows of other users |
| `Store.SessionsOfConcat` | src/database.py:174 | selecting a user's rows distributes over concatenation |
| `Store.WithoutUserConcat` | src/database.py:174 | removing a user's rows distributes over concatenation |
| `Store.SessionsOfWithout` | src/database.py:71 | removing user `u`'s rows leaves every other user's rows as they were |
| `Store.WithoutUserTwice` | src/database.py:174 | removing a user's rows is idempotent |
| `Store.Upsert` | src/database.py:169-179 | `INSERT OR REPLACE` on the UNIQUE `user_id`: afterwards the new row is the user's only row, other users' rows are unchanged, uniqueness is preserved |
| `Store.UpsertLastWins` | src/database.py:71 | storing twice for the same user equals storing the second row once |
| `Store.GetOAuthSession` | src/database.py:181-191 | a row exactly when the user has one; it belongs to the user, and under the UNIQUE constraint it is the user's only row |
| `Store.StoreThenGet` | src/database.py:169-191 | reading back after a store yields the stored row for that user and the previous answer for every other user |
| `Store.Database.constructor` | src/database.py:24-79 | a fresh store: four empty tables, sessions unique |
| `Store.Database.LogServerAnalytics` | src/database.py:81-91 | appends exactly one snapshot row, stamped `now`; no other table changes |
| `Store.Database.LogMessageActivity` | src/database.py:93-103 | appends exactly one message row; no other table changes |
| `Store.Database.LogUserActivity` | src/database.py:105-115 | appends exactly one activity row; no other table changes |
| `Store.Database.StoreOAuthSession` | src/database.py:169-179 | the session table becomes the upsert of the new row, `created_at` reset to `now`; uniqueness kept |
| `Store.Database.DeleteOlderThan` | src/database.py:202 | one table loses exactly its rows older than the cutoff; the other tables are unchanged |
| `Store.Database.CleanupOldData` | src/database.py:193-204 | each of the three event tables keeps exactly its rows at or after `now - days`, in order; the session table is untouched |
| `Store.LoggedSnapshotReadFirst` | src/database.py:117-131 | after writing a snapshot no older than any other row, element 0 of the read is as new as it; an equally new row may come first, since the order of ties is open |
| `Store.LoggedSnapshotReadNewest` | src/database.py:117-131 | a snapshot just written that is strictly newer than every other row of its guild is exactly element 0 of the read |
| `Store.WindowAfterPurge` | src/database.py:193-204 | a window starting no earlier than the purge cutoff sees the same rows before and after the purge |
| `Store.PurgeInvisibleToReads` | src/database.py:117-204 | a purge with a horizon at least the read's window changes none of the three reads |
| `Bot.TruncDiv` | src/bot.py:105-111 | `int()` of a quotient: truncation toward zero, for negative as well as non-negative values |
| `Bot.VoiceStep` | src/bot.py:84-113 | bots change nothing; a join sets the user's start time and logs `voice_join` with the new channel; a tracked leave logs `voice_leave` with the old channel and the truncated elapsed seconds and removes the user; a move, a no-op or an untracked leave changes nothing; other users' entries are untouched |
| `Bot.ReplayDurationsNonNegative` | src/bot.py:103-113 | with a clock that never goes backwards, every tracked start is no later than the latest event and every logged duration is non-negative |
| `Bot.JoinThenLeave` | src/bot.py:93-113 | an untracked user joining then leaving logs a join and a leave with duration `trunc(t2 - t1)` seconds, and the map returns to its starting value |
| `Bot.ElapsedTotalAny` | src/bot.py:135-138 | the sum over tracked sessions does not depend on the order they are taken in |
| `Bot.ElapsedTotal` | src/bot.py:135-138 | the time elapsed since each tracked start, summed over every tracked session; non-negative when no session starts after `clock` (and, by `ElapsedTotalAny`, independent of order) |
| `Bot.VoiceMinutes` | src/bot.py:135-146 | `int(voice_minutes)`: when no session starts after `clock`, the whole number of minutes in the elapsed total, so non-negative and within one minute of it |
| `Bot.TextChannelCount` | src/bot.py:121 | the number of text channels: at most the number of channels, zero exactly when none is a text channel |
| `Bot.Scanned` | src/bot.py:128 | `limit=100`: the first `min(n, 100)` messages of the history |
| `Bot.HumanCount` | src/bot.py:129-130 | the non-bot messages: at most all of them, zero exactly when every author is a bot |
| `Bot.RecentMessageEstimate` | src/bot.py:124-132 | the estimate fails exactly when some text channel's scan fails with an error other than `Forbidden`; otherwise it is exactly the sum over channels of the non-bot messages among the first 100 of each readable text channel, so at most 100 per text channel |
| `Bot.ScanChannel` | src/bot.py:125-132 | one channel's step: a non-text or `Forbidden` channel leaves the running count as it is, any other failure aborts the estimate, and a readable text channel adds exactly the non-bot messages among its first 100 (so at most 100) |
| `Bot.EstimateExtend` | src/bot.py:125-132 | scanning one more channel refines the estimate by that channel's step |
| `Bot.BrokenAborts` | src/bot.py:124-150 | one failing text channel makes the whole guild's estimate fail |
| `Bot.SnapshotOf` | src/bot.py:119-147 | a guild's snapshot exists exactly when its scan did not fail; it carries the guild id, `member_count or 0`, the text-channel count, the estimate, the voice minutes and the tick's time |
| `Bot.SnapshotsLength` | src/bot.py:117-150 | a tick writes no more snapshots than there are guilds |
| `Bot.SnapshotsOnePerGuild` | src/bot.py:117-150 | when guild ids are distinct, no two snapshots of a tick share a guild id: at most one per guild |
| `Bot.SnapshotsFromGuilds` | src/bot.py:117-147 | every snapshot of a tick is the snapshot of one of the guilds and carries the tick's voice minutes and time |
| `Bot.SnapshotsCoverGuilds` | src/bot.py:117-150 | every guild whose scan did not fail gets a snapshot |
| `Bot.SnapshotsExtend` | src/bot.py:117-150 | one more guild adds its snapshot, or nothing when its scan failed |
| `Bot.RationsBot.constructor` | src/bot.py:22-29 | a new bot tracks no voice session |
| `Bot.RationsBot.OnMessage` | src/bot.py:68-82 | a message from a human in a guild appends one row with guild, channel, author and `len(content)`; a bot's or a DM's message changes nothing |
| `Bot.RationsBot.OnVoiceStateUpdate` | src/bot.py:84-113 | the map and the activity table change exactly as `VoiceStep` says |
| `Bot.RationsBot.TotalVoiceMicros` | src/bot.py:135-138 | the loop returns the elapsed total over every tracked session |
| `Bot.RationsBot.SampleGuild` | src/bot.py:119-147 | one guild's try block: the snapshot table grows by the guild's snapshot, or not at all when its scan failed |
| `Bot.RationsBot.AnalyticsUpdateTask` | src/bot.py:115-150 | the snapshot table grows by exactly the tick's snapshots, in guild order |
| `Bot.EstimateRecentMessages` | src/bot.py:124-132 | the scan loop computes `RecentMessageEstimate` |
| `Bot.ScanOne` | src/bot.py:125-132 | one pass of the loop over a channel computes `ScanChannel` from the running count |
| `Bot.CountHumans` | src/bot.py:128-130 | the inner loop counts exactly the non-bot messages |
| `Bot.AnalyticsSlash` | src/bot.py:161-226 | the reply refuses exactly outside a guild, and reports no data exactly when the guild has no snapshot in the last seven days; its figures are stated by the two lemmas below |
| `Bot.AnalyticsSlashFigures` | src/bot.py:172-215 | members and channels come from a newest in-window snapshot; messages and voice minutes are sums over all in-window snapshots; data points is their number |
| `Bot.AnalyticsSlashTopChannel` | src/bot.py:173-226 | the top channel is absent exactly when no message is in the window, and otherwise has the most in-window messages |
| `WebApp.DigitChar` | src/web_app.py:163 | the digit character for a value below ten |
| `WebApp.DecimalString` | src/web_app.py:163 | `str(guild_id)`: non-empty, all digits, no leading zero |
| `WebApp.ParseDecimal` | src/web_app.py:123 | `int(user_data['id'])`: accepts exactly the non-empty strings of ASCII digits |
| `WebApp.PrintParsed` | src/web_app.py:123 | a digit string without a leading zero is the printed form of the number it parses to |
| `WebApp.ParseDecimalString` | src/web_app.py:123 | parsing the printed form of a number gives the number back |
| `WebApp.DecimalStringInjective` | src/web_app.py:163 | different guild ids have different printed forms |
| `WebApp.FirstMatch` | src/web_app.py:163 | the index of the first guild entry whose id is the route id, or the end |
| `WebApp.FindGuild` | src/web_app.py:163 | `next(...)`: an entry exactly when the session lists the guild, and then the first such entry |
| `WebApp.Dashboard` | src/web_app.py:144-152 | no user: redirect to login; otherwise the user and the session's guild list |
| `WebApp.Analytics` | src/web_app.py:154-188 | no user: redirect to login; a non-member guild: "Access Denied"; a member: the three reads over 30 days |
| `WebApp.ApiAnalytics` | src/web_app.py:190-215 | no user: 401; a non-member guild: 403; otherwise the three reads over `days`, or 7 days when none is given |
| `WebApp.RefusalsReadNothing` | src/web_app.py:157-169 | a redirected or refused request gives the same answer whatever the tables hold |
| `WebApp.Callback` | src/web_app.py:56-136 | no code: "OAuth Error"; a failed token exchange: "Token Exchange Failed"; a failed user fetch: "User Info Failed", each with nothing written; a good code, token, user and numeric id always redirect to the dashboard; a session is written only after token and user succeed, with the guild list empty when that fetch failed; a row is stored exactly when the callback redirects, with expiry `now + expires_in` (3600 by default) |
| `WebApp.OAuthCallback` | src/web_app.py:56-136 | the page and session are the callback's; the session table changes only by the upsert of the stored row |
| `WebApp.FailedGuildFetchDeniesAll` | src/web_app.py:111-113 | after a failed guild fetch the session is denied every guild, on the page and through the API |

## Left out

- sqlite mechanics: connections, thread-local handles, cursors, commits and the schema DDL. The tables are in-memory sequences and nothing persists across restarts.
- The `id` column of every table. Rows are compared by their modelled columns only.
- Time formats. The source compares SQLite's UTC `CURRENT_TIMESTAMP` text with a local Python `datetime`. The model uses one integer clock. `expires_at` is stored as seconds.
- `AVG(message_length)` is a float. The model keeps the count and the sum it is computed from.
- Store.GetMessageAnalytics, Store.GetUserActivityStats: the order among groups with equal counts is left open, as SQL leaves it. The contract says "non-increasing counts" and not which tie order the engine picks.
- Bot.VoiceMinutes: the source adds float minutes and truncates at the end. The model sums exact microseconds and truncates once, so float rounding is not modelled.
- Bot.Snapshots: the source reads `datetime.now()` afresh for every guild and every session. The model uses one clock for the whole tick.
- Bot.RecentMessageEstimate: the `after=now-1h` filter is applied by Discord. The model's history is the list Discord returns. A `Forbidden` raised after some messages were counted is modelled as raised before the first one.
- Bot.SnapshotOf: failures other than the channel scan (a member count or a store write that raises) are not modelled.
- The Discord gateway, the async event loop, slash-command sync, presence updates, `on_ready`/`on_guild_join`/`on_guild_remove`, embed formatting and the channel-name lookup of `/analytics`, `/help`, `/invite` and `main`. These are foreign I/O or UI.
- The `/analytics` error reply for an exception in the reads. The modelled reads cannot fail.
- Flask rendering, `index`, `login`, `logout`, the 404/500 handlers and the filesystem session store.
- The analytics page's "Analytics Error" and the API's 500 reply. The modelled reads cannot fail. This also leaves out the `OverflowError` that a huge `days` raises in `timedelta`.
- WebApp.ApiAnalytics: `days` arrives already converted. `None` stands for a parameter that is absent or that `int()` rejects.
- WebApp.ParseDecimal accepts only ASCII digit strings. Python's `int()` also accepts a sign, surrounding whitespace and underscores; those ids are outside the model.
- WebApp.Callback: the network calls are modelled as their replies, passed in. A body that does not decode as JSON, and a store call that raises, are not modelled. A user or session dict that is present but empty (and so falsy in Python) is modelled as present.
- start.py and run_web.py are process launchers, and config.py only loads environment variables. None of them is part of this model.
