/**
 * The dashboard's decisions: who may see which guild's analytics, over
 * which window, and how the OAuth callback fills the browser session and
 * the session table. Discord's HTTP replies arrive as parameters; pages are
 * values naming what would be rendered.
 */
module WebApp {
  import opened Wrappers
  import opened Sql
  import opened Store

  /** The analytics page's window, in days. */
  const PageDays := 30

  /** The API's window when the request names none. */
  const DefaultApiDays := 7

  /** The token lifetime assumed when the token reply names none, in seconds. */
  const DefaultExpiresIn := 3600

  // ---------------------------------------------------------------------------
  // Decimal ids

  predicate IsDigit(c: char)
  {
    '0' <= c <= '9'
  }

  function DigitChar(d: nat): (c: char)
    requires d < 10
    ensures IsDigit(c) && c as int - '0' as int == d
  {
    (48 + d) as char
  }

  /** Python's `str(n)` for a non-negative integer. */
  function DecimalString(n: nat): (s: string)
    ensures |s| > 0
    ensures forall i :: 0 <= i < |s| ==> IsDigit(s[i])
    ensures |s| > 1 ==> s[0] != '0'
    decreases n
  {
    if n < 10 then [DigitChar(n)] else DecimalString(n / 10) + [DigitChar(n % 10)]
  }

  /** The value of a string of decimal digits (leading zeros allowed). */
  function DigitsValue(s: string): nat
    requires forall i :: 0 <= i < |s| ==> IsDigit(s[i])
    decreases |s|
  {
    if |s| == 0 then 0
    else
      assert IsDigit(s[|s| - 1]);
      10 * DigitsValue(s[..|s| - 1]) + (s[|s| - 1] as int - '0' as int)
  }

  /** Python's `int(s)` on a string of ASCII digits; `None` stands for the `ValueError` on anything else. */
  function ParseDecimal(s: string): (r: Option<nat>)
    ensures r.Some? <==> |s| > 0 && forall i :: 0 <= i < |s| ==> IsDigit(s[i])
  {
    if |s| > 0 && forall i :: 0 <= i < |s| ==> IsDigit(s[i]) then Some(DigitsValue(s)) else None
  }

  /** A digit string without a leading zero has a positive value. */
  lemma {:induction false} LeadingDigitPositive(s: string)
    requires |s| > 0 && s[0] != '0' && forall i :: 0 <= i < |s| ==> IsDigit(s[i])
    ensures DigitsValue(s) > 0
    decreases |s|
  {
    if |s| > 1 {
      LeadingDigitPositive(s[..|s| - 1]);
    }
  }

  /** A canonical digit string (no leading zero) is the printed form of the number it parses to. */
  lemma {:induction false} PrintParsed(s: string)
    requires ParseDecimal(s).Some? && (|s| == 1 || s[0] != '0')
    ensures DecimalString(ParseDecimal(s).value) == s
    decreases |s|
  {
    var n := ParseDecimal(s).value;
    var init, c := s[..|s| - 1], s[|s| - 1];
    assert s == init + [c];
    var d := c as int - '0' as int;
    assert IsDigit(c);
    assert n == 10 * DigitsValue(init) + d;
    if |s| == 1 {
      assert DigitsValue(init) == 0;
    } else {
      LeadingDigitPositive(init);
      assert ParseDecimal(init).Some?;
      var m := ParseDecimal(init).value;
      assert n == 10 * m + d && m > 0;
      assert n / 10 == m && n % 10 == d;
      PrintParsed(init);
    }
  }

  /** Printing a number and parsing it back gives the number. */
  lemma {:induction false} ParseDecimalString(n: nat)
    ensures ParseDecimal(DecimalString(n)) == Some(n)
    decreases n
  {
    var s := DecimalString(n);
    if n < 10 {
      assert s[..0] == [];
    } else {
      ParseDecimalString(n / 10);
      assert s[..|s| - 1] == DecimalString(n / 10);
      assert s[|s| - 1] == DigitChar(n % 10);
      assert DigitsValue(s) == 10 * (n / 10) + n % 10;
    }
  }

  /** Distinct guild ids print differently, so a session guild matches at most one route id. */
  lemma DecimalStringInjective(a: nat, b: nat)
    ensures DecimalString(a) == DecimalString(b) ==> a == b
  {
    ParseDecimalString(a);
    ParseDecimalString(b);
  }

  // ---------------------------------------------------------------------------
  // Session state

  /** An entry of the session's guild list; Discord sends the id as a string. */
  datatype SessionGuild = SessionGuild(id: string, name: string)

  /** The user object Discord returns; `id` is a string. */
  datatype UserInfo = UserInfo(id: string, username: string)

  /**
   * The browser session: the user (absent before login), the guild list
   * (read as empty when absent) and the access token.
   */
  datatype Session = Session(user: Option<UserInfo>, guilds: seq<SessionGuild>, accessToken: Option<string>)

  /** The store's contents the routes read. */
  datatype Tables = Tables(snapshots: seq<ServerSnapshot>, messages: seq<MessageEvent>, activities: seq<ActivityEvent>)

  /** The session's guild list has an entry whose id is the decimal form of `guildId`. */
  ghost predicate IsMember(guilds: seq<SessionGuild>, guildId: nat)
  {
    exists g :: g in guilds && g.id == DecimalString(guildId)
  }

  /** The position of the first entry whose id is the decimal form of `guildId`, or `|guilds|`. */
  function FirstMatch(guilds: seq<SessionGuild>, guildId: nat): (i: nat)
    ensures i <= |guilds|
    ensures i < |guilds| ==> guilds[i].id == DecimalString(guildId)
    ensures forall j :: 0 <= j < i ==> guilds[j].id != DecimalString(guildId)
    decreases |guilds|
  {
    if |guilds| == 0 then 0
    else if guilds[0].id == DecimalString(guildId) then 0
    else 1 + FirstMatch(guilds[1..], guildId)
  }

  /** `next((g for g in guilds if g['id'] == str(guild_id)), None)`: the first matching entry, if any. */
  function FindGuild(guilds: seq<SessionGuild>, guildId: nat): (r: Option<SessionGuild>)
    ensures r.Some? <==> IsMember(guilds, guildId)
    ensures r.Some? ==> exists i :: 0 <= i < |guilds| && guilds[i] == r.value &&
                                    r.value.id == DecimalString(guildId) &&
                                    forall j :: 0 <= j < i ==> guilds[j].id != DecimalString(guildId)
  {
    var i := FirstMatch(guilds, guildId);
    if i < |guilds| then
      Some(guilds[i])
    else
      assert forall g :: g in guilds ==> g.id != DecimalString(guildId) by {
        forall g | g in guilds ensures g.id != DecimalString(guildId) {
          var j :| 0 <= j < |guilds| && guilds[j] == g;
        }
      }
      None
  }

  // ---------------------------------------------------------------------------
  // Routes

  /** What a page route answers with. */
  datatype Page =
    | RedirectToLogin
    | RedirectToDashboard
    | ErrorPage(error: string)
    | DashboardPage(user: UserInfo, guilds: seq<SessionGuild>)
    | AnalyticsPage(guild: SessionGuild, server: seq<ServerSnapshot>, messages: seq<Group<int>>, activity: seq<Group<(int, string)>>)

  /** What the JSON route answers with: the three reads, or an error status. */
  datatype ApiReply =
    | Json(server: seq<ServerSnapshot>, messages: seq<Group<int>>, activity: seq<Group<(int, string)>>)
    | ApiError(status: int, error: string)

  /** dashboard: a visitor without a user is sent to log in; a user sees the session's guild list. */
  function Dashboard(session: Session): (r: Page)
    ensures r == RedirectToLogin <==> session.user.None?
    ensures r.DashboardPage? <==> session.user.Some?
    ensures r.DashboardPage? ==> r.user == session.user.value && r.guilds == session.guilds
  {
    if session.user.None? then RedirectToLogin
    else DashboardPage(session.user.value, session.guilds)
  }

  /**
   * analytics: no user is sent to log in, a guild missing from the
   * session's list is denied, and a member sees the three reads over the
   * last thirty days.
   */
  function Analytics(session: Session, guildId: nat, t: Tables, now: int): (r: Page)
    ensures r == RedirectToLogin <==> session.user.None?
    ensures r == ErrorPage("Access Denied") <==> session.user.Some? && !IsMember(session.guilds, guildId)
    ensures r.AnalyticsPage? <==> session.user.Some? && IsMember(session.guilds, guildId)
    ensures r.AnalyticsPage? ==>
              && r.guild in session.guilds && r.guild.id == DecimalString(guildId)
              && r.server == GetServerAnalytics(t.snapshots, guildId, now, PageDays)
              && r.messages == GetMessageAnalytics(t.messages, guildId, now, PageDays)
              && r.activity == GetUserActivityStats(t.activities, guildId, now, PageDays)
  {
    if session.user.None? then RedirectToLogin
    else
      match FindGuild(session.guilds, guildId)
      case None => ErrorPage("Access Denied")
      case Some(guild) =>
        AnalyticsPage(guild,
                      GetServerAnalytics(t.snapshots, guildId, now, PageDays),
                      GetMessageAnalytics(t.messages, guildId, now, PageDays),
                      GetUserActivityStats(t.activities, guildId, now, PageDays))
  }

  /**
   * api_analytics: 401 without a user, 403 for a guild missing from the
   * session's list, otherwise the three reads over `days` (seven when the
   * request names none). `days` is `None` when the query parameter is
   * absent or not an integer.
   */
  function ApiAnalytics(session: Session, guildId: nat, days: Option<int>, t: Tables, now: int): (r: ApiReply)
    ensures r == ApiError(401, "Unauthorized") <==> session.user.None?
    ensures r == ApiError(403, "Access denied") <==> session.user.Some? && !IsMember(session.guilds, guildId)
    ensures r.Json? <==> session.user.Some? && IsMember(session.guilds, guildId)
    ensures r.Json? ==>
              var n := if days.Some? then days.value else DefaultApiDays;
              && r.server == GetServerAnalytics(t.snapshots, guildId, now, n)
              && r.messages == GetMessageAnalytics(t.messages, guildId, now, n)
              && r.activity == GetUserActivityStats(t.activities, guildId, now, n)
  {
    if session.user.None? then ApiError(401, "Unauthorized")
    else if FindGuild(session.guilds, guildId).None? then ApiError(403, "Access denied")
    else
      var n := days.GetOr(DefaultApiDays);
      Json(GetServerAnalytics(t.snapshots, guildId, now, n),
           GetMessageAnalytics(t.messages, guildId, now, n),
           GetUserActivityStats(t.activities, guildId, now, n))
  }

  /** A refused request reads nothing: its answer is the same whatever the tables hold. */
  lemma RefusalsReadNothing(session: Session, guildId: nat, days: Option<int>, t1: Tables, t2: Tables, now: int)
    requires session.user.None? || !IsMember(session.guilds, guildId)
    ensures Analytics(session, guildId, t1, now) == Analytics(session, guildId, t2, now)
    ensures ApiAnalytics(session, guildId, days, t1, now) == ApiAnalytics(session, guildId, days, t2, now)
  {
    if session.user.Some? {
      assert FindGuild(session.guilds, guildId).None?;
    }
  }

  // ---------------------------------------------------------------------------
  // OAuth callback

  /** A Discord HTTP reply: its status code and decoded body. */
  datatype HttpReply<T> = HttpReply(status: int, body: T)

  /** The token endpoint's JSON; any key may be missing. */
  datatype TokenJson = TokenJson(accessToken: Option<string>, refreshToken: Option<string>, expiresIn: Option<int>)

  /** The callback's page, the browser session it writes (if it gets that far) and the row it stores (likewise). */
  datatype CallbackOutcome = CallbackOutcome(page: Page, session: Option<Session>, stored: Option<OAuthSession>)

  /**
   * oauth_callback at `now` (seconds): each failed step ends with its own
   * error page. A missing `access_token` and a user id that is not a number
   * raise inside the `try` and end on the generic authentication error; by
   * the time the id is parsed the browser session has been written.
   */
  function Callback(code: Option<string>, token: HttpReply<TokenJson>, user: HttpReply<UserInfo>,
                    guilds: HttpReply<seq<SessionGuild>>, now: int): (r: CallbackOutcome)
    ensures code.None? || code == Some("") ==> r == CallbackOutcome(ErrorPage("OAuth Error"), None, None)
    ensures code.Some? && code.value != "" && token.status != 200 ==>
              r == CallbackOutcome(ErrorPage("Token Exchange Failed"), None, None)
    ensures code.Some? && code.value != "" && token.status == 200 && token.body.accessToken.Some? && user.status != 200 ==>
              r == CallbackOutcome(ErrorPage("User Info Failed"), None, None)
    ensures (&& code.Some? && code.value != "" && token.status == 200 && token.body.accessToken.Some?
             && user.status == 200 && ParseDecimal(user.body.id).Some?) ==>
              r.page == RedirectToDashboard
    ensures r.session.Some? ==>
              && code.Some? && code.value != "" && token.status == 200 && user.status == 200
              && r.session.value.user == Some(user.body)
              && r.session.value.accessToken == token.body.accessToken
              && r.session.value.guilds == (if guilds.status == 200 then guilds.body else [])
    ensures r.stored.Some? <==> r.page == RedirectToDashboard
    ensures r.stored.Some? ==>
              && r.session.Some?
              && token.body.accessToken.Some?
              && ParseDecimal(user.body.id).Some?
              && r.stored.value == OAuthSession(ParseDecimal(user.body.id).value, token.body.accessToken.value,
                                                token.body.refreshToken,
                                                Some(now + token.body.expiresIn.GetOr(DefaultExpiresIn)), now)
    ensures r.stored.None? ==> r.page.ErrorPage?
  {
    if code.None? || code.value == "" then CallbackOutcome(ErrorPage("OAuth Error"), None, None)
    else if token.status != 200 then CallbackOutcome(ErrorPage("Token Exchange Failed"), None, None)
    else if token.body.accessToken.None? then CallbackOutcome(ErrorPage("Authentication Error"), None, None)
    else if user.status != 200 then CallbackOutcome(ErrorPage("User Info Failed"), None, None)
    else
      var accessToken := token.body.accessToken.value;
      var guildList := if guilds.status == 200 then guilds.body else [];
      var session := Session(Some(user.body), guildList, Some(accessToken));
      match ParseDecimal(user.body.id)
      case None => CallbackOutcome(ErrorPage("Authentication Error"), Some(session), None)
      case Some(userId) =>
        var expiresAt := now + token.body.expiresIn.GetOr(DefaultExpiresIn);
        CallbackOutcome(RedirectToDashboard, Some(session),
                        Some(OAuthSession(userId, accessToken, token.body.refreshToken, Some(expiresAt), now)))
  }

  /**
   * oauth_callback against the store: the table changes only when the
   * callback reaches the store step, and then by the upsert of its row.
   */
  method OAuthCallback(db: Database, code: Option<string>, token: HttpReply<TokenJson>, user: HttpReply<UserInfo>,
                       guilds: HttpReply<seq<SessionGuild>>, now: int) returns (page: Page, session: Option<Session>)
    requires db.Valid()
    modifies db`sessions
    ensures db.Valid()
    ensures page == Callback(code, token, user, guilds, now).page
    ensures session == Callback(code, token, user, guilds, now).session
    ensures db.sessions == match Callback(code, token, user, guilds, now).stored
                           case None => old(db.sessions)
                           case Some(row) => Upsert(old(db.sessions), row)
  {
    ghost var outcome := Callback(code, token, user, guilds, now);
    if code.None? || code.value == "" {
      assert outcome == CallbackOutcome(ErrorPage("OAuth Error"), None, None);
      return ErrorPage("OAuth Error"), None;
    }
    if token.status != 200 {
      assert outcome == CallbackOutcome(ErrorPage("Token Exchange Failed"), None, None);
      return ErrorPage("Token Exchange Failed"), None;
    }
    if token.body.accessToken.None? {
      assert outcome == CallbackOutcome(ErrorPage("Authentication Error"), None, None);
      return ErrorPage("Authentication Error"), None;
    }
    var accessToken := token.body.accessToken.value;
    if user.status != 200 {
      assert outcome == CallbackOutcome(ErrorPage("User Info Failed"), None, None);
      return ErrorPage("User Info Failed"), None;
    }
    var guildList := [];
    if guilds.status == 200 {
      guildList := guilds.body;
    }
    session := Some(Session(Some(user.body), guildList, Some(accessToken)));
    var expiresAt := now + token.body.expiresIn.GetOr(DefaultExpiresIn);
    var userId := ParseDecimal(user.body.id);
    if userId.None? {
      assert outcome == CallbackOutcome(ErrorPage("Authentication Error"), session, None);
      return ErrorPage("Authentication Error"), session;
    }
    assert outcome == CallbackOutcome(RedirectToDashboard, session,
                                      Some(OAuthSession(userId.value, accessToken, token.body.refreshToken, Some(expiresAt), now)));
    db.StoreOAuthSession(userId.value, accessToken, token.body.refreshToken, Some(expiresAt), now);
    page := RedirectToDashboard;
  }

  /**
   * When the guild list could not be fetched, the session the callback
   * writes is denied every guild, on the page and through the API.
   */
  lemma FailedGuildFetchDeniesAll(code: Option<string>, token: HttpReply<TokenJson>, user: HttpReply<UserInfo>,
                                  guilds: HttpReply<seq<SessionGuild>>, now: int,
                                  guildId: nat, days: Option<int>, t: Tables, later: int)
    requires guilds.status != 200
    requires Callback(code, token, user, guilds, now).session.Some?
    ensures var s := Callback(code, token, user, guilds, now).session.value;
            && Analytics(s, guildId, t, later) == ErrorPage("Access Denied")
            && ApiAnalytics(s, guildId, days, t, later) == ApiError(403, "Access denied")
  {
  }
}
