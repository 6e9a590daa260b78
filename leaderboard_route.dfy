// `GET /api/leaderboard`: query defaults, the timeframe and limit checks,
// the page with its `hasMore` flag, the optional rank of the signed-in
// user, and the well-formed empty answer when the computation fails.

module LeaderboardRoute {
  import opened Domain
  import opened Leaderboard
  import opened LeaderboardProperties

  const WeekParam: string := "week"
  const AllTimeParam: string := "all-time"
  const InvalidTimeframeError: string := "Invalid timeframe. Must be \"week\" or \"all-time\""
  const InvalidLimitError: string := "Limit must be between 1 and 100"
  const UnavailableError: string := "Unable to load leaderboard. Please try again later."

  /**
   * The route's reply. `Page` is a 200 answer; its `pageError` is set only
   * on the degraded answer given when the leaderboard cannot be computed.
   */
  datatype LeaderboardResponse =
    | BadRequest(error: string)
    | Page(
        leaderboard: seq<LeaderboardEntry>,
        currentUserRank: Option<UserRank>,
        timeframe: string,
        limit: int,
        offset: int,
        hasMore: bool,
        pageError: Option<string>)

  /** A query value that is absent or empty falls back to the default (the `||` fallback). */
  function OrDefault(param: Option<string>, default: string): (r: string)
    ensures r != "" || default == ""
    ensures param.Some? && param.value != "" ==> r == param.value
    ensures !(param.Some? && param.value != "") ==> r == default
  {
    if param.Some? && param.value != "" then param.value else default
  }

  function TimeframeOf(timeframe: string): Timeframe {
    if timeframe == WeekParam then Week else AllTime
  }

  /**
   * `currentUserRank`: the session user's rank, when a session user maps to
   * a stored user and nothing in that block throws; a throw there is
   * swallowed and leaves the rank null.
   */
  function CurrentUserRank(log: seq<Prediction>, users: seq<User>, timeframe: Timeframe, now: int,
                           sessionSub: Option<string>, rankFails: bool): (r: Option<UserRank>)
    ensures r.Some? <==> !rankFails && sessionSub.Some? && FindUserByAuth0Id(users, sessionSub.value).Some?
    ensures r.Some? ==> r.value == GetUserRank(log, FindUserByAuth0Id(users, sessionSub.value).value.id, timeframe, now)
  {
    if rankFails || sessionSub.None? then None
    else match FindUserByAuth0Id(users, sessionSub.value)
      case None => None
      case Some(user) => Some(GetUserRank(log, user.id, timeframe, now))
  }

  /**
   * The handler. `limitParam` and `offsetParam` are the parsed query
   * numbers (None when absent or empty); `computeFails` says that
   * `calculateLeaderboard` throws, `rankFails` that the rank block throws.
   */
  function Get(log: seq<Prediction>, users: seq<User>, now: int,
               timeframeParam: Option<string>, limitParam: Option<int>, offsetParam: Option<int>,
               sessionSub: Option<string>, computeFails: bool, rankFails: bool): (r: LeaderboardResponse)
    ensures r.Page? ==> (r.hasMore <==> |r.leaderboard| == r.limit)
    ensures r.Page? ==> 1 <= r.limit <= 100 && |r.leaderboard| <= r.limit
    ensures r.Page? ==> r.timeframe == WeekParam || r.timeframe == AllTimeParam
    ensures r.Page? && r.pageError.Some? ==> r.leaderboard == [] && r.currentUserRank.None? && !r.hasMore
  {
    var timeframe := OrDefault(timeframeParam, AllTimeParam);
    var limit := limitParam.GetOr(DefaultLimit);
    var offset := offsetParam.GetOr(DefaultOffset);
    if timeframe != WeekParam && timeframe != AllTimeParam then BadRequest(InvalidTimeframeError)
    else if limit < 1 || limit > 100 then BadRequest(InvalidLimitError)
    else if computeFails then Page([], None, timeframe, limit, offset, false, Some(UnavailableError))
    else
      var tf := TimeframeOf(timeframe);
      var leaderboard := CalculateLeaderboard(log, users, now, LeaderboardOptions(Some(tf), Some(limit), Some(offset)));
      var currentUserRank := CurrentUserRank(log, users, tf, now, sessionSub, rankFails);
      Page(leaderboard, currentUserRank, timeframe, limit, offset, |leaderboard| == limit, None)
  }

  // ---------------------------------------------------------------------
  // Properties of the handler

  /** With no query parameters the answer is the first 100 of the all-time leaderboard. */
  lemma {:induction false} DefaultsAreAllTimeFirstHundred(log: seq<Prediction>, users: seq<User>, now: int,
                                                         sessionSub: Option<string>, rankFails: bool)
    ensures var r := Get(log, users, now, None, None, None, sessionSub, false, rankFails);
      var full := RankedLeaderboard(log, users, AllTime, now);
      && r.Page? && r.timeframe == AllTimeParam && r.limit == 100 && r.offset == 0 && r.pageError.None?
      && r.leaderboard == full[..Min(100, |full|)]
  {
    CalculateLeaderboardIsAPage(log, users, now, LeaderboardOptions(Some(AllTime), Some(100), Some(0)));
  }

  /**
   * A timeframe other than `week` or `all-time` is refused with 400 before
   * anything is computed, so not even a failing computation changes that.
   */
  lemma InvalidTimeframeIsRefused(log: seq<Prediction>, users: seq<User>, now: int,
                                  t: string, limitParam: Option<int>, offsetParam: Option<int>,
                                  sessionSub: Option<string>, computeFails: bool, rankFails: bool)
    requires t != "" && t != WeekParam && t != AllTimeParam
    ensures Get(log, users, now, Some(t), limitParam, offsetParam, sessionSub, computeFails, rankFails)
      == BadRequest(InvalidTimeframeError)
  {
  }

  /** With a valid timeframe, a limit outside [1, 100] is refused with 400. */
  lemma {:induction false} LimitOutOfRangeIsRefused(log: seq<Prediction>, users: seq<User>, now: int,
                                                   timeframeParam: Option<string>, n: int, offsetParam: Option<int>,
                                                   sessionSub: Option<string>, computeFails: bool, rankFails: bool)
    requires OrDefault(timeframeParam, AllTimeParam) == WeekParam || OrDefault(timeframeParam, AllTimeParam) == AllTimeParam
    ensures Get(log, users, now, timeframeParam, Some(n), offsetParam, sessionSub, computeFails, rankFails).BadRequest?
      <==> n < 1 || n > 100
  {
  }

  /**
   * A valid request that computes is answered with the window
   * [offset, offset + limit) of the ranked leaderboard, carrying global
   * ranks, and the signed-in user's rank exactly when they are known.
   */
  lemma {:induction false} ValidRequestGetsItsPage(log: seq<Prediction>, users: seq<User>, now: int,
                                                  timeframeParam: Option<string>, limitParam: Option<int>, offsetParam: Option<int>,
                                                  sessionSub: Option<string>, rankFails: bool)
    requires var t := OrDefault(timeframeParam, AllTimeParam); t == WeekParam || t == AllTimeParam
    requires 1 <= limitParam.GetOr(DefaultLimit) <= 100
    requires offsetParam.GetOr(DefaultOffset) >= 0
    ensures var r := Get(log, users, now, timeframeParam, limitParam, offsetParam, sessionSub, false, rankFails);
      var tf := TimeframeOf(OrDefault(timeframeParam, AllTimeParam));
      var full := RankedLeaderboard(log, users, tf, now);
      var offset := offsetParam.GetOr(DefaultOffset);
      var limit := limitParam.GetOr(DefaultLimit);
      && r.Page? && r.pageError.None?
      && r.leaderboard == full[Min(offset, |full|)..Min(offset + limit, |full|)]
      && (forall k :: 0 <= k < |r.leaderboard| ==> r.leaderboard[k].rank == offset + k + 1)
      && (r.currentUserRank.Some? <==> !rankFails && sessionSub.Some? && FindUserByAuth0Id(users, sessionSub.value).Some?)
  {
    var t := OrDefault(timeframeParam, AllTimeParam);
    var tf := TimeframeOf(t);
    var limit := limitParam.GetOr(DefaultLimit);
    var offset := offsetParam.GetOr(DefaultOffset);
    var options := LeaderboardOptions(Some(tf), Some(limit), Some(offset));
    GetAnswersTheComputedPage(log, users, now, timeframeParam, limitParam, offsetParam, sessionSub, rankFails);
    CalculateLeaderboardIsAPage(log, users, now, options);
  }

  /** A valid request that computes is answered with `calculateLeaderboard`'s page. */
  lemma GetAnswersTheComputedPage(log: seq<Prediction>, users: seq<User>, now: int,
                                  timeframeParam: Option<string>, limitParam: Option<int>, offsetParam: Option<int>,
                                  sessionSub: Option<string>, rankFails: bool)
    requires var t := OrDefault(timeframeParam, AllTimeParam); t == WeekParam || t == AllTimeParam
    requires 1 <= limitParam.GetOr(DefaultLimit) <= 100
    ensures var t := OrDefault(timeframeParam, AllTimeParam);
      var tf := TimeframeOf(t);
      var limit := limitParam.GetOr(DefaultLimit);
      var offset := offsetParam.GetOr(DefaultOffset);
      var page := CalculateLeaderboard(log, users, now, LeaderboardOptions(Some(tf), Some(limit), Some(offset)));
      Get(log, users, now, timeframeParam, limitParam, offsetParam, sessionSub, false, rankFails)
        == Page(page, CurrentUserRank(log, users, tf, now, sessionSub, rankFails), t, limit, offset, |page| == limit, None)
  {
  }

  /**
   * When computing the leaderboard throws, a valid request still gets a
   * well-formed 200 answer: no entries, no rank, no further pages, and a
   * fixed error text.
   */
  lemma {:induction false} FailedComputationDegrades(log: seq<Prediction>, users: seq<User>, now: int,
                                                    timeframeParam: Option<string>, limitParam: Option<int>, offsetParam: Option<int>,
                                                    sessionSub: Option<string>, rankFails: bool)
    requires var t := OrDefault(timeframeParam, AllTimeParam); t == WeekParam || t == AllTimeParam
    requires 1 <= limitParam.GetOr(DefaultLimit) <= 100
    ensures Get(log, users, now, timeframeParam, limitParam, offsetParam, sessionSub, true, rankFails)
      == Page([], None, OrDefault(timeframeParam, AllTimeParam), limitParam.GetOr(DefaultLimit),
              offsetParam.GetOr(DefaultOffset), false, Some(UnavailableError))
  {
  }

  /**
   * `hasMore` only compares the page length with `limit`: a page that ends
   * exactly at the last entry still says there is more, and the next page
   * is empty.
   */
  lemma {:induction false} HasMoreAtExactTail(log: seq<Prediction>, users: seq<User>, now: int,
                                             limit: int, offset: int, sessionSub: Option<string>, rankFails: bool)
    requires 1 <= limit <= 100 && offset >= 0
    requires |RankedLeaderboard(log, users, AllTime, now)| == offset + limit
    ensures Get(log, users, now, None, Some(limit), Some(offset), sessionSub, false, rankFails).hasMore
    ensures Get(log, users, now, None, Some(limit), Some(offset + limit), sessionSub, false, rankFails).leaderboard == []
  {
    CalculateLeaderboardIsAPage(log, users, now, LeaderboardOptions(Some(AllTime), Some(limit), Some(offset)));
    CalculateLeaderboardIsAPage(log, users, now, LeaderboardOptions(Some(AllTime), Some(limit), Some(offset + limit)));
  }
}
