// The leaderboard engine: per-user aggregation of resolved predictions in
// a time window, a three-key descending sort, 1-based ranks and an
// [offset, offset + limit) page; the current-streak scan; the Monday week
// start; and the single-user rank lookup that counts users strictly ahead
// on points.
//
// The prediction table is a sequence in insertion order. The ORM's
// group-by, count and sum are the functions below over that sequence.

module Leaderboard {
  import opened Domain
  import opened Arithmetic

  datatype Timeframe = Week | AllTime

  /** `LeaderboardOptions`: each field may be omitted. */
  datatype LeaderboardOptions = LeaderboardOptions(
    timeframe: Option<Timeframe>,
    limit: Option<int>,
    offset: Option<int>)

  datatype LeaderboardEntry = LeaderboardEntry(
    userId: UserId,
    userName: string,
    userPicture: Option<string>,
    totalPoints: nat,
    totalPredictions: nat,
    correctPredictions: nat,
    accuracy: nat,  // tenths of a percent: 725 stands for 72.5
    rank: nat,
    streak: nat)

  datatype UserRank = UserRank(rank: nat, totalUsers: nat)

  const DefaultLimit: int := 100
  const DefaultOffset: int := 0
  /** How many of the newest resolved predictions the streak scan reads. */
  const StreakLookback: nat := 50
  const MsPerDay: int := 86400000
  const AnonymousName: string := "Anonymous"

  // ---------------------------------------------------------------------
  // Current streak

  /** The first `n` elements of `s`, or all of them (`take: n`). */
  function Take<T>(s: seq<T>, n: nat): (r: seq<T>)
    ensures |r| == if |s| <= n then |s| else n
    ensures r == s[..|r|]
  {
    if |s| <= n then s else s[..n]
  }

  /** Length of the leading run of correct predictions in `s`. */
  function LeadingCorrect(s: seq<Prediction>): (r: nat)
    ensures r <= |s|
    ensures forall i :: 0 <= i < r ==> s[i].isCorrect == Some(true)
    ensures r < |s| ==> s[r].isCorrect != Some(true)
  {
    if |s| == 0 || s[0].isCorrect != Some(true) then 0
    else 1 + LeadingCorrect(s[1..])
  }

  /**
   * The current streak read from a newest-first list of resolved
   * predictions: the run of correct ones among the newest 50, stopping at
   * the first incorrect one.
   */
  function CurrentStreak(newestFirst: seq<Prediction>): (r: nat)
    ensures r <= StreakLookback && r <= |newestFirst|
    ensures forall i :: 0 <= i < r ==> newestFirst[i].isCorrect == Some(true)
  {
    LeadingCorrect(Take(newestFirst, StreakLookback))
  }

  /** `calculateStreak`: the counting loop over the fetched predictions. */
  method CalculateStreak(newestFirst: seq<Prediction>) returns (streak: nat)
    ensures streak == CurrentStreak(newestFirst)
    ensures streak <= StreakLookback && streak <= |newestFirst|
    ensures forall i :: 0 <= i < streak ==> newestFirst[i].isCorrect == Some(true)
  {
    var predictions := Take(newestFirst, StreakLookback);
    streak := 0;
    for i := 0 to |predictions|
      invariant streak == i
      invariant forall k :: 0 <= k < i ==> predictions[k].isCorrect == Some(true)
    {
      if predictions[i].isCorrect == Some(true) {
        streak := streak + 1;
      } else {
        break;
      }
    }
  }

  /**
   * A user's resolved predictions, newest first. The log is kept in
   * creation order, so newest first is the reversed filter.
   */
  function ResolvedNewestFirst(log: seq<Prediction>, u: UserId): (r: seq<Prediction>)
    ensures forall p :: p in r <==> p in log && p.userId == u && p.isCorrect.Some?
    ensures |r| <= |log|
  {
    if |log| == 0 then []
    else if log[0].userId == u && log[0].isCorrect.Some? then ResolvedNewestFirst(log[1..], u) + [log[0]]
    else ResolvedNewestFirst(log[1..], u)
  }

  /** The log is in creation order. */
  ghost predicate Chronological(log: seq<Prediction>) {
    forall i, j :: 0 <= i < j < |log| ==> log[i].createdAt <= log[j].createdAt
  }

  ghost predicate NewestFirst(s: seq<Prediction>) {
    forall i, j :: 0 <= i < j < |s| ==> s[i].createdAt >= s[j].createdAt
  }

  /** On a chronological log the streak input really is newest first. */
  lemma {:induction false} ResolvedNewestFirstIsNewestFirst(log: seq<Prediction>, u: UserId)
    requires Chronological(log)
    ensures NewestFirst(ResolvedNewestFirst(log, u))
  {
    if |log| > 0 {
      var rest := ResolvedNewestFirst(log[1..], u);
      assert Chronological(log[1..]) by {
        forall i, j | 0 <= i < j < |log[1..]| ensures log[1..][i].createdAt <= log[1..][j].createdAt {
          assert log[1..][i] == log[i + 1] && log[1..][j] == log[j + 1];
        }
      }
      ResolvedNewestFirstIsNewestFirst(log[1..], u);
      if log[0].userId == u && log[0].isCorrect.Some? {
        assert ResolvedNewestFirst(log, u) == rest + [log[0]];
        forall k | 0 <= k < |rest| ensures rest[k].createdAt >= log[0].createdAt {
          assert rest[k] in log[1..];
          var m :| 0 <= m < |log[1..]| && log[1..][m] == rest[k];
          assert log[m + 1] == rest[k];
        }
        var r := rest + [log[0]];
        forall i, j | 0 <= i < j < |r| ensures r[i].createdAt >= r[j].createdAt {
          assert r[i] == rest[i];
          if j < |rest| { assert r[j] == rest[j]; } else { assert r[j] == log[0]; }
        }
      } else {
        assert ResolvedNewestFirst(log, u) == rest;
      }
    }
  }

  /** The streak shown on the all-time leaderboard for user `u`. */
  function UserStreak(log: seq<Prediction>, u: UserId): (r: nat)
    ensures r <= StreakLookback && r <= |ResolvedNewestFirst(log, u)|
    ensures forall i :: 0 <= i < r ==> ResolvedNewestFirst(log, u)[i].isCorrect == Some(true)
  {
    CurrentStreak(ResolvedNewestFirst(log, u))
  }

  // ---------------------------------------------------------------------
  // Week start (local time, timestamps in milliseconds)

  /** Day of the week of a timestamp, 0 = Sunday; 1970-01-01 was a Thursday. */
  function DayOfWeek(t: int): (d: nat)
    ensures d < 7
  {
    (t / MsPerDay + 4) % 7
  }

  /** Midnight at the start of the day holding `t` (`setHours(0, 0, 0, 0)`). */
  function StartOfDay(t: int): (r: int)
    ensures r <= t < r + MsPerDay
    ensures r % MsPerDay == 0
  {
    (t / MsPerDay) * MsPerDay
  }

  /** Days back from `dayOfWeek` to the Monday that starts its week. */
  function DaysToSubtract(dayOfWeek: nat): (r: nat)
    requires dayOfWeek < 7
    ensures r <= 6
    ensures (dayOfWeek + 7 - r) % 7 == 1
  {
    if dayOfWeek == 0 then 6 else dayOfWeek - 1
  }

  /** The Monday 00:00:00.000 that starts the week holding `now`. */
  function WeekStart(now: int): int {
    StartOfDay(now) - DaysToSubtract(DayOfWeek(now)) * MsPerDay
  }

  lemma ShiftByDays(t: int, k: int)
    ensures (t - k * MsPerDay) / MsPerDay == t / MsPerDay - k
    ensures StartOfDay(t - k * MsPerDay) == StartOfDay(t) - k * MsPerDay
  {
    var q := t / MsPerDay;
    var rem := t % MsPerDay;
    assert t == q * MsPerDay + rem;
    assert t - k * MsPerDay == (q - k) * MsPerDay + rem;
  }

  /**
   * The week start is a Monday midnight, at most `now`, and less than seven
   * days before it: the unique such instant.
   */
  lemma {:induction false} WeekStartIsMondayMidnight(now: int)
    ensures WeekStart(now) <= now < WeekStart(now) + 7 * MsPerDay
    ensures WeekStart(now) % MsPerDay == 0
    ensures DayOfWeek(WeekStart(now)) == 1
  {
    var d := DaysToSubtract(DayOfWeek(now));
    var q := now / MsPerDay;
    assert StartOfDay(now) == q * MsPerDay;
    assert WeekStart(now) == (q - d) * MsPerDay;
    assert WeekStart(now) / MsPerDay == q - d;
    assert (q - d + 4) % 7 == (q + 4 + 7 - d) % 7;
    assert ((q + 4) % 7 + 7 - d) % 7 == 1;
  }

  /** `getWeekStartDate`: move back to Monday, then reset the time of day. */
  method GetWeekStartDate(now: int) returns (weekStart: int)
    ensures weekStart == WeekStart(now)
    ensures weekStart <= now < weekStart + 7 * MsPerDay
    ensures DayOfWeek(weekStart) == 1 && weekStart % MsPerDay == 0
  {
    var dayOfWeek := DayOfWeek(now);
    var daysToSubtract := if dayOfWeek == 0 then 6 else dayOfWeek - 1;
    weekStart := now - daysToSubtract * MsPerDay;
    weekStart := (weekStart / MsPerDay) * MsPerDay;
    ShiftByDays(now, daysToSubtract);
    WeekStartIsMondayMidnight(now);
  }

  /** The `createdAt` lower bound of a timeframe: none for all-time. */
  function WindowStart(timeframe: Timeframe, now: int): (r: Option<int>)
    ensures r.Some? <==> timeframe == Week
    ensures r.Some? ==> r.value == WeekStart(now)
  {
    if timeframe == Week then Some(WeekStart(now)) else None
  }

  /** The week window opens on the Monday at most `now` and less than 7 days before it. */
  lemma WindowStartIsThisWeeksMonday(timeframe: Timeframe, now: int)
    ensures var r := WindowStart(timeframe, now);
      r.Some? ==> r.value <= now < r.value + 7 * MsPerDay && DayOfWeek(r.value) == 1
  {
    if timeframe == Week {
      WeekStartIsMondayMidnight(now);
    }
  }

  /** Whether a prediction is aggregated: resolved and inside the window. */
  predicate Counted(p: Prediction, window: Option<int>) {
    p.isCorrect.Some? && (window.None? || p.createdAt >= window.value)
  }

  // ---------------------------------------------------------------------
  // Aggregation (the ORM's groupBy / count / sum)

  /** The aggregated predictions, in log order. */
  function Scoped(log: seq<Prediction>, window: Option<int>): (r: seq<Prediction>)
    ensures forall p :: p in r <==> p in log && Counted(p, window)
    ensures |r| <= |log|
  {
    if |log| == 0 then []
    else if Counted(log[0], window) then [log[0]] + Scoped(log[1..], window)
    else Scoped(log[1..], window)
  }

  /** `_sum.points` of user `u`'s aggregated predictions (0 when none). */
  function PointsSum(log: seq<Prediction>, window: Option<int>, u: UserId): (r: nat)
    ensures r > 0 ==> exists p :: p in log && Counted(p, window) && p.userId == u && p.points > 0
  {
    if |log| == 0 then 0
    else (if Counted(log[0], window) && log[0].userId == u then log[0].points else 0)
         + PointsSum(log[1..], window, u)
  }

  /** `_count.id` of user `u`'s aggregated predictions. */
  function ResolvedCount(log: seq<Prediction>, window: Option<int>, u: UserId): (r: nat)
    ensures r > 0 <==> exists p :: p in log && Counted(p, window) && p.userId == u
    ensures r <= |log|
  {
    if |log| == 0 then 0
    else
      var rest := ResolvedCount(log[1..], window, u);
      assert forall p :: p in log <==> p == log[0] || p in log[1..];
      (if Counted(log[0], window) && log[0].userId == u then 1 else 0) + rest
  }

  /** The count of user `u`'s predictions with `isCorrect = true` in the window. */
  function CorrectCount(log: seq<Prediction>, window: Option<int>, u: UserId): (r: nat)
    ensures r <= ResolvedCount(log, window, u)
  {
    if |log| == 0 then 0
    else
      (if log[0].isCorrect == Some(true) && Counted(log[0], window) && log[0].userId == u then 1 else 0)
      + CorrectCount(log[1..], window, u)
  }

  /** Whether `s` has no repeated element. */
  predicate Distinct<T(==)>(s: seq<T>) {
    forall i, j :: 0 <= i < j < |s| ==> s[i] != s[j]
  }

  /** The user ids of `s` in order of first appearance, each once. */
  function DistinctUserIds(s: seq<Prediction>): (r: seq<UserId>)
    ensures Distinct(r)
    ensures forall p :: p in s ==> p.userId in r
    ensures forall u :: u in r ==> exists p :: p in s && p.userId == u
  {
    if |s| == 0 then []
    else
      var init := DistinctUserIds(s[..|s| - 1]);
      var last := s[|s| - 1];
      assert forall p :: p in s <==> p in s[..|s| - 1] || p == last;
      if last.userId in init then init else init + [last.userId]
  }

  /** The groups of the ORM's groupBy: users with an aggregated prediction. */
  function GroupedUserIds(log: seq<Prediction>, window: Option<int>): (r: seq<UserId>)
    ensures Distinct(r)
    ensures forall u :: u in r <==> ResolvedCount(log, window, u) > 0
  {
    DistinctUserIds(Scoped(log, window))
  }

  // ---------------------------------------------------------------------
  // Entries

  /**
   * Accuracy in tenths of a percent, rounded half up:
   * `Math.round(correct / total * 100 * 10) / 10`, and 0 when `total` is 0.
   */
  function AccuracyTenths(correct: nat, total: nat): (r: nat)
    requires correct <= total
    ensures total == 0 ==> r == 0
    ensures r <= 1000
    // r - 1/2 <= 1000 * correct / total < r + 1/2, multiplied through by 2 * total
    ensures total > 0 ==> (2 * r - 1) * total <= 2000 * correct < (2 * r + 1) * total
  {
    if total == 0 then 0
    else
      var r := (2000 * correct + total) / (2 * total);
      RoundedTenths(correct, total, r);
      r
  }

  lemma RoundedTenths(correct: nat, total: nat, r: int)
    requires 0 < total && correct <= total
    requires r == (2000 * correct + total) / (2 * total)
    ensures 0 <= r <= 1000
    ensures (2 * r - 1) * total <= 2000 * correct < (2 * r + 1) * total
  {
    var n := 2000 * correct + total;
    var d := 2 * total;
    assert d * r <= n < d * r + d;
    assert (2 * r - 1) * total == d * r - total;
    assert (2 * r + 1) * total == d * r + total;
    if r > 1000 {
      MulMono(1001, r, d);
    }
  }

  /** `user?.name || 'Anonymous'`: a missing or empty name falls back. */
  function DisplayName(users: seq<User>, u: UserId): (r: string)
    ensures r != ""
  {
    match FindUserById(users, u)
    case Some(user) => if user.name.Some? && user.name.value != "" then user.name.value else AnonymousName
    case None => AnonymousName
  }

  /** `user?.picture || null`: a missing or empty picture is null. */
  function DisplayPicture(users: seq<User>, u: UserId): (r: Option<string>)
    ensures r.Some? ==> r.value != ""
  {
    match FindUserById(users, u)
    case Some(user) => if user.picture.Some? && user.picture.value != "" then user.picture else None
    case None => None
  }

  /**
   * The name shown is the stored one when the user exists and has a
   * non-empty name, and `Anonymous` in every other case.
   */
  lemma DisplayNameIsStoredOrAnonymous(users: seq<User>, u: UserId)
    ensures var f := FindUserById(users, u);
      f.Some? && f.value.name.Some? && f.value.name.value != "" ==> DisplayName(users, u) == f.value.name.value
    ensures var f := FindUserById(users, u);
      !(f.Some? && f.value.name.Some? && f.value.name.value != "") ==> DisplayName(users, u) == AnonymousName
  {
  }

  /**
   * The picture shown is the stored one when the user exists and has a
   * non-empty picture, and null in every other case.
   */
  lemma DisplayPictureIsStoredOrNull(users: seq<User>, u: UserId)
    ensures var f := FindUserById(users, u);
      f.Some? && f.value.picture.Some? && f.value.picture.value != "" ==> DisplayPicture(users, u) == f.value.picture
    ensures var f := FindUserById(users, u);
      !(f.Some? && f.value.picture.Some? && f.value.picture.value != "") ==> DisplayPicture(users, u).None?
  {
  }

  /** The unranked entry of one grouped user. */
  function BuildEntry(log: seq<Prediction>, users: seq<User>, timeframe: Timeframe, window: Option<int>, u: UserId): LeaderboardEntry {
    var totalPredictions := ResolvedCount(log, window, u);
    var correctPredictions := CorrectCount(log, window, u);
    LeaderboardEntry(
      u,
      DisplayName(users, u),
      DisplayPicture(users, u),
      PointsSum(log, window, u),
      totalPredictions,
      correctPredictions,
      AccuracyTenths(correctPredictions, totalPredictions),
      0,
      if timeframe == AllTime then UserStreak(log, u) else 0)
  }

  function Entries(log: seq<Prediction>, users: seq<User>, timeframe: Timeframe, now: int): seq<LeaderboardEntry> {
    var window := WindowStart(timeframe, now);
    var ids := GroupedUserIds(log, window);
    seq(|ids|, i requires 0 <= i < |ids| => BuildEntry(log, users, timeframe, window, ids[i]))
  }

  /** What an entry of user `u` must hold, field by field. */
  ghost predicate EntryOf(log: seq<Prediction>, users: seq<User>, timeframe: Timeframe, now: int, e: LeaderboardEntry) {
    var window := WindowStart(timeframe, now);
    && e.totalPredictions == ResolvedCount(log, window, e.userId) > 0
    && e.correctPredictions == CorrectCount(log, window, e.userId) <= e.totalPredictions
    && e.totalPoints == PointsSum(log, window, e.userId)
    && e.accuracy == AccuracyTenths(e.correctPredictions, e.totalPredictions) <= 1000
    && e.userName == DisplayName(users, e.userId)
    && e.userPicture == DisplayPicture(users, e.userId)
    && e.streak == (if timeframe == AllTime then UserStreak(log, e.userId) else 0)
  }

  // ---------------------------------------------------------------------
  // Sort, rank, page

  /**
   * The comparator's order: `a` may come before `b`. Points descending,
   * then rounded accuracy descending, then total predictions descending.
   */
  predicate RanksAtLeast(a: LeaderboardEntry, b: LeaderboardEntry) {
    a.totalPoints > b.totalPoints
    || (a.totalPoints == b.totalPoints && a.accuracy > b.accuracy)
    || (a.totalPoints == b.totalPoints && a.accuracy == b.accuracy && a.totalPredictions >= b.totalPredictions)
  }

  /**
   * The `sort` callback as written: the difference of the first key that
   * differs, taken as `b - a` so that a negative value puts `a` first.
   */
  function Comparator(a: LeaderboardEntry, b: LeaderboardEntry): int {
    if b.totalPoints != a.totalPoints then b.totalPoints - a.totalPoints
    else if b.accuracy != a.accuracy then b.accuracy - a.accuracy
    else b.totalPredictions - a.totalPredictions
  }

  /**
   * `RanksAtLeast` is the order the callback defines: `a` may precede `b`
   * exactly when the callback does not ask to swap them; it is total and
   * transitive, and two entries tie exactly when all three keys agree.
   */
  lemma RanksAtLeastIsComparatorOrder(a: LeaderboardEntry, b: LeaderboardEntry, c: LeaderboardEntry)
    ensures RanksAtLeast(a, b) <==> Comparator(a, b) <= 0
    ensures Comparator(a, b) == -Comparator(b, a)
    ensures RanksAtLeast(a, b) || RanksAtLeast(b, a)
    ensures RanksAtLeast(a, b) && RanksAtLeast(b, c) ==> RanksAtLeast(a, c)
    ensures Comparator(a, b) == 0 <==>
      a.totalPoints == b.totalPoints && a.accuracy == b.accuracy && a.totalPredictions == b.totalPredictions
  {
  }

  predicate SortedByRank(s: seq<LeaderboardEntry>) {
    forall i, j :: 0 <= i < j < |s| ==> RanksAtLeast(s[i], s[j])
  }

  /** Inserts `x` before the first element it ties with or beats (stable). */
  function Insert(x: LeaderboardEntry, s: seq<LeaderboardEntry>): (r: seq<LeaderboardEntry>)
    requires SortedByRank(s)
    ensures SortedByRank(r)
    ensures multiset(r) == multiset(s) + multiset{x}
  {
    if |s| == 0 then [x]
    else if RanksAtLeast(x, s[0]) then [x] + s
    else
      var rest := Insert(x, s[1..]);
      InsertBehindHead(x, s, rest);
      [s[0]] + rest
  }

  /** The recursive case of `Insert`: `s[0]` beats `x`, so it stays in front. */
  lemma InsertBehindHead(x: LeaderboardEntry, s: seq<LeaderboardEntry>, rest: seq<LeaderboardEntry>)
    requires SortedByRank(s) && |s| > 0 && !RanksAtLeast(x, s[0])
    requires SortedByRank(rest) && multiset(rest) == multiset(s[1..]) + multiset{x}
    ensures SortedByRank([s[0]] + rest)
    ensures multiset([s[0]] + rest) == multiset(s) + multiset{x}
  {
    assert s == [s[0]] + s[1..];
    forall e | e in rest ensures RanksAtLeast(s[0], e) {
      assert e in multiset(rest);
      if e != x {
        assert e in multiset(s[1..]);
        var k :| 0 <= k < |s[1..]| && s[1..][k] == e;
        assert s[k + 1] == e;
      }
    }
    var r := [s[0]] + rest;
    forall i, j | 0 <= i < j < |r| ensures RanksAtLeast(r[i], r[j]) {
      assert r[j] == rest[j - 1];
      if i > 0 { assert r[i] == rest[i - 1]; } else { assert rest[j - 1] in rest; }
    }
  }

  /** The stable sort of `leaderboardData.sort(...)`. */
  function SortEntries(s: seq<LeaderboardEntry>): (r: seq<LeaderboardEntry>)
    ensures SortedByRank(r)
    ensures multiset(r) == multiset(s)
  {
    if |s| == 0 then []
    else
      assert s == [s[0]] + s[1..];
      Insert(s[0], SortEntries(s[1..]))
  }

  /** `.map((entry, index) => ({...entry, rank: index + 1}))`. */
  function AssignRanks(s: seq<LeaderboardEntry>): (r: seq<LeaderboardEntry>)
    ensures |r| == |s|
    ensures forall i :: 0 <= i < |s| ==> r[i].rank == i + 1
  {
    seq(|s|, i requires 0 <= i < |s| => s[i].(rank := i + 1))
  }

  /** The fully sorted and ranked leaderboard, before pagination. */
  function RankedLeaderboard(log: seq<Prediction>, users: seq<User>, timeframe: Timeframe, now: int): seq<LeaderboardEntry> {
    AssignRanks(SortEntries(Entries(log, users, timeframe, now)))
  }

  /** A `slice` index: negative counts from the end, then clamped to [0, len]. */
  function SliceIndex(i: int, len: nat): (r: nat)
    ensures r <= len
    ensures 0 <= i ==> r == if i <= len then i else len
  {
    if i < 0 then (if len + i < 0 then 0 else len + i)
    else if i > len then len
    else i
  }

  /** JavaScript's `s.slice(start, end)`. */
  function Slice<T>(s: seq<T>, start: int, end: int): (r: seq<T>)
    ensures start <= end ==> |r| <= end - start
    ensures 0 <= start <= end ==> r == s[SliceIndex(start, |s|)..SliceIndex(end, |s|)]
  {
    var a := SliceIndex(start, |s|);
    var b := SliceIndex(end, |s|);
    if a < b then s[a..b] else []
  }

  /** `calculateLeaderboard`. */
  function CalculateLeaderboard(log: seq<Prediction>, users: seq<User>, now: int, options: LeaderboardOptions): (r: seq<LeaderboardEntry>)
    ensures options.limit.GetOr(DefaultLimit) >= 0 ==> |r| <= options.limit.GetOr(DefaultLimit)
  {
    var timeframe := options.timeframe.GetOr(AllTime);
    var limit := options.limit.GetOr(DefaultLimit);
    var offset := options.offset.GetOr(DefaultOffset);
    Slice(RankedLeaderboard(log, users, timeframe, now), offset, offset + limit)
  }

  // ---------------------------------------------------------------------
  // Single-user rank

  /** How many of `ids` have an aggregated points sum strictly above `points`. */
  function CountAhead(ids: seq<UserId>, log: seq<Prediction>, window: Option<int>, points: nat): (r: nat)
    ensures r <= |ids|
  {
    if |ids| == 0 then 0
    else (if PointsSum(log, window, ids[0]) > points then 1 else 0) + CountAhead(ids[1..], log, window, points)
  }

  /** `getUserRank`: 1 + users strictly ahead on points; ignores the tie-breaks. */
  function GetUserRank(log: seq<Prediction>, u: UserId, timeframe: Timeframe, now: int): (r: UserRank)
    ensures r.rank >= 1
  {
    var window := WindowStart(timeframe, now);
    var userTotalPoints := PointsSum(log, window, u);
    var groups := GroupedUserIds(log, window);
    UserRank(CountAhead(groups, log, window, userTotalPoints) + 1, |groups|)
  }
}
