// What the leaderboard pipeline guarantees: the ranked list is a sorted
// permutation of one entry per user with an aggregated prediction, ranks
// run 1..N, a page is a window of it carrying global ranks, the pages
// together give back the whole list, and the single-user rank lookup is
// never behind the user's position on the full leaderboard.

module LeaderboardProperties {
  import opened Domain
  import opened Leaderboard

  function Min(a: int, b: int): int {
    if a <= b then a else b
  }

  /** The entries with their ranks reset, for comparing with the unranked ones. */
  function Unrank(s: seq<LeaderboardEntry>): (r: seq<LeaderboardEntry>)
    ensures |r| == |s|
  {
    seq(|s|, i requires 0 <= i < |s| => s[i].(rank := 0))
  }

  // ---------------------------------------------------------------------
  // Multiplicity helpers

  lemma {:induction false} DistinctMultiplicity<T>(a: seq<T>, e: T)
    requires Distinct(a)
    ensures multiset(a)[e] <= 1
  {
    if |a| > 0 {
      assert a == [a[0]] + a[1..];
      assert Distinct(a[1..]) by {
        forall i, j | 0 <= i < j < |a[1..]| ensures a[1..][i] != a[1..][j] {
          assert a[1..][i] == a[i + 1] && a[1..][j] == a[j + 1];
        }
      }
      DistinctMultiplicity(a[1..], e);
      if e == a[0] {
        assert forall k :: 0 <= k < |a[1..]| ==> a[1..][k] == a[k + 1];
        assert a[0] !in a[1..];
        assert multiset(a[1..])[e] == 0;
      }
    }
  }

  lemma RepeatMultiplicity<T>(b: seq<T>, i: int, j: int)
    requires 0 <= i < j < |b| && b[i] == b[j]
    ensures multiset(b)[b[i]] >= 2
  {
    assert b == b[..j] + [b[j]] + b[j + 1..];
    assert b[..j][i] == b[i];
    assert b[i] in multiset(b[..j]);
  }

  /** A permutation of a sequence without repeats has no repeats either. */
  lemma PermutationKeepsDistinct<T>(a: seq<T>, b: seq<T>)
    requires multiset(a) == multiset(b) && Distinct(a)
    ensures Distinct(b)
  {
    forall i, j | 0 <= i < j < |b| ensures b[i] != b[j] {
      if b[i] == b[j] {
        RepeatMultiplicity(b, i, j);
        DistinctMultiplicity(a, b[i]);
      }
    }
  }

  // ---------------------------------------------------------------------
  // The ranked list

  /** Entries that differ in user id. */
  predicate UserIdsDistinct(s: seq<LeaderboardEntry>) {
    forall i, j :: 0 <= i < j < |s| ==> s[i].userId != s[j].userId
  }

  lemma PermutationKeepsUserIdsDistinct(a: seq<LeaderboardEntry>, b: seq<LeaderboardEntry>)
    requires multiset(a) == multiset(b) && UserIdsDistinct(a)
    ensures UserIdsDistinct(b)
  {
    assert Distinct(a);
    PermutationKeepsDistinct(a, b);
    forall i, j | 0 <= i < j < |b| ensures b[i].userId != b[j].userId {
      assert b[i] in multiset(a) && b[j] in multiset(a);
      var ki :| 0 <= ki < |a| && a[ki] == b[i];
      var kj :| 0 <= kj < |a| && a[kj] == b[j];
    }
  }

  /** Sorting and ranking unranked entries, stated for any such entries. */
  lemma {:induction false} SortAndRankFacts(es: seq<LeaderboardEntry>)
    requires forall k :: 0 <= k < |es| ==> es[k].rank == 0
    ensures var full := AssignRanks(SortEntries(es));
      && SortedByRank(full)
      && (forall i :: 0 <= i < |full| ==> full[i].rank == i + 1)
      && |full| == |es|
      && multiset(Unrank(full)) == multiset(es)
      && (forall i :: 0 <= i < |full| ==> Unrank(full)[i] in es)
  {
    var sorted := SortEntries(es);
    var full := AssignRanks(sorted);
    forall i | 0 <= i < |sorted| ensures sorted[i].rank == 0 && sorted[i] in es {
      assert sorted[i] in multiset(sorted);
    }
    assert Unrank(full) == sorted;
    assert |sorted| == |es| by {
      assert |multiset(sorted)| == |multiset(es)|;
    }
    forall i, j | 0 <= i < j < |full| ensures RanksAtLeast(full[i], full[j]) {
      assert full[i] == sorted[i].(rank := i + 1) && full[j] == sorted[j].(rank := j + 1);
    }
  }

  lemma EntriesShape(log: seq<Prediction>, users: seq<User>, timeframe: Timeframe, now: int)
    ensures var ids := GroupedUserIds(log, WindowStart(timeframe, now));
      var es := Entries(log, users, timeframe, now);
      && |es| == |ids|
      && (forall k :: 0 <= k < |es| ==> es[k].userId == ids[k] && es[k].rank == 0)
      && UserIdsDistinct(es)
  {
  }

  lemma EntriesAreUnranked(log: seq<Prediction>, users: seq<User>, timeframe: Timeframe, now: int)
    ensures var es := Entries(log, users, timeframe, now);
      forall k :: 0 <= k < |es| ==> es[k].rank == 0
  {
  }

  lemma EntriesDescribeUsers(log: seq<Prediction>, users: seq<User>, timeframe: Timeframe, now: int)
    ensures forall e :: e in Entries(log, users, timeframe, now) ==> EntryOf(log, users, timeframe, now, e)
  {
    var ids := GroupedUserIds(log, WindowStart(timeframe, now));
    var es := Entries(log, users, timeframe, now);
    forall e | e in es ensures EntryOf(log, users, timeframe, now, e) {
      var k :| 0 <= k < |es| && es[k] == e;
      assert ids[k] in ids;
    }
  }

  /**
   * The ranked leaderboard is sorted by points, then rounded accuracy, then
   * total predictions, all descending; its ranks are exactly 1..N; and with
   * ranks reset it is a permutation of the per-user entries.
   */
  lemma {:induction false} RankedLeaderboardIsSortedPermutation(log: seq<Prediction>, users: seq<User>, timeframe: Timeframe, now: int)
    ensures var full := RankedLeaderboard(log, users, timeframe, now);
      && SortedByRank(full)
      && (forall i :: 0 <= i < |full| ==> full[i].rank == i + 1)
      && |full| == |GroupedUserIds(log, WindowStart(timeframe, now))|
      && multiset(Unrank(full)) == multiset(Entries(log, users, timeframe, now))
  {
    EntriesShape(log, users, timeframe, now);
    SortAndRankFacts(Entries(log, users, timeframe, now));
  }

  /** Every ranked entry carries its user's aggregates, name, picture and streak. */
  lemma {:induction false} RankedEntriesDescribeTheirUsers(log: seq<Prediction>, users: seq<User>, timeframe: Timeframe, now: int)
    ensures var full := RankedLeaderboard(log, users, timeframe, now);
      forall i :: 0 <= i < |full| ==> EntryOf(log, users, timeframe, now, full[i])
  {
    var es := Entries(log, users, timeframe, now);
    var full := RankedLeaderboard(log, users, timeframe, now);
    EntriesAreUnranked(log, users, timeframe, now);
    EntriesDescribeUsers(log, users, timeframe, now);
    SortAndRankFacts(es);
    forall i | 0 <= i < |full| ensures EntryOf(log, users, timeframe, now, full[i]) {
      assert Unrank(full)[i] in es;
      assert Unrank(full)[i] == full[i].(rank := 0);
      EntryOfIgnoresRank(log, users, timeframe, now, full[i]);
    }
  }

  /** What an entry must hold does not mention its rank. */
  lemma EntryOfIgnoresRank(log: seq<Prediction>, users: seq<User>, timeframe: Timeframe, now: int, e: LeaderboardEntry)
    ensures EntryOf(log, users, timeframe, now, e) <==> EntryOf(log, users, timeframe, now, e.(rank := 0))
  {
  }

  /** No user appears twice on the ranked leaderboard. */
  lemma {:induction false} RankedLeaderboardUsersAreDistinct(log: seq<Prediction>, users: seq<User>, timeframe: Timeframe, now: int)
    ensures UserIdsDistinct(RankedLeaderboard(log, users, timeframe, now))
  {
    EntriesShape(log, users, timeframe, now);
    SortAndRankKeepsDistinct(Entries(log, users, timeframe, now));
  }

  /** Sorting and ranking entries of distinct users keeps them distinct. */
  lemma {:induction false} SortAndRankKeepsDistinct(es: seq<LeaderboardEntry>)
    requires forall k :: 0 <= k < |es| ==> es[k].rank == 0
    requires UserIdsDistinct(es)
    ensures UserIdsDistinct(AssignRanks(SortEntries(es)))
  {
    var full := AssignRanks(SortEntries(es));
    SortAndRankFacts(es);
    PermutationKeepsUserIdsDistinct(es, Unrank(full));
    assert forall i :: 0 <= i < |full| ==> full[i].userId == Unrank(full)[i].userId;
  }

  /** The user ids shown on a leaderboard. */
  function UserIdsOf(s: seq<LeaderboardEntry>): set<UserId> {
    set i | 0 <= i < |s| :: s[i].userId
  }

  lemma PermutationKeepsUserIds(a: seq<LeaderboardEntry>, b: seq<LeaderboardEntry>)
    requires multiset(a) == multiset(b)
    ensures UserIdsOf(a) == UserIdsOf(b)
  {
    forall u | u in UserIdsOf(a) ensures u in UserIdsOf(b) {
      var i :| 0 <= i < |a| && a[i].userId == u;
      assert a[i] in multiset(b);
      var j :| 0 <= j < |b| && b[j] == a[i];
    }
    forall u | u in UserIdsOf(b) ensures u in UserIdsOf(a) {
      var j :| 0 <= j < |b| && b[j].userId == u;
      assert b[j] in multiset(a);
      var i :| 0 <= i < |a| && a[i] == b[j];
    }
  }

  lemma UnrankKeepsUserIds(s: seq<LeaderboardEntry>)
    ensures UserIdsOf(Unrank(s)) == UserIdsOf(s)
  {
    assert forall i :: 0 <= i < |s| ==> s[i].userId == Unrank(s)[i].userId;
  }

  lemma UserIdsOfKeyed(es: seq<LeaderboardEntry>, ids: seq<UserId>)
    requires |es| == |ids|
    requires forall k :: 0 <= k < |es| ==> es[k].userId == ids[k]
    ensures forall u :: u in UserIdsOf(es) <==> u in ids
  {
    forall u | u in ids ensures u in UserIdsOf(es) {
      var k :| 0 <= k < |ids| && ids[k] == u;
      assert es[k].userId == u;
    }
  }

  /** Sorting and ranking entries keyed by `ids` shows exactly the users of `ids`. */
  lemma {:induction false} SortAndRankKeepsUsers(es: seq<LeaderboardEntry>, ids: seq<UserId>)
    requires |es| == |ids|
    requires forall k :: 0 <= k < |es| ==> es[k].userId == ids[k] && es[k].rank == 0
    ensures forall u :: u in UserIdsOf(AssignRanks(SortEntries(es))) <==> u in ids
  {
    var full := AssignRanks(SortEntries(es));
    SortAndRankFacts(es);
    PermutationKeepsUserIds(es, Unrank(full));
    UnrankKeepsUserIds(full);
    UserIdsOfKeyed(es, ids);
  }

  /** Exactly the users with an aggregated prediction are on the leaderboard. */
  lemma {:induction false} RankedLeaderboardListsExactlyTheGroupedUsers(log: seq<Prediction>, users: seq<User>, timeframe: Timeframe, now: int)
    ensures forall u ::
      u in UserIdsOf(RankedLeaderboard(log, users, timeframe, now)) <==> ResolvedCount(log, WindowStart(timeframe, now), u) > 0
  {
    EntriesShape(log, users, timeframe, now);
    SortAndRankKeepsUsers(Entries(log, users, timeframe, now), GroupedUserIds(log, WindowStart(timeframe, now)));
  }

  // ---------------------------------------------------------------------
  // Pages

  /** A page of a sorted list ranked 1..N, for any such list. */
  lemma PageOfRankedList(full: seq<LeaderboardEntry>, offset: int, limit: int)
    requires SortedByRank(full) && forall i :: 0 <= i < |full| ==> full[i].rank == i + 1
    requires offset >= 0 && limit >= 1
    ensures var page := Slice(full, offset, offset + limit);
      && page == full[Min(offset, |full|)..Min(offset + limit, |full|)]
      && |page| <= limit
      && SortedByRank(page)
      && (forall k :: 0 <= k < |page| ==> page[k].rank == offset + k + 1)
  {
    var page := Slice(full, offset, offset + limit);
    var a := Min(offset, |full|);
    assert page == full[a..Min(offset + limit, |full|)];
    forall k | 0 <= k < |page| ensures page[k].rank == offset + k + 1 {
      assert page[k] == full[a + k];
    }
    forall i, j | 0 <= i < j < |page| ensures RanksAtLeast(page[i], page[j]) {
      assert page[i] == full[a + i] && page[j] == full[a + j];
    }
  }

  /**
   * For a valid `limit` and a non-negative `offset`, `calculateLeaderboard`
   * returns the window [offset, offset + limit) of the ranked list, at most
   * `limit` entries, still sorted, with their global ranks.
   */
  lemma {:induction false} CalculateLeaderboardIsAPage(log: seq<Prediction>, users: seq<User>, now: int, options: LeaderboardOptions)
    requires options.offset.GetOr(DefaultOffset) >= 0
    requires options.limit.GetOr(DefaultLimit) >= 1
    ensures var full := RankedLeaderboard(log, users, options.timeframe.GetOr(AllTime), now);
      var limit := options.limit.GetOr(DefaultLimit);
      var offset := options.offset.GetOr(DefaultOffset);
      var page := CalculateLeaderboard(log, users, now, options);
      && page == full[Min(offset, |full|)..Min(offset + limit, |full|)]
      && |page| <= limit
      && SortedByRank(page)
      && (forall k :: 0 <= k < |page| ==> page[k].rank == offset + k + 1)
  {
    var timeframe := options.timeframe.GetOr(AllTime);
    RankedLeaderboardIsSortedPermutation(log, users, timeframe, now);
    PageOfRankedList(RankedLeaderboard(log, users, timeframe, now),
      options.offset.GetOr(DefaultOffset), options.limit.GetOr(DefaultLimit));
  }

  /** The first `n` pages of size `limit`, concatenated. */
  function Pages<T>(s: seq<T>, limit: nat, n: nat): seq<T> {
    if n == 0 then [] else Pages(s, limit, n - 1) + Slice(s, (n - 1) * limit, n * limit)
  }

  /**
   * Paging through the list with a fixed limit and offsets 0, limit,
   * 2 * limit, ... gives back a prefix of it with nothing repeated or
   * missing, and the whole list once the pages reach its end.
   */
  lemma {:induction false} PagesRebuildTheList<T>(s: seq<T>, limit: nat, n: nat)
    requires limit >= 1
    ensures Pages(s, limit, n) == s[..Min(n * limit, |s|)]
    ensures n * limit >= |s| ==> Pages(s, limit, n) == s
  {
    PagesArePrefixes(s, limit, n);
    if n * limit >= |s| {
      assert s[..|s|] == s;
    }
  }

  /** The first `n` pages are the prefix of length `n * limit`, clamped. */
  lemma {:induction false} PagesArePrefixes<T>(s: seq<T>, limit: nat, n: nat)
    requires limit >= 1
    ensures Pages(s, limit, n) == s[..Min(n * limit, |s|)]
  {
    if n > 0 {
      PagesArePrefixes(s, limit, n - 1);
      NextMultiple(n, limit);
      PrefixThenSlice(s, (n - 1) * limit, n * limit);
    }
  }

  lemma NextMultiple(n: nat, limit: nat)
    requires n > 0
    ensures (n - 1) * limit <= n * limit
    ensures n * limit == (n - 1) * limit + limit
  {
  }

  /** The prefix up to `lo` followed by the slice [lo, hi) is the prefix up to `hi`. */
  lemma PrefixThenSlice<T>(s: seq<T>, lo: nat, hi: nat)
    requires lo <= hi
    ensures s[..Min(lo, |s|)] + Slice(s, lo, hi) == s[..Min(hi, |s|)]
  {
    assert Slice(s, lo, hi) == s[Min(lo, |s|)..Min(hi, |s|)];
  }

  // ---------------------------------------------------------------------
  // Single-user rank

  /** The users of `ids` with more than `points` aggregated points. */
  function AheadSet(ids: seq<UserId>, log: seq<Prediction>, window: Option<int>, points: nat): set<UserId> {
    set v | v in ids && PointsSum(log, window, v) > points
  }

  /** Splitting the first user off `AheadSet`. */
  lemma AheadSetCons(ids: seq<UserId>, log: seq<Prediction>, window: Option<int>, points: nat)
    requires |ids| > 0 && ids[0] !in ids[1..]
    ensures ids[0] !in AheadSet(ids[1..], log, window, points)
    ensures AheadSet(ids, log, window, points) ==
      if PointsSum(log, window, ids[0]) > points
      then AheadSet(ids[1..], log, window, points) + {ids[0]}
      else AheadSet(ids[1..], log, window, points)
  {
    assert forall v :: v in ids <==> v == ids[0] || v in ids[1..];
  }

  lemma {:induction false} CountAheadIsCardinality(ids: seq<UserId>, log: seq<Prediction>, window: Option<int>, points: nat)
    requires Distinct(ids)
    ensures CountAhead(ids, log, window, points) == |AheadSet(ids, log, window, points)|
  {
    if |ids| > 0 {
      var tail := ids[1..];
      assert Distinct(tail) by {
        forall i, j | 0 <= i < j < |tail| ensures tail[i] != tail[j] {
          assert tail[i] == ids[i + 1] && tail[j] == ids[j + 1];
        }
      }
      CountAheadIsCardinality(tail, log, window, points);
      AheadSetCons(ids, log, window, points);
    }
  }

  /**
   * `getUserRank` in full: one more than the number of distinct users of
   * the window with strictly more points, out of every grouped user.
   */
  lemma {:induction false} GetUserRankIsCount(log: seq<Prediction>, u: UserId, timeframe: Timeframe, now: int)
    ensures var window := WindowStart(timeframe, now);
      var ids := GroupedUserIds(log, window);
      var r := GetUserRank(log, u, timeframe, now);
      && r.rank == 1 + |AheadSet(ids, log, window, PointsSum(log, window, u))|
      && r.totalUsers == |ids|
      && (forall v :: v in AheadSet(ids, log, window, PointsSum(log, window, u)) <==>
            ResolvedCount(log, window, v) > 0 && PointsSum(log, window, v) > PointsSum(log, window, u))
  {
    var window := WindowStart(timeframe, now);
    CountAheadIsCardinality(GroupedUserIds(log, window), log, window, PointsSum(log, window, u));
  }

  lemma {:induction false} SubsetCardinality<T>(a: set<T>, b: set<T>)
    requires a <= b
    ensures |a| <= |b|
  {
    if a != {} {
      var x :| x in a;
      SubsetCardinality(a - {x}, b - {x});
    }
  }

  lemma {:induction false} ImageOfPrefixIsSmall(s: seq<LeaderboardEntry>, i: nat)
    requires i <= |s|
    ensures |set j | 0 <= j < i :: s[j].userId| <= i
  {
    if i > 0 {
      ImageOfPrefixIsSmall(s, i - 1);
      var before := set j | 0 <= j < i - 1 :: s[j].userId;
      assert (set j | 0 <= j < i :: s[j].userId) == before + {s[i - 1].userId};
    }
  }

  /**
   * In a list sorted by points, the users owning an entry with more points
   * than entry `i` are at most `i` many: they all come before it.
   */
  lemma AheadFitsBefore(full: seq<LeaderboardEntry>, i: nat, ahead: set<UserId>)
    requires i < |full| && SortedByRank(full)
    requires forall v :: v in ahead ==>
      exists j :: 0 <= j < |full| && full[j].userId == v && full[j].totalPoints > full[i].totalPoints
    ensures |ahead| <= i
  {
    var before := set j | 0 <= j < i :: full[j].userId;
    forall v | v in ahead ensures v in before {
      var j :| 0 <= j < |full| && full[j].userId == v && full[j].totalPoints > full[i].totalPoints;
      assert j < i;
    }
    SubsetCardinality(ahead, before);
    ImageOfPrefixIsSmall(full, i);
  }

  /** The rank lookup's count, bounded for any sorted list of the same users. */
  lemma {:induction false} CountAheadFitsBefore(full: seq<LeaderboardEntry>, ids: seq<UserId>, log: seq<Prediction>, window: Option<int>, i: nat)
    requires i < |full| && SortedByRank(full) && Distinct(ids)
    requires forall j :: 0 <= j < |full| ==> full[j].totalPoints == PointsSum(log, window, full[j].userId)
    requires forall u :: u in UserIdsOf(full) <==> u in ids
    ensures CountAhead(ids, log, window, full[i].totalPoints) <= i
  {
    var pu := full[i].totalPoints;
    CountAheadIsCardinality(ids, log, window, pu);
    var ahead := AheadSet(ids, log, window, pu);
    forall v | v in ahead
      ensures exists j :: 0 <= j < |full| && full[j].userId == v && full[j].totalPoints > pu
    {
      assert v in UserIdsOf(full);
      var j :| 0 <= j < |full| && full[j].userId == v;
      assert full[j].totalPoints == PointsSum(log, window, v);
    }
    AheadFitsBefore(full, i, ahead);
  }

  /** Every ranked entry's points are its user's aggregated points. */
  lemma {:induction false} RankedPointsAreUserTotals(log: seq<Prediction>, users: seq<User>, timeframe: Timeframe, now: int)
    ensures var full := RankedLeaderboard(log, users, timeframe, now);
      forall j :: 0 <= j < |full| ==> full[j].totalPoints == PointsSum(log, WindowStart(timeframe, now), full[j].userId)
  {
    var full := RankedLeaderboard(log, users, timeframe, now);
    RankedEntriesDescribeTheirUsers(log, users, timeframe, now);
    forall j | 0 <= j < |full|
      ensures full[j].totalPoints == PointsSum(log, WindowStart(timeframe, now), full[j].userId)
    {
      assert EntryOf(log, users, timeframe, now, full[j]);
    }
  }

  /**
   * `getUserRank` counts only users strictly ahead on points, so it never
   * puts a user below their position on the full leaderboard, where the
   * accuracy and volume tie-breaks can push them further down; and its
   * `totalUsers` is the length of that leaderboard.
   */
  lemma {:induction false} UserRankNeverBehindLeaderboardRank(log: seq<Prediction>, users: seq<User>, timeframe: Timeframe, now: int, i: nat)
    requires i < |RankedLeaderboard(log, users, timeframe, now)|
    ensures var full := RankedLeaderboard(log, users, timeframe, now);
      var r := GetUserRank(log, full[i].userId, timeframe, now);
      && r.rank <= full[i].rank
      && r.totalUsers == |full|
      && r.rank <= r.totalUsers
  {
    var window := WindowStart(timeframe, now);
    var ids := GroupedUserIds(log, window);
    var full := RankedLeaderboard(log, users, timeframe, now);
    RankedLeaderboardIsSortedPermutation(log, users, timeframe, now);
    RankedPointsAreUserTotals(log, users, timeframe, now);
    RankedLeaderboardListsExactlyTheGroupedUsers(log, users, timeframe, now);
    CountAheadFitsBefore(full, ids, log, window, i);
  }
}
