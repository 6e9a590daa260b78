// The badge system: a fixed catalog of thirteen achievements in four
// categories, the rule deciding which ones a user's statistics earn, and
// the "next badge" lookup with its progress percentage.

module Achievements {
  import opened Domain
  import opened Arithmetic

  datatype Category = PredictionsCategory | AccuracyCategory | StreakCategory | PointsCategory

  /** A badge threshold; every catalog requirement is at least 1. */
  type Threshold = n: int | n >= 1 witness 1

  datatype Achievement = Achievement(
    id: string,
    name: string,
    description: string,
    icon: string,
    requirement: Threshold,
    category: Category)

  /** Prediction milestones. */
  const PredictionBadges: seq<Achievement> := [
    Achievement("first_prediction", "Getting Started", "Make your first prediction", "\U{1F3AF}", 1, PredictionsCategory),
    Achievement("prediction_10", "Regular", "Make 10 predictions", "\U{1F4CA}", 10, PredictionsCategory),
    Achievement("prediction_50", "Dedicated Fan", "Make 50 predictions", "\U{1F3C6}", 50, PredictionsCategory),
    Achievement("prediction_100", "Century Maker", "Make 100 predictions", "\U{1F4AF}", 100, PredictionsCategory)
  ]

  /** Accuracy achievements. */
  const AccuracyBadges: seq<Achievement> := [
    Achievement("accuracy_50", "On Target", "Achieve 50% accuracy (min 10 predictions)", "\U{1F3AA}", 50, AccuracyCategory),
    Achievement("accuracy_70", "Sharp Shooter", "Achieve 70% accuracy (min 20 predictions)", "\U{1F3AF}", 70, AccuracyCategory),
    Achievement("accuracy_90", "Oracle", "Achieve 90% accuracy (min 30 predictions)", "\U{1F52E}", 90, AccuracyCategory)
  ]

  /** Streak achievements. */
  const StreakBadges: seq<Achievement> := [
    Achievement("streak_3", "Hot Streak", "Get 3 correct predictions in a row", "\U{1F525}", 3, StreakCategory),
    Achievement("streak_5", "On Fire", "Get 5 correct predictions in a row", "\U{1F680}", 5, StreakCategory),
    Achievement("streak_10", "Unstoppable", "Get 10 correct predictions in a row", "\U{2B50}", 10, StreakCategory)
  ]

  /** Points achievements. */
  const PointsBadges: seq<Achievement> := [
    Achievement("points_100", "Points Collector", "Earn 100 total points", "\U{1F4B0}", 100, PointsCategory),
    Achievement("points_500", "High Scorer", "Earn 500 total points", "\U{1F48E}", 500, PointsCategory),
    Achievement("points_1000", "Legend", "Earn 1000 total points", "\U{1F451}", 1000, PointsCategory)
  ]

  /** The catalog: the four groups in their declared order. */
  const Catalog: seq<Achievement> := PredictionBadges + AccuracyBadges + StreakBadges + PointsBadges

  /** The statistics the badges are judged on; accuracy is a whole percentage. */
  datatype Stats = Stats(totalPredictions: int, accuracy: int, currentStreak: int, totalPoints: int)

  // ---------------------------------------------------------------------
  // The catalog

  predicate IdsDistinct(s: seq<Achievement>) {
    forall i, j :: 0 <= i < j < |s| ==> s[i].id != s[j].id
  }

  /** The catalog's thirteen ids are all different. */
  lemma CatalogIdsDistinct()
    ensures |Catalog| == 13
    ensures IdsDistinct(Catalog)
  {
  }

  /** The requirements of the entries of `s`, in order. */
  function Requirements(s: seq<Achievement>): (r: seq<int>)
    ensures |r| == |s|
  {
    seq(|s|, i requires 0 <= i < |s| => s[i].requirement)
  }

  /** The entries of `s` in category `c`, in order (the `filter`). */
  function InCategory(s: seq<Achievement>, c: Category): (r: seq<Achievement>)
    ensures |r| <= |s|
  {
    if |s| == 0 then []
    else (if s[0].category == c then [s[0]] else []) + InCategory(s[1..], c)
  }

  /** The filter keeps exactly the badges of category `c`. */
  lemma {:induction false} InCategoryMembers(s: seq<Achievement>, c: Category)
    ensures forall a :: a in InCategory(s, c) <==> a in s && a.category == c
  {
    if |s| > 0 {
      InCategoryMembers(s[1..], c);
      assert forall a :: a in s <==> a == s[0] || a in s[1..];
    }
  }

  lemma {:induction false} InCategoryConcat(a: seq<Achievement>, b: seq<Achievement>, c: Category)
    ensures InCategory(a + b, c) == InCategory(a, c) + InCategory(b, c)
  {
    if |a| > 0 {
      assert (a + b)[1..] == a[1..] + b;
      InCategoryConcat(a[1..], b, c);
    } else {
      assert a + b == b;
    }
  }

  /** Every badge of `s` belongs to category `g`. */
  predicate AllOfCategory(s: seq<Achievement>, g: Category) {
    forall k :: 0 <= k < |s| ==> s[k].category == g
  }

  lemma GroupsAreUniform()
    ensures AllOfCategory(PredictionBadges, PredictionsCategory)
    ensures AllOfCategory(AccuracyBadges, AccuracyCategory)
    ensures AllOfCategory(StreakBadges, StreakCategory)
    ensures AllOfCategory(PointsBadges, PointsCategory)
  {
  }

  /** Filtering a group whose badges all share category `g` keeps all of it or nothing. */
  lemma {:induction false} InCategoryOfGroup(s: seq<Achievement>, g: Category, c: Category)
    requires AllOfCategory(s, g)
    ensures InCategory(s, c) == if c == g then s else []
  {
    if |s| > 0 {
      InCategoryOfGroup(s[1..], g, c);
      assert [s[0]] + s[1..] == s;
    }
  }

  /**
   * Filtering four groups, each uniform in its own category, keeps exactly
   * the group of the requested category.
   */
  lemma {:induction false} GroupedByCategory(p: seq<Achievement>, a: seq<Achievement>, k: seq<Achievement>, q: seq<Achievement>, c: Category)
    requires AllOfCategory(p, PredictionsCategory) && AllOfCategory(a, AccuracyCategory)
    requires AllOfCategory(k, StreakCategory) && AllOfCategory(q, PointsCategory)
    ensures c == PredictionsCategory ==> InCategory(p + a + k + q, c) == p
    ensures c == AccuracyCategory ==> InCategory(p + a + k + q, c) == a
    ensures c == StreakCategory ==> InCategory(p + a + k + q, c) == k
    ensures c == PointsCategory ==> InCategory(p + a + k + q, c) == q
  {
    InCategoryConcat(p + a + k, q, c);
    InCategoryConcat(p + a, k, c);
    InCategoryConcat(p, a, c);
    InCategoryOfGroup(p, PredictionsCategory, c);
    InCategoryOfGroup(a, AccuracyCategory, c);
    InCategoryOfGroup(k, StreakCategory, c);
    InCategoryOfGroup(q, PointsCategory, c);
  }

  /** Each category of the catalog is exactly one of its declared groups, in declared order. */
  lemma {:induction false} CatalogGroups()
    ensures InCategory(Catalog, PredictionsCategory) == PredictionBadges
    ensures InCategory(Catalog, AccuracyCategory) == AccuracyBadges
    ensures InCategory(Catalog, StreakCategory) == StreakBadges
    ensures InCategory(Catalog, PointsCategory) == PointsBadges
  {
    GroupsAreUniform();
    GroupedByCategory(PredictionBadges, AccuracyBadges, StreakBadges, PointsBadges, PredictionsCategory);
    GroupedByCategory(PredictionBadges, AccuracyBadges, StreakBadges, PointsBadges, AccuracyCategory);
    GroupedByCategory(PredictionBadges, AccuracyBadges, StreakBadges, PointsBadges, StreakCategory);
    GroupedByCategory(PredictionBadges, AccuracyBadges, StreakBadges, PointsBadges, PointsCategory);
  }

  /** The four threshold ladders: 1/10/50/100, 50/70/90, 3/5/10 and 100/500/1000. */
  lemma {:induction false} CatalogThresholds()
    ensures Requirements(InCategory(Catalog, PredictionsCategory)) == [1, 10, 50, 100]
    ensures Requirements(InCategory(Catalog, AccuracyCategory)) == [50, 70, 90]
    ensures Requirements(InCategory(Catalog, StreakCategory)) == [3, 5, 10]
    ensures Requirements(InCategory(Catalog, PointsCategory)) == [100, 500, 1000]
  {
    CatalogGroups();
  }

  // ---------------------------------------------------------------------
  // Earning

  /** The sample-size guard of an accuracy badge. */
  function MinPredictions(requirement: int): (r: int)
    ensures requirement < 70 ==> r == 10
    ensures 70 <= requirement < 90 ==> r == 20
    ensures 90 <= requirement ==> r == 30
  {
    if requirement < 70 then 10 else if requirement < 90 then 20 else 30
  }

  /** Whether `stats` earns achievement `a`: a `>=` test on the category's statistic. */
  predicate IsEarned(stats: Stats, a: Achievement) {
    match a.category
    case PredictionsCategory => stats.totalPredictions >= a.requirement
    case AccuracyCategory =>
      stats.totalPredictions >= MinPredictions(a.requirement) && stats.accuracy >= a.requirement
    case StreakCategory => stats.currentStreak >= a.requirement
    case PointsCategory => stats.totalPoints >= a.requirement
  }

  /** The entries of `s` that `stats` earns, in the order of `s`. */
  function Earned(stats: Stats, s: seq<Achievement>): (r: seq<Achievement>)
    ensures |r| <= |s|
  {
    if |s| == 0 then []
    else Earned(stats, s[..|s| - 1]) + (if IsEarned(stats, s[|s| - 1]) then [s[|s| - 1]] else [])
  }

  /** `checkAchievements`: one pass over the catalog, pushing every earned badge. */
  method CheckAchievements(stats: Stats) returns (earned: seq<Achievement>)
    ensures earned == Earned(stats, Catalog)
  {
    earned := [];
    for i := 0 to |Catalog|
      invariant earned == Earned(stats, Catalog[..i])
    {
      var achievement := Catalog[i];
      assert Catalog[..i + 1][..i] == Catalog[..i];
      match achievement.category {
        case PredictionsCategory =>
          if stats.totalPredictions >= achievement.requirement {
            earned := earned + [achievement];
          }
        case AccuracyCategory =>
          var minPredictions := if achievement.requirement < 70 then 10 else if achievement.requirement < 90 then 20 else 30;
          if stats.totalPredictions >= minPredictions && stats.accuracy >= achievement.requirement {
            earned := earned + [achievement];
          }
        case StreakCategory =>
          if stats.currentStreak >= achievement.requirement {
            earned := earned + [achievement];
          }
        case PointsCategory =>
          if stats.totalPoints >= achievement.requirement {
            earned := earned + [achievement];
          }
      }
    }
    assert Catalog[..|Catalog|] == Catalog;
  }

  /** A badge is in the earned list exactly when it is listed and its test passes. */
  lemma {:induction false} EarnedMembership(stats: Stats, s: seq<Achievement>, a: Achievement)
    ensures a in Earned(stats, s) <==> a in s && IsEarned(stats, a)
  {
    if |s| > 0 {
      var init := s[..|s| - 1];
      EarnedMembership(stats, init, a);
      assert s == init + [s[|s| - 1]];
    }
  }

  /** `idx` picks the entries of `r` out of `s` at increasing positions. */
  ghost predicate Embeds(r: seq<Achievement>, s: seq<Achievement>, idx: seq<int>) {
    && |idx| == |r|
    && (forall k :: 0 <= k < |idx| ==> 0 <= idx[k] < |s| && r[k] == s[idx[k]])
    && (forall k, l :: 0 <= k < l < |idx| ==> idx[k] < idx[l])
  }

  /** An embedding survives appending `x` to `s`, and to `r` as well when `x` is taken. */
  lemma EmbedsAppend(r: seq<Achievement>, s: seq<Achievement>, idx: seq<int>, x: Achievement)
    requires Embeds(r, s, idx)
    ensures Embeds(r, s + [x], idx)
    ensures Embeds(r + [x], s + [x], idx + [|s|])
  {
    assert forall k :: 0 <= k < |idx| ==> (s + [x])[idx[k]] == s[idx[k]];
    assert forall k :: 0 <= k < |idx| ==> (r + [x])[k] == r[k];
  }

  /** The earned list is the catalog with some entries dropped, in catalog order. */
  lemma {:induction false} EarnedIsSubsequence(stats: Stats, s: seq<Achievement>)
    ensures exists idx :: Embeds(Earned(stats, s), s, idx)
  {
    if |s| > 0 {
      var init := s[..|s| - 1];
      var last := s[|s| - 1];
      EarnedIsSubsequence(stats, init);
      var idx0 :| Embeds(Earned(stats, init), init, idx0);
      EmbedsAppend(Earned(stats, init), init, idx0, last);
      assert s == init + [last];
      if IsEarned(stats, last) {
        assert Embeds(Earned(stats, s), s, idx0 + [|init|]);
      } else {
        assert Embeds(Earned(stats, s), s, idx0);
      }
    } else {
      assert Earned(stats, s) == [];
      assert Embeds(Earned(stats, s), s, []);
    }
  }

  /** The earned list never holds two badges with one id, since the catalog does not. */
  lemma {:induction false} EarnedIdsDistinct(stats: Stats, s: seq<Achievement>)
    requires IdsDistinct(s)
    ensures IdsDistinct(Earned(stats, s))
  {
    if |s| > 0 {
      var init := s[..|s| - 1];
      var last := s[|s| - 1];
      assert IdsDistinct(init);
      EarnedIdsDistinct(stats, init);
      var prev := Earned(stats, init);
      forall k | 0 <= k < |prev| ensures prev[k].id != last.id {
        EarnedMembership(stats, init, prev[k]);
        var j :| 0 <= j < |init| && init[j] == prev[k];
      }
    }
  }

  /** `stats` is at least `other` in every statistic. */
  predicate Dominates(stats: Stats, other: Stats) {
    && stats.totalPredictions >= other.totalPredictions
    && stats.accuracy >= other.accuracy
    && stats.currentStreak >= other.currentStreak
    && stats.totalPoints >= other.totalPoints
  }

  /** Raising statistics never takes a badge away. */
  lemma {:induction false} EarnedIsMonotonic(stats: Stats, other: Stats, s: seq<Achievement>, a: Achievement)
    requires Dominates(stats, other)
    ensures a in Earned(other, s) ==> a in Earned(stats, s)
  {
    EarnedMembership(other, s, a);
    EarnedMembership(stats, s, a);
  }

  // ---------------------------------------------------------------------
  // The next badge in a category

  predicate SortedByRequirement(s: seq<Achievement>) {
    forall i, j :: 0 <= i < j < |s| ==> s[i].requirement <= s[j].requirement
  }

  /** Stable insertion of `x` ahead of every entry with a requirement at least its own. */
  function InsertByRequirement(x: Achievement, s: seq<Achievement>): (r: seq<Achievement>)
    requires SortedByRequirement(s)
    ensures SortedByRequirement(r)
    ensures multiset(r) == multiset(s) + multiset{x}
  {
    if |s| == 0 || x.requirement <= s[0].requirement then [x] + s
    else
      var rest := InsertByRequirement(x, s[1..]);
      InsertAfterHead(x, s, rest);
      [s[0]] + rest
  }

  /** The recursive case of `InsertByRequirement`: `s[0]` has the lower requirement, so it stays in front. */
  lemma InsertAfterHead(x: Achievement, s: seq<Achievement>, rest: seq<Achievement>)
    requires SortedByRequirement(s) && |s| > 0 && s[0].requirement < x.requirement
    requires SortedByRequirement(rest) && multiset(rest) == multiset(s[1..]) + multiset{x}
    ensures SortedByRequirement([s[0]] + rest)
    ensures multiset([s[0]] + rest) == multiset(s) + multiset{x}
  {
    assert s == [s[0]] + s[1..];
    forall e | e in rest ensures s[0].requirement <= e.requirement {
      assert e in multiset(rest);
      if e != x {
        assert e in multiset(s[1..]);
        var k :| 0 <= k < |s[1..]| && s[1..][k] == e;
        assert s[k + 1] == e;
      }
    }
    var r := [s[0]] + rest;
    forall i, j | 0 <= i < j < |r| ensures r[i].requirement <= r[j].requirement {
      assert r[j] == rest[j - 1];
      if i > 0 { assert r[i] == rest[i - 1]; } else { assert rest[j - 1] in rest; }
    }
  }

  /** The `sort` by ascending requirement (stable, as `Array.prototype.sort` is). */
  function SortByRequirement(s: seq<Achievement>): (r: seq<Achievement>)
    ensures SortedByRequirement(r)
    ensures multiset(r) == multiset(s)
  {
    if |s| == 0 then []
    else
      assert s == [s[0]] + s[1..];
      InsertByRequirement(s[0], SortByRequirement(s[1..]))
  }

  /** Sorting an already sorted list leaves it as it is. */
  lemma {:induction false} SortKeepsSorted(s: seq<Achievement>)
    requires SortedByRequirement(s)
    ensures SortByRequirement(s) == s
  {
    if |s| > 0 {
      assert SortedByRequirement(s[1..]);
      SortKeepsSorted(s[1..]);
    }
  }

  /** The list `getNextAchievement` scans: the category's badges, sorted by requirement. */
  function Ladder(s: seq<Achievement>, c: Category): (r: seq<Achievement>)
    ensures SortedByRequirement(r)
    ensures forall a :: a in r <==> a in s && a.category == c
  {
    var r := SortByRequirement(InCategory(s, c));
    InCategoryMembers(s, c);
    assert forall a :: a in r <==> a in multiset(InCategory(s, c));
    r
  }

  /** Within each category, requirements never decrease along `s`. */
  predicate CategoriesAscend(s: seq<Achievement>) {
    forall i, j :: 0 <= i < j < |s| && s[i].category == s[j].category ==> s[i].requirement <= s[j].requirement
  }

  lemma {:induction false} InCategorySorted(s: seq<Achievement>, c: Category)
    requires CategoriesAscend(s)
    ensures SortedByRequirement(InCategory(s, c))
  {
    if |s| > 0 {
      assert CategoriesAscend(s[1..]);
      InCategorySorted(s[1..], c);
      var rest := InCategory(s[1..], c);
      InCategoryMembers(s[1..], c);
      if s[0].category == c {
        forall k | 0 <= k < |rest| ensures s[0].requirement <= rest[k].requirement {
          assert rest[k] in s[1..];
          var j :| 0 <= j < |s[1..]| && s[1..][j] == rest[k];
          assert s[j + 1] == rest[k];
        }
      }
    }
  }

  /** Each category of the catalog is already listed in ascending order, so the sort keeps it. */
  lemma {:induction false} LadderIsCatalogOrder(c: Category)
    ensures Ladder(Catalog, c) == InCategory(Catalog, c)
  {
    assert CategoriesAscend(Catalog);
    InCategorySorted(Catalog, c);
    SortKeepsSorted(InCategory(Catalog, c));
  }

  /** The first entry of `s` whose requirement is above `value`. */
  function FirstAbove(s: seq<Achievement>, value: int): (r: Option<Achievement>)
    ensures r.None? <==> forall a :: a in s ==> value >= a.requirement
    ensures r.Some? ==> r.value in s && value < r.value.requirement
    ensures r.Some? && SortedByRequirement(s) ==>
      forall a :: a in s && value < a.requirement ==> r.value.requirement <= a.requirement
  {
    if |s| == 0 then None
    else if value < s[0].requirement then Some(s[0])
    else
      assert forall a :: a in s <==> a == s[0] || a in s[1..];
      assert SortedByRequirement(s) ==> SortedByRequirement(s[1..]);
      FirstAbove(s[1..], value)
  }

  /** `p` is `value / requirement` as a whole percentage, rounded to nearest with halves up. */
  predicate NearestPercent(p: int, value: int, requirement: Threshold) {
    (2 * p - 1) * requirement <= 200 * value < (2 * p + 1) * requirement
  }

  /** `Math.round(value / requirement * 100)`. */
  function Progress(value: int, requirement: Threshold): (r: int)
    ensures NearestPercent(r, value, requirement)
    ensures 0 <= value <= requirement ==> 0 <= r <= 100
  {
    var r := (200 * value + requirement) / (2 * requirement);
    RoundedPercent(value, requirement, r);
    r
  }

  lemma RoundedPercent(value: int, requirement: Threshold, r: int)
    requires r == (200 * value + requirement) / (2 * requirement)
    ensures (2 * r - 1) * requirement <= 200 * value < (2 * r + 1) * requirement
    ensures 0 <= value <= requirement ==> 0 <= r <= 100
  {
    var d := 2 * requirement;
    var n := 200 * value + requirement;
    assert d * r <= n < d * r + d;
    assert (2 * r - 1) * requirement == d * r - requirement;
    assert (2 * r + 1) * requirement == d * r + requirement;
    if 0 <= value <= requirement {
      if r > 100 {
        MulMono(101, r, d);
      } else if r < 0 {
        MulMono(r, -1, d);
      }
    }
  }

  datatype NextAchievement = NextAchievement(achievement: Achievement, progress: int)

  /** The lowest badge of category `c` in `s` above `value`, with its progress. */
  function NextIn(s: seq<Achievement>, c: Category, value: int): (r: Option<NextAchievement>)
    ensures r.None? <==> forall a :: a in s && a.category == c ==> value >= a.requirement
    ensures r.Some? ==>
      var a := r.value.achievement;
      && a in s && a.category == c && value < a.requirement
      && (forall b :: b in s && b.category == c && value < b.requirement ==> a.requirement <= b.requirement)
      && NearestPercent(r.value.progress, value, a.requirement)
      && (value >= 0 ==> 0 <= r.value.progress <= 100)
  {
    match FirstAbove(Ladder(s, c), value)
    case None => None
    case Some(achievement) => Some(NextAchievement(achievement, Progress(value, achievement.requirement)))
  }

  /**
   * `getNextAchievement`: the lowest catalog badge of category `c` still
   * above `currentValue`, with the percentage of its requirement reached;
   * None once every badge of the category is reached.
   */
  function GetNextAchievement(c: Category, currentValue: int): (r: Option<NextAchievement>)
    ensures r.None? <==> forall a :: a in Catalog && a.category == c ==> currentValue >= a.requirement
    ensures r.Some? ==>
      var a := r.value.achievement;
      && a in Catalog && a.category == c && currentValue < a.requirement
      && (forall b :: b in Catalog && b.category == c && currentValue < b.requirement ==> a.requirement <= b.requirement)
      && NearestPercent(r.value.progress, currentValue, a.requirement)
      && (currentValue >= 0 ==> 0 <= r.value.progress <= 100)
  {
    NextIn(Catalog, c, currentValue)
  }
}
