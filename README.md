# League fan hub: verified model of predictions, leaderboard, achievements and roles

This Dafny project models the game logic of a rugby-league fan site. Users
sign in, predict the winner of each upcoming match, and score points once
the match is resolved. A leaderboard ranks the users, and badges reward
volume, accuracy, streaks and points. The model covers:

- **Prediction points** (`prediction_points.dfy`). A match's winner, whether
  a prediction is correct, and its points. A correct prediction earns 10
  points, plus a 5-point bonus when the winning margin is 12 or more.
- **Leaderboard** (`leaderboard.dfy`, `leaderboard_properties.dfy`). The
  per-user aggregation over resolved predictions, with an optional window
  that starts on Monday of the current week. It also covers the
  current-streak count, accuracy in tenths of a percent, and the stable sort
  (points, then accuracy, then volume, all descending). Ranks run 1..N, the
  JavaScript `slice` page follows, and a single user's rank is computed
  separately.
- **Achievements** (`achievements.dfy`). The 13-badge catalog in four
  categories, the earned-badge scan, and the next badge of a category
  together with the rounded progress percentage towards it.
- **Prediction submission** (`prediction_submit.dfy`). The
  `POST /api/predictions/submit` handler. A `PredictionStore` class holds
  the users, matches and predictions tables. Its `Submit` method runs the
  route's ordered guards and either appends the new prediction or answers
  with the first failing guard's status and message.
- **Leaderboard route** (`leaderboard_route.dfy`). `GET /api/leaderboard`:
  query defaults, the timeframe and limit checks, the page and its `hasMore`
  flag, the optional rank of the signed-in user, and the empty 200 answer
  given when computing the leaderboard fails.
- **Auth helpers** (`auth.dfy`). The role tests on the roles claim,
  `requireAuth`/`requireRole`, and the `getUserId` fallback.

Shared entities (users, matches, predictions, `Option`, `Result`) live in
`domain.dfy`. The database is a set of in-memory sequences and maps. The
current time is a parameter, a timestamp in milliseconds.

The leaderboard route sets `hasMore` to `leaderboard.length === limit`
(src/app/api/leaderboard/route.ts:65). So a page that ends exactly at the
last entry still reports more. The model follows the code, and
`LeaderboardRoute.HasMoreAtExactTail` states this behaviour.

## Model

| member | source | states |
|---|---|---|
| Domain.FindUserById | src/lib/leaderboard.ts:108-115 | the user found has the requested id and is stored; none is found exactly when no stored user has that id |
| Domain.FindUserByAuth0Id | src/app/api/predictions/submit/route.ts:21-23 | the user found has the session's Auth0 id and is stored; none is found exactly when no stored user has it |
| PredictionPoints.GetMatchWinner | src/lib/prediction-points.ts:63-73 | no winner exactly when a score is missing or the scores are level; otherwise the team with the higher score |
| PredictionPoints.IsPredictionCorrect | src/lib/prediction-points.ts:17-30 | correct exactly when the prediction names the match winner; never correct for a missing score or a draw |
| PredictionPoints.CalculatePredictionPoints | src/lib/prediction-points.ts:6-56 | points are 0, 10 or 15; 0 exactly when incorrect, 15 exactly when correct with a margin of at least 12, 10 exactly when correct with a margin of at most 11 |
| PredictionPoints.PointsOnlyForAMatchTeam | src/lib/prediction-points.ts:38-56 | points are earned only by naming one of the two teams; a name that is neither team earns 0 |
| PredictionPoints.ExactlyOneTeamIsCorrect | src/lib/prediction-points.ts:17-30 | in a decided match between two distinct teams exactly one of the two team predictions is correct |
| Leaderboard.LeadingCorrect | src/lib/leaderboard.ts:40-47 | the run length is at most the list length; every prediction in the run is correct and the one after it is not |
| Leaderboard.CurrentStreak | src/lib/leaderboard.ts:37-49 | the streak never exceeds 50 (the lookback) nor the number of resolved predictions |
| Leaderboard.CalculateStreak | src/lib/leaderboard.ts:28-50 | the loop's streak is the run of correct predictions among the newest 50, at most 50, with every counted prediction correct |
| Leaderboard.ResolvedNewestFirst | src/lib/leaderboard.ts:29-38 | the fetched list holds exactly the user's resolved predictions |
| Leaderboard.ResolvedNewestFirstIsNewestFirst | src/lib/leaderboard.ts:34-36 | for a log kept in creation order the fetched list is ordered newest first |
| Leaderboard.DayOfWeek | src/lib/leaderboard.ts:57 | the weekday index is in 0..6 |
| Leaderboard.StartOfDay | src/lib/leaderboard.ts:61 | midnight of the day holding the instant: a whole number of days, at most the instant and less than a day before it |
| Leaderboard.DaysToSubtract | src/lib/leaderboard.ts:58 | at most 6 days, and stepping back that many days from the weekday lands on Monday |
| Leaderboard.WeekStartIsMondayMidnight | src/lib/leaderboard.ts:55-63 | the week start is a Monday midnight, at most now and less than 7 days before it |
| Leaderboard.GetWeekStartDate | src/lib/leaderboard.ts:55-63 | the step-by-step computation yields that Monday midnight |
| Leaderboard.Scoped | src/lib/leaderboard.ts:79-82 | the aggregated predictions are exactly the resolved ones inside the window |
| Leaderboard.ResolvedCount | src/lib/leaderboard.ts:77-118 | a user's count is positive exactly when they have an aggregated prediction |
| Leaderboard.CorrectCount | src/lib/leaderboard.ts:92-119 | the correct count never exceeds the resolved count |
| Leaderboard.DistinctUserIds | src/lib/leaderboard.ts:77-78 | each user of the list appears once, and only users of the list appear |
| Leaderboard.GroupedUserIds | src/lib/leaderboard.ts:77-89 | the groups are distinct and are exactly the users with an aggregated prediction in the window |
| Leaderboard.AccuracyTenths | src/lib/leaderboard.ts:121-133 | accuracy is 0 with no predictions, at most 100.0%, and the nearest tenth of a percent to correct/total (halves up) |
| Leaderboard.DisplayName | src/lib/leaderboard.ts:128 | the shown name is never empty |
| Leaderboard.DisplayNameIsStoredOrAnonymous | src/lib/leaderboard.ts:128 | the shown name is the stored name when the user exists and has a non-empty name, and `Anonymous` otherwise |
| Leaderboard.DisplayPicture | src/lib/leaderboard.ts:129 | a shown picture is never the empty string |
| Leaderboard.DisplayPictureIsStoredOrNull | src/lib/leaderboard.ts:129 | the shown picture is the stored picture when the user exists and has a non-empty one, and null otherwise |
| Leaderboard.Insert | src/lib/leaderboard.ts:141-152 | inserting into a ranked list keeps it ordered and adds exactly the one entry |
| Leaderboard.SortEntries | src/lib/leaderboard.ts:141-152 | the sorted list is ordered by points, then accuracy, then volume, all descending, and is a permutation of the input |
| Leaderboard.AssignRanks | src/lib/leaderboard.ts:153-156 | same length, and the entry at position i gets rank i + 1 |
| Leaderboard.SliceIndex | src/lib/leaderboard.ts:159 | a `slice` index lands in [0, len], and a non-negative index is clamped to len |
| Leaderboard.Slice | src/lib/leaderboard.ts:159 | the page holds at most end - start entries, and for 0 <= start <= end it is the clamped sub-sequence |
| Leaderboard.CalculateLeaderboard | src/lib/leaderboard.ts:68-160 | the answer never holds more than `limit` entries |
| Leaderboard.CountAhead | src/lib/leaderboard.ts:186-202 | the users counted ahead are at most the number of groups |
| Leaderboard.GetUserRank | src/lib/leaderboard.ts:165-219 | the rank is at least 1 |
| LeaderboardProperties.GetUserRankIsCount | src/lib/leaderboard.ts:165-219 | the rank is 1 plus the number of distinct users with an aggregated prediction and strictly more points; `totalUsers` is the number of grouped users |
| Leaderboard.PointsSum | src/lib/leaderboard.ts:77-120 | a user's points sum is positive only when one of their aggregated predictions carries points |
| Leaderboard.UserStreak | src/lib/leaderboard.ts:124 | a user's streak is at most 50, and that many of their newest resolved predictions are all correct |
| Leaderboard.WeekStart | src/lib/leaderboard.ts:55-63 | reference definition of the week start; characterized by `Leaderboard.WeekStartIsMondayMidnight` |
| Leaderboard.WindowStart | src/lib/leaderboard.ts:74 | a lower bound exists exactly for the week timeframe, and then it is the start of the current week |
| Leaderboard.WindowStartIsThisWeeksMonday | src/lib/leaderboard.ts:74 | the week bound is a Monday at most now and less than 7 days before it |
| Leaderboard.Counted | src/lib/leaderboard.ts:79-82 | reference definition of the aggregation filter (resolved and in the window); characterized by `Leaderboard.Scoped` |
| Leaderboard.BuildEntry | src/lib/leaderboard.ts:106-138 | reference definition of one user's entry; characterized by `LeaderboardProperties.RankedEntriesDescribeTheirUsers` |
| Leaderboard.Entries | src/lib/leaderboard.ts:106-138 | reference definition of the per-group entries; characterized by `LeaderboardProperties.RankedEntriesDescribeTheirUsers` and `LeaderboardProperties.RankedLeaderboardListsExactlyTheGroupedUsers` |
| Leaderboard.Comparator | src/lib/leaderboard.ts:142-152 | reference definition of the sort callback as written; related to the sort order by `Leaderboard.RanksAtLeastIsComparatorOrder` |
| Leaderboard.RanksAtLeast | src/lib/leaderboard.ts:142-152 | reference definition of the sort order; characterized by `Leaderboard.RanksAtLeastIsComparatorOrder` |
| Leaderboard.RanksAtLeastIsComparatorOrder | src/lib/leaderboard.ts:142-152 | an entry may precede another exactly when the callback does not swap them; the callback is antisymmetric, the order total and transitive, and entries tie exactly when points, accuracy and volume agree |
| Leaderboard.RankedLeaderboard | src/lib/leaderboard.ts:141-156 | reference definition of the sorted, ranked list; characterized by `LeaderboardProperties.RankedLeaderboardIsSortedPermutation` |
| LeaderboardProperties.RankedLeaderboardIsSortedPermutation | src/lib/leaderboard.ts:106-156 | the ranked list is sorted by the comparator, ranked 1..N, one entry per group, and with ranks reset a permutation of the built entries |
| LeaderboardProperties.RankedEntriesDescribeTheirUsers | src/lib/leaderboard.ts:106-138 | every entry carries its user's count, correct count, points, accuracy, name, picture and streak (0 for the week) |
| LeaderboardProperties.RankedLeaderboardUsersAreDistinct | src/lib/leaderboard.ts:77-156 | no user appears twice on the leaderboard |
| LeaderboardProperties.RankedLeaderboardListsExactlyTheGroupedUsers | src/lib/leaderboard.ts:77-156 | a user is on the leaderboard exactly when they have a resolved prediction in the window |
| LeaderboardProperties.PageOfRankedList | src/lib/leaderboard.ts:153-159 | a page of a ranked list is its clamped window, at most `limit` long, sorted, and keeps global ranks offset + k + 1 |
| LeaderboardProperties.CalculateLeaderboardIsAPage | src/lib/leaderboard.ts:68-160 | for non-negative offset and positive limit, the answer is the window [offset, offset + limit) of the ranked list, sorted, with global ranks |
| LeaderboardProperties.PagesRebuildTheList | src/lib/leaderboard.ts:159 | paging with offsets 0, limit, 2*limit, ... rebuilds a prefix with nothing repeated or missing, and the whole list once past its end |
| LeaderboardProperties.CountAheadIsCardinality | src/lib/leaderboard.ts:186-216 | the count ahead is the number of distinct grouped users with strictly more points |
| LeaderboardProperties.RankedPointsAreUserTotals | src/lib/leaderboard.ts:120-130 | each ranked entry's points are its user's summed points in the window |
| LeaderboardProperties.UserRankNeverBehindLeaderboardRank | src/lib/leaderboard.ts:165-219 | the single-user rank is at most the user's leaderboard rank (users tied on points share a single-user rank); `totalUsers` is the leaderboard length and bounds the rank |
| Achievements.CatalogIdsDistinct | src/lib/achievements.ts:14-126 | the catalog has 13 badges with distinct ids |
| Achievements.Requirements | src/lib/achievements.ts:14-126 | one requirement per badge |
| Achievements.InCategory | src/lib/achievements.ts:177 | filtering never lengthens the list |
| Achievements.InCategoryMembers | src/lib/achievements.ts:177 | the filter keeps exactly the badges of the category |
| Achievements.CatalogGroups | src/lib/achievements.ts:14-126 | each category of the catalog is exactly its group of badges, in catalog order |
| Achievements.CatalogThresholds | src/lib/achievements.ts:14-126 | the thresholds are predictions 1/10/50/100, accuracy 50/70/90, streak 3/5/10 and points 100/500/1000 |
| Achievements.MinPredictions | src/lib/achievements.ts:148-149 | accuracy badges below 70% need 10 predictions, below 90% need 20, otherwise 30 |
| Achievements.IsEarned | src/lib/achievements.ts:140-164 | reference definition of each category's rule; characterized by `Achievements.EarnedMembership` and `Achievements.EarnedIsMonotonic` |
| Achievements.Earned | src/lib/achievements.ts:131-168 | never more badges than the catalog |
| Achievements.CheckAchievements | src/lib/achievements.ts:131-168 | the loop's result is the catalog filtered by each category's rule |
| Achievements.EarnedMembership | src/lib/achievements.ts:139-165 | a badge is earned exactly when it is in the catalog and meets its category's rule |
| Achievements.EarnedIsSubsequence | src/lib/achievements.ts:139-165 | earned badges come in catalog order: they embed in the catalog at increasing positions |
| Achievements.EarnedIdsDistinct | src/lib/achievements.ts:139-165 | no badge is earned twice |
| Achievements.EarnedIsMonotonic | src/lib/achievements.ts:139-165 | higher (or equal) stats in every field never lose a badge |
| Achievements.InsertByRequirement | src/lib/achievements.ts:177-179 | insertion keeps ascending requirements and adds exactly the one badge |
| Achievements.SortByRequirement | src/lib/achievements.ts:177-179 | the sort gives ascending requirements and a permutation |
| Achievements.SortKeepsSorted | src/lib/achievements.ts:177-179 | sorting a list that is already ascending leaves it unchanged |
| Achievements.Ladder | src/lib/achievements.ts:177-179 | the category's badges in ascending requirement, exactly those of the category |
| Achievements.InCategorySorted | src/lib/achievements.ts:177-179 | a catalog whose categories each ascend gives an ascending filter |
| Achievements.LadderIsCatalogOrder | src/lib/achievements.ts:177-179 | for this catalog the sorted ladder is the filtered catalog itself |
| Achievements.FirstAbove | src/lib/achievements.ts:181-188 | none exactly when the value reaches every requirement; otherwise a badge above the value, the lowest such on an ascending list |
| Achievements.Progress | src/lib/achievements.ts:183 | the nearest whole percentage of value/requirement (halves up), in 0..100 for a value up to the requirement |
| Achievements.NextIn | src/lib/achievements.ts:173-189 | the next badge of a category in any list: none iff all reached, else the lowest unreached requirement and its progress |
| Achievements.GetNextAchievement | src/lib/achievements.ts:173-189 | no next badge exactly when every requirement of the category is reached; otherwise the catalog's badge of that category with the lowest requirement above the value, and its rounded progress, within 0..100 for a non-negative value |
| PredictionSubmit.Status | src/app/api/predictions/submit/route.ts:16-126 | every refusal is answered with 400, 401, 404 or 500 |
| PredictionSubmit.FindPrediction | src/app/api/predictions/submit/route.ts:76-83 | a found prediction is stored and belongs to the pair; none exactly when no stored prediction has the pair |
| PredictionSubmit.NewPrediction | src/app/api/predictions/submit/route.ts:93-100 | a new prediction has 0 points and is unresolved |
| PredictionSubmit.AcceptedExactlyWhenAllGuardsPass | src/app/api/predictions/submit/route.ts:13-90 | a submission is accepted iff no call throws and every guard holds; the accepted record is the session's user, the named match, which is upcoming and not yet kicked off, and one of its teams |
| PredictionSubmit.UnauthorizedComesFirst | src/app/api/predictions/submit/route.ts:13-18 | without a session user the answer is 401, whatever else the request holds |
| PredictionSubmit.StatusCheckedBeforeKickoff | src/app/api/predictions/submit/route.ts:50-65 | a match that is not upcoming is refused for its status, even after kickoff |
| PredictionSubmit.LockedAtKickoff | src/app/api/predictions/submit/route.ts:57-65 | a submission at the kickoff instant is never accepted |
| PredictionSubmit.AcceptedKeepsPairsUnique | src/app/api/predictions/submit/route.ts:75-110 | appending an accepted prediction keeps one prediction per user and match |
| PredictionSubmit.AcceptedKeepsStoreValid | src/app/api/predictions/submit/route.ts:75-110 | appending an accepted prediction keeps the store invariant: unique pairs, ids below the next id, references to stored users and matches |
| PredictionSubmit.ResubmissionIsRefused | src/app/api/predictions/submit/route.ts:75-90 | once a prediction is accepted, the same submission is refused as already predicted |
| PredictionSubmit.PredictionStore.constructor | src/app/api/predictions/submit/route.ts:93-110 | a fresh store holds the given users and matches, no predictions, and satisfies the invariant |
| PredictionSubmit.PredictionStore.Submit | src/app/api/predictions/submit/route.ts:10-127 | keeps the invariant and the users and matches; a refused submission answers the first failing guard's status and message and changes nothing; an accepted one appends exactly the new prediction and answers 201 with the success message, its id, winner, teams and kickoff |
| PredictionSubmit.Check | src/app/api/predictions/submit/route.ts:13-110 | reference definition of the ordered guard chain; characterized by `PredictionSubmit.AcceptedExactlyWhenAllGuardsPass`, the ordering lemmas and `PredictionSubmit.PredictionStore.Submit` |
| PredictionSubmit.Message | src/app/api/predictions/submit/route.ts:16-126 | reference definition of the error texts; `PredictionSubmit.PredictionStore.Submit` answers every refusal with it |
| LeaderboardRoute.TimeframeOf | src/app/api/leaderboard/route.ts:35-39 | reference definition of the timeframe passed on; characterized by `LeaderboardRoute.ValidRequestGetsItsPage` |
| LeaderboardRoute.OrDefault | src/app/api/leaderboard/route.ts:17 | an absent or empty query value gives the default; any other value is kept |
| LeaderboardRoute.CurrentUserRank | src/app/api/leaderboard/route.ts:41-56 | a rank is present exactly when a session user maps to a stored user and nothing throws, and it is that user's `getUserRank` |
| LeaderboardRoute.Get | src/app/api/leaderboard/route.ts:14-87 | every 200 answer has a limit in 1..100, at most that many entries, `hasMore` iff the page is full, a timeframe of week or all-time, and on failure no entries, no rank and no more pages |
| LeaderboardRoute.DefaultsAreAllTimeFirstHundred | src/app/api/leaderboard/route.ts:17-19 | with no parameters the answer is the first 100 entries of the all-time leaderboard at offset 0 |
| LeaderboardRoute.InvalidTimeframeIsRefused | src/app/api/leaderboard/route.ts:23-28 | any other non-empty timeframe is a 400 with the fixed message, even when computing would fail |
| LeaderboardRoute.LimitOutOfRangeIsRefused | src/app/api/leaderboard/route.ts:30-32 | with a valid timeframe, the answer is a 400 exactly when the limit is outside 1..100 |
| LeaderboardRoute.ValidRequestGetsItsPage | src/app/api/leaderboard/route.ts:35-67 | a valid request gets the window [offset, offset + limit) of the ranked leaderboard with global ranks, and a user rank exactly when the user is known |
| LeaderboardRoute.FailedComputationDegrades | src/app/api/leaderboard/route.ts:68-86 | when computing throws, a valid request gets a 200 with no entries, no rank, `hasMore` false and the fixed error text |
| LeaderboardRoute.HasMoreAtExactTail | src/app/api/leaderboard/route.ts:65 | a page ending exactly at the last entry still reports `hasMore`, and the next page is empty |
| Auth.RolesOf | src/lib/auth.ts:48 | reference definition of the roles claim with its empty fallback; characterized by `Auth.HasRole` |
| Auth.HasRole | src/lib/auth.ts:45-50 | false without a user; otherwise true exactly when the roles claim is present and lists the role |
| Auth.SomeIncluded | src/lib/auth.ts:59 | true exactly when some listed role is among the user's roles |
| Auth.HasAnyRole | src/lib/auth.ts:55-60 | false without a user |
| Auth.HasAnyRoleIsSomeHasRole | src/lib/auth.ts:45-60 | `hasAnyRole` is `hasRole` for some listed role, and is false for an empty list |
| Auth.RequireAuth | src/lib/auth.ts:66-72 | succeeds with the session user exactly when there is one; otherwise fails with `Authentication required` |
| Auth.RequireRole | src/lib/auth.ts:78-84 | succeeds with the user exactly when `hasRole` holds; authentication fails first, then the role error names the role |
| Auth.RequiredRoleSatisfiesAnyRole | src/lib/auth.ts:55-84 | a user passing `requireRole(role)` passes `hasAnyRole` for any list naming that role |
| Auth.PlainUserIsNotStaff | src/lib/auth.ts:78-93 | a user whose only role is `user` passes `requireRole('user')`, fails `requireRole('admin')` with the role error, and holds neither admin nor moderator |
| Auth.GetUserId | src/lib/auth.ts:98-101 | null exactly when there is no user or both ids are missing or empty; otherwise a non-empty id, `sub` taking priority over the user-id claim |

## Left out

- The database (Prisma) is replaced by in-memory sequences and a map. A query that throws is an explicit parameter: `Fault` in the submission route, `computeFails`/`rankFails` in the leaderboard route.
- The clock is a parameter `now` in milliseconds. Local time zones and daylight saving time are not modelled: days are exact 86 400 000 ms blocks, as in UTC.
- Floating point is not modelled. Accuracy is kept in integer tenths of a percent and badge progress in whole percents, both rounded halves up. JavaScript's rounding of the binary quotient can differ from that exactly at a halfway value.
- Achievements.CheckAchievements: the stats are integers, so a fractional accuracy such as 69.5 is not represented; the badge tests are otherwise the source's.
- Query-string parsing is reduced to `Option<int>` for limit and offset. `parseInt` yielding NaN, which slips past the limit check in the source, is not modelled.
- Session retrieval (`getSession`, `getCurrentUser`, `isAuthenticated`) is replaced by an optional session user or subject passed in. A session without a `sub` claim is not distinguished from no session in the submission route.
- Leaderboard.CalculateStreak: the newest-first order is derived from a log kept in creation order (`ResolvedNewestFirstIsNewestFirst`). Equal creation times are not ordered the way the database would order them.
- Leaderboard.GetUserRank: the single-user rank counts only users with strictly more points, as the source does. It is proved never to exceed the leaderboard rank, not to equal it.
- LeaderboardRoute.Get: `hasMore` is true whenever the page is full, even when it ends exactly at the last entry, because that is what the code does.
- A negative offset follows JavaScript's `slice`, counting from the end. The page lemmas require a non-negative offset.
- The concurrency of `Promise.all` is not modelled. The per-user lookups are independent reads, so their results do not depend on order.
- The submission reply's nested `match` object is flattened into the `Created` response's team and kickoff fields. The status 201 and the success message are kept.
- Leaderboard.DistinctUserIds: the groups are listed in order of first appearance in the log. The database's `groupBy` order is unspecified. The sort is stable, so this choice decides the relative ranks of users tied on points, accuracy and volume.
- PredictionSubmit.Check: `getSession` throwing inside the submission route's `try` gives a 500 before any 401. `Fault` has no case for it, so the model always answers 401 when there is no session user.
- JSON body fields are strings. A non-string `matchId` or `predictedWinner` is not modelled.
- Logging (`console.error`), the UI components, hooks, middleware, other API routes, the admin point-calculation route and the seed scripts are not part of this model.
