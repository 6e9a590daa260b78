// Entities of the fan hub as stored by the data-access layer: users,
// matches and predictions, plus the Option/Result wrappers used for the
// source's nullable fields and error returns.

module Domain {

  datatype Option<+T> = None | Some(value: T) {
    function GetOr(default: T): T {
      match this
      case Some(v) => v
      case None => default
    }
  }

  datatype Result<+T, +E> = Success(value: T) | Failure(error: E)

  type UserId = string
  type MatchId = string

  /** The Prisma `Role` enum. */
  datatype Role = UserRole | AdminRole

  /** A stored user. `name` and `picture` are nullable columns. */
  datatype User = User(
    id: UserId,
    auth0Id: string,
    email: string,
    name: Option<string>,
    picture: Option<string>,
    role: Role)

  /** The Prisma `MatchStatus` enum: a strict UPCOMING -> LIVE -> COMPLETED lifecycle. */
  datatype MatchStatus = Upcoming | Live | Completed

  /**
   * A fixture. Scores are null until the match has started; `kickoffTime`
   * is a timestamp in milliseconds.
   */
  datatype Match = Match(
    id: MatchId,
    round: int,
    homeTeam: string,
    awayTeam: string,
    homeScore: Option<int>,
    awayScore: Option<int>,
    status: MatchStatus,
    kickoffTime: int)

  /**
   * One user's guess for one match. `isCorrect` is the tri-state column:
   * None = unresolved, Some(true) / Some(false) = resolved.
   */
  datatype Prediction = Prediction(
    id: nat,
    userId: UserId,
    matchId: MatchId,
    predictedWinner: string,
    points: nat,
    isCorrect: Option<bool>,
    createdAt: int)

  /** The first stored user with the given id (ids are unique in the schema). */
  function FindUserById(users: seq<User>, id: UserId): (r: Option<User>)
    ensures r.Some? ==> r.value in users && r.value.id == id
    ensures r.None? <==> forall u :: u in users ==> u.id != id
  {
    if |users| == 0 then None
    else if users[0].id == id then Some(users[0])
    else FindUserById(users[1..], id)
  }

  /** The first stored user with the given Auth0 subject (unique in the schema). */
  function FindUserByAuth0Id(users: seq<User>, sub: string): (r: Option<User>)
    ensures r.Some? ==> r.value in users && r.value.auth0Id == sub
    ensures r.None? <==> forall u :: u in users ==> u.auth0Id != sub
  {
    if |users| == 0 then None
    else if users[0].auth0Id == sub then Some(users[0])
    else FindUserByAuth0Id(users[1..], sub)
  }
}
