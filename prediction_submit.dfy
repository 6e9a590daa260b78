// `POST /api/predictions/submit`: the ordered chain of guards a prediction
// must pass (signed in, known user, fields present, known match, match
// upcoming, before kickoff, a team of the match, first prediction for the
// pair) and the insertion of the new prediction into the store, which
// holds at most one prediction per (user, match) pair.

module PredictionSubmit {
  import opened Domain

  /** The two fields read from the JSON body; a missing field is None. */
  datatype SubmitBody = SubmitBody(matchId: Option<string>, predictedWinner: Option<string>)

  /**
   * Where the data-access layer or body parsing throws, if anywhere. A
   * failure only matters once the route reaches that call.
   */
  datatype Fault =
    | NoFault
    | UserLookupFails
    | BodyUnreadable
    | MatchLookupFails
    | ExistingLookupFails
    | CreateFails

  /** Why a submission is refused. */
  datatype Rejection =
    | Unauthorized
    | UserNotFound
    | MissingFields
    | MatchNotFound
    | NotUpcoming
    | Locked
    | NotATeam
    | AlreadyPredicted
    | ServerError

  function Status(r: Rejection): (code: int)
    ensures code == 400 || code == 401 || code == 404 || code == 500
  {
    match r
    case Unauthorized => 401
    case UserNotFound => 404
    case MissingFields => 400
    case MatchNotFound => 404
    case NotUpcoming => 400
    case Locked => 400
    case NotATeam => 400
    case AlreadyPredicted => 400
    case ServerError => 500
  }

  function Message(r: Rejection): string {
    match r
    case Unauthorized => "Unauthorized"
    case UserNotFound => "User not found"
    case MissingFields => "Missing required fields: matchId, predictedWinner"
    case MatchNotFound => "Match not found"
    case NotUpcoming => "Predictions can only be made for upcoming matches"
    case Locked => "Predictions are locked - match has already started"
    case NotATeam => "Predicted winner must be one of the match teams"
    case AlreadyPredicted => "You have already made a prediction for this match"
    case ServerError => "Failed to submit prediction"
  }

  const CreatedStatus: int := 201
  const CreatedMessage: string := "Prediction submitted successfully"

  /**
   * The route's reply: the status, success message and created prediction
   * with its match's teams and kickoff, or an error.
   */
  datatype SubmitResponse =
    | Created(status: int, message: string, id: nat, predictedWinner: string, homeTeam: string, awayTeam: string, kickoffTime: int)
    | Rejected(status: int, error: string)

  function Reject(r: Rejection): SubmitResponse {
    Rejected(Status(r), Message(r))
  }

  /** A submission that passed every guard. */
  datatype Accepted = Accepted(user: User, m: Match, predictedWinner: string)

  /** A body field is missing when absent or the empty string (both falsy). */
  predicate Present(field: Option<string>) {
    field.Some? && field.value != ""
  }

  /** The stored prediction of `userId` for `matchId`, if any (the unique-pair lookup). */
  function FindPrediction(predictions: seq<Prediction>, userId: UserId, matchId: MatchId): (r: Option<Prediction>)
    ensures r.Some? ==> r.value in predictions && r.value.userId == userId && r.value.matchId == matchId
    ensures r.None? <==> forall p :: p in predictions ==> !(p.userId == userId && p.matchId == matchId)
  {
    if |predictions| == 0 then None
    else if predictions[0].userId == userId && predictions[0].matchId == matchId then Some(predictions[0])
    else FindPrediction(predictions[1..], userId, matchId)
  }

  /**
   * The guard chain, in the route's order: the first guard that fails (or
   * the first data-access call that throws) decides the rejection.
   */
  function Check(users: seq<User>, matches: map<MatchId, Match>, predictions: seq<Prediction>,
                 sessionSub: Option<string>, body: SubmitBody, now: int, fault: Fault): Result<Accepted, Rejection>
  {
    if sessionSub.None? then Failure(Unauthorized)
    else if fault == UserLookupFails then Failure(ServerError)
    else match FindUserByAuth0Id(users, sessionSub.value)
      case None => Failure(UserNotFound)
      case Some(user) =>
        if fault == BodyUnreadable then Failure(ServerError)
        else if !Present(body.matchId) || !Present(body.predictedWinner) then Failure(MissingFields)
        else if fault == MatchLookupFails then Failure(ServerError)
        else if body.matchId.value !in matches then Failure(MatchNotFound)
        else
          var m := matches[body.matchId.value];
          var winner := body.predictedWinner.value;
          if m.status != Upcoming then Failure(NotUpcoming)
          else if now >= m.kickoffTime then Failure(Locked)
          else if winner != m.homeTeam && winner != m.awayTeam then Failure(NotATeam)
          else if fault == ExistingLookupFails then Failure(ServerError)
          else if FindPrediction(predictions, user.id, m.id).Some? then Failure(AlreadyPredicted)
          else if fault == CreateFails then Failure(ServerError)
          else Success(Accepted(user, m, winner))
  }

  /** The row `prisma.prediction.create` stores: no points yet, unresolved. */
  function NewPrediction(id: nat, a: Accepted, now: int): (p: Prediction)
    ensures p.points == 0 && p.isCorrect.None?
  {
    Prediction(id, a.user.id, a.m.id, a.predictedWinner, 0, None, now)
  }

  /** At most one prediction per (user, match) pair: the `userId_matchId` unique key. */
  predicate UniquePairs(predictions: seq<Prediction>) {
    forall i, j :: 0 <= i < j < |predictions| ==>
      !(predictions[i].userId == predictions[j].userId && predictions[i].matchId == predictions[j].matchId)
  }

  /** Every match is stored under its own id. */
  predicate KeyedById(matches: map<MatchId, Match>) {
    forall k :: k in matches ==> matches[k].id == k
  }

  /**
   * The store's invariant: the unique pair key, matches under their ids,
   * prediction ids below the next id, and every prediction pointing at a
   * stored match and a stored user.
   */
  predicate StoreValid(users: seq<User>, matches: map<MatchId, Match>, predictions: seq<Prediction>, nextId: nat) {
    && UniquePairs(predictions)
    && KeyedById(matches)
    && (forall i :: 0 <= i < |predictions| ==> predictions[i].id < nextId)
    && (forall i :: 0 <= i < |predictions| ==>
          predictions[i].matchId in matches && FindUserById(users, predictions[i].userId).Some?)
  }

  // ---------------------------------------------------------------------
  // The guard chain

  /** All guards at once, as an unordered conjunction. */
  predicate AllGuardsPass(users: seq<User>, matches: map<MatchId, Match>, predictions: seq<Prediction>,
                          sessionSub: Option<string>, body: SubmitBody, now: int) {
    && sessionSub.Some?
    && FindUserByAuth0Id(users, sessionSub.value).Some?
    && Present(body.matchId) && Present(body.predictedWinner)
    && body.matchId.value in matches
    && var m := matches[body.matchId.value];
      && m.status == Upcoming
      && now < m.kickoffTime
      && (body.predictedWinner.value == m.homeTeam || body.predictedWinner.value == m.awayTeam)
      && forall p :: p in predictions ==>
           !(p.userId == FindUserByAuth0Id(users, sessionSub.value).value.id && p.matchId == m.id)
  }

  /**
   * A submission is accepted exactly when every guard passes and no
   * data-access call throws; the accepted prediction names a team of an
   * upcoming match before its kickoff, for the session's user.
   */
  lemma {:induction false} AcceptedExactlyWhenAllGuardsPass(users: seq<User>, matches: map<MatchId, Match>, predictions: seq<Prediction>,
                                                           sessionSub: Option<string>, body: SubmitBody, now: int, fault: Fault)
    ensures Check(users, matches, predictions, sessionSub, body, now, fault).Success? <==>
      fault == NoFault && AllGuardsPass(users, matches, predictions, sessionSub, body, now)
    ensures Check(users, matches, predictions, sessionSub, body, now, fault).Success? ==>
      var a := Check(users, matches, predictions, sessionSub, body, now, fault).value;
      && a.user in users && a.user.auth0Id == sessionSub.value
      && a.m == matches[body.matchId.value]
      && a.predictedWinner == body.predictedWinner.value
      && (a.predictedWinner == a.m.homeTeam || a.predictedWinner == a.m.awayTeam)
      && a.m.status == Upcoming && now < a.m.kickoffTime
  {
    var r := Check(users, matches, predictions, sessionSub, body, now, fault);
    if sessionSub.Some? && FindUserByAuth0Id(users, sessionSub.value).Some? && Present(body.matchId) && body.matchId.value in matches {
      var user := FindUserByAuth0Id(users, sessionSub.value).value;
      var m := matches[body.matchId.value];
      var none := FindPrediction(predictions, user.id, m.id).None?;
      assert none <==> forall p :: p in predictions ==> !(p.userId == user.id && p.matchId == m.id);
    }
  }

  /** Without a session user the answer is 401, whatever else the request holds. */
  lemma UnauthorizedComesFirst(users: seq<User>, matches: map<MatchId, Match>, predictions: seq<Prediction>,
                               body: SubmitBody, now: int, fault: Fault)
    ensures Check(users, matches, predictions, None, body, now, fault) == Failure(Unauthorized)
  {
  }

  /** A match that is no longer upcoming is refused for its status even when it is also past kickoff. */
  lemma {:induction false} StatusCheckedBeforeKickoff(users: seq<User>, matches: map<MatchId, Match>, predictions: seq<Prediction>,
                                                     sub: string, body: SubmitBody, now: int, fault: Fault)
    requires FindUserByAuth0Id(users, sub).Some?
    requires Present(body.matchId) && Present(body.predictedWinner) && body.matchId.value in matches
    requires fault != UserLookupFails && fault != BodyUnreadable && fault != MatchLookupFails
    requires matches[body.matchId.value].status != Upcoming
    ensures Check(users, matches, predictions, Some(sub), body, now, fault) == Failure(NotUpcoming)
  {
  }

  /** Kickoff itself counts as started: a submission at `now == kickoffTime` is never accepted. */
  lemma {:induction false} LockedAtKickoff(users: seq<User>, matches: map<MatchId, Match>, predictions: seq<Prediction>,
                                          sessionSub: Option<string>, body: SubmitBody, fault: Fault)
    requires Present(body.matchId) && body.matchId.value in matches
    ensures !Check(users, matches, predictions, sessionSub, body, matches[body.matchId.value].kickoffTime, fault).Success?
  {
    AcceptedExactlyWhenAllGuardsPass(users, matches, predictions, sessionSub, body, matches[body.matchId.value].kickoffTime, fault);
  }

  /** Adding an accepted prediction keeps at most one prediction per pair. */
  lemma {:induction false} AcceptedKeepsPairsUnique(users: seq<User>, matches: map<MatchId, Match>, predictions: seq<Prediction>,
                                                   sessionSub: Option<string>, body: SubmitBody, now: int, fault: Fault, id: nat)
    requires UniquePairs(predictions)
    requires Check(users, matches, predictions, sessionSub, body, now, fault).Success?
    ensures UniquePairs(predictions + [NewPrediction(id, Check(users, matches, predictions, sessionSub, body, now, fault).value, now)])
  {
    var a := Check(users, matches, predictions, sessionSub, body, now, fault).value;
    var p := NewPrediction(id, a, now);
    var ps := predictions + [p];
    assert FindPrediction(predictions, a.user.id, a.m.id).None?;
    forall i, j | 0 <= i < j < |ps|
      ensures !(ps[i].userId == ps[j].userId && ps[i].matchId == ps[j].matchId)
    {
      if j == |predictions| {
        assert ps[i] in predictions;
      }
    }
  }

  /** Storing an accepted prediction under the next id keeps the store's invariant. */
  lemma {:induction false} AcceptedKeepsStoreValid(users: seq<User>, matches: map<MatchId, Match>, predictions: seq<Prediction>, nextId: nat,
                                                  sessionSub: Option<string>, body: SubmitBody, now: int, fault: Fault)
    requires StoreValid(users, matches, predictions, nextId)
    requires Check(users, matches, predictions, sessionSub, body, now, fault).Success?
    ensures StoreValid(users, matches,
      predictions + [NewPrediction(nextId, Check(users, matches, predictions, sessionSub, body, now, fault).value, now)], nextId + 1)
  {
    var a := Check(users, matches, predictions, sessionSub, body, now, fault).value;
    var ps := predictions + [NewPrediction(nextId, a, now)];
    AcceptedKeepsPairsUnique(users, matches, predictions, sessionSub, body, now, fault, nextId);
    AcceptedExactlyWhenAllGuardsPass(users, matches, predictions, sessionSub, body, now, fault);
    assert a.m.id == body.matchId.value;
    assert FindUserById(users, a.user.id).Some?;
    forall i | 0 <= i < |ps|
      ensures ps[i].id < nextId + 1 && ps[i].matchId in matches && FindUserById(users, ps[i].userId).Some?
    {
      if i < |predictions| {
        assert ps[i] == predictions[i];
      }
    }
  }

  /**
   * Repeating an accepted submission against the store it produced is
   * never accepted again: the second one for the same pair is refused.
   */
  lemma {:induction false} ResubmissionIsRefused(users: seq<User>, matches: map<MatchId, Match>, predictions: seq<Prediction>,
                                                sessionSub: Option<string>, body: SubmitBody, now: int, fault: Fault, id: nat)
    requires KeyedById(matches)
    requires Check(users, matches, predictions, sessionSub, body, now, fault).Success?
    ensures var a := Check(users, matches, predictions, sessionSub, body, now, fault).value;
      var after := predictions + [NewPrediction(id, a, now)];
      Check(users, matches, after, sessionSub, body, now, NoFault) == Failure(AlreadyPredicted)
  {
    var a := Check(users, matches, predictions, sessionSub, body, now, fault).value;
    var p := NewPrediction(id, a, now);
    var after := predictions + [p];
    AcceptedExactlyWhenAllGuardsPass(users, matches, predictions, sessionSub, body, now, fault);
    assert p in after;
    var user := FindUserByAuth0Id(users, sessionSub.value).value;
    assert FindPrediction(after, user.id, a.m.id).Some?;
  }

  // ---------------------------------------------------------------------
  // The store

  /** The tables the route reads and writes. */
  class PredictionStore {
    var users: seq<User>
    var matches: map<MatchId, Match>
    var predictions: seq<Prediction>
    /** The id the next created prediction receives. */
    var nextId: nat

    ghost predicate Valid()
      reads this
    {
      StoreValid(users, matches, predictions, nextId)
    }

    constructor(users: seq<User>, matches: map<MatchId, Match>)
      requires KeyedById(matches)
      ensures Valid()
      ensures this.users == users && this.matches == matches
      ensures predictions == [] && nextId == 0
    {
      this.users := users;
      this.matches := matches;
      predictions := [];
      nextId := 0;
    }

    /**
     * The route handler: runs the guards in order and, when all pass,
     * appends the new prediction and answers 201; otherwise answers with
     * the first failing guard's status and message and changes nothing.
     */
    method Submit(sessionSub: Option<string>, body: SubmitBody, now: int, fault: Fault) returns (response: SubmitResponse)
      requires Valid()
      modifies this
      ensures Valid()
      ensures users == old(users) && matches == old(matches)
      ensures match Check(old(users), old(matches), old(predictions), sessionSub, body, now, fault)
        case Failure(r) =>
          && response == Reject(r)
          && predictions == old(predictions) && nextId == old(nextId)
        case Success(a) =>
          && predictions == old(predictions) + [NewPrediction(old(nextId), a, now)]
          && nextId == old(nextId) + 1
          && response == Created(CreatedStatus, CreatedMessage, old(nextId), a.predictedWinner, a.m.homeTeam, a.m.awayTeam, a.m.kickoffTime)
    {
      if sessionSub.None? {
        return Reject(Unauthorized);
      }
      if fault == UserLookupFails {
        return Reject(ServerError);
      }
      var found := FindUserByAuth0Id(users, sessionSub.value);
      if found.None? {
        return Reject(UserNotFound);
      }
      var user := found.value;
      if fault == BodyUnreadable {
        return Reject(ServerError);
      }
      if !Present(body.matchId) || !Present(body.predictedWinner) {
        return Reject(MissingFields);
      }
      var matchId := body.matchId.value;
      var predictedWinner := body.predictedWinner.value;
      if fault == MatchLookupFails {
        return Reject(ServerError);
      }
      if matchId !in matches {
        return Reject(MatchNotFound);
      }
      var m := matches[matchId];
      if m.status != Upcoming {
        return Reject(NotUpcoming);
      }
      if now >= m.kickoffTime {
        return Reject(Locked);
      }
      if predictedWinner != m.homeTeam && predictedWinner != m.awayTeam {
        return Reject(NotATeam);
      }
      if fault == ExistingLookupFails {
        return Reject(ServerError);
      }
      var existing := FindPrediction(predictions, user.id, matchId);
      if existing.Some? {
        return Reject(AlreadyPredicted);
      }
      if fault == CreateFails {
        return Reject(ServerError);
      }
      var a := Accepted(user, m, predictedWinner);
      var prediction := NewPrediction(nextId, a, now);
      AcceptedKeepsStoreValid(users, matches, predictions, nextId, sessionSub, body, now, fault);
      predictions := predictions + [prediction];
      nextId := nextId + 1;
      response := Created(CreatedStatus, CreatedMessage, prediction.id, prediction.predictedWinner, m.homeTeam, m.awayTeam, m.kickoffTime);
    }
  }
}
