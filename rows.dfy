/**
 * The rows of the gamification schema (the gm_* tables) and the small
 * wrapper values the data access object hands back to its callers.
 */
module Rows {

  /** A value or SQL NULL / PHP null. */
  datatype Option<+T> = None | Some(value: T)

  /** id_user: the host application's identifier of a user. */
  type UserId = int

  /** A DATETIME value (grant_date, event_date); only its order matters here. */
  type Timestamp = int

  /** A row of gm_badges. */
  datatype Badge = Badge(id: int, alias: string, title: string, description: string, imageUrl: Option<string>)

  /** A row of gm_levels; `points` is the threshold of the level. */
  datatype Level = Level(id: int, points: int, title: string, description: string)

  /** The columns of gm_events that saveEvent writes (everything but the id). */
  datatype EventDefinition = EventDefinition(
    alias: string,
    description: string,
    allowRepetitions: bool,
    requiredRepetitions: Option<int>,
    idEachBadge: Option<int>,
    idReachBadge: Option<int>,
    eachPoints: Option<int>,
    reachPoints: Option<int>,
    maxPoints: Option<int>,
    eachCallback: Option<string>,
    reachCallback: Option<string>,
    combinable: bool)

  /** A row of gm_events. */
  datatype Event = Event(id: int, definition: EventDefinition)

  /** The non-key columns of gm_user_scores, whose key is id_user. */
  datatype ScoreRow = ScoreRow(points: int, idLevel: int)

  /** The non-key columns of gm_user_events, whose key is (id_user, id_event). */
  datatype EventCounters = EventCounters(eventCounter: int, pointsCounter: int)

  /** The non-key columns of gm_user_badges, whose key is (id_user, id_badge). */
  datatype BadgeGrant = BadgeGrant(badgesCounter: int, grantDate: Timestamp)

  /** A whole gm_user_scores row, as the ranking and getUserScore return it. */
  datatype UserScore = UserScore(idUser: UserId, points: int, idLevel: int)

  /** A whole gm_user_events row. */
  datatype UserEvent = UserEvent(idUser: UserId, idEvent: int, eventCounter: int, pointsCounter: int)

  /** A whole gm_user_badges row. */
  datatype UserBadge = UserBadge(idUser: UserId, idBadge: int, badgesCounter: int, grantDate: Timestamp)

  /** A row of gm_user_alerts: a pending notice of a badge or of a level. */
  datatype UserAlert = UserAlert(idUser: UserId, idBadge: Option<int>, idLevel: Option<int>)

  /** A row of gm_user_logs. */
  datatype UserLog = UserLog(
    idUser: UserId,
    idEvent: int,
    eventDate: Timestamp,
    points: Option<int>,
    idBadge: Option<int>,
    idLevel: Option<int>)

  /** What getUserScore hands back: the stored row, or a fresh UserScore
      object on which only the user id and the level id have been set. */
  datatype ScoreLookup =
    | Stored(score: UserScore)
    | Unsaved(idUser: UserId, idLevel: Option<int>)

  /** The exception saveBadge throws. */
  datatype Fault = DuplicateAlias(alias: string)

  datatype Result<+T> = Success(value: T) | Failure(fault: Fault)

  /** Whether a call returned or stopped the PHP script (die). */
  datatype Outcome = Completed | Halted(message: string)
}
