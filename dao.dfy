/**
 * The data access object of the gamification library: every gm_* table is
 * a field of one object, and every public operation is one transition of
 * that state (a writing method) or one query of it (a function).
 */
module GamificationDAO {
  import opened Rows
  import opened Selections
  import opened Collections
  import opened Statements

  /** "WHERE id_user = u" on gm_user_alerts. */
  function AlertOf(u: UserId): UserAlert -> bool
  {
    (a: UserAlert) => a.idUser == u
  }

  /** The gm_user_alerts rows that "DELETE ... WHERE id_user = u" keeps. */
  function AlertNotOf(u: UserId): UserAlert -> bool
  {
    (a: UserAlert) => a.idUser != u
  }

  /** "WHERE id_user = u" on gm_user_logs. */
  function LogOf(u: UserId): UserLog -> bool
  {
    (l: UserLog) => l.idUser == u
  }

  class DAO {
    // Catalog: gm_badges, gm_levels and gm_events, each in id order, with
    // the AUTO_INCREMENT value its next INSERT receives (lastInsertId).
    var badges: seq<Badge>
    var nextBadgeId: int
    var levels: seq<Level>
    var nextLevelId: int
    var events: seq<Event>
    var nextEventId: int

    // Per-user tables keyed by their primary keys.
    var userScores: map<UserId, ScoreRow>
    var userEvents: map<(UserId, int), EventCounters>
    var userBadges: map<(UserId, int), BadgeGrant>

    // Per-user tables without a key of their own, in insertion order.
    var userAlerts: seq<UserAlert>
    var userLogs: seq<UserLog>

    /** Catalog ids are positive, increase along the table and stay below the
        AUTO_INCREMENT value; badge aliases are unique (saveBadge is the only
        way in and checks them); every alert refers to a badge or a level. */
    ghost predicate Valid()
      reads this
    {
      && nextBadgeId >= 1 && nextLevelId >= 1 && nextEventId >= 1
      && (forall i, j :: 0 <= i < j < |badges| ==> badges[i].id < badges[j].id && badges[i].alias != badges[j].alias)
      && (forall i :: 0 <= i < |badges| ==> 1 <= badges[i].id < nextBadgeId)
      && (forall i, j :: 0 <= i < j < |levels| ==> levels[i].id < levels[j].id)
      && (forall i :: 0 <= i < |levels| ==> 1 <= levels[i].id < nextLevelId)
      && (forall i, j :: 0 <= i < j < |events| ==> events[i].id < events[j].id)
      && (forall i :: 0 <= i < |events| ==> 1 <= events[i].id < nextEventId)
      && (forall a :: a in userAlerts ==> a.idBadge.Some? != a.idLevel.Some?)
    }

    /** A store over a freshly created, empty schema. */
    constructor ()
      ensures Valid()
      ensures badges == [] && levels == [] && events == []
      ensures nextBadgeId == 1 && nextLevelId == 1 && nextEventId == 1
      ensures userScores == map[] && userEvents == map[] && userBadges == map[]
      ensures userAlerts == [] && userLogs == []
    {
      badges, levels, events := [], [], [];
      nextBadgeId, nextLevelId, nextEventId := 1, 1, 1;
      userScores, userEvents, userBadges := map[], map[], map[];
      userAlerts, userLogs := [], [];
    }

    // -------------------------------------------------------------------
    // Catalog
    // -------------------------------------------------------------------

    /** getBadgeById: the badge with that id (None stands for `new Badge(null)`). */
    function GetBadgeById(id: int): (r: Option<Badge>)
      reads this
      ensures r.Some? ==> r.value in badges && r.value.id == id
      ensures r.None? <==> forall b :: b in badges ==> b.id != id
    {
      FindFirst(badges, (b: Badge) => b.id == id)
    }

    /** getBadgeByAlias: the badge with that alias (None stands for `new Badge(null)`). */
    function GetBadgeByAlias(alias: string): (r: Option<Badge>)
      reads this
      ensures r.Some? ==> r.value in badges && r.value.alias == alias
      ensures r.None? <==> forall b :: b in badges ==> b.alias != alias
    {
      FindFirst(badges, (b: Badge) => b.alias == alias)
    }

    /** saveBadge: refuses an alias already in use and changes nothing;
        otherwise inserts one badge under the next id and returns it as read back. */
    method SaveBadge(alias: string, title: string, description: string, imageUrl: Option<string>) returns (r: Result<Badge>)
      requires Valid()
      modifies this`badges, this`nextBadgeId
      ensures Valid()
      ensures old(GetBadgeByAlias(alias)).Some? ==>
        r == Failure(DuplicateAlias(alias)) && badges == old(badges) && nextBadgeId == old(nextBadgeId)
      ensures old(GetBadgeByAlias(alias)).None? ==>
        && r == Success(Badge(old(nextBadgeId), alias, title, description, imageUrl))
        && badges == old(badges) + [r.value]
        && nextBadgeId == old(nextBadgeId) + 1
    {
      if GetBadgeByAlias(alias).Some? {
        return Failure(DuplicateAlias(alias));
      }
      var id := nextBadgeId;
      badges := badges + [Badge(id, alias, title, description, imageUrl)];
      nextBadgeId := nextBadgeId + 1;
      assert badges[|badges| - 1].id == id;
      var saved := GetBadgeById(id);
      r := Success(saved.value);
    }

    /** getLevelById: the level with that id (None for a missing row). */
    function GetLevelById(id: int): (r: Option<Level>)
      reads this
      ensures r.Some? ==> r.value in levels && r.value.id == id
      ensures r.None? <==> forall l :: l in levels ==> l.id != id
    {
      FindFirst(levels, (l: Level) => l.id == id)
    }

    /** getEventById: the event with that id (None stands for `new Event(null)`). */
    function GetEventById(id: int): (r: Option<Event>)
      reads this
      ensures r.Some? ==> r.value in events && r.value.id == id
      ensures r.None? <==> forall e :: e in events ==> e.id != id
    {
      FindFirst(events, (e: Event) => e.id == id)
    }

    /** saveLevel: inserts one level under the next id and returns it as read back. */
    method SaveLevel(points: int, title: string, description: string) returns (r: Level)
      requires Valid()
      modifies this`levels, this`nextLevelId
      ensures Valid()
      ensures r == Level(old(nextLevelId), points, title, description)
      ensures levels == old(levels) + [r] && nextLevelId == old(nextLevelId) + 1
    {
      var id := nextLevelId;
      levels := levels + [Level(id, points, title, description)];
      nextLevelId := nextLevelId + 1;
      assert levels[|levels| - 1].id == id;
      var saved := GetLevelById(id);
      r := saved.value;
    }

    /** saveEvent: inserts one event record under the next id and returns it as read back. */
    method SaveEvent(definition: EventDefinition) returns (r: Event)
      requires Valid()
      modifies this`events, this`nextEventId
      ensures Valid()
      ensures r == Event(old(nextEventId), definition)
      ensures events == old(events) + [r] && nextEventId == old(nextEventId) + 1
    {
      var id := nextEventId;
      events := events + [Event(id, definition)];
      nextEventId := nextEventId + 1;
      assert events[|events| - 1].id == id;
      var saved := GetEventById(id);
      r := saved.value;
    }

    /** getFirstLevel: a level of least points (None when no level exists). */
    function GetFirstLevel(): (r: Option<Level>)
      reads this
      ensures r.None? <==> levels == []
      ensures r.Some? ==> r.value in levels && forall l :: l in levels ==> r.value.points <= l.points
    {
      FirstLowest(levels)
    }

    /** getNextLevel: among the levels other than `levelId` with more points
        than `score`, one of least points; None when there is none. */
    function GetNextLevel(levelId: int, score: int): (r: Option<Level>)
      reads this
      ensures r.Some? ==> r.value in levels && r.value.id != levelId && r.value.points > score
      ensures r.Some? ==> forall l :: l in levels && l.id != levelId && l.points > score ==> r.value.points <= l.points
      ensures r.None? <==> forall l :: l in levels ==> l.id == levelId || l.points <= score
    {
      FirstLowest(Filter(levels, Above(levelId, score)))
    }

    /** getLevels: null on an empty table, else every level under its id. */
    method GetLevels() returns (r: Option<map<int, Level>>)
      ensures r.None? <==> levels == []
      ensures r.Some? ==> forall i :: 0 <= i < |levels| ==> levels[i].id in r.value
      ensures r.Some? ==> forall id :: id in r.value ==> r.value[id] in levels && r.value[id].id == id
    {
      if levels == [] {
        return None;
      }
      var a := ToArrayObject(levels, Some((l: Level) => l.id));
      return Some(a.entries);
    }

    /** getBadges: null on an empty table, else every badge under its id. */
    method GetBadges() returns (r: Option<map<int, Badge>>)
      ensures r.None? <==> badges == []
      ensures r.Some? ==> forall i :: 0 <= i < |badges| ==> badges[i].id in r.value
      ensures r.Some? ==> forall id :: id in r.value ==> r.value[id] in badges && r.value[id].id == id
    {
      if badges == [] {
        return None;
      }
      var a := ToArrayObject(badges, Some((b: Badge) => b.id));
      return Some(a.entries);
    }

    /** getEvents: null on an empty table, else the events under their
        aliases, where the last event of an alias wins. */
    method GetEvents() returns (r: Option<map<string, Event>>)
      ensures r.None? <==> events == []
      ensures r.Some? ==> forall i :: 0 <= i < |events| ==> events[i].definition.alias in r.value
      ensures r.Some? ==> forall alias :: alias in r.value ==>
        exists i :: 0 <= i < |events| && events[i] == r.value[alias] && events[i].definition.alias == alias &&
          forall j :: i < j < |events| ==> events[j].definition.alias != alias
    {
      if events == [] {
        return None;
      }
      var a := ToArrayObject(events, Some((e: Event) => e.definition.alias));
      return Some(a.entries);
    }

    // -------------------------------------------------------------------
    // Per-user reads
    // -------------------------------------------------------------------

    /** getUserScore: the stored row, or else an unsaved score for that user
        on the first level; reading never creates a row. */
    function GetUserScore(u: UserId): (r: ScoreLookup)
      reads this
      ensures u in userScores ==> r == Stored(ScoreOf(userScores, u))
      ensures u !in userScores ==> r.Unsaved? && r.idUser == u
      ensures u !in userScores ==> (r.idLevel.Some? <==> levels != [])
      ensures u !in userScores && r.idLevel.Some? ==>
        exists l :: l in levels && l.id == r.idLevel.value && forall m :: m in levels ==> l.points <= m.points
    {
      if u in userScores then Stored(ScoreOf(userScores, u))
      else Unsaved(u, match GetFirstLevel() case Some(l) => Some(l.id) case None => None)
    }

    /** getUserEvent: the (u, e) row, or None for the blank `new UserEvent()`. */
    function GetUserEvent(u: UserId, e: int): (r: Option<UserEvent>)
      reads this
      ensures r.Some? <==> (u, e) in userEvents
      ensures r.Some? ==> r.value.idUser == u && r.value.idEvent == e
      ensures r.Some? ==> EventCounters(r.value.eventCounter, r.value.pointsCounter) == userEvents[(u, e)]
    {
      if (u, e) in userEvents then
        Some(UserEvent(u, e, userEvents[(u, e)].eventCounter, userEvents[(u, e)].pointsCounter))
      else None
    }

    /** getUserBadges: null when the user holds no badge, else the user's rows
        (the query has no ORDER BY, so they are given as a set). */
    function GetUserBadges(u: UserId): (r: Option<set<UserBadge>>)
      reads this
      ensures r.None? <==> forall k :: k in userBadges ==> k.0 != u
      ensures r.Some? ==> forall row :: row in r.value <==>
        row.idUser == u && (u, row.idBadge) in userBadges &&
        userBadges[(u, row.idBadge)] == BadgeGrant(row.badgesCounter, row.grantDate)
    {
      var rows := set k | k in userBadges && k.0 == u :: UserBadge(u, k.1, userBadges[k].badgesCounter, userBadges[k].grantDate);
      assert forall k :: k in userBadges && k.0 == u ==>
        UserBadge(u, k.1, userBadges[k].badgesCounter, userBadges[k].grantDate) in rows;
      if rows == {} then None else Some(rows)
    }

    /** getUserEvents: null when the user has no event row, else the user's rows. */
    function GetUserEvents(u: UserId): (r: Option<set<UserEvent>>)
      reads this
      ensures r.None? <==> forall k :: k in userEvents ==> k.0 != u
      ensures r.Some? ==> forall row :: row in r.value <==>
        row.idUser == u && (u, row.idEvent) in userEvents &&
        userEvents[(u, row.idEvent)] == EventCounters(row.eventCounter, row.pointsCounter)
    {
      var rows := set k | k in userEvents && k.0 == u :: UserEvent(u, k.1, userEvents[k].eventCounter, userEvents[k].pointsCounter);
      assert forall k :: k in userEvents && k.0 == u ==>
        UserEvent(u, k.1, userEvents[k].eventCounter, userEvents[k].pointsCounter) in rows;
      if rows == {} then None else Some(rows)
    }

    /** hasBadgeUser: whether a gm_user_badges row exists for the pair. */
    function HasBadgeUser(u: UserId, b: int): (r: bool)
      reads this
      ensures r <==> GetUserBadges(u).Some? && exists row :: row in GetUserBadges(u).value && row.idBadge == b
    {
      if (u, b) in userBadges then
        assert UserBadge(u, b, userBadges[(u, b)].badgesCounter, userBadges[(u, b)].grantDate) in GetUserBadges(u).value;
        true
      else false
    }

    /** getUsersPointsRanking: the first `limit` rows by points descending and
        id_user ascending; null when that is empty. */
    function GetUsersPointsRanking(limit: nat): (r: Option<seq<UserScore>>)
      reads this
      ensures r.None? <==> limit == 0 || userScores == map[]
      ensures r.Some? ==> |r.value| == if limit < |userScores.Keys| then limit else |userScores.Keys|
      ensures r.Some? ==> forall i :: 0 <= i < |r.value| ==>
        r.value[i].idUser in userScores && r.value[i] == ScoreOf(userScores, r.value[i].idUser)
      ensures r.Some? ==> forall i, j :: 0 <= i < j < |r.value| ==> RanksBefore(r.value[i], r.value[j])
      ensures r.Some? ==> forall i, u ::
        (0 <= i < |r.value| && u in userScores && forall j :: 0 <= j < |r.value| ==> r.value[j].idUser != u) ==>
          RanksBefore(r.value[i], ScoreOf(userScores, u))
    {
      var top := TopRanked(userScores, limit);
      assert userScores == map[] <==> |userScores.Keys| == 0;
      if top == [] then None else Some(top)
    }

    /** getUserLog: null when the user has no log row, else all of them,
        latest event first. */
    function GetUserLog(u: UserId): (r: Option<seq<UserLog>>)
      reads this
      ensures r.None? <==> forall l :: l in userLogs ==> l.idUser != u
      ensures r.Some? ==> NewestFirst(r.value)
      ensures r.Some? ==> forall l :: multiset(r.value)[l] == if l.idUser == u then multiset(userLogs)[l] else 0
    {
      var mine := Filter(userLogs, LogOf(u));
      FilterCount(userLogs, LogOf(u));
      assert mine != [] ==> mine[0] in mine;
      if mine == [] then None else Some(SortByDateDesc(mine))
    }

    // -------------------------------------------------------------------
    // Grants and counters
    // -------------------------------------------------------------------

    /** grantBadgeToUser: a first grant creates the row with counter 1 and the
        given date (or now); a repeat grant only increments the counter. */
    method GrantBadgeToUser(u: UserId, b: int, grantDate: Option<Timestamp>, now: Timestamp) returns (ok: bool)
      requires Valid()
      modifies this`userBadges
      ensures Valid()
      ensures ok
      ensures userBadges == GrantBadge(old(userBadges), u, b, if grantDate.Some? then grantDate.value else now)
      ensures HasBadgeUser(u, b)
    {
      var date := if grantDate.Some? then grantDate.value else now;
      userBadges := GrantBadge(userBadges, u, b, date);
      ok := true;
    }

    /** grantLevelToUser: level id 0 stops the script before any write;
        otherwise only the level of an existing score row changes. */
    method GrantLevelToUser(u: UserId, levelId: int) returns (r: Outcome)
      requires Valid()
      modifies this`userScores
      ensures Valid()
      ensures levelId == 0 ==> r == Halted("00") && userScores == old(userScores)
      ensures levelId != 0 ==> r == Completed && userScores == SetLevel(old(userScores), u, levelId)
    {
      if levelId == 0 {
        return Halted("00");
      }
      userScores := SetLevel(userScores, u, levelId);
      r := Completed;
    }

    /** grantPointsToUser: creates the row with these points on level 1, or
        adds them to the existing row. */
    method GrantPointsToUser(u: UserId, points: int) returns (ok: bool)
      requires Valid()
      modifies this`userScores
      ensures Valid()
      ensures ok
      ensures userScores == AddPoints(old(userScores), u, points)
    {
      userScores := AddPoints(userScores, u, points);
      ok := true;
    }

    /** increaseEventCounter: creates the (u, e) row with counter 1, or adds 1. */
    method IncreaseEventCounter(u: UserId, e: int) returns (ok: bool)
      requires Valid()
      modifies this`userEvents
      ensures Valid()
      ensures ok
      ensures userEvents == IncrementEvent(old(userEvents), u, e)
    {
      userEvents := IncrementEvent(userEvents, u, e);
      ok := true;
    }

    /** increaseEventPoints: adds to the points of an existing (u, e) row only. */
    method IncreaseEventPoints(u: UserId, e: int, points: int) returns (ok: bool)
      requires Valid()
      modifies this`userEvents
      ensures Valid()
      ensures ok
      ensures userEvents == AddEventPoints(old(userEvents), u, e, points)
    {
      userEvents := AddEventPoints(userEvents, u, e, points);
      ok := true;
    }

    /** setEventCounter (event id first, then user id): overwrites the counter
        of an existing (user, event) row only. */
    method SetEventCounter(idEvent: int, idUser: UserId, eventCounter: int) returns (ok: bool)
      requires Valid()
      modifies this`userEvents
      ensures Valid()
      ensures ok
      ensures userEvents == SetEventCount(old(userEvents), idUser, idEvent, eventCounter)
    {
      userEvents := SetEventCount(userEvents, idUser, idEvent, eventCounter);
      ok := true;
    }

    // -------------------------------------------------------------------
    // Alerts and logs
    // -------------------------------------------------------------------

    /** saveBadgeAlert: appends one badge alert, level reference null. */
    method SaveBadgeAlert(u: UserId, b: int) returns (ok: bool)
      requires Valid()
      modifies this`userAlerts
      ensures Valid() && ok
      ensures userAlerts == old(userAlerts) + [UserAlert(u, Some(b), None)]
      ensures Filter(userAlerts, AlertOf(u)) == Filter(old(userAlerts), AlertOf(u)) + [UserAlert(u, Some(b), None)]
    {
      FilterAppend(userAlerts, UserAlert(u, Some(b), None), AlertOf(u));
      userAlerts := userAlerts + [UserAlert(u, Some(b), None)];
      ok := true;
    }

    /** saveLevelAlert: appends one level alert, badge reference null. */
    method SaveLevelAlert(u: UserId, lid: int) returns (ok: bool)
      requires Valid()
      modifies this`userAlerts
      ensures Valid() && ok
      ensures userAlerts == old(userAlerts) + [UserAlert(u, None, Some(lid))]
      ensures Filter(userAlerts, AlertOf(u)) == Filter(old(userAlerts), AlertOf(u)) + [UserAlert(u, None, Some(lid))]
    {
      FilterAppend(userAlerts, UserAlert(u, None, Some(lid)), AlertOf(u));
      userAlerts := userAlerts + [UserAlert(u, None, Some(lid))];
      ok := true;
    }

    /** getUserAlerts: the user's pending alerts in creation order (null when
        none); with resetAlerts they are deleted, and only they. */
    method GetUserAlerts(u: UserId, resetAlerts: bool) returns (r: Option<seq<UserAlert>>)
      requires Valid()
      modifies this`userAlerts
      ensures Valid()
      ensures var pending := Filter(old(userAlerts), AlertOf(u));
        r == if pending == [] then None else Some(pending)
      ensures userAlerts == if resetAlerts && r.Some? then Filter(old(userAlerts), AlertNotOf(u)) else old(userAlerts)
      ensures resetAlerts ==> Filter(userAlerts, AlertOf(u)) == []
      ensures forall v :: v != u ==> Filter(userAlerts, AlertOf(v)) == Filter(old(userAlerts), AlertOf(v))
      ensures r.Some? ==> forall a :: a in r.value ==> a.idUser == u && a.idBadge.Some? != a.idLevel.Some?
    {
      var result := Filter(userAlerts, AlertOf(u));
      if result != [] && resetAlerts {
        forall v | v != u
          ensures Filter(Filter(userAlerts, AlertNotOf(u)), AlertOf(v)) == Filter(userAlerts, AlertOf(v))
        {
          FilterNarrow(userAlerts, AlertNotOf(u), AlertOf(v));
        }
        FilterDisjoint(userAlerts, AlertNotOf(u), AlertOf(u));
        userAlerts := Filter(userAlerts, AlertNotOf(u));
      }
      if result != [] {
        var a := ToArrayObject<int, UserAlert>(result, None);
        r := Some(a.items);
      } else {
        r := None;
      }
    }

    /** logUserEvent: appends one log row dated `eventDate`, or now when none is given. */
    method LogUserEvent(u: UserId, e: int, points: Option<int>, badgeId: Option<int>, levelId: Option<int>,
                        eventDate: Option<Timestamp>, now: Timestamp) returns (ok: bool)
      requires Valid()
      modifies this`userLogs
      ensures Valid()
      ensures ok
      ensures userLogs == old(userLogs) + [UserLog(u, e, if eventDate.Some? then eventDate.value else now, points, badgeId, levelId)]
    {
      var date := if eventDate.Some? then eventDate.value else now;
      userLogs := userLogs + [UserLog(u, e, date, points, badgeId, levelId)];
      ok := true;
    }

    // -------------------------------------------------------------------
    // Reset
    // -------------------------------------------------------------------

    /** truncateDatabase: empties every per-user table; with
        truncateLevelBadge also the catalog, whose ids start again at 1. */
    method TruncateDatabase(truncateLevelBadge: bool) returns (ok: bool)
      requires Valid()
      modifies this
      ensures Valid() && ok
      ensures userScores == map[] && userEvents == map[] && userBadges == map[]
      ensures userAlerts == [] && userLogs == []
      ensures truncateLevelBadge ==>
        && badges == [] && levels == [] && events == []
        && nextBadgeId == 1 && nextLevelId == 1 && nextEventId == 1
      ensures !truncateLevelBadge ==>
        && badges == old(badges) && levels == old(levels) && events == old(events)
        && nextBadgeId == old(nextBadgeId) && nextLevelId == old(nextLevelId) && nextEventId == old(nextEventId)
    {
      userAlerts, userBadges, userEvents, userLogs, userScores := [], map[], map[], [], map[];
      if truncateLevelBadge {
        levels, badges, events := [], [], [];
        nextLevelId, nextBadgeId, nextEventId := 1, 1, 1;
      }
      ok := true;
    }
  }

  // ---------------------------------------------------------------------
  // The alert queue drain
  // ---------------------------------------------------------------------

  /** After getUserAlerts(u, true) the user has no pending alert, so a
      following call returns null. */
  lemma DrainLeavesNothing(alerts: seq<UserAlert>, u: UserId)
    ensures Filter(Filter(alerts, AlertNotOf(u)), AlertOf(u)) == []
  {
    FilterDisjoint(alerts, AlertNotOf(u), AlertOf(u));
  }

  /** The delete removes exactly the alerts it returned: those and the kept
      ones make up the table it started from. */
  lemma DrainRemovesExactly(alerts: seq<UserAlert>, u: UserId)
    ensures multiset(Filter(alerts, AlertOf(u))) + multiset(Filter(alerts, AlertNotOf(u))) == multiset(alerts)
  {
    FilterSplit(alerts, AlertOf(u), AlertNotOf(u));
  }

  /** The delete leaves every other user's queue as it was, in order. */
  lemma DrainKeepsOthers(alerts: seq<UserAlert>, u: UserId, v: UserId)
    requires v != u
    ensures Filter(Filter(alerts, AlertNotOf(u)), AlertOf(v)) == Filter(alerts, AlertOf(v))
  {
    FilterNarrow(alerts, AlertNotOf(u), AlertOf(v));
  }

  /** A fresh store with one level: a first grant of 0 points puts the user
      on that level, and a granted badge is then held. */
  method FirstLoginScenario(u: UserId)
  {
    var dao := new DAO();
    var bronze := dao.SaveLevel(0, "Bronze", "");
    var badge := dao.SaveBadge("first-login", "First login", "", None);
    assert badge.Success?;
    var _ := dao.GrantPointsToUser(u, 0);
    assert dao.GetUserScore(u) == Stored(UserScore(u, 0, bronze.id));
    var _ := dao.GrantBadgeToUser(u, badge.value.id, None, 0);
    assert dao.HasBadgeUser(u, badge.value.id);
  }

  /** A drained alert queue hands back its one alert, then is empty. */
  method AlertDrainScenario(u: UserId, idBadge: int)
  {
    var dao := new DAO();
    var _ := dao.SaveBadgeAlert(u, idBadge);
    assert Filter(dao.userAlerts, AlertOf(u)) == [UserAlert(u, Some(idBadge), None)];
    var alerts := dao.GetUserAlerts(u, true);
    assert alerts == Some([UserAlert(u, Some(idBadge), None)]);
    var again := dao.GetUserAlerts(u, false);
    assert again == None;
  }
}
