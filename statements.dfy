/**
 * The writing SQL statements of the data access object, as functions from
 * the contents of one keyed table to its new contents.  A map holds one
 * row per primary key, so "at most one row per (user, event)" and "per
 * (user, badge)" hold of every value these functions return.
 *
 * INSERT ... ON DUPLICATE KEY UPDATE is an upsert: it creates the row when
 * the key is absent and otherwise updates only the columns it names.  A
 * plain UPDATE ... WHERE key changes nothing when the key is absent.
 */
module Statements {
  import opened Rows
  import opened Selections

  /** The id_level that grantPointsToUser writes into a new score row: the
      literal 1 bound to ':firstlevel', whichever level has the least points. */
  const NewScoreLevel := 1

  /** points_counter of a gm_user_events row that increaseEventCounter creates
      (the column default; the schema is not part of this model). */
  const NewPointsCounter := 0

  /** grantPointsToUser: INSERT (u, p, 1) ON DUPLICATE KEY UPDATE points = points + p. */
  function AddPoints(scores: map<UserId, ScoreRow>, u: UserId, p: int): (r: map<UserId, ScoreRow>)
    ensures r.Keys == scores.Keys + {u}
    ensures u !in scores ==> r[u] == ScoreRow(p, NewScoreLevel)
    ensures u in scores ==> r[u].points == scores[u].points + p && r[u].idLevel == scores[u].idLevel
    ensures forall v :: v in scores && v != u ==> r[v] == scores[v]
  {
    if u in scores then scores[u := scores[u].(points := scores[u].points + p)]
    else scores[u := ScoreRow(p, NewScoreLevel)]
  }

  /** grantLevelToUser: UPDATE ... SET id_level = lid WHERE id_user = u. */
  function SetLevel(scores: map<UserId, ScoreRow>, u: UserId, lid: int): (r: map<UserId, ScoreRow>)
    ensures r.Keys == scores.Keys
    ensures u in scores ==> r[u].idLevel == lid && r[u].points == scores[u].points
    ensures forall v :: v in scores && v != u ==> r[v] == scores[v]
  {
    if u in scores then scores[u := scores[u].(idLevel := lid)] else scores
  }

  /** increaseEventCounter: INSERT (u, e, 1) ON DUPLICATE KEY UPDATE event_counter = event_counter + 1. */
  function IncrementEvent(events: map<(UserId, int), EventCounters>, u: UserId, e: int): (r: map<(UserId, int), EventCounters>)
    ensures r.Keys == events.Keys + {(u, e)}
    ensures (u, e) !in events ==> r[(u, e)] == EventCounters(1, NewPointsCounter)
    ensures (u, e) in events ==>
      r[(u, e)].eventCounter == events[(u, e)].eventCounter + 1 &&
      r[(u, e)].pointsCounter == events[(u, e)].pointsCounter
    ensures forall k :: k in events && k != (u, e) ==> r[k] == events[k]
  {
    if (u, e) in events then events[(u, e) := events[(u, e)].(eventCounter := events[(u, e)].eventCounter + 1)]
    else events[(u, e) := EventCounters(1, NewPointsCounter)]
  }

  /** increaseEventPoints: UPDATE ... SET points_counter = points_counter + p WHERE (u, e). */
  function AddEventPoints(events: map<(UserId, int), EventCounters>, u: UserId, e: int, p: int): (r: map<(UserId, int), EventCounters>)
    ensures r.Keys == events.Keys
    ensures (u, e) in events ==>
      r[(u, e)].pointsCounter == events[(u, e)].pointsCounter + p &&
      r[(u, e)].eventCounter == events[(u, e)].eventCounter
    ensures forall k :: k in events && k != (u, e) ==> r[k] == events[k]
  {
    if (u, e) in events then events[(u, e) := events[(u, e)].(pointsCounter := events[(u, e)].pointsCounter + p)]
    else events
  }

  /** setEventCounter: UPDATE ... SET event_counter = c WHERE (u, e). */
  function SetEventCount(events: map<(UserId, int), EventCounters>, u: UserId, e: int, c: int): (r: map<(UserId, int), EventCounters>)
    ensures r.Keys == events.Keys
    ensures (u, e) in events ==>
      r[(u, e)].eventCounter == c && r[(u, e)].pointsCounter == events[(u, e)].pointsCounter
    ensures forall k :: k in events && k != (u, e) ==> r[k] == events[k]
  {
    if (u, e) in events then events[(u, e) := events[(u, e)].(eventCounter := c)] else events
  }

  /** grantBadgeToUser: INSERT (u, b, 1, date) ON DUPLICATE KEY UPDATE badges_counter = badges_counter + 1. */
  function GrantBadge(grants: map<(UserId, int), BadgeGrant>, u: UserId, b: int, date: Timestamp): (r: map<(UserId, int), BadgeGrant>)
    ensures r.Keys == grants.Keys + {(u, b)}
    ensures (u, b) !in grants ==> r[(u, b)] == BadgeGrant(1, date)
    ensures (u, b) in grants ==>
      r[(u, b)].badgesCounter == grants[(u, b)].badgesCounter + 1 &&
      r[(u, b)].grantDate == grants[(u, b)].grantDate
    ensures forall k :: k in grants && k != (u, b) ==> r[k] == grants[k]
  {
    if (u, b) in grants then grants[(u, b) := grants[(u, b)].(badgesCounter := grants[(u, b)].badgesCounter + 1)]
    else grants[(u, b) := BadgeGrant(1, date)]
  }

  // ---------------------------------------------------------------------
  // Properties of sequences of statements
  // ---------------------------------------------------------------------

  /** increaseEventCounter(u, e) executed n times in a row. */
  function IncrementTimes(events: map<(UserId, int), EventCounters>, u: UserId, e: int, n: nat): map<(UserId, int), EventCounters>
  {
    if n == 0 then events else IncrementEvent(IncrementTimes(events, u, e, n - 1), u, e)
  }

  /** n increments of a pair add n to its counter (or start it at n), keep a
      single row for the pair, and leave every other row alone. */
  lemma {:induction false} IncrementRepeated(events: map<(UserId, int), EventCounters>, u: UserId, e: int, n: nat)
    requires n > 0
    ensures var r := IncrementTimes(events, u, e, n);
      && r.Keys == events.Keys + {(u, e)}
      && ((u, e) !in events ==> r[(u, e)] == EventCounters(n, NewPointsCounter))
      && ((u, e) in events ==> r[(u, e)] == EventCounters(events[(u, e)].eventCounter + n, events[(u, e)].pointsCounter))
      && forall k :: k in events && k != (u, e) ==> r[k] == events[k]
  {
    if n > 1 {
      IncrementRepeated(events, u, e, n - 1);
    }
  }

  /** Two point grants to one user add up: 10 then 5 gives 15. */
  lemma AddPointsAccumulate(scores: map<UserId, ScoreRow>, u: UserId, a: int, b: int)
    ensures AddPoints(AddPoints(scores, u, a), u, b) == AddPoints(scores, u, a + b)
  {
    var left, right := AddPoints(AddPoints(scores, u, a), u, b), AddPoints(scores, u, a + b);
    assert forall v :: v in left ==> left[v] == right[v];
  }

  /** The order in which point grants are applied does not matter. */
  lemma AddPointsCommute(scores: map<UserId, ScoreRow>, u: UserId, a: int, v: UserId, b: int)
    ensures AddPoints(AddPoints(scores, u, a), v, b) == AddPoints(AddPoints(scores, v, b), u, a)
  {
    var left, right := AddPoints(AddPoints(scores, u, a), v, b), AddPoints(AddPoints(scores, v, b), u, a);
    if u == v {
      AddPointsAccumulate(scores, u, a, b);
      AddPointsAccumulate(scores, u, b, a);
    } else {
      assert forall w :: w in left ==> left[w] == right[w];
    }
  }

  /** A badge granted twice to a user who did not hold it has one row, with
      counter 2 and the date of the first grant. */
  lemma GrantBadgeTwice(grants: map<(UserId, int), BadgeGrant>, u: UserId, b: int, first: Timestamp, second: Timestamp)
    requires (u, b) !in grants
    ensures var r := GrantBadge(GrantBadge(grants, u, b, first), u, b, second);
      r.Keys == grants.Keys + {(u, b)} && r[(u, b)] == BadgeGrant(2, first)
  {
  }

  /** A new score row is put on level 1 even when another level has the least
      points: with Silver (id 1, 100 points) and Bronze (id 2, 0 points) the
      first level is Bronze, yet a first grant of 0 points lands on Silver. */
  lemma NewScoreLevelIsNotFirstLevel()
    ensures var levels := [Level(1, 100, "Silver", ""), Level(2, 0, "Bronze", "")];
      && FirstLowest(levels) == Some(levels[1])
      && AddPoints(map[], 7, 0)[7] == ScoreRow(0, 1)
  {
    var levels := [Level(1, 100, "Silver", ""), Level(2, 0, "Bronze", "")];
    assert levels[1..] == [levels[1]];
    assert FirstLowest(levels[1..][1..]) == None;
  }
}
