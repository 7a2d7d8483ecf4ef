/**
 * The read-only SELECTs of the data access object, as functions over the
 * table contents: WHERE clauses (Filter, FindFirst), "ORDER BY points ASC
 * LIMIT 1" (FirstLowest), the points ranking and the log order.
 */
module Selections {
  import opened Rows

  /** The rows of `s` that satisfy `p`, in table order (a WHERE clause). */
  function Filter<T(!new)>(s: seq<T>, p: T -> bool): (r: seq<T>)
    ensures |r| <= |s|
    ensures forall x :: x in r <==> x in s && p(x)
  {
    if s == [] then []
    else (if p(s[0]) then [s[0]] else []) + Filter(s[1..], p)
  }

  /** A selection keeps every copy of a row it keeps, and no other row. */
  lemma {:induction false} FilterCount<T(!new)>(s: seq<T>, p: T -> bool)
    ensures forall x :: multiset(Filter(s, p))[x] == if p(x) then multiset(s)[x] else 0
  {
    if s != [] {
      assert s == [s[0]] + s[1..];
      FilterCount(s[1..], p);
    }
  }

  /** A row added at the end of the table comes last in every selection that keeps it. */
  lemma {:induction false} FilterAppend<T(!new)>(s: seq<T>, x: T, p: T -> bool)
    ensures Filter(s + [x], p) == Filter(s, p) + (if p(x) then [x] else [])
  {
    if s == [] {
      assert s + [x] == [x];
    } else {
      assert (s + [x])[0] == s[0];
      assert (s + [x])[1..] == s[1..] + [x];
      FilterAppend(s[1..], x, p);
      assert Filter(s + [x], p) == (if p(s[0]) then [s[0]] else []) + Filter(s[1..] + [x], p);
    }
  }

  /** Selecting with a narrower condition from an already selected table is
      the same as selecting from the whole table. */
  lemma {:induction false} FilterNarrow<T(!new)>(s: seq<T>, p: T -> bool, q: T -> bool)
    requires forall x :: q(x) ==> p(x)
    ensures Filter(Filter(s, p), q) == Filter(s, q)
  {
    if s != [] {
      FilterNarrow(s[1..], p, q);
      var t := Filter(s[1..], p);
      if p(s[0]) {
        assert Filter(s, p) == [s[0]] + t;
        assert ([s[0]] + t)[0] == s[0] && ([s[0]] + t)[1..] == t;
      } else {
        assert Filter(s, p) == t;
      }
    }
  }

  /** Selecting with a condition that excludes every kept row finds nothing. */
  lemma {:induction false} FilterDisjoint<T(!new)>(s: seq<T>, p: T -> bool, q: T -> bool)
    requires forall x :: q(x) ==> !p(x)
    ensures Filter(Filter(s, p), q) == []
  {
    if s != [] {
      FilterDisjoint(s[1..], p, q);
      var t := Filter(s[1..], p);
      if p(s[0]) {
        assert Filter(s, p) == [s[0]] + t;
        assert ([s[0]] + t)[0] == s[0] && ([s[0]] + t)[1..] == t;
      } else {
        assert Filter(s, p) == t;
      }
    }
  }

  /** A condition and its negation split the table's rows between them. */
  lemma FilterSplit<T(!new)>(s: seq<T>, p: T -> bool, q: T -> bool)
    requires forall x :: q(x) == !p(x)
    ensures multiset(Filter(s, p)) + multiset(Filter(s, q)) == multiset(s)
  {
    FilterCount(s, p);
    FilterCount(s, q);
    assert forall x :: (multiset(Filter(s, p)) + multiset(Filter(s, q)))[x] == multiset(s)[x];
  }

  /** The first row of `s` satisfying `p` ("... WHERE p" then `$results[0]`). */
  function FindFirst<T(!new)>(s: seq<T>, p: T -> bool): (r: Option<T>)
    ensures r.None? <==> forall x :: x in s ==> !p(x)
    ensures r.Some? ==> r.value in s && p(r.value)
    ensures s != [] && p(s[0]) ==> r == Some(s[0])
  {
    if s == [] then None
    else if p(s[0]) then Some(s[0])
    else FindFirst(s[1..], p)
  }

  /** "ORDER BY points ASC LIMIT 1": a level of least points threshold; among
      equal thresholds the one earliest in the table. */
  function FirstLowest(levels: seq<Level>): (r: Option<Level>)
    ensures r.None? <==> levels == []
    ensures r.Some? ==> r.value in levels
    ensures r.Some? ==> forall l :: l in levels ==> r.value.points <= l.points
  {
    if levels == [] then None
    else
      assert forall l :: l in levels ==> l == levels[0] || l in levels[1..];
      match FirstLowest(levels[1..])
      case None => Some(levels[0])
      case Some(m) => if levels[0].points <= m.points then Some(levels[0]) else Some(m)
  }

  /** The WHERE clause of getNextLevel: another level, above the given score. */
  function Above(levelId: int, score: int): Level -> bool
  {
    (l: Level) => l.id != levelId && l.points > score
  }

  // ---------------------------------------------------------------------
  // Ranking: "ORDER BY points DESC, id_user ASC"
  // ---------------------------------------------------------------------

  /** `a` comes before `b` in the points ranking. */
  predicate RanksBefore(a: UserScore, b: UserScore)
  {
    a.points > b.points || (a.points == b.points && a.idUser < b.idUser)
  }

  /** The gm_user_scores row of user `u`. */
  function ScoreOf(scores: map<UserId, ScoreRow>, u: UserId): (r: UserScore)
    requires u in scores
    ensures r.idUser == u
  {
    UserScore(u, scores[u].points, scores[u].idLevel)
  }

  /** `top` ranks before every other user of `users`. */
  predicate Leads(scores: map<UserId, ScoreRow>, users: set<UserId>, top: UserId)
    requires users <= scores.Keys
  {
    top in users &&
    forall v :: v in users && v != top ==> RanksBefore(ScoreOf(scores, top), ScoreOf(scores, v))
  }

  /** Every non-empty set of users has a leader. */
  lemma {:induction false} LeaderExists(scores: map<UserId, ScoreRow>, users: set<UserId>)
    requires users <= scores.Keys && users != {}
    ensures exists top :: Leads(scores, users, top)
    decreases |users|
  {
    if forall y :: y !in users { assert false; }
    var x :| x in users;
    if users == {x} {
      assert Leads(scores, users, x);
    } else {
      var rest := users - {x};
      LeaderExists(scores, rest);
      var y :| Leads(scores, rest, y);
      if RanksBefore(ScoreOf(scores, x), ScoreOf(scores, y)) {
        assert Leads(scores, users, x);
      } else {
        assert Leads(scores, users, y);
      }
    }
  }

  /** The users whose rows `r` lists. */
  function UsersOf(r: seq<UserScore>): (us: set<UserId>)
    ensures forall i :: 0 <= i < |r| ==> r[i].idUser in us
  {
    if r == [] then {} else {r[0].idUser} + UsersOf(r[1..])
  }

  /** Every user of `UsersOf(r)` has a row in `r`. */
  lemma {:induction false} UsersOfHasRow(r: seq<UserScore>, u: UserId)
    requires u in UsersOf(r)
    ensures exists i :: 0 <= i < |r| && r[i].idUser == u
  {
    if r[0].idUser != u {
      UsersOfHasRow(r[1..], u);
      var i :| 0 <= i < |r[1..]| && r[1..][i].idUser == u;
      assert r[i + 1].idUser == u;
    }
  }

  /** `r` lists the row of every user of `users` once, in ranking order. */
  ghost predicate IsRanking(scores: map<UserId, ScoreRow>, users: set<UserId>, r: seq<UserScore>)
    requires users <= scores.Keys
  {
    && |r| == |users|
    && UsersOf(r) == users
    && (forall i :: 0 <= i < |r| ==> r[i].idUser in users && r[i] == ScoreOf(scores, r[i].idUser))
    && (forall i, j :: 0 <= i < j < |r| ==> RanksBefore(r[i], r[j]))
  }

  /** The leader followed by a ranking of the others is a ranking of all. */
  lemma RankingCons(scores: map<UserId, ScoreRow>, users: set<UserId>, top: UserId, rest: seq<UserScore>)
    requires users <= scores.Keys && Leads(scores, users, top)
    requires IsRanking(scores, users - {top}, rest)
    ensures IsRanking(scores, users, [ScoreOf(scores, top)] + rest)
  {
    var r := [ScoreOf(scores, top)] + rest;
    assert |users - {top}| == |users| - 1;
    assert r[1..] == rest;
  }

  /** The rows of `users` in ranking order. */
  function Ranked(scores: map<UserId, ScoreRow>, users: set<UserId>): (r: seq<UserScore>)
    requires users <= scores.Keys
    ensures IsRanking(scores, users, r)
    decreases |users|
  {
    if users == {} then []
    else
      LeaderExists(scores, users);
      var top :| Leads(scores, users, top);
      var rest := Ranked(scores, users - {top});
      RankingCons(scores, users, top, rest);
      [ScoreOf(scores, top)] + rest
  }

  /** A user outside the first `n` rows of a ranking ranks after each of them. */
  lemma LeftOutRanksAfter(scores: map<UserId, ScoreRow>, all: seq<UserScore>, n: nat, u: UserId)
    requires IsRanking(scores, scores.Keys, all) && n <= |all| && u in scores
    requires forall j :: 0 <= j < n ==> all[j].idUser != u
    ensures forall i :: 0 <= i < n ==> RanksBefore(all[i], ScoreOf(scores, u))
  {
    UsersOfHasRow(all, u);
    var k :| 0 <= k < |all| && all[k].idUser == u;
    assert all[k] == ScoreOf(scores, u);
  }

  /** The first `n` rows of a ranking of all users: rows of their users, in
      order, each ahead of every user left out. */
  lemma RankingPrefix(scores: map<UserId, ScoreRow>, all: seq<UserScore>, n: nat)
    requires IsRanking(scores, scores.Keys, all) && n <= |all|
    ensures var top := all[..n];
      && (forall i :: 0 <= i < n ==> top[i].idUser in scores && top[i] == ScoreOf(scores, top[i].idUser))
      && (forall i, j :: 0 <= i < j < n ==> RanksBefore(top[i], top[j]))
      && (forall i, u :: 0 <= i < n && u in scores && (forall j :: 0 <= j < n ==> top[j].idUser != u) ==>
            RanksBefore(top[i], ScoreOf(scores, u)))
  {
    var top := all[..n];
    forall u | u in scores && (forall j :: 0 <= j < n ==> top[j].idUser != u)
      ensures forall i :: 0 <= i < n ==> RanksBefore(top[i], ScoreOf(scores, u))
    {
      LeftOutRanksAfter(scores, all, n, u);
    }
  }

  /** "ORDER BY points DESC, id_user ASC LIMIT limit": the first `limit`
      rows of the ranking; every user left out ranks after every user kept. */
  function TopRanked(scores: map<UserId, ScoreRow>, limit: nat): (r: seq<UserScore>)
    ensures |r| == if limit < |scores.Keys| then limit else |scores.Keys|
    ensures forall i :: 0 <= i < |r| ==> r[i].idUser in scores && r[i] == ScoreOf(scores, r[i].idUser)
    ensures forall i, j :: 0 <= i < j < |r| ==> RanksBefore(r[i], r[j])
    ensures forall i, u :: 0 <= i < |r| && u in scores && (forall j :: 0 <= j < |r| ==> r[j].idUser != u) ==>
      RanksBefore(r[i], ScoreOf(scores, u))
  {
    var all := Ranked(scores, scores.Keys);
    var n := if limit < |all| then limit else |all|;
    RankingPrefix(scores, all, n);
    all[..n]
  }

  // ---------------------------------------------------------------------
  // Log order: "ORDER BY event_date DESC"
  // ---------------------------------------------------------------------

  /** Latest event first. */
  predicate NewestFirst(s: seq<UserLog>)
  {
    forall i, j :: 0 <= i < j < |s| ==> s[i].eventDate >= s[j].eventDate
  }

  function InsertByDate(x: UserLog, s: seq<UserLog>): (r: seq<UserLog>)
    requires NewestFirst(s)
    ensures NewestFirst(r)
    ensures multiset(r) == multiset(s) + multiset{x}
    ensures r[0] == x || (s != [] && r[0] == s[0])
  {
    if s == [] || x.eventDate >= s[0].eventDate then [x] + s
    else
      assert s == [s[0]] + s[1..];
      var rest := InsertByDate(x, s[1..]);
      assert rest[0].eventDate <= s[0].eventDate;
      [s[0]] + rest
  }

  /** The log rows reordered latest first. */
  function SortByDateDesc(s: seq<UserLog>): (r: seq<UserLog>)
    ensures NewestFirst(r)
    ensures multiset(r) == multiset(s)
  {
    if s == [] then []
    else
      assert s == [s[0]] + s[1..];
      InsertByDate(s[0], SortByDateDesc(s[1..]))
  }
}
