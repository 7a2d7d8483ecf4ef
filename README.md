# PHPGamification data access object, modelled in Dafny

PHPGamification keeps its gamification state in MySQL tables:
- `gm_badges`, `gm_levels` and `gm_events` form the catalog of rules;
- `gm_user_scores`, `gm_user_events`, `gm_user_badges`, `gm_user_alerts` and `gm_user_logs` hold the per-user state.

The class `DAO` in `DAO.class.php` is the only code that reads or writes these tables. This project models that class as a Dafny `class DAO` whose fields are the tables:

- The catalog tables are sequences in id order. Each has the AUTO_INCREMENT value its next INSERT receives, which `lastInsertId` hands back.
- The keyed per-user tables are maps from their primary key to the other columns. This makes "one row per user" and "one row per (user, event)" and "(user, badge)" hold by construction.
- The alert and log tables are sequences in insertion order.

Each public operation of the DAO becomes one of two things:
- a `method` when it writes (INSERT, UPDATE, DELETE, TRUNCATE);
- a `function` when it only reads (SELECT). The exceptions are the three catalog list getters `GetLevels`, `GetBadges` and `GetEvents`. They only read, but they are methods because they run the loop of `toArrayObject`.

The SQL statements are functions over table contents:
- module `Statements` holds the upserts and updates;
- module `Selections` holds WHERE filters, "ORDER BY … LIMIT 1", the points ranking and the log order.

Properties relating several statements are proved as lemmas beside them.

Modules:
- `Rows`: the rows of the schema and the result wrappers. `Option` stands for PHP `null`, and for the empty model object a getter returns when no row matches.
- `Selections`: the SELECT logic.
- `Statements`: the writing statements of the per-user tables.
- `Collections`: `toArrayObject`.
- `GamificationDAO`: the `DAO` class and the lemmas about the alert queue.

Two conventions of the source are kept throughout:
- `query` returns `null`, not an empty array, when a result set is empty (`DAO.class.php:82-83`). So every list-returning getter yields `None` when nothing matches.
- `grantPointsToUser` puts a new score row on level id 1 (`':firstlevel' => 1`). It does not use the level of least points that `getFirstLevel` and `getUserScore` report. The two can differ, and `Statements.NewScoreLevelIsNotFirstLevel` shows a catalog where they do.

## Model

| member | source | states |
|---|---|---|
| Collections.ToArrayObject | DAO.class.php:129-141 | without a key field the rows come back as a list in result order; with one, every row's key is present, and each key maps to the last row carrying it |
| Selections.Filter | DAO.class.php:316-320 | a WHERE clause keeps exactly the rows satisfying it, and never more rows than the table has |
| Selections.FilterCount | DAO.class.php:358-366 | a WHERE clause keeps every copy of a matching row and drops every other row, counted with multiplicity |
| Selections.FilterAppend | DAO.class.php:532-545 | a row inserted at the end of a table comes last in every selection that matches it, after the earlier matches in order |
| Selections.FilterNarrow | DAO.class.php:323-329 | selecting with a narrower condition from an already filtered table is the same as selecting from the whole table |
| Selections.FilterDisjoint | DAO.class.php:323-329 | selecting with a condition exclusive of the kept rows finds nothing |
| Selections.FilterSplit | DAO.class.php:323-329 | a condition and its negation split the table's rows between them, as a multiset |
| Selections.FindFirst | DAO.class.php:93-101 | `$results[0]` of a WHERE query: None exactly when no row matches, otherwise a matching row of the table, and the head row when it matches |
| Selections.FirstLowest | DAO.class.php:234-239 | "ORDER BY points ASC LIMIT 1": None exactly on an empty table, otherwise a level of the table whose points are no greater than any other's |
| Selections.UsersOfHasRow | DAO.class.php:414-423 | every user counted among the ranked rows has a row in the ranking |
| Selections.LeaderExists | DAO.class.php:414-423 | every non-empty set of scored users has a leader under "points DESC, id_user ASC", so the ordering is total |
| Selections.RankingCons | DAO.class.php:414-423 | the leader followed by a ranking of the remaining users is a ranking of all users |
| Selections.Ranked | DAO.class.php:414-423 | the full ranking lists each scored user's own row exactly once, sorted by points descending and then id_user ascending |
| Selections.LeftOutRanksAfter | DAO.class.php:414-423 | a user outside the first n rows of the ranking ranks after each of those rows |
| Selections.RankingPrefix | DAO.class.php:414-423 | the first n rows of a ranking are users' own rows, in order, each ahead of every user left out |
| Selections.TopRanked | DAO.class.php:414-423 | "LIMIT limit" of the ranking: min(limit, number of users) rows, each a user's own row, sorted, and ahead of every user not listed |
| Selections.InsertByDate | DAO.class.php:358-362 | inserting a log row into a latest-first list keeps it latest-first and adds exactly that row |
| Selections.SortByDateDesc | DAO.class.php:358-362 | "ORDER BY event_date DESC": the result is latest-first and a permutation of its input |
| Statements.AddPoints | DAO.class.php:466-479 | an upsert: a new user gets a row with these points on level 1; an existing row gets the points added with its level kept; every other row is unchanged |
| Statements.SetLevel | DAO.class.php:453-464 | an UPDATE: only an existing row of that user changes, only in id_level; no row is created |
| Statements.IncrementEvent | DAO.class.php:504-516 | an upsert: a new (user, event) row has counter 1; an existing one gets counter + 1 with its points kept; others are unchanged |
| Statements.AddEventPoints | DAO.class.php:518-529 | an UPDATE: only an existing (user, event) row gains the points; no row is created; others are unchanged |
| Statements.SetEventCount | DAO.class.php:587-596 | an UPDATE: only an existing (user, event) row gets the new counter; no row is created; others are unchanged |
| Statements.GrantBadge | DAO.class.php:425-438 | an upsert: a first grant creates the row with counter 1 and the given date; a repeat grant adds 1 and keeps the first date |
| Statements.IncrementRepeated | DAO.class.php:504-516 | n increments of one (user, event) pair leave a single row whose counter is n, or the old counter + n, and touch no other row |
| Statements.AddPointsAccumulate | DAO.class.php:466-479 | two point grants to one user equal one grant of their sum |
| Statements.AddPointsCommute | DAO.class.php:466-479 | point grants to any users can be applied in either order with the same resulting table |
| Statements.GrantBadgeTwice | DAO.class.php:425-438 | granting a new badge twice gives one row, with counter 2 and the first grant's date |
| Statements.NewScoreLevelIsNotFirstLevel | DAO.class.php:466-479 | with Silver (id 1, 100 points) and Bronze (id 2, 0 points), the first level is Bronze, yet a first points grant lands on level 1 |
| GamificationDAO.DAO.constructor | DAO.class.php:30-41 | a store over an empty schema: all tables empty, every AUTO_INCREMENT at 1 |
| GamificationDAO.DAO.GetBadgeById | DAO.class.php:183-186 | the badge with that id, or None exactly when no badge has it |
| GamificationDAO.DAO.GetBadgeByAlias | DAO.class.php:194-198 | the badge with that alias, or None exactly when no badge has it |
| GamificationDAO.DAO.SaveBadge | DAO.class.php:157-176 | an alias already in use fails with DuplicateAlias and changes nothing; otherwise exactly one badge is appended under the next id and returned as stored, and aliases stay unique |
| GamificationDAO.DAO.GetLevelById | DAO.class.php:229-232 | the level with that id, or None exactly when no level has it |
| GamificationDAO.DAO.SaveLevel | DAO.class.php:208-222 | exactly one level is appended under the next id and returned as stored |
| GamificationDAO.DAO.GetEventById | DAO.class.php:285-289 | the event with that id, or None exactly when no event has it |
| GamificationDAO.DAO.SaveEvent | DAO.class.php:255-278 | exactly one event record is appended under the next id and returned as stored |
| GamificationDAO.DAO.GetFirstLevel | DAO.class.php:234-239 | None exactly when there is no level, otherwise a level of least points |
| GamificationDAO.DAO.GetNextLevel | DAO.class.php:241-248 | a level other than levelId with more points than the score and least points among those; None exactly when no level qualifies |
| GamificationDAO.DAO.GetLevels | DAO.class.php:292-298 | null on an empty table; otherwise every level is present under its own id |
| GamificationDAO.DAO.GetBadges | DAO.class.php:300-306 | null on an empty table; otherwise every badge is present under its own id |
| GamificationDAO.DAO.GetEvents | DAO.class.php:308-314 | null on an empty table; otherwise every alias is present and maps to the last event row with that alias |
| GamificationDAO.DAO.GetUserScore | DAO.class.php:389-409 | the stored row when the user has one; otherwise an unsaved score for that user carrying the id of a level of least points, with no level id when there is no level |
| GamificationDAO.DAO.GetUserEvent | DAO.class.php:369-383 | the (user, event) row exactly when it exists, with its counters; otherwise the blank object |
| GamificationDAO.DAO.GetUserBadges | DAO.class.php:335-345 | null exactly when the user holds no badge; otherwise exactly the user's badge rows |
| GamificationDAO.DAO.GetUserEvents | DAO.class.php:347-356 | null exactly when the user has no event row; otherwise exactly the user's event rows |
| GamificationDAO.DAO.HasBadgeUser | DAO.class.php:440-451 | true exactly when getUserBadges lists a row of that badge for the user |
| GamificationDAO.DAO.GetUsersPointsRanking | DAO.class.php:414-423 | null exactly when the limit is 0 or no user has a score; otherwise min(limit, users) rows, each a user's own row, by points descending and then id_user ascending, each ahead of every user left out |
| GamificationDAO.DAO.GetUserLog | DAO.class.php:358-367 | null exactly when the user has no log row; otherwise the user's log rows, each with its multiplicity and no other row, latest event first |
| GamificationDAO.DAO.GrantBadgeToUser | DAO.class.php:425-438 | the badge table becomes the upsert with the given date or now, after which hasBadgeUser holds |
| GamificationDAO.DAO.GrantLevelToUser | DAO.class.php:453-464 | level id 0 stops the script with "00" and writes nothing; otherwise the score table becomes the level update |
| GamificationDAO.DAO.GrantPointsToUser | DAO.class.php:466-479 | the score table becomes the points upsert |
| GamificationDAO.DAO.IncreaseEventCounter | DAO.class.php:504-516 | the user-event table becomes the counter upsert |
| GamificationDAO.DAO.IncreaseEventPoints | DAO.class.php:518-529 | the user-event table becomes the points update, which never creates a row |
| GamificationDAO.DAO.SetEventCounter | DAO.class.php:587-596 | with the event id first and the user id second, the user-event table becomes the counter overwrite |
| GamificationDAO.DAO.SaveBadgeAlert | DAO.class.php:532-545 | exactly one badge alert, with a null level, is appended; it becomes the last of the user's pending alerts |
| GamificationDAO.DAO.SaveLevelAlert | DAO.class.php:547-558 | exactly one level alert, with a null badge, is appended; it becomes the last of the user's pending alerts |
| GamificationDAO.DAO.GetUserAlerts | DAO.class.php:316-333 | returns the user's pending alerts in table order, or null when there are none; each returned alert is the user's and refers to exactly one badge or one level; with reset and alerts present, deletes exactly those alerts, so none remain, and every other user's queue is unchanged |
| GamificationDAO.DAO.LogUserEvent | DAO.class.php:481-496 | exactly one log row is appended, dated with the given date or else now |
| GamificationDAO.DAO.TruncateDatabase | DAO.class.php:565-580 | empties the five per-user tables; with truncateLevelBadge also the catalog, whose ids restart at 1; otherwise the catalog is unchanged |
| GamificationDAO.DrainLeavesNothing | DAO.class.php:316-333 | after the reset delete, selecting the user's alerts finds nothing, so the next call returns null |
| GamificationDAO.DrainRemovesExactly | DAO.class.php:316-333 | the returned alerts and the kept ones together make up the table as it was |
| GamificationDAO.DrainKeepsOthers | DAO.class.php:316-333 | the reset delete leaves every other user's alert queue as it was, in order |

`GamificationDAO.FirstLoginScenario` and `GamificationDAO.AlertDrainScenario` are client methods with asserts:
- On a fresh store with one level, a first grant of 0 points puts the user on that level, and a granted badge is then held.
- A drained queue returns its alert once and then null.

## Left out

- The PDO connection, the constructor's credentials and its `exit` on a connection failure: the model starts from an already open, empty schema.
- `getConnection`, `execute`, `lastInsertId` and `query` as I/O: each statement's effect is modelled directly. `lastInsertId` is the table's next AUTO_INCREMENT value, and `query`'s null-on-empty is the `None` of every getter.
- The reflection in `toArrayObject` and the model classes (`Badge`, `Level`, `UserScore` and the others): these classes are not part of this model. Rows are Dafny datatypes, and an object built from a missing row is `None`.
- GamificationDAO.DAO.GetUserScore: the points a fresh `UserScore` object carries come from the `UserScore` class, which is not part of this model, so `Unsaved` records only the user id and the level id.
- `date`, `time` and MySQL `NOW()`: the current time is a parameter `now`. Dates are ordered integers, and STR_TO_DATE parsing of a grant date string is not modelled (an absent date is `None`, not `""`).
- Concurrency, transactions and atomicity of the SQL statements: each call is one atomic step.
- The SQL text built by concatenation in `getNextLevel` and `getUsersPointsRanking`: the limit is a natural number, and an id that is not a number is not modelled.
- GamificationDAO.DAO.GetFirstLevel: on an empty `gm_levels` the source indexes a null result and builds `new Level(null)`; the model returns `None`.
- Selections.FirstLowest: MySQL leaves the order of rows with equal points unspecified; the model takes the earliest in the table, and its contract states only "least points".
- GamificationDAO.DAO.GetUsersPointsRanking: a negative or non-numeric limit is a SQL error in the source and is excluded by the type `nat`.
- Statements.IncrementEvent: the `points_counter` of a row it creates is the schema's column default, which is not part of this model; it is taken as 0.
- GamificationDAO.DAO.GetUserBadges, GamificationDAO.DAO.GetUserEvents: these queries have no ORDER BY, so their rows are returned as a set; the list order MySQL happens to return is not modelled.
- GamificationDAO.DAO.GetEvents: the `SELECT` has no ORDER BY, and `saveEvent` does not check aliases, so two events can share one. For a shared alias the model keeps the row with the highest id, the last in id order; the database does not guarantee which row `toArrayObject` sees last.
- GamificationDAO.DAO.GetUserAlerts: the `SELECT` has no ORDER BY, so MySQL promises no order for a user's alerts; the model returns them in insertion order (creation order). The same applies to the ensures of GamificationDAO.DAO.SaveBadgeAlert and GamificationDAO.DAO.SaveLevelAlert that the new alert becomes the last of the user's pending alerts: that order is the model's choice, not a guarantee of the database.
- GamificationDAO.DAO.GetUserAlerts: the `DELETE` and the preceding `SELECT` are one step in the model; in the source an alert inserted between them would be deleted unseen.
- The type checks PHP does not make: ids are integers and strings are character sequences, with no UTF-8 encoding and no collation (alias comparison is exact).
