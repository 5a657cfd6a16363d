/**
 * leaderboard.ts: the points board and the level board. Both read the
 * users table only, clamp the requested limit and return one window of one
 * ordering of every user.
 */
module Leaderboard {
  import opened Tables
  import opened Ranking

  /** A leaderboard row: the user's id, name, balance, level and activity counts. */
  datatype LeaderRow = LeaderRow(id: int, username: string, points: int, level: int,
                                 postCount: nat, commentCount: nat)

  /** Upper bound the boards put on a requested limit. */
  const MAX_LIMIT: int := 100

  /**
   * `Math.min(parseInt(limit) || 50, 100)`. A negative request passes
   * through the clamp unchanged, and SQLite then reads it as "no limit".
   */
  function BoardLimit(limit: Option<int>): (n: int)
    ensures n <= MAX_LIMIT
    ensures n != 0
    ensures limit.None? || limit.value == 0 ==> n == 50
    ensures limit.Some? && limit.value != 0 && limit.value <= MAX_LIMIT ==> n == limit.value
    ensures limit.Some? && MAX_LIMIT < limit.value ==> n == MAX_LIMIT
  {
    var asked := Fallback(limit, 50);
    if asked < MAX_LIMIT then asked else MAX_LIMIT
  }

  /** `parseInt(offset) || 0`. */
  function BoardOffset(offset: Option<int>): (k: int)
    ensures offset.Some? ==> k == offset.value
    ensures offset.None? ==> k == 0
  {
    Fallback(offset, 0)
  }

  /** `(SELECT COUNT(*) FROM posts WHERE author_id = users.id)`. */
  function PostCount(posts: map<int, Post>, user: int): nat
  {
    |set p | p in posts && posts[p].author == user|
  }

  /** `(SELECT COUNT(*) FROM comments WHERE author_id = users.id)`. */
  function CommentCount(comments: map<int, Comment>, user: int): nat
  {
    |set c | c in comments && comments[c].author == user|
  }

  /** `row` is user `row.id` with their activity counts. */
  predicate IsRow(users: map<int, User>, posts: map<int, Post>, comments: map<int, Comment>, row: LeaderRow)
  {
    && row.id in users
    && row.username == users[row.id].username
    && row.points == users[row.id].points
    && row.level == users[row.id].level
    && row.postCount == PostCount(posts, row.id)
    && row.commentCount == CommentCount(comments, row.id)
  }

  /** One row per id of `ids`, in that order. */
  function Rows(users: map<int, User>, posts: map<int, Post>, comments: map<int, Comment>,
                ids: seq<int>): (r: seq<LeaderRow>)
    requires forall i :: 0 <= i < |ids| ==> ids[i] in users
    ensures |r| == |ids|
    ensures forall i :: 0 <= i < |r| ==> r[i].id == ids[i]
    ensures forall i :: 0 <= i < |r| ==> IsRow(users, posts, comments, r[i])
  {
    seq(|ids|, i requires 0 <= i < |ids| =>
      var u := users[ids[i]];
      LeaderRow(ids[i], u.username, u.points, u.level,
                PostCount(posts, ids[i]), CommentCount(comments, ids[i])))
  }

  /** The major key of the points board, the minor key of the level board. */
  function Points(id: int, u: User): int
  {
    u.points
  }

  /** The major key of the level board, the minor key of the points board. */
  function Level(id: int, u: User): int
  {
    u.level
  }

  /** Row `a` may precede row `b` on the points board: more points, or as many and a level as high. */
  predicate PointsBefore(a: LeaderRow, b: LeaderRow)
  {
    a.points > b.points || (a.points == b.points && a.level >= b.level)
  }

  /** Row `a` may precede row `b` on the level board: a higher level, or the same and as many points. */
  predicate LevelBefore(a: LeaderRow, b: LeaderRow)
  {
    a.level > b.level || (a.level == b.level && a.points >= b.points)
  }

  /** Every user, ORDER BY points DESC, level DESC. */
  function ByPoints(users: map<int, User>, posts: map<int, Post>, comments: map<int, Comment>): (r: seq<LeaderRow>)
    ensures |r| == |users.Keys|
    ensures forall i :: 0 <= i < |r| ==> IsRow(users, posts, comments, r[i])
  {
    Rows(users, posts, comments, OrderIds(users, Points, Level))
  }

  /** Every user, ORDER BY level DESC, points DESC. */
  function ByLevel(users: map<int, User>, posts: map<int, Post>, comments: map<int, Comment>): (r: seq<LeaderRow>)
    ensures |r| == |users.Keys|
    ensures forall i :: 0 <= i < |r| ==> IsRow(users, posts, comments, r[i])
  {
    Rows(users, posts, comments, OrderIds(users, Level, Points))
  }

  /** The ids of a board, in the order they are listed. */
  function Ids(r: seq<LeaderRow>): (ids: seq<int>)
    ensures |ids| == |r|
    ensures forall i :: 0 <= i < |r| ==> ids[i] == r[i].id
  {
    seq(|r|, i requires 0 <= i < |r| => r[i].id)
  }

  /** The points ordering lists every user once, by points and then by level. */
  lemma ByPointsOrdered(users: map<int, User>, posts: map<int, Post>, comments: map<int, Comment>)
    ensures var r := ByPoints(users, posts, comments);
            && (forall k :: k in users <==> k in Ids(r))
            && (forall i, j :: 0 <= i < j < |r| ==> r[i].id != r[j].id)
            && (forall i, j :: 0 <= i < j < |r| ==> PointsBefore(r[i], r[j]))
  {
    var ids := OrderIds(users, Points, Level);
    var r := ByPoints(users, posts, comments);
    assert Ids(r) == ids;
    forall i, j | 0 <= i < j < |r| ensures PointsBefore(r[i], r[j]) {
      assert RowBefore(users, ids[i], ids[j], Points, Level);
    }
  }

  /** The level ordering lists every user once, by level and then by points. */
  lemma ByLevelOrdered(users: map<int, User>, posts: map<int, Post>, comments: map<int, Comment>)
    ensures var r := ByLevel(users, posts, comments);
            && (forall k :: k in users <==> k in Ids(r))
            && (forall i, j :: 0 <= i < j < |r| ==> r[i].id != r[j].id)
            && (forall i, j :: 0 <= i < j < |r| ==> LevelBefore(r[i], r[j]))
  {
    var ids := OrderIds(users, Level, Points);
    var r := ByLevel(users, posts, comments);
    assert Ids(r) == ids;
    forall i, j | 0 <= i < j < |r| ensures LevelBefore(r[i], r[j]) {
      assert RowBefore(users, ids[i], ids[j], Level, Points);
    }
  }

  /** GET /leaderboard/points: one window of the points ordering. */
  function PointsBoard(users: map<int, User>, posts: map<int, Post>, comments: map<int, Comment>,
                       limit: Option<int>, offset: Option<int>): (r: seq<LeaderRow>)
    ensures r == Window(ByPoints(users, posts, comments), BoardOffset(offset), BoardLimit(limit))
    ensures 0 <= BoardLimit(limit) ==> |r| <= MAX_LIMIT
  {
    Window(ByPoints(users, posts, comments), BoardOffset(offset), BoardLimit(limit))
  }

  /** GET /leaderboard/level: one window of the level ordering. */
  function LevelBoard(users: map<int, User>, posts: map<int, Post>, comments: map<int, Comment>,
                      limit: Option<int>, offset: Option<int>): (r: seq<LeaderRow>)
    ensures r == Window(ByLevel(users, posts, comments), BoardOffset(offset), BoardLimit(limit))
    ensures 0 <= BoardLimit(limit) ==> |r| <= MAX_LIMIT
  {
    Window(ByLevel(users, posts, comments), BoardOffset(offset), BoardLimit(limit))
  }

  /**
   * Both boards keep their ordering: any window of the ranking is itself
   * in ranking order.
   */
  lemma BoardsOrdered(users: map<int, User>, posts: map<int, Post>, comments: map<int, Comment>,
                      limit: Option<int>, offset: Option<int>)
    ensures var r := PointsBoard(users, posts, comments, limit, offset);
            forall i, j :: 0 <= i < j < |r| ==> PointsBefore(r[i], r[j])
    ensures var r := LevelBoard(users, posts, comments, limit, offset);
            forall i, j :: 0 <= i < j < |r| ==> LevelBefore(r[i], r[j])
  {
    ByPointsOrdered(users, posts, comments);
    ByLevelOrdered(users, posts, comments);
    WindowKeepsOrder(ByPoints(users, posts, comments), BoardOffset(offset), BoardLimit(limit), PointsBefore);
    WindowKeepsOrder(ByLevel(users, posts, comments), BoardOffset(offset), BoardLimit(limit), LevelBefore);
  }

  /**
   * The cap of 100 does not hold for a negative limit: it passes the clamp,
   * and every user from the offset on is returned.
   */
  lemma NegativeLimitListsEveryone(users: map<int, User>, posts: map<int, Post>, comments: map<int, Comment>,
                                   limit: int, offset: Option<int>)
    requires limit < 0
    ensures var all := ByPoints(users, posts, comments);
            |PointsBoard(users, posts, comments, Some(limit), offset)| == |all| - Start(BoardOffset(offset), |all|)
  {
  }

  /** With the defaults, the points board is its first 50 rows. */
  lemma DefaultBoard(users: map<int, User>, posts: map<int, Post>, comments: map<int, Comment>)
    ensures var all := ByPoints(users, posts, comments);
            var r := PointsBoard(users, posts, comments, None, None);
            && |r| == (if |all| < 50 then |all| else 50)
            && forall i :: 0 <= i < |r| ==> r[i] == all[i]
  {
    var all := ByPoints(users, posts, comments);
    assert PointsBoard(users, posts, comments, None, None) == Window(all, 0, 50);
    FirstRows(all, 50);
  }
}
