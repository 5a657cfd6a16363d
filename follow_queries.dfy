/**
 * The read routes of follows.ts: whom a user follows, who follows a user
 * (both newest first and paginated), whether the caller follows a user, and
 * the two counts with the caller's follow flag.
 *
 * The follows table is keyed by its UNIQUE (follower, following) pair and
 * holds the time the follow was made.
 */
module FollowQueries {
  import opened Tables
  import opened Ranking

  /**
   * A row of either list: the other user's id, their users row joined with
   * LEFT JOIN (absent if it is gone) and when the follow was made.
   */
  datatype FollowRow = FollowRow(user: int, profile: Option<User>, followedAt: int)

  /** The joined users row of `id`, absent when there is none. */
  function ProfileOf(users: map<int, User>, id: int): Option<User>
  {
    if id in users then Some(users[id]) else None
  }

  /** One row per id of `ids`, in that order, with its follow time from `times`. */
  function Join(times: map<int, int>, users: map<int, User>, ids: seq<int>): (r: seq<FollowRow>)
    requires forall i :: 0 <= i < |ids| ==> ids[i] in times
    ensures |r| == |ids|
    ensures forall i :: 0 <= i < |r| ==> r[i].user == ids[i] && r[i].followedAt == times[ids[i]]
    ensures forall i :: 0 <= i < |r| ==> r[i].profile == ProfileOf(users, ids[i])
  {
    seq(|ids|, i requires 0 <= i < |ids| => FollowRow(ids[i], ProfileOf(users, ids[i]), times[ids[i]]))
  }

  /** The ids of a list, in the order they are listed. */
  function Users(r: seq<FollowRow>): (ids: seq<int>)
    ensures |ids| == |r|
    ensures forall i :: 0 <= i < |r| ==> ids[i] == r[i].user
  {
    seq(|r|, i requires 0 <= i < |r| => r[i].user)
  }

  /** `row` is a follow of `u`'s, joined with the followed user's row. */
  predicate IsFollowed(follows: map<(int, int), int>, users: map<int, User>, u: int, row: FollowRow)
  {
    && (u, row.user) in follows
    && row.followedAt == follows[(u, row.user)]
    && row.profile == ProfileOf(users, row.user)
  }

  /** `row` is a follower of `u`, joined with the follower's row. */
  predicate IsFollower(follows: map<(int, int), int>, users: map<int, User>, u: int, row: FollowRow)
  {
    && (row.user, u) in follows
    && row.followedAt == follows[(row.user, u)]
    && row.profile == ProfileOf(users, row.user)
  }

  /** Everyone `u` follows (WHERE f.follower_id = u ORDER BY f.created_at DESC). */
  function Following(follows: map<(int, int), int>, users: map<int, User>, u: int): (r: seq<FollowRow>)
    ensures |r| == CountFirst(follows, u)
    ensures forall i :: 0 <= i < |r| ==> IsFollowed(follows, users, u, r[i])
  {
    var mine := ByFirst(follows, u);
    CountFirstIsByFirst(follows, u);
    Join(mine, users, NewestFirst(mine))
  }

  /** Everyone who follows `u` (WHERE f.following_id = u ORDER BY f.created_at DESC). */
  function Followers(follows: map<(int, int), int>, users: map<int, User>, u: int): (r: seq<FollowRow>)
    ensures |r| == CountSecond(follows, u)
    ensures forall i :: 0 <= i < |r| ==> IsFollower(follows, users, u, r[i])
  {
    var theirs := BySecond(follows, u);
    CountSecondIsBySecond(follows, u);
    Join(theirs, users, NewestFirst(theirs))
  }

  /** Every user `u` follows is listed, exactly once, newest follow first. */
  lemma FollowingNewestFirst(follows: map<(int, int), int>, users: map<int, User>, u: int)
    ensures var r := Following(follows, users, u);
            && (forall v :: (u, v) in follows <==> v in Users(r))
            && (forall i, j :: 0 <= i < j < |r| ==> r[i].user != r[j].user)
            && (forall i, j :: 0 <= i < j < |r| ==> r[i].followedAt >= r[j].followedAt)
  {
    var mine := ByFirst(follows, u);
    var r := Following(follows, users, u);
    assert Users(r) == NewestFirst(mine);
  }

  /** Every follower of `u` is listed, exactly once, newest follow first. */
  lemma FollowersNewestFirst(follows: map<(int, int), int>, users: map<int, User>, u: int)
    ensures var r := Followers(follows, users, u);
            && (forall v :: (v, u) in follows <==> v in Users(r))
            && (forall i, j :: 0 <= i < j < |r| ==> r[i].user != r[j].user)
            && (forall i, j :: 0 <= i < j < |r| ==> r[i].followedAt >= r[j].followedAt)
  {
    var theirs := BySecond(follows, u);
    var r := Followers(follows, users, u);
    assert Users(r) == NewestFirst(theirs);
  }

  /**
   * GET /follows/following/:userId: a non-numeric id is 400; `page` and
   * `limit` are `parseInt(...) || 1` and `parseInt(...) || 20`, unchecked.
   */
  function ListFollowing(follows: map<(int, int), int>, users: map<int, User>, userId: Option<int>,
                         page: Option<int>, limit: Option<int>): (r: Result<Page<FollowRow>>)
    ensures userId.None? <==> r == Err(BadId)
    ensures userId.Some? ==>
              && r.Ok?
              && r.value.page == Fallback(page, 1) && r.value.limit == Fallback(limit, 20)
              && r.value.total == CountFirst(follows, userId.value)
              && r.value.totalPages == PageCount(r.value.total, r.value.limit)
              && r.value.rows == Window(Following(follows, users, userId.value),
                                        (Fallback(page, 1) - 1) * Fallback(limit, 20), Fallback(limit, 20))
  {
    if userId.None? then Err(BadId)
    else Ok(Paginate(Following(follows, users, userId.value), Fallback(page, 1), Fallback(limit, 20)))
  }

  /** GET /follows/followers/:userId: the same pagination over the followers. */
  function ListFollowers(follows: map<(int, int), int>, users: map<int, User>, userId: Option<int>,
                         page: Option<int>, limit: Option<int>): (r: Result<Page<FollowRow>>)
    ensures userId.None? <==> r == Err(BadId)
    ensures userId.Some? ==>
              && r.Ok?
              && r.value.page == Fallback(page, 1) && r.value.limit == Fallback(limit, 20)
              && r.value.total == CountSecond(follows, userId.value)
              && r.value.totalPages == PageCount(r.value.total, r.value.limit)
              && r.value.rows == Window(Followers(follows, users, userId.value),
                                        (Fallback(page, 1) - 1) * Fallback(limit, 20), Fallback(limit, 20))
  {
    if userId.None? then Err(BadId)
    else Ok(Paginate(Followers(follows, users, userId.value), Fallback(page, 1), Fallback(limit, 20)))
  }

  /** GET /follows/check/:userId: whether the caller follows the user. */
  function Check(follows: map<(int, int), int>, me: int, target: Option<int>): (r: Result<bool>)
    ensures target.None? <==> r == Err(BadId)
    ensures target.Some? ==> r.Ok? && (r.value <==> (me, target.value) in follows)
  {
    if target.None? then Err(BadId) else Ok((me, target.value) in follows)
  }

  /** The body of GET /follows/stats/:userId. */
  datatype FollowStats = FollowStats(followingCount: nat, followersCount: nat, isFollowing: bool)

  /**
   * GET /follows/stats/:userId: both counts, and whether the viewer follows
   * the user, which is only looked up for a signed-in viewer (`req.userId`
   * truthy, so not 0) other than the user.
   */
  function Stats(follows: map<(int, int), int>, userId: Option<int>, viewer: Option<int>): (r: Result<FollowStats>)
    ensures userId.None? <==> r == Err(BadId)
    ensures userId.Some? ==>
              var u := userId.value;
              && r.Ok?
              && r.value.followingCount == CountFirst(follows, u)
              && r.value.followersCount == CountSecond(follows, u)
              && (r.value.isFollowing <==>
                    viewer.Some? && viewer.value != 0 && viewer.value != u && (viewer.value, u) in follows)
  {
    if userId.None? then Err(BadId)
    else
      var u := userId.value;
      var following := viewer.Some? && viewer.value != 0 && viewer.value != u && (viewer.value, u) in follows;
      Ok(FollowStats(CountFirst(follows, u), CountSecond(follows, u), following))
  }

  /** The counts of the stats route are the totals the two lists report. */
  lemma StatsMatchLists(follows: map<(int, int), int>, users: map<int, User>, u: int, viewer: Option<int>)
    ensures var s := Stats(follows, Some(u), viewer).value;
            && s.followingCount == |Following(follows, users, u)|
            && s.followersCount == |Followers(follows, users, u)|
            && s.followingCount == ListFollowing(follows, users, Some(u), None, None).value.total
            && s.followersCount == ListFollowers(follows, users, Some(u), None, None).value.total
  {
  }

  /** Nobody is reported as following themself, even with a self-follow row present. */
  lemma StatsNeverSelf(follows: map<(int, int), int>, u: int)
    ensures !Stats(follows, Some(u), Some(u)).value.isFollowing
  {
  }
}
