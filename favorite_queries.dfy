/**
 * The read routes of favorites.ts: the caller's favorites, newest first and
 * paginated, and whether the caller has favorited a post.
 */
module FavoriteQueries {
  import opened Tables
  import opened Ranking

  /**
   * A favorites row: the post joined with LEFT JOIN (absent if the post row
   * is gone) and when it was favorited.
   */
  datatype FavoriteRow = FavoriteRow(postId: int, post: Option<Post>, favoritedAt: int)

  /** `row` is the caller's favorite of `row.postId`, joined with its post. */
  predicate IsFavorite(favorites: map<(int, int), int>, posts: map<int, Post>, me: int, row: FavoriteRow)
  {
    && (row.postId, me) in favorites
    && row.favoritedAt == favorites[(row.postId, me)]
    && row.post == PostOf(posts, row.postId)
  }

  /** The joined post of `postId`, absent when the post row is gone. */
  function PostOf(posts: map<int, Post>, postId: int): Option<Post>
  {
    if postId in posts then Some(posts[postId]) else None
  }

  /** One row per id of `ids`, in that order, with its favorite time from `mine`. */
  function Join(mine: map<int, int>, posts: map<int, Post>, ids: seq<int>): (r: seq<FavoriteRow>)
    requires forall i :: 0 <= i < |ids| ==> ids[i] in mine
    ensures |r| == |ids|
    ensures forall i :: 0 <= i < |r| ==> r[i].postId == ids[i] && r[i].favoritedAt == mine[ids[i]]
    ensures forall i :: 0 <= i < |r| ==> r[i].post == PostOf(posts, ids[i])
  {
    seq(|ids|, i requires 0 <= i < |ids| => FavoriteRow(ids[i], PostOf(posts, ids[i]), mine[ids[i]]))
  }

  /** The caller's favorites, most recently favorited first (ORDER BY f.created_at DESC). */
  function Favorites(favorites: map<(int, int), int>, posts: map<int, Post>, me: int): (r: seq<FavoriteRow>)
    ensures |r| == CountSecond(favorites, me)
    ensures forall i :: 0 <= i < |r| ==> IsFavorite(favorites, posts, me, r[i])
  {
    var mine := BySecond(favorites, me);
    CountSecondIsBySecond(favorites, me);
    Join(mine, posts, NewestFirst(mine))
  }

  /** The ids of a list, in the order they are listed. */
  function PostIds(r: seq<FavoriteRow>): (ids: seq<int>)
    ensures |ids| == |r|
    ensures forall i :: 0 <= i < |r| ==> ids[i] == r[i].postId
  {
    seq(|r|, i requires 0 <= i < |r| => r[i].postId)
  }

  /** Every favorite of the caller is listed, exactly once, newest first. */
  lemma FavoritesNewestFirst(favorites: map<(int, int), int>, posts: map<int, Post>, me: int)
    ensures var r := Favorites(favorites, posts, me);
            && (forall p :: (p, me) in favorites <==> p in PostIds(r))
            && (forall i, j :: 0 <= i < j < |r| ==> r[i].postId != r[j].postId)
            && (forall i, j :: 0 <= i < j < |r| ==> r[i].favoritedAt >= r[j].favoritedAt)
  {
    var mine := BySecond(favorites, me);
    var r := Favorites(favorites, posts, me);
    assert PostIds(r) == NewestFirst(mine);
  }

  /**
   * GET /favorites: `page` and `limit` are `parseInt(...) || 1` and
   * `parseInt(...) || 20`, unchecked, so a negative limit lists every row.
   */
  function List(favorites: map<(int, int), int>, posts: map<int, Post>, me: int,
                page: Option<int>, limit: Option<int>): (r: Page<FavoriteRow>)
    ensures r.page == Fallback(page, 1) && r.limit == Fallback(limit, 20)
    ensures r.total == CountSecond(favorites, me)
    ensures r.totalPages == PageCount(r.total, r.limit)
    ensures r.rows == Window(Favorites(favorites, posts, me), (Fallback(page, 1) - 1) * Fallback(limit, 20), Fallback(limit, 20))
  {
    Paginate(Favorites(favorites, posts, me), Fallback(page, 1), Fallback(limit, 20))
  }

  /** GET /favorites/posts/:postId/status: whether the (post, caller) pair exists. */
  function Status(favorites: map<(int, int), int>, postId: Option<int>, me: int): (r: Result<bool>)
    ensures postId.None? ==> r == Err(BadId)
    ensures postId.Some? ==> r.Ok? && (r.value <==> (postId.value, me) in favorites)
  {
    if postId.None? then Err(BadId) else Ok((postId.value, me) in favorites)
  }
}
