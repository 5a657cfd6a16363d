/**
 * GET /posts: the validated, paginated post list, pinned posts first and
 * then the newest, optionally restricted to one category, with each post's
 * comment count and, for a signed-in reader, whether they liked and
 * favorited it.
 */
module PostQueries {
  import opened Tables
  import opened Ranking

  /**
   * A row of the list: the post's id and columns, its comment count, and
   * `is_liked` / `is_favorited`, which are only selected for a signed-in
   * reader.
   */
  datatype PostRow = PostRow(id: int, post: Post, commentCount: nat,
                             liked: Option<bool>, favorited: Option<bool>)

  /** `(SELECT COUNT(*) FROM comments WHERE post_id = p.id)`. */
  function CommentCount(comments: map<int, Comment>, postId: int): nat
  {
    |set c | c in comments && comments[c].post == postId|
  }

  /** The category filter is only added when `categoryId` is truthy: NaN-free and not 0. */
  predicate Filtered(category: Option<int>)
  {
    category.Some? && category.value != 0
  }

  /** The posts the list draws from: all of them, or those of one category. */
  function InCategory(posts: map<int, Post>, category: Option<int>): (r: map<int, Post>)
    ensures forall k :: k in r <==> k in posts && (Filtered(category) ==> posts[k].category == category)
    ensures forall k :: k in r ==> r[k] == posts[k]
  {
    map k | k in posts && (Filtered(category) ==> posts[k].category == category) :: posts[k]
  }

  /** Ids ordered by ORDER BY p.is_pinned DESC, p.created_at DESC. */
  function PinnedThenNewest(shown: map<int, Post>): (ids: seq<int>)
    ensures |ids| == |shown.Keys|
    ensures forall i :: 0 <= i < |ids| ==> ids[i] in shown
    ensures forall k :: k in shown ==> k in ids
    ensures forall i, j :: 0 <= i < j < |ids| ==> ids[i] != ids[j]
    ensures forall i, j :: 0 <= i < j < |ids| ==> FeedBefore(shown[ids[i]], shown[ids[j]])
  {
    var ids := OrderIds(shown, PinRank, Age);
    RankedFeed(shown, ids);
    ids
  }

  /** The major key of the order: 1 for a pinned post, 0 otherwise. */
  function PinRank(id: int, p: Post): int
  {
    if p.pinned then 1 else 0
  }

  /** The minor key of the order: the creation time. */
  function Age(id: int, p: Post): int
  {
    p.createdAt
  }

  /** Ids ordered by the two keys are in feed order. */
  lemma RankedFeed(shown: map<int, Post>, ids: seq<int>)
    requires forall i :: 0 <= i < |ids| ==> ids[i] in shown
    requires forall i, j :: 0 <= i < j < |ids| ==> RowBefore(shown, ids[i], ids[j], PinRank, Age)
    ensures forall i, j :: 0 <= i < j < |ids| ==> FeedBefore(shown[ids[i]], shown[ids[j]])
  {
    forall i, j | 0 <= i < j < |ids| ensures FeedBefore(shown[ids[i]], shown[ids[j]]) {
      assert RowBefore(shown, ids[i], ids[j], PinRank, Age);
    }
  }

  /** Post `a` may be listed before post `b`: pinned before unpinned, then newer before older. */
  predicate FeedBefore(a: Post, b: Post)
  {
    && (b.pinned ==> a.pinned)
    && (a.pinned == b.pinned ==> a.createdAt >= b.createdAt)
  }

  /** The row of post `id` as the reader sees it. */
  predicate IsRow(posts: map<int, Post>, comments: map<int, Comment>, postLikes: set<(int, int)>,
                  favorites: map<(int, int), int>, viewer: Option<int>, row: PostRow)
  {
    && row.id in posts
    && row.post == posts[row.id]
    && row.commentCount == CommentCount(comments, row.id)
    && row.liked == (if SignedIn(viewer) then Some((row.id, viewer.value) in postLikes) else None)
    && row.favorited == (if SignedIn(viewer) then Some((row.id, viewer.value) in favorites) else None)
  }

  /** The row of post `id`. */
  function RowOf(posts: map<int, Post>, comments: map<int, Comment>, postLikes: set<(int, int)>,
                 favorites: map<(int, int), int>, viewer: Option<int>, id: int): PostRow
    requires id in posts
  {
    PostRow(id, posts[id], CommentCount(comments, id),
            if SignedIn(viewer) then Some((id, viewer.value) in postLikes) else None,
            if SignedIn(viewer) then Some((id, viewer.value) in favorites) else None)
  }

  /** One row per id of `ids`, in that order. */
  function Rows(posts: map<int, Post>, comments: map<int, Comment>, postLikes: set<(int, int)>,
                favorites: map<(int, int), int>, viewer: Option<int>, ids: seq<int>): (r: seq<PostRow>)
    requires forall i :: 0 <= i < |ids| ==> ids[i] in posts
    ensures |r| == |ids|
    ensures forall i :: 0 <= i < |r| ==> r[i].id == ids[i]
    ensures forall i :: 0 <= i < |r| ==> IsRow(posts, comments, postLikes, favorites, viewer, r[i])
  {
    seq(|ids|, i requires 0 <= i < |ids| => RowOf(posts, comments, postLikes, favorites, viewer, ids[i]))
  }

  /** Every post the list draws from, pinned first and then newest first. */
  function Feed(posts: map<int, Post>, comments: map<int, Comment>, postLikes: set<(int, int)>,
                favorites: map<(int, int), int>, viewer: Option<int>, category: Option<int>): (r: seq<PostRow>)
    ensures |r| == |InCategory(posts, category).Keys|
    ensures forall i :: 0 <= i < |r| ==> IsRow(posts, comments, postLikes, favorites, viewer, r[i])
  {
    var shown := InCategory(posts, category);
    Rows(posts, comments, postLikes, favorites, viewer, PinnedThenNewest(shown))
  }

  /** The ids of a list, in the order they are listed. */
  function PostIds(r: seq<PostRow>): (ids: seq<int>)
    ensures |ids| == |r|
    ensures forall i :: 0 <= i < |r| ==> ids[i] == r[i].id
  {
    seq(|r|, i requires 0 <= i < |r| => r[i].id)
  }

  /**
   * The list holds exactly the posts of the category (all posts when no
   * category is given), each once, pinned posts first and newest first
   * within each group.
   */
  lemma FeedPinnedFirst(posts: map<int, Post>, comments: map<int, Comment>, postLikes: set<(int, int)>,
                        favorites: map<(int, int), int>, viewer: Option<int>, category: Option<int>)
    ensures var r := Feed(posts, comments, postLikes, favorites, viewer, category);
            && (forall k :: k in posts && (Filtered(category) ==> posts[k].category == category) <==> k in PostIds(r))
            && (forall i, j :: 0 <= i < j < |r| ==> r[i].id != r[j].id)
            && (forall i, j :: 0 <= i < j < |r| ==> FeedBefore(r[i].post, r[j].post))
  {
    var shown := InCategory(posts, category);
    var r := Feed(posts, comments, postLikes, favorites, viewer, category);
    assert PostIds(r) == PinnedThenNewest(shown);
  }

  /** The query passes its validators: page ≥ 1, 1 ≤ limit ≤ 100, an integer category. */
  predicate ListValid(page: Param, limit: Param, category: Param)
  {
    AtLeast(page, 1) && Between(limit, 1, 100) && IsIntParam(category)
  }

  /**
   * GET /posts: a query that fails a validator is 400; otherwise page
   * `page || 1` of the feed with `limit || 20` rows per page, and the total
   * of the same filter.
   */
  function List(posts: map<int, Post>, comments: map<int, Comment>, postLikes: set<(int, int)>,
                favorites: map<(int, int), int>, viewer: Option<int>,
                page: Param, limit: Param, category: Param): (r: Result<Page<PostRow>>)
    ensures !ListValid(page, limit, category) <==> r == Err(Invalid)
    ensures r.Ok? ==>
              && 1 <= r.value.page && 1 <= r.value.limit <= 100
              && r.value.page == Fallback(Parsed(page), 1) && r.value.limit == Fallback(Parsed(limit), 20)
              && r.value.total == |InCategory(posts, Parsed(category)).Keys|
              && r.value.totalPages == PageCount(r.value.total, r.value.limit)
              && |r.value.rows| <= r.value.limit
              && r.value.rows == Window(Feed(posts, comments, postLikes, favorites, viewer, Parsed(category)),
                                        (Fallback(Parsed(page), 1) - 1) * Fallback(Parsed(limit), 20),
                                        Fallback(Parsed(limit), 20))
  {
    if !ListValid(page, limit, category) then Err(Invalid)
    else
      var feed := Feed(posts, comments, postLikes, favorites, viewer, Parsed(category));
      Ok(Paginate(feed, Fallback(Parsed(page), 1), Fallback(Parsed(limit), 20)))
  }

  /**
   * A page, limit or category that `parseInt` can read but that is not an
   * integer literal ("2.5", "12abc", "1e3") is refused with 400, whatever
   * number its prefix parses to.
   */
  lemma NonIntegerQueryRejected(posts: map<int, Post>, comments: map<int, Comment>,
                                postLikes: set<(int, int)>, favorites: map<(int, int), int>,
                                viewer: Option<int>, page: Param, limit: Param, category: Param)
    requires (page.Given? && !page.isInt) || (limit.Given? && !limit.isInt) || (category.Given? && !category.isInt)
    ensures List(posts, comments, postLikes, favorites, viewer, page, limit, category) == Err(Invalid)
  {
  }

  /** Without a category, or with category 0, every post is counted. */
  lemma UnfilteredCountsAll(posts: map<int, Post>, category: Option<int>)
    requires !Filtered(category)
    ensures |InCategory(posts, category).Keys| == |posts.Keys|
  {
    assert InCategory(posts, category).Keys == posts.Keys;
  }
}
