/**
 * GET /comments/post/:postId: the validated, paginated comments of one
 * post, oldest first, with `is_liked` for a signed-in reader.
 */
module CommentQueries {
  import opened Tables
  import opened Ranking

  /** A row of the list: the comment's id and columns and, for a signed-in reader, `is_liked`. */
  datatype CommentRow = CommentRow(id: int, comment: Comment, liked: Option<bool>)

  /** The comments of one post (WHERE c.post_id = ?), keyed by id. */
  function OnPost(comments: map<int, Comment>, postId: int): (r: map<int, Comment>)
    ensures forall k :: k in r <==> k in comments && comments[k].post == postId
    ensures forall k :: k in r ==> r[k] == comments[k]
  {
    map k | k in comments && comments[k].post == postId :: comments[k]
  }

  /** The major key of ORDER BY c.created_at ASC, negated so that the oldest ranks first. */
  function Earliness(id: int, c: Comment): int
  {
    -c.createdAt
  }

  /** Among comments made at the same time, the smaller id first. */
  function Seniority(id: int, c: Comment): int
  {
    -id
  }

  /** Ids of the comments of a post, oldest first. */
  function OldestFirst(thread: map<int, Comment>): (ids: seq<int>)
    ensures |ids| == |thread.Keys|
    ensures forall i :: 0 <= i < |ids| ==> ids[i] in thread
    ensures forall k :: k in thread ==> k in ids
    ensures forall i, j :: 0 <= i < j < |ids| ==> ids[i] != ids[j]
    ensures forall i, j :: 0 <= i < j < |ids| ==> thread[ids[i]].createdAt <= thread[ids[j]].createdAt
  {
    var ids := OrderIds(thread, Earliness, Seniority);
    EarliestFirst(thread, ids);
    ids
  }

  /** Ids ordered by the negated creation time are in ascending creation time. */
  lemma EarliestFirst(thread: map<int, Comment>, ids: seq<int>)
    requires forall i :: 0 <= i < |ids| ==> ids[i] in thread
    requires forall i, j :: 0 <= i < j < |ids| ==> RowBefore(thread, ids[i], ids[j], Earliness, Seniority)
    ensures forall i, j :: 0 <= i < j < |ids| ==> thread[ids[i]].createdAt <= thread[ids[j]].createdAt
  {
    forall i, j | 0 <= i < j < |ids| ensures thread[ids[i]].createdAt <= thread[ids[j]].createdAt {
      assert RowBefore(thread, ids[i], ids[j], Earliness, Seniority);
    }
  }

  /** `row` is comment `row.id` of post `postId` as the reader sees it. */
  predicate IsRow(comments: map<int, Comment>, commentLikes: set<(int, int)>, viewer: Option<int>,
                  postId: int, row: CommentRow)
  {
    && row.id in comments
    && row.comment == comments[row.id]
    && row.comment.post == postId
    && row.liked == (if SignedIn(viewer) then Some((row.id, viewer.value) in commentLikes) else None)
  }

  /** One row per id of `ids`, in that order. */
  function Rows(comments: map<int, Comment>, commentLikes: set<(int, int)>, viewer: Option<int>,
                postId: int, ids: seq<int>): (r: seq<CommentRow>)
    requires forall i :: 0 <= i < |ids| ==> ids[i] in comments && comments[ids[i]].post == postId
    ensures |r| == |ids|
    ensures forall i :: 0 <= i < |r| ==> r[i].id == ids[i]
    ensures forall i :: 0 <= i < |r| ==> IsRow(comments, commentLikes, viewer, postId, r[i])
  {
    seq(|ids|, i requires 0 <= i < |ids| =>
      CommentRow(ids[i], comments[ids[i]],
                 if SignedIn(viewer) then Some((ids[i], viewer.value) in commentLikes) else None))
  }

  /** Every comment of the post, oldest first. */
  function Thread(comments: map<int, Comment>, commentLikes: set<(int, int)>, viewer: Option<int>,
                  postId: int): (r: seq<CommentRow>)
    ensures |r| == |OnPost(comments, postId).Keys|
    ensures forall i :: 0 <= i < |r| ==> IsRow(comments, commentLikes, viewer, postId, r[i])
  {
    Rows(comments, commentLikes, viewer, postId, OldestFirst(OnPost(comments, postId)))
  }

  /** The ids of a list, in the order they are listed. */
  function CommentIds(r: seq<CommentRow>): (ids: seq<int>)
    ensures |ids| == |r|
    ensures forall i :: 0 <= i < |r| ==> ids[i] == r[i].id
  {
    seq(|r|, i requires 0 <= i < |r| => r[i].id)
  }

  /** Every comment of the post is listed, exactly once, oldest first. */
  lemma ThreadOldestFirst(comments: map<int, Comment>, commentLikes: set<(int, int)>, viewer: Option<int>,
                          postId: int)
    ensures var r := Thread(comments, commentLikes, viewer, postId);
            && (forall k :: k in comments && comments[k].post == postId <==> k in CommentIds(r))
            && (forall i, j :: 0 <= i < j < |r| ==> r[i].id != r[j].id)
            && (forall i, j :: 0 <= i < j < |r| ==> r[i].comment.createdAt <= r[j].comment.createdAt)
  {
    var r := Thread(comments, commentLikes, viewer, postId);
    assert CommentIds(r) == OldestFirst(OnPost(comments, postId));
  }

  /**
   * GET /comments/post/:postId: the validators run first (page ≥ 1,
   * 1 ≤ limit ≤ 100), then a non-numeric post id is 400; otherwise page
   * `page || 1` with `limit || 50` rows per page. A post that does not exist
   * simply has no comments.
   */
  function List(comments: map<int, Comment>, commentLikes: set<(int, int)>, viewer: Option<int>,
                postId: Option<int>, page: Param, limit: Param): (r: Result<Page<CommentRow>>)
    ensures !(AtLeast(page, 1) && Between(limit, 1, 100)) <==> r == Err(Invalid)
    ensures AtLeast(page, 1) && Between(limit, 1, 100) && postId.None? <==> r == Err(BadId)
    ensures r.Ok? ==>
              && 1 <= r.value.page && 1 <= r.value.limit <= 100
              && r.value.page == Fallback(Parsed(page), 1) && r.value.limit == Fallback(Parsed(limit), 50)
              && r.value.total == |OnPost(comments, postId.value).Keys|
              && r.value.totalPages == PageCount(r.value.total, r.value.limit)
              && |r.value.rows| <= r.value.limit
              && r.value.rows == Window(Thread(comments, commentLikes, viewer, postId.value),
                                        (Fallback(Parsed(page), 1) - 1) * Fallback(Parsed(limit), 50),
                                        Fallback(Parsed(limit), 50))
  {
    if !(AtLeast(page, 1) && Between(limit, 1, 100)) then Err(Invalid)
    else if postId.None? then Err(BadId)
    else
      var thread := Thread(comments, commentLikes, viewer, postId.value);
      Ok(Paginate(thread, Fallback(Parsed(page), 1), Fallback(Parsed(limit), 50)))
  }

  /** A page or limit that is not an integer literal is refused with 400 before the post id is looked at. */
  lemma NonIntegerQueryRejected(comments: map<int, Comment>, commentLikes: set<(int, int)>,
                                viewer: Option<int>, postId: Option<int>, page: Param, limit: Param)
    requires (page.Given? && !page.isInt) || (limit.Given? && !limit.isInt)
    ensures List(comments, commentLikes, viewer, postId, page, limit) == Err(Invalid)
  {
  }

  /** With the default limit of 50, a post with at most 50 comments shows them all on page 1. */
  lemma FirstPageHoldsSmallThread(comments: map<int, Comment>, commentLikes: set<(int, int)>,
                                  viewer: Option<int>, postId: int)
    requires |OnPost(comments, postId).Keys| <= 50
    ensures var r := List(comments, commentLikes, viewer, Some(postId), Absent, Absent);
            r.Ok? && r.value.rows == Thread(comments, commentLikes, viewer, postId)
  {
    var thread := Thread(comments, commentLikes, viewer, postId);
    assert Fallback(Parsed(Absent), 1) == 1 && Fallback(Parsed(Absent), 50) == 50;
    assert Paginate(thread, 1, 50).rows == Window(thread, 0, 50) == thread;
  }
}
