/**
 * GET /likes/posts/:postId/status (likes.ts): whether the caller has liked
 * a post. A pure membership test on post_likes; it does not check that the
 * post exists.
 */
module LikeQueries {
  import opened Tables
  import opened Store

  /** GET /likes/posts/:postId/status; FavoriteQueries.Status answers the same question for favorites. */
  function Status(postLikes: set<(int, int)>, postId: Option<int>, me: int): (r: Result<bool>)
    ensures postId.None? ==> r == Err(BadId)
    ensures postId.Some? ==> r.Ok? && (r.value <==> (postId.value, me) in postLikes)
  {
    if postId.None? then Err(BadId) else Ok((postId.value, me) in postLikes)
  }

  /**
   * After POST /likes/posts/:postId the status of that post flips, and the
   * status of every other (post, user) pair is what it was.
   */
  lemma ToggleFlipsStatus(d: Db, p: int, me: int)
    requires p in d.posts && (d.posts[p].author != me ==> d.posts[p].author in d.users)
    ensures var after := PostLikeToggled(d, p, me).postLikes;
            && Status(after, Some(p), me) == Ok(!Status(d.postLikes, Some(p), me).value)
            && forall q, u :: (q, u) != (p, me) ==> Status(after, Some(q), u) == Status(d.postLikes, Some(q), u)
  {
    var after := PostLikeToggled(d, p, me).postLikes;
    forall q, u | (q, u) != (p, me)
      ensures Status(after, Some(q), u) == Status(d.postLikes, Some(q), u)
    {
      assert (q, u) in after <==> (q, u) in after - {(p, me)};
    }
  }
}
