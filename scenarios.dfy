/**
 * Sequences of requests against one forum, and what the store looks like
 * after the whole sequence: undoing a like, repeating a check-in or a
 * `/me`, toggling a favorite or a follow twice.
 */
module Scenarios {
  import opened Tables
  import opened Ledger
  import opened Store
  import CheckinQueries

  /**
   * Toggling a like on someone else's post twice restores every table but
   * two: the author's level is recomputed from their balance, and the like
   * notification is kept.
   */
  lemma LikeUndone(d: Db, p: int, me: int)
    requires p in d.posts && d.posts[p].author in d.users && d.posts[p].author != me
    requires (p, me) !in d.postLikes
    ensures var author := d.posts[p].author;
            PostLikeToggled(PostLikeToggled(d, p, me), p, me) ==
              d.(users := d.users[author := Relevel(d.users[author], ACTIVITY_LEVEL_STEP)],
                 notifications := d.notifications + [Notification(author, LikeNotice, p, "post")])
  {
    var author, post := d.posts[p].author, d.posts[p];
    var d1 := PostLikeToggled(d, p, me);
    var u1 := Relevel(Credit(d.users[author], 1), ACTIVITY_LEVEL_STEP);
    assert d1 == d.(postLikes := d.postLikes + {(p, me)},
                    posts := d.posts[p := post.(likes := post.likes + 1)],
                    users := d.users[author := u1],
                    notifications := d.notifications + [Notification(author, LikeNotice, p, "post")]);
    assert d1.postLikes - {(p, me)} == d.postLikes;
    assert d1.posts[p := post] == d.posts;
  }

  /**
   * A like and then an un-like of someone else's post: the like set, the
   * post's counter and the author's balance are as before, the author's
   * level is the activity level of that balance, and the one notification
   * the like sent stays.
   */
  method LikeThenUnlike(f: Forum, me: int, p: int)
    requires f.Valid() && me in f.db.users && p in f.db.posts
    requires (p, me) !in f.db.postLikes && f.db.posts[p].author != me
    modifies f
    ensures f.Valid()
    ensures var author := old(f.db.posts[p].author);
            && f.db.postLikes == old(f.db.postLikes)
            && f.db.posts == old(f.db.posts)
            && f.db.users == old(f.db.users)[author := Relevel(old(f.db.users[author]), ACTIVITY_LEVEL_STEP)]
            && f.db.notifications == old(f.db.notifications) + [Notification(author, LikeNotice, p, "post")]
  {
    var d0 := f.db;
    var first := f.TogglePostLike(me, Some(p));
    var second := f.TogglePostLike(me, Some(p));
    LikeUndone(d0, p, me);
  }

  /**
   * Toggling a like on someone else's comment twice restores the like
   * table and the comment, but the author keeps the point of the like.
   */
  lemma CommentLikeKept(d: Db, c: int, me: int)
    requires c in d.comments && d.comments[c].author in d.users && d.comments[c].author != me
    requires (c, me) !in d.commentLikes
    ensures var author := d.comments[c].author;
            CommentLikeToggled(CommentLikeToggled(d, c, me), c, me) ==
              d.(users := d.users[author := Relevel(Credit(d.users[author], 1), ACTIVITY_LEVEL_STEP)])
  {
    var comment := d.comments[c];
    var d1 := CommentLikeToggled(d, c, me);
    assert d1.commentLikes == d.commentLikes + {(c, me)};
    assert d1.commentLikes - {(c, me)} == d.commentLikes;
    assert d1.comments[c := comment] == d.comments;
  }

  /**
   * A like and then an un-like of someone else's comment: the like set and
   * the comment's counter are as before, but the author keeps the point the
   * like gave.
   */
  method CommentLikeThenUnlike(f: Forum, me: int, c: int)
    requires f.Valid() && me in f.db.users && c in f.db.comments
    requires (c, me) !in f.db.commentLikes && f.db.comments[c].author != me
    modifies f
    ensures f.Valid()
    ensures var author := old(f.db.comments[c].author);
            && f.db.commentLikes == old(f.db.commentLikes)
            && f.db.comments == old(f.db.comments)
            && f.db.users == old(f.db.users)[author := Relevel(Credit(old(f.db.users[author]), 1), ACTIVITY_LEVEL_STEP)]
            && f.db.users[author].points == old(f.db.users[author].points) + 1
  {
    var d0 := f.db;
    var first := f.ToggleCommentLike(me, Some(c));
    var second := f.ToggleCommentLike(me, Some(c));
    CommentLikeKept(d0, c, me);
  }

  /**
   * Two check-ins on the same day: the first is recorded and shows in the
   * status, the second is refused and changes nothing.
   */
  method CheckInTwice(f: Forum, me: int, today: int) returns (first: Result<Checkin>, second: Result<Checkin>)
    requires f.Valid() && me in f.db.users && (me, today) !in f.db.checkins
    modifies f
    ensures f.Valid()
    ensures first.Ok? && second == Err(AlreadyCheckedIn)
    ensures (me, today) in f.db.checkins && f.db.checkins[(me, today)] == first.value
    ensures CheckinQueries.Status(f.db.checkins, me, today) ==
              CheckinQueries.CheckinStatus(true, first.value.consecutiveDays, Some(first.value))
    ensures f.db.checkins == old(f.db.checkins)[(me, today) := first.value]
  {
    first := f.CheckIn(me, today);
    var after := f.db;
    second := f.CheckIn(me, today);
    assert f.db == after;
  }

  /** Checking in on two days in a row extends the streak by one. */
  method CheckInTwoDays(f: Forum, me: int, day: int) returns (first: Result<Checkin>, second: Result<Checkin>)
    requires f.Valid() && me in f.db.users
    requires (me, day) !in f.db.checkins && (me, day + 1) !in f.db.checkins
    modifies f
    ensures f.Valid()
    ensures first.Ok? && second.Ok?
    ensures second.value.consecutiveDays == first.value.consecutiveDays + 1
    ensures second.value.pointsEarned == CheckinPoints(first.value.consecutiveDays + 1)
  {
    first := f.CheckIn(me, day);
    second := f.CheckIn(me, day + 1);
  }

  /** A second `/me` right after the first writes nothing and answers the same row. */
  method MeTwice(f: Forum, me: int) returns (first: Result<User>, second: Result<User>)
    requires f.Valid()
    modifies f
    ensures f.Valid()
    ensures first == second
    ensures me in f.db.users ==> f.db.users[me].level == Level(f.db.users[me].points, PROFILE_LEVEL_STEP)
  {
    first := f.Me(me);
    var after := f.db;
    second := f.Me(me);
    assert f.db == after;
  }

  /**
   * Favoriting a post twice leaves the set of favorites as it was; only
   * the time of a favorite that was there before is renewed.
   */
  method FavoriteTwice(f: Forum, me: int, p: int, t1: int, t2: int)
    requires f.Valid() && me in f.db.users && p in f.db.posts
    modifies f
    ensures f.Valid()
    ensures f.db.favorites.Keys == old(f.db.favorites.Keys)
    ensures (p, me) !in old(f.db.favorites) ==> f.db.favorites == old(f.db.favorites)
    ensures (p, me) in old(f.db.favorites) ==> f.db.favorites == old(f.db.favorites)[(p, me) := t2]
    ensures f.db == old(f.db).(favorites := f.db.favorites)
  {
    var first := f.ToggleFavorite(me, Some(p), t1);
    var second := f.ToggleFavorite(me, Some(p), t2);
  }

  /**
   * Following a user twice leaves the follow pairs as they were, and the
   * user has been told twice: once of each direction.
   */
  method FollowTwice(f: Forum, me: int, target: int, t1: int, t2: int)
    requires f.Valid() && me in f.db.users && target in f.db.users && target != me
    modifies f
    ensures f.Valid()
    ensures f.db.follows.Keys == old(f.db.follows.Keys)
    ensures var was := (me, target) in old(f.db.follows);
            f.db.notifications == old(f.db.notifications) +
              [Notification(target, if was then UnfollowNotice else FollowNotice, me, "user"),
               Notification(target, if was then FollowNotice else UnfollowNotice, me, "user")]
  {
    var first := f.ToggleFollow(me, Some(target), t1);
    var second := f.ToggleFollow(me, Some(target), t2);
  }
}
