/**
 * The forum's store and its write handlers.
 *
 * `Forum` holds the database every route handler reads and writes. Each
 * POST, PUT or DELETE handler (and the two GET handlers that write: post
 * detail and `/me`) is a method that runs the handler's checks in the
 * handler's order and then applies its UPDATEs and INSERTs; a failed check
 * answers an error and leaves the database as it was. The authenticated
 * user id the token middleware supplies is the parameter `me`.
 */
module Store {
  import opened Tables
  import opened Ledger

  /**
   * The tables the handlers write: rows keyed by id (with the next
   * AUTOINCREMENT id), the like and relation tables keyed by their UNIQUE
   * pairs, and the append-only logs.
   */
  datatype Db = Db(users: map<int, User>, nextUserId: int,
                   posts: map<int, Post>, nextPostId: int,
                   comments: map<int, Comment>, nextCommentId: int,
                   postLikes: set<(int, int)>, commentLikes: set<(int, int)>,
                   favorites: map<(int, int), int>, follows: map<(int, int), int>,
                   checkins: map<(int, int), Checkin>,
                   rewards: seq<Reward>, purchases: seq<Purchase>, badges: seq<Badge>,
                   notifications: seq<Notification>)

  /**
   * The tables after the like of `me` on post `p` is toggled: the pair is
   * added or removed, the post's counter moves by one, the author of
   * someone else's post gains or loses a point and has the level recomputed
   * with divisor 30, and a like notifies that author.
   */
  function PostLikeToggled(d: Db, p: int, me: int): (r: Db)
    requires p in d.posts && (d.posts[p].author != me ==> d.posts[p].author in d.users)
    ensures var liked, author := (p, me) !in d.postLikes, d.posts[p].author;
            var delta := if liked then 1 else -1;
            && ((p, me) in r.postLikes <==> liked)
            && r.postLikes - {(p, me)} == d.postLikes - {(p, me)}
            && r.posts == d.posts[p := d.posts[p].(likes := d.posts[p].likes + delta)]
            && (author == me ==> r.users == d.users && r.notifications == d.notifications)
            && (author != me ==>
                  && r.users.Keys == d.users.Keys
                  && r.users[author].points == d.users[author].points + delta
                  && r.users[author].level == Level(r.users[author].points, ACTIVITY_LEVEL_STEP)
                  && (forall v :: v in d.users && v != author ==> r.users[v] == d.users[v])
                  && r.notifications == d.notifications +
                       if liked then [Notification(author, LikeNotice, p, "post")] else [])
            && r == d.(postLikes := r.postLikes, posts := r.posts, users := r.users, notifications := r.notifications)
  {
    var author := d.posts[p].author;
    var liked := (p, me) !in d.postLikes;
    var delta := if liked then 1 else -1;
    d.(postLikes := if liked then d.postLikes + {(p, me)} else d.postLikes - {(p, me)},
       posts := d.posts[p := d.posts[p].(likes := d.posts[p].likes + delta)],
       users := if author == me then d.users
                else d.users[author := Relevel(Credit(d.users[author], delta), ACTIVITY_LEVEL_STEP)],
       notifications := d.notifications +
         if liked && author != me then [Notification(author, LikeNotice, p, "post")] else [])
  }

  /**
   * The tables after the like of `me` on comment `c` is toggled: the pair
   * is added or removed and the comment's counter moves by one; only a like
   * on someone else's comment credits its author a point and recomputes the
   * level with divisor 30.
   */
  function CommentLikeToggled(d: Db, c: int, me: int): (r: Db)
    requires c in d.comments && (d.comments[c].author != me ==> d.comments[c].author in d.users)
    ensures var liked, author := (c, me) !in d.commentLikes, d.comments[c].author;
            && ((c, me) in r.commentLikes <==> liked)
            && r.commentLikes - {(c, me)} == d.commentLikes - {(c, me)}
            && r.comments == d.comments[c := d.comments[c].(likes := d.comments[c].likes + if liked then 1 else -1)]
            && (!liked || author == me ==> r.users == d.users)
            && (liked && author != me ==>
                  && r.users.Keys == d.users.Keys
                  && r.users[author].points == d.users[author].points + 1
                  && r.users[author].level == Level(r.users[author].points, ACTIVITY_LEVEL_STEP)
                  && (forall v :: v in d.users && v != author ==> r.users[v] == d.users[v]))
            && r == d.(commentLikes := r.commentLikes, comments := r.comments, users := r.users)
  {
    var author := d.comments[c].author;
    var liked := (c, me) !in d.commentLikes;
    d.(commentLikes := if liked then d.commentLikes + {(c, me)} else d.commentLikes - {(c, me)},
       comments := d.comments[c := d.comments[c].(likes := d.comments[c].likes + if liked then 1 else -1)],
       users := if liked && author != me
                then d.users[author := Relevel(Credit(d.users[author], 1), ACTIVITY_LEVEL_STEP)]
                else d.users)
  }

  /** The schema's constraints and the counters the handlers keep in step with the like tables. */
  ghost predicate Consistent(db: Db, categories: set<int>, items: map<int, Item>)
  {
    && UsersOk(db.users, db.nextUserId)
    && PostsOk(db.users.Keys, categories, db.posts, db.nextPostId)
    && CommentsOk(db.users.Keys, db.posts.Keys, db.comments, db.nextCommentId)
    && PostLikesOk(db.posts, db.postLikes)
    && CommentLikesOk(db.comments, db.commentLikes)
    && RelationsOk(db.posts.Keys, db.users.Keys, db.favorites, db.follows)
    && CheckinsOk(db.checkins)
    && RewardsOk(db.rewards)
    && PurchasesOk(items, db.purchases)
    && BadgesOk(db.badges)
  }

  /** Toggling a post like keeps the tables consistent. */
  lemma PostLikeKeepsConsistent(d: Db, categories: set<int>, items: map<int, Item>, p: int, me: int)
    requires Consistent(d, categories, items) && p in d.posts
    ensures d.posts[p].author in d.users
    ensures Consistent(PostLikeToggled(d, p, me), categories, items)
  {
    var author := d.posts[p].author;
    var after := PostLikeToggled(d, p, me);
    PostLikeToggle(d.posts, d.postLikes, p, me);
    PostsOkUpdate(d.users.Keys, categories, d.posts, d.nextPostId, p, after.posts[p]);
    if author == me {
      PostSideChanged(d, after, categories, items);
    } else {
      UsersOkUpdate(d.users, d.nextUserId, author, after.users[author]);
      PostSideChanged(d, after, categories, items);
    }
  }

  /**
   * A change to the users, posts and post likes alone, which removes no
   * user and no post, keeps the tables consistent when those three tables
   * are consistent on their own.
   */
  lemma PostSideChanged(d: Db, after: Db, categories: set<int>, items: map<int, Item>)
    requires Consistent(d, categories, items)
    requires UsersOk(after.users, after.nextUserId) && after.users.Keys == d.users.Keys
    requires PostsOk(after.users.Keys, categories, after.posts, after.nextPostId) && d.posts.Keys <= after.posts.Keys
    requires PostLikesOk(after.posts, after.postLikes)
    requires after == d.(users := after.users, posts := after.posts, nextPostId := after.nextPostId,
                         postLikes := after.postLikes, notifications := after.notifications)
    ensures Consistent(after, categories, items)
  {
  }

  /** Toggling a comment like keeps the tables consistent. */
  lemma CommentLikeKeepsConsistent(d: Db, categories: set<int>, items: map<int, Item>, c: int, me: int)
    requires Consistent(d, categories, items) && c in d.comments
    ensures d.comments[c].author in d.users
    ensures Consistent(CommentLikeToggled(d, c, me), categories, items)
  {
    var author := d.comments[c].author;
    var after := CommentLikeToggled(d, c, me);
    CommentLikeToggle(d.comments, d.commentLikes, c, me);
    CommentsOkUpdate(d.users.Keys, d.posts.Keys, d.comments, d.nextCommentId, c, after.comments[c]);
    if (c, me) !in d.commentLikes && author != me {
      UsersOkUpdate(d.users, d.nextUserId, author, after.users[author]);
      CommentSideChanged(d, after, categories, items);
    } else {
      CommentSideChanged(d, after, categories, items);
    }
  }

  /**
   * A change to the users, comments and comment likes alone, which removes
   * no user and no comment, keeps the tables consistent when those three
   * tables are consistent on their own.
   */
  lemma CommentSideChanged(d: Db, after: Db, categories: set<int>, items: map<int, Item>)
    requires Consistent(d, categories, items)
    requires UsersOk(after.users, after.nextUserId) && after.users.Keys == d.users.Keys
    requires CommentsOk(after.users.Keys, d.posts.Keys, after.comments, after.nextCommentId)
    requires CommentLikesOk(after.comments, after.commentLikes)
    requires after == d.(users := after.users, comments := after.comments, nextCommentId := after.nextCommentId,
                         commentLikes := after.commentLikes, notifications := after.notifications)
    ensures Consistent(after, categories, items)
  {
  }

  /** What a successful reward answers. */
  /**
   * The answer of GET /posts/:id: the post row and, for a signed-in reader
   * only, whether that reader likes and has favorited it.
   */
  datatype PostView = PostView(post: Post, liked: Option<bool>, favorited: Option<bool>)

  datatype RewardReceipt = RewardReceipt(id: int, points: int, from: int, to: int)

  /** `x || null` on an optional integer: 0 is falsy and is stored as NULL. */
  function Truthy(x: Option<int>): (r: Option<int>)
    ensures r.Some? <==> x.Some? && x.value != 0
    ensures r.Some? ==> r == x
  {
    if x.Some? && x.value != 0 then x else None
  }

  /** `message || null`: an empty message is stored as NULL. */
  function StoredMessage(message: Option<string>): (r: Option<string>)
    ensures r.Some? <==> message.Some? && message.value != ""
    ensures r.Some? ==> r == message
  {
    if message.Some? && message.value != "" then message else None
  }

  /** The validator of POST /auth/register (`isEmail` is the library's verdict, passed in). */
  predicate RegistrationValid(username: string, emailIsValid: bool, password: string)
  {
    3 <= |username| <= 20 && emailIsValid && 6 <= |password|
  }

  /** `SELECT id FROM users WHERE username = ? OR email = ?` finds a row. */
  predicate Taken(users: map<int, User>, username: string, email: string)
  {
    exists id :: id in users && (users[id].username == username || users[id].email == email)
  }

  /** The validator of POST /rewards. */
  predicate RewardRequestValid(relatedType: string, amount: int, message: Option<string>)
  {
    && (relatedType == "post" || relatedType == "comment")
    && 1 <= amount <= 1000
    && (message.Some? ==> |message.value| <= 100)
  }

  /** The author of the post or comment a reward points at, if that row exists. */
  function RewardTarget(posts: map<int, Post>, comments: map<int, Comment>,
                        relatedType: string, relatedId: int): (to: Option<int>)
    ensures relatedType == "post" ==>
              (to.Some? <==> relatedId in posts) && (to.Some? ==> to.value == posts[relatedId].author)
    ensures relatedType != "post" ==>
              (to.Some? <==> relatedId in comments) && (to.Some? ==> to.value == comments[relatedId].author)
  {
    if relatedType == "post" then
      if relatedId in posts then Some(posts[relatedId].author) else None
    else
      if relatedId in comments then Some(comments[relatedId].author) else None
  }

  /** The validator of POST /posts. */
  predicate PostDraftValid(title: string, content: string)
  {
    1 <= |title| <= 200 && 1 <= |content|
  }

  /** The validator of PUT /posts/:id: supplied fields must be non-empty, the title at most 200 characters. */
  predicate PostEditValid(title: Option<string>, content: Option<string>)
  {
    && (title.Some? ==> 1 <= |title.value| <= 200)
    && (content.Some? ==> 1 <= |content.value|)
  }

  /**
   * The post after an update: only the supplied fields change, and
   * updated_at always does. `category` is `None` when the body has no
   * category_id, `Some(None)` for an explicit null.
   */
  function EditPost(p: Post, title: Option<string>, content: Option<string>,
                    category: Option<Option<int>>, now: int): (q: Post)
    ensures q.title == (if title.Some? then title.value else p.title)
    ensures q.content == (if content.Some? then content.value else p.content)
    ensures q.category == (if category.Some? then category.value else p.category)
    ensures q.updatedAt == now
    ensures q.(title := p.title, content := p.content, category := p.category, updatedAt := p.updatedAt) == p
  {
    p.(title := if title.Some? then title.value else p.title,
       content := if content.Some? then content.value else p.content,
       category := if category.Some? then category.value else p.category,
       updatedAt := now)
  }

  /** Whether the caller may change a row written by `author`: the author or an admin. */
  predicate MayModerate(users: map<int, User>, me: int, author: int)
    requires me in users
  {
    author == me || users[me].role == Admin
  }

  /**
   * The notification a new comment sends: to the parent comment's author
   * for a reply, otherwise to the post's author; none to the commenter.
   */
  function CommentNotices(posts: map<int, Post>, comments: map<int, Comment>, postId: int,
                          parent: Option<int>, me: int, id: int): (r: seq<Notification>)
    requires postId in posts
    requires parent.Some? ==> parent.value in comments
    ensures |r| <= 1
    ensures forall n :: n in r ==> n.recipient != me && n.relatedId == id && n.relatedType == "comment"
    ensures parent.Some? ==> (r != [] <==> comments[parent.value].author != me)
                             && (r != [] ==> r[0].recipient == comments[parent.value].author && r[0].kind == ReplyNotice)
    ensures parent.None? ==> (r != [] <==> posts[postId].author != me)
                             && (r != [] ==> r[0].recipient == posts[postId].author && r[0].kind == CommentNotice)
  {
    if parent.Some? then
      var to := comments[parent.value].author;
      if to != me then [Notification(to, ReplyNotice, id, "comment")] else []
    else
      var to := posts[postId].author;
      if to != me then [Notification(to, CommentNotice, id, "comment")] else []
  }

  /**
   * Whether comment `k` is `root` or a reply below it: the rows that
   * ON DELETE CASCADE on parent_id removes with `root`.
   */
  predicate InThread(comments: map<int, Comment>, k: int, root: int)
    decreases if k < 0 then 0 else k
  {
    k in comments &&
    (k == root ||
     (var parent := comments[k].parent;
      parent.Some? && 0 <= parent.value < k && InThread(comments, parent.value, root)))
  }

  /** A reply lives on the same post as every comment above it. */
  lemma {:induction false} ThreadStaysOnPost(comments: map<int, Comment>, k: int, root: int)
    requires ParentsOk(comments)
    requires InThread(comments, k, root)
    decreases if k < 0 then 0 else k
    ensures root in comments && comments[k].post == comments[root].post
  {
    if k != root {
      var p := comments[k].parent.value;
      assert ParentOk(comments, k);
      ThreadStaysOnPost(comments, p, root);
    }
  }

  /** The comments left when `root` is deleted: every comment not in its thread. */
  function Prune(comments: map<int, Comment>, root: int): (rest: map<int, Comment>)
    ensures forall k :: k in rest <==> k in comments && !InThread(comments, k, root)
    ensures forall k :: k in rest ==> rest[k] == comments[k]
  {
    map k | k in comments && !InThread(comments, k, root) :: comments[k]
  }

  /**
   * Removing a comment together with every reply below it and the likes of
   * all of them keeps every foreign key and like counter right, and removes
   * comments of one post only.
   */
  lemma ThreadRemoved(userIds: set<int>, postIds: set<int>, comments: map<int, Comment>, nextCommentId: int,
                      commentLikes: set<(int, int)>, c: int)
    requires CommentsOk(userIds, postIds, comments, nextCommentId)
    requires CommentLikesOk(comments, commentLikes)
    ensures var comments' := Prune(comments, c);
            && CommentsOk(userIds, postIds, comments', nextCommentId)
            && CommentLikesOk(comments', Surviving(commentLikes, comments'.Keys))
            && (c in comments ==> c !in comments')
            && forall k :: k in comments && k !in comments' ==> c in comments && comments[k].post == comments[c].post
  {
    var comments' := Prune(comments, c);
    var commentLikes' := Surviving(commentLikes, comments'.Keys);
    forall k | k in comments' ensures ParentOk(comments', k) {
      assert ParentOk(comments, k);
    }
    forall k | k in comments' ensures comments'[k].likes == LikeCount(commentLikes', k) {
      LikeCountKeep(commentLikes, commentLikes', k);
    }
    forall k | k in comments && k !in comments' ensures c in comments && comments[k].post == comments[c].post {
      ThreadStaysOnPost(comments, k, c);
    }
  }

  class Forum {
    /** The categories table (read-only here). */
    const categories: set<int>
    /** The shop_items table (read-only here). */
    const items: map<int, Item>
    /** The contents of every other table. */
    var db: Db

    ghost predicate Valid()
      reads this
    {
      Consistent(db, categories, items)
    }

    /** An empty forum over the given categories and shop items. */
    constructor (categories: set<int>, items: map<int, Item>)
      ensures Valid()
      ensures this.categories == categories && this.items == items
      ensures db == Db(map[], 1, map[], 1, map[], 1, {}, {}, map[], map[], map[], [], [], [], [])
    {
      this.categories := categories;
      this.items := items;
      db := Db(map[], 1, map[], 1, map[], 1, {}, {}, map[], map[], map[], [], [], [], []);
    }

    // -------------------------------------------------------------------
    // auth.ts
    // -------------------------------------------------------------------

    /** POST /auth/register: a new member with 10 points; the password hash is supplied by the caller. */
    method Register(username: string, email: string, emailIsValid: bool, password: string,
                    passwordHash: string) returns (r: Result<int>)
      requires Valid()
      modifies this
      ensures Valid()
      ensures !RegistrationValid(username, emailIsValid, password) ==> r == Err(Invalid) && db == old(db)
      ensures RegistrationValid(username, emailIsValid, password) && Taken(old(db).users, username, email) ==>
                r == Err(NameTaken) && db == old(db)
      ensures RegistrationValid(username, emailIsValid, password) && !Taken(old(db).users, username, email) ==>
                var d, id := old(db), old(db).nextUserId;
                && r == Ok(id)
                && id !in d.users
                && db == d.(users := d.users[id := User(username, email, passwordHash, Member, REGISTER_POINTS, 1)],
                            nextUserId := id + 1)
    {
      if !RegistrationValid(username, emailIsValid, password) {
        return Err(Invalid);
      }
      var d := db;
      if exists id | id in d.users :: d.users[id].username == username || d.users[id].email == email {
        return Err(NameTaken);
      }
      var id := d.nextUserId;
      db := d.(users := d.users[id := User(username, email, passwordHash, Member, REGISTER_POINTS, 1)],
               nextUserId := id + 1);
      r := Ok(id);
    }

    /**
     * GET /auth/me: answers the user's row with its level resynced to
     * `floor(points / 100) + 1`, writing the level only when it differs.
     */
    method Me(me: int) returns (r: Result<User>)
      requires Valid()
      modifies this
      ensures Valid()
      ensures me !in old(db).users ==> r == Err(UserNotFound) && db == old(db)
      ensures me in old(db).users ==>
                && r == Ok(Relevel(old(db).users[me], PROFILE_LEVEL_STEP))
                && db == old(db).(users := old(db).users[me := r.value])
      ensures me in old(db).users && old(db).users[me].level == Level(old(db).users[me].points, PROFILE_LEVEL_STEP) ==>
                db == old(db)
    {
      var d := db;
      if me !in d.users {
        return Err(UserNotFound);
      }
      var u := d.users[me];
      var level := Level(u.points, PROFILE_LEVEL_STEP);
      if level != u.level {
        UsersOkUpdate(d.users, d.nextUserId, me, u.(level := level));
        db := d.(users := d.users[me := u.(level := level)]);
      } else {
        assert d.users[me := u.(level := level)] == d.users;
      }
      r := Ok(u.(level := level));
    }

    // -------------------------------------------------------------------
    // checkin.ts
    // -------------------------------------------------------------------

    /**
     * POST /checkin: one record per user and day; the streak continues
     * yesterday's, the tier decides the points, and the level is
     * recomputed with divisor 30.
     */
    method CheckIn(me: int, today: int) returns (r: Result<Checkin>)
      requires Valid() && me in db.users
      modifies this
      ensures Valid()
      ensures (me, today) in old(db).checkins ==> r == Err(AlreadyCheckedIn) && db == old(db)
      ensures (me, today) !in old(db).checkins ==>
                var d := old(db);
                var days := Streak(d.checkins, me, today);
                && r == Ok(Checkin(days, CheckinPoints(days)))
                && db == d.(checkins := d.checkins[(me, today) := r.value],
                            users := d.users[me := Relevel(Credit(d.users[me], r.value.pointsEarned), ACTIVITY_LEVEL_STEP)])
                && db.users[me].points == d.users[me].points + r.value.pointsEarned
    {
      var d := db;
      if (me, today) in d.checkins {
        return Err(AlreadyCheckedIn);
      }
      var days := 1;
      if (me, today - 1) in d.checkins {
        days := d.checkins[(me, today - 1)].consecutiveDays + 1;
      }
      var earned := 10;
      if days >= 7 {
        earned := 20;
      } else if days >= 30 {
        earned := 50;
      } else if days >= 100 {
        earned := 100;
      }
      var u := Relevel(Credit(d.users[me], earned), ACTIVITY_LEVEL_STEP);
      UsersOkUpdate(d.users, d.nextUserId, me, u);
      db := d.(checkins := d.checkins[(me, today) := Checkin(days, earned)], users := d.users[me := u]);
      r := Ok(Checkin(days, earned));
    }

    // -------------------------------------------------------------------
    // rewards.ts
    // -------------------------------------------------------------------

    /**
     * POST /rewards: moves `amount` points from the sender to the author of
     * a post or comment. Checks run in the handler's order: validation,
     * balance, target, self-reward. Only the recipient's level is recomputed.
     */
    method SendReward(me: int, relatedType: string, relatedId: int, amount: int, message: Option<string>)
      returns (r: Result<RewardReceipt>)
      requires Valid()
      modifies this
      ensures Valid()
      ensures r.Err? ==> db == old(db)
      ensures !RewardRequestValid(relatedType, amount, message) ==> r == Err(Invalid)
      ensures (RewardRequestValid(relatedType, amount, message) &&
               (me !in old(db).users || old(db).users[me].points < amount)) ==> r == Err(InsufficientPoints)
      ensures RewardRequestValid(relatedType, amount, message) &&
              me in old(db).users && amount <= old(db).users[me].points ==>
                var to := RewardTarget(old(db).posts, old(db).comments, relatedType, relatedId);
                && (to.None? ==> r == Err(if relatedType == "post" then PostNotFound else CommentNotFound))
                && (to == Some(me) ==> r == Err(SelfReward))
                && (to.Some? && to.value != me ==> r.Ok?)
      ensures r.Ok? ==>
                var d, to := old(db), r.value.to;
                && RewardRequestValid(relatedType, amount, message)
                && Some(to) == RewardTarget(d.posts, d.comments, relatedType, relatedId)
                && me in d.users && to in d.users && to != me
                && amount <= d.users[me].points
                && r.value == RewardReceipt(|d.rewards| + 1, amount, me, to)
                && db == d.(users := d.users[me := Credit(d.users[me], -amount)]
                                            [to := Relevel(Credit(d.users[to], amount), PROFILE_LEVEL_STEP)],
                            rewards := d.rewards + [Reward(me, to, amount, relatedType, relatedId, StoredMessage(message))],
                            notifications := d.notifications + [Notification(to, RewardNotice, relatedId, relatedType)])
                && TotalPoints(db.users, 1, db.nextUserId) == TotalPoints(d.users, 1, d.nextUserId)
                && 0 <= db.users[me].points
                && db.users[me].level == d.users[me].level
    {
      if !RewardRequestValid(relatedType, amount, message) {
        return Err(Invalid);
      }
      var d := db;
      if me !in d.users || d.users[me].points < amount {
        return Err(InsufficientPoints);
      }
      var to: int;
      if relatedType == "post" {
        if relatedId !in d.posts {
          return Err(PostNotFound);
        }
        to := d.posts[relatedId].author;
      } else {
        if relatedId !in d.comments {
          return Err(CommentNotFound);
        }
        to := d.comments[relatedId].author;
      }
      if to == me {
        return Err(SelfReward);
      }
      var sender := Credit(d.users[me], -amount);
      var receiver := Relevel(Credit(d.users[to], amount), PROFILE_LEVEL_STEP);
      TransferConserves(d.users, me, to, amount, PROFILE_LEVEL_STEP, 1, d.nextUserId);
      UsersOkUpdate(d.users, d.nextUserId, me, sender);
      UsersOkUpdate(d.users[me := sender], d.nextUserId, to, receiver);
      db := d.(users := d.users[me := sender][to := receiver],
               rewards := d.rewards + [Reward(me, to, amount, relatedType, relatedId, StoredMessage(message))],
               notifications := d.notifications + [Notification(to, RewardNotice, relatedId, relatedType)]);
      r := Ok(RewardReceipt(|d.rewards| + 1, amount, me, to));
    }

    // -------------------------------------------------------------------
    // likes.ts
    // -------------------------------------------------------------------

    /**
     * POST /likes/posts/:postId: toggles the (post, me) like. Someone
     * else's post credits or debits its author one point and recomputes
     * the author's level with divisor 30; a like also notifies the author.
     */
    method TogglePostLike(me: int, postId: Option<int>) returns (r: Result<bool>)
      requires Valid() && me in db.users
      modifies this
      ensures Valid()
      ensures r.Err? ==> db == old(db)
      ensures postId.None? ==> r == Err(BadId)
      ensures postId.Some? && postId.value !in old(db).posts ==> r == Err(PostNotFound)
      ensures postId.Some? && postId.value in old(db).posts ==>
                var liked := (postId.value, me) !in old(db).postLikes;
                && r == Ok(liked)
                && (liked <==> (postId.value, me) in db.postLikes)
                && db == PostLikeToggled(old(db), postId.value, me)
    {
      if postId.None? {
        return Err(BadId);
      }
      var d, p := db, postId.value;
      if p !in d.posts {
        return Err(PostNotFound);
      }
      var liked := (p, me) !in d.postLikes;
      PostLikeKeepsConsistent(d, categories, items, p, me);
      db := PostLikeToggled(d, p, me);
      r := Ok(liked);
    }

    /**
     * POST /likes/comments/:commentId: toggles the (comment, me) like. A
     * like on someone else's comment credits its author one point and
     * recomputes the level with divisor 30; an un-like takes nothing back.
     */
    method ToggleCommentLike(me: int, commentId: Option<int>) returns (r: Result<bool>)
      requires Valid() && me in db.users
      modifies this
      ensures Valid()
      ensures r.Err? ==> db == old(db)
      ensures commentId.None? ==> r == Err(BadId)
      ensures commentId.Some? && commentId.value !in old(db).comments ==> r == Err(CommentNotFound)
      ensures commentId.Some? && commentId.value in old(db).comments ==>
                var liked := (commentId.value, me) !in old(db).commentLikes;
                && r == Ok(liked)
                && (liked <==> (commentId.value, me) in db.commentLikes)
                && db == CommentLikeToggled(old(db), commentId.value, me)
    {
      if commentId.None? {
        return Err(BadId);
      }
      var d, c := db, commentId.value;
      if c !in d.comments {
        return Err(CommentNotFound);
      }
      var liked := (c, me) !in d.commentLikes;
      CommentLikeKeepsConsistent(d, categories, items, c, me);
      db := CommentLikeToggled(d, c, me);
      r := Ok(liked);
    }

    // -------------------------------------------------------------------
    // shop.ts
    // -------------------------------------------------------------------

    /**
     * POST /shop/purchase: an available item, a balance of at least its
     * price, and for a badge no copy of it already held; then the debit
     * (with no level change), the purchase record and, for a badge, the badge.
     */
    method PurchaseItem(me: int, itemId: int, now: int) returns (r: Result<int>)
      requires Valid()
      modifies this
      ensures Valid()
      ensures r.Err? ==> db == old(db)
      ensures itemId !in items || !items[itemId].available ==> r == Err(ItemNotFound)
      ensures (itemId in items && items[itemId].available &&
               (me !in old(db).users || old(db).users[me].points < items[itemId].price)) ==> r == Err(InsufficientPoints)
      ensures itemId in items && items[itemId].available &&
              me in old(db).users && items[itemId].price <= old(db).users[me].points ==>
                var d, item := old(db), items[itemId];
                var isBadge := item.itemType == "badge";
                && (isBadge && HasBadge(d.badges, me, item.itemValue) ==> r == Err(BadgeOwned))
                && (!(isBadge && HasBadge(d.badges, me, item.itemValue)) ==>
                      && r == Ok(itemId)
                      && db == d.(users := d.users[me := Credit(d.users[me], -item.price)],
                                  purchases := d.purchases + [Purchase(me, itemId, item.price)],
                                  badges := d.badges + if isBadge then [Badge(me, item.itemValue, item.icon, now)] else [])
                      && db.users[me].level == d.users[me].level
                      && (0 <= d.users[me].points ==> 0 <= db.users[me].points))
    {
      if itemId !in items || !items[itemId].available {
        return Err(ItemNotFound);
      }
      var d, item := db, items[itemId];
      if me !in d.users || d.users[me].points < item.price {
        return Err(InsufficientPoints);
      }
      var badges := d.badges;
      if item.itemType == "badge" {
        if exists i | 0 <= i < |d.badges| :: d.badges[i].user == me && d.badges[i].name == item.itemValue {
          return Err(BadgeOwned);
        }
        badges := d.badges + [Badge(me, item.itemValue, item.icon, now)];
      }
      var u := Credit(d.users[me], -item.price);
      UsersOkUpdate(d.users, d.nextUserId, me, u);
      db := d.(users := d.users[me := u], purchases := d.purchases + [Purchase(me, itemId, item.price)],
               badges := badges);
      r := Ok(itemId);
    }

    // -------------------------------------------------------------------
    // posts.ts
    // -------------------------------------------------------------------

    /**
     * GET /posts/:id: counts one view, then answers the row, with the
     * reader's like and favorite flags when a reader is signed in.
     */
    method ViewPost(postId: Option<int>, viewer: Option<int>) returns (r: Result<PostView>)
      requires Valid()
      modifies this
      ensures Valid()
      ensures r.Err? ==> db == old(db)
      ensures postId.None? ==> r == Err(BadId)
      ensures postId.Some? && postId.value !in old(db).posts ==> r == Err(PostNotFound)
      ensures postId.Some? && postId.value in old(db).posts ==>
                var d, p := old(db), postId.value;
                && r.Ok?
                && r.value.post == d.posts[p].(views := d.posts[p].views + 1)
                && db == d.(posts := d.posts[p := r.value.post])
                && (r.value.liked.Some? <==> SignedIn(viewer))
                && (r.value.favorited.Some? <==> SignedIn(viewer))
                && (SignedIn(viewer) ==> r.value.liked == Some((p, viewer.value) in d.postLikes))
                && (SignedIn(viewer) ==> r.value.favorited == Some((p, viewer.value) in d.favorites))
    {
      if postId.None? {
        return Err(BadId);
      }
      var d, p := db, postId.value;
      if p !in d.posts {
        return Err(PostNotFound);
      }
      var post := d.posts[p].(views := d.posts[p].views + 1);
      PostsOkUpdate(d.users.Keys, categories, d.posts, d.nextPostId, p, post);
      db := d.(posts := d.posts[p := post]);
      if SignedIn(viewer) {
        var me := viewer.value;
        r := Ok(PostView(post, Some((p, me) in d.postLikes), Some((p, me) in d.favorites)));
      } else {
        r := Ok(PostView(post, None, None));
      }
    }

    /**
     * POST /posts: a new unpinned, unlocked post with no views or likes; the
     * author gains 5 points and the level is recomputed with divisor 30.
     */
    method CreatePost(me: int, title: string, content: string, category: Option<int>, now: int)
      returns (r: Result<int>)
      requires Valid() && me in db.users
      modifies this
      ensures Valid()
      ensures r.Err? ==> db == old(db)
      ensures !PostDraftValid(title, content) ==> r == Err(Invalid)
      ensures PostDraftValid(title, content) && Truthy(category).Some? && Truthy(category).value !in categories ==>
                r == Err(ConstraintViolation)
      ensures PostDraftValid(title, content) && (Truthy(category).Some? ==> Truthy(category).value in categories) ==>
                var d, id := old(db), old(db).nextPostId;
                && r == Ok(id)
                && id !in d.posts
                && db == d.(posts := d.posts[id := Post(me, title, content, Truthy(category), 0, 0, false, false, now, now)],
                            nextPostId := id + 1,
                            users := d.users[me := Relevel(Credit(d.users[me], POST_POINTS), ACTIVITY_LEVEL_STEP)])
    {
      if !PostDraftValid(title, content) {
        return Err(Invalid);
      }
      var cat := Truthy(category);
      if cat.Some? && cat.value !in categories {
        return Err(ConstraintViolation);
      }
      var d := db;
      var id := d.nextPostId;
      var post := Post(me, title, content, cat, 0, 0, false, false, now, now);
      var u := Relevel(Credit(d.users[me], POST_POINTS), ACTIVITY_LEVEL_STEP);
      PostAdded(d.users.Keys, categories, d.posts, d.nextPostId, d.postLikes, post);
      UsersOkUpdate(d.users, d.nextUserId, me, u);
      var after := d.(posts := d.posts[id := post], nextPostId := id + 1, users := d.users[me := u]);
      PostSideChanged(d, after, categories, items);
      db := after;
      r := Ok(id);
    }

    /**
     * PUT /posts/:id: the author or an admin may change the supplied fields;
     * updated_at is set to `now`.
     */
    method UpdatePost(me: int, postId: Option<int>, title: Option<string>, content: Option<string>,
                      category: Option<Option<int>>, now: int) returns (r: Result<Post>)
      requires Valid() && me in db.users
      modifies this
      ensures Valid()
      ensures r.Err? ==> db == old(db)
      ensures !PostEditValid(title, content) ==> r == Err(Invalid)
      ensures PostEditValid(title, content) && postId.None? ==> r == Err(BadId)
      ensures PostEditValid(title, content) && postId.Some? && postId.value !in old(db).posts ==> r == Err(PostNotFound)
      ensures PostEditValid(title, content) && postId.Some? && postId.value in old(db).posts ==>
                var d, p := old(db), postId.value;
                var allowed := MayModerate(d.users, me, d.posts[p].author);
                var badCategory := category.Some? && category.value.Some? && category.value.value !in categories;
                && (!allowed ==> r == Err(NotPermitted))
                && (allowed && badCategory ==> r == Err(ConstraintViolation))
                && (allowed && !badCategory ==>
                      && r == Ok(EditPost(d.posts[p], title, content, category, now))
                      && db == d.(posts := d.posts[p := r.value]))
    {
      if !PostEditValid(title, content) {
        return Err(Invalid);
      }
      if postId.None? {
        return Err(BadId);
      }
      var d, p := db, postId.value;
      if p !in d.posts {
        return Err(PostNotFound);
      }
      if d.posts[p].author != me && d.users[me].role != Admin {
        return Err(NotPermitted);
      }
      if category.Some? && category.value.Some? && category.value.value !in categories {
        return Err(ConstraintViolation);
      }
      var post := EditPost(d.posts[p], title, content, category, now);
      PostsOkUpdate(d.users.Keys, categories, d.posts, d.nextPostId, p, post);
      db := d.(posts := d.posts[p := post]);
      r := Ok(post);
    }

    /**
     * DELETE /posts/:id: the author or an admin removes the post; the
     * foreign keys' ON DELETE CASCADE removes its comments, their likes,
     * the post's likes and its favorites.
     */
    method DeletePost(me: int, postId: Option<int>) returns (r: Result<()>)
      requires Valid() && me in db.users
      modifies this
      ensures Valid()
      ensures r.Err? ==> db == old(db)
      ensures postId.None? ==> r == Err(BadId)
      ensures postId.Some? && postId.value !in old(db).posts ==> r == Err(PostNotFound)
      ensures postId.Some? && postId.value in old(db).posts ==>
                var d, p := old(db), postId.value;
                && (!MayModerate(d.users, me, d.posts[p].author) ==> r == Err(NotPermitted))
                && (MayModerate(d.users, me, d.posts[p].author) ==>
                      var posts := d.posts - {p};
                      var comments := OnPosts(d.comments, posts.Keys);
                      && r == Ok(())
                      && db == d.(posts := posts,
                                  comments := comments,
                                  postLikes := Surviving(d.postLikes, posts.Keys),
                                  commentLikes := Surviving(d.commentLikes, comments.Keys),
                                  favorites := SurvivingMap(d.favorites, posts.Keys))
                      && forall c :: c in d.comments ==> (c in db.comments <==> d.comments[c].post != p))
    {
      if postId.None? {
        return Err(BadId);
      }
      var d, p := db, postId.value;
      if p !in d.posts {
        return Err(PostNotFound);
      }
      if d.posts[p].author != me && d.users[me].role != Admin {
        return Err(NotPermitted);
      }
      var posts := d.posts - {p};
      var comments := OnPosts(d.comments, posts.Keys);
      PostRemoved(d.users.Keys, categories, d.posts, d.nextPostId, d.comments, d.nextCommentId,
                  d.postLikes, d.commentLikes, d.favorites, d.follows, p);
      db := d.(posts := posts, comments := comments,
               postLikes := Surviving(d.postLikes, posts.Keys),
               commentLikes := Surviving(d.commentLikes, comments.Keys),
               favorites := SurvivingMap(d.favorites, posts.Keys));
      r := Ok(());
    }

    // -------------------------------------------------------------------
    // comments.ts
    // -------------------------------------------------------------------

    /**
     * POST /comments: a comment or reply on an unlocked post; the author
     * gains 2 points with no level change, and at most one notification goes out.
     */
    method CreateComment(me: int, content: string, postId: int, parentId: Option<int>, now: int)
      returns (r: Result<int>)
      requires Valid() && me in db.users
      modifies this
      ensures Valid()
      ensures r.Err? ==> db == old(db)
      ensures |content| == 0 ==> r == Err(Invalid)
      ensures 1 <= |content| && postId !in old(db).posts ==> r == Err(PostNotFound)
      ensures 1 <= |content| && postId in old(db).posts && old(db).posts[postId].locked ==> r == Err(PostLocked)
      ensures 1 <= |content| && postId in old(db).posts && !old(db).posts[postId].locked ==>
                var d, parent := old(db), Truthy(parentId);
                var parentOk := parent.Some? ==> parent.value in d.comments && d.comments[parent.value].post == postId;
                && (!parentOk ==> r == Err(ParentNotFound))
                && (parentOk ==>
                      var id := d.nextCommentId;
                      && r == Ok(id)
                      && id !in d.comments
                      && db == d.(comments := d.comments[id := Comment(postId, me, parent, content, 0, now, now)],
                                  nextCommentId := id + 1,
                                  users := d.users[me := Credit(d.users[me], COMMENT_POINTS)],
                                  notifications := d.notifications + CommentNotices(d.posts, d.comments, postId, parent, me, id)))
    {
      if |content| == 0 {
        return Err(Invalid);
      }
      var d := db;
      if postId !in d.posts {
        return Err(PostNotFound);
      }
      if d.posts[postId].locked {
        return Err(PostLocked);
      }
      var parent := Truthy(parentId);
      if parent.Some? && !(parent.value in d.comments && d.comments[parent.value].post == postId) {
        return Err(ParentNotFound);
      }
      var id := d.nextCommentId;
      var comment := Comment(postId, me, parent, content, 0, now, now);
      var u := Credit(d.users[me], COMMENT_POINTS);
      CommentAdded(d.users.Keys, d.posts.Keys, d.comments, d.nextCommentId, d.commentLikes, comment);
      UsersOkUpdate(d.users, d.nextUserId, me, u);
      var after := d.(comments := d.comments[id := comment], nextCommentId := id + 1, users := d.users[me := u],
                      notifications := d.notifications + CommentNotices(d.posts, d.comments, postId, parent, me, id));
      CommentSideChanged(d, after, categories, items);
      db := after;
      r := Ok(id);
    }

    /** PUT /comments/:id: only the comment's author may change its content. */
    method UpdateComment(me: int, commentId: Option<int>, content: string, now: int) returns (r: Result<()>)
      requires Valid()
      modifies this
      ensures Valid()
      ensures r.Err? ==> db == old(db)
      ensures |content| == 0 ==> r == Err(Invalid)
      ensures 1 <= |content| && commentId.None? ==> r == Err(BadId)
      ensures 1 <= |content| && commentId.Some? && commentId.value !in old(db).comments ==> r == Err(CommentNotFound)
      ensures 1 <= |content| && commentId.Some? && commentId.value in old(db).comments ==>
                var d, c := old(db), commentId.value;
                && (d.comments[c].author != me ==> r == Err(NotPermitted))
                && (d.comments[c].author == me ==>
                      && r == Ok(())
                      && db == d.(comments := d.comments[c := d.comments[c].(content := content, updatedAt := now)]))
    {
      if |content| == 0 {
        return Err(Invalid);
      }
      if commentId.None? {
        return Err(BadId);
      }
      var d, c := db, commentId.value;
      if c !in d.comments {
        return Err(CommentNotFound);
      }
      if d.comments[c].author != me {
        return Err(NotPermitted);
      }
      var comment := d.comments[c].(content := content, updatedAt := now);
      CommentsOkUpdate(d.users.Keys, d.posts.Keys, d.comments, d.nextCommentId, c, comment);
      CommentLikesKept(d.comments, d.commentLikes, c, comment);
      db := d.(comments := d.comments[c := comment]);
      r := Ok(());
    }

    /**
     * DELETE /comments/:id: the author or an admin removes the comment;
     * ON DELETE CASCADE removes every reply below it, all on the same post,
     * and the likes of all of them.
     */
    method DeleteComment(me: int, commentId: Option<int>) returns (r: Result<()>)
      requires Valid() && me in db.users
      modifies this
      ensures Valid()
      ensures r.Err? ==> db == old(db)
      ensures commentId.None? ==> r == Err(BadId)
      ensures commentId.Some? && commentId.value !in old(db).comments ==> r == Err(CommentNotFound)
      ensures commentId.Some? && commentId.value in old(db).comments ==>
                var d, c := old(db), commentId.value;
                && (!MayModerate(d.users, me, d.comments[c].author) ==> r == Err(NotPermitted))
                && (MayModerate(d.users, me, d.comments[c].author) ==>
                      var comments := Prune(d.comments, c);
                      && r == Ok(())
                      && db == d.(comments := comments, commentLikes := Surviving(d.commentLikes, comments.Keys))
                      && c !in db.comments
                      && forall k :: k in d.comments && k !in db.comments ==> d.comments[k].post == d.comments[c].post)
    {
      if commentId.None? {
        return Err(BadId);
      }
      var d, c := db, commentId.value;
      if c !in d.comments {
        return Err(CommentNotFound);
      }
      if d.comments[c].author != me && d.users[me].role != Admin {
        return Err(NotPermitted);
      }
      var comments := Prune(d.comments, c);
      ThreadRemoved(d.users.Keys, d.posts.Keys, d.comments, d.nextCommentId, d.commentLikes, c);
      db := d.(comments := comments, commentLikes := Surviving(d.commentLikes, comments.Keys));
      r := Ok(());
    }

    // -------------------------------------------------------------------
    // follows.ts
    // -------------------------------------------------------------------

    /**
     * POST /follows/:userId: toggles the (me, target) follow and notifies
     * the target either way.
     */
    method ToggleFollow(me: int, target: Option<int>, now: int) returns (r: Result<bool>)
      requires Valid() && me in db.users
      modifies this
      ensures Valid()
      ensures r.Err? ==> db == old(db)
      ensures target.None? ==> r == Err(BadId)
      ensures target == Some(me) ==> r == Err(SelfFollow)
      ensures target.Some? && target.value != me && target.value !in old(db).users ==> r == Err(UserNotFound)
      ensures target.Some? && target.value != me && target.value in old(db).users ==>
                var d, t := old(db), target.value;
                var followed := (me, t) !in d.follows;
                && r == Ok(followed)
                && (followed <==> (me, t) in db.follows)
                && db == d.(follows := if followed then d.follows[(me, t) := now] else d.follows - {(me, t)},
                            notifications := d.notifications +
                              [Notification(t, if followed then FollowNotice else UnfollowNotice, me, "user")])
    {
      if target.None? {
        return Err(BadId);
      }
      var d, t := db, target.value;
      if t == me {
        return Err(SelfFollow);
      }
      if t !in d.users {
        return Err(UserNotFound);
      }
      if (me, t) in d.follows {
        db := d.(follows := d.follows - {(me, t)},
                 notifications := d.notifications + [Notification(t, UnfollowNotice, me, "user")]);
        r := Ok(false);
      } else {
        db := d.(follows := d.follows[(me, t) := now],
                 notifications := d.notifications + [Notification(t, FollowNotice, me, "user")]);
        r := Ok(true);
      }
    }

    // -------------------------------------------------------------------
    // favorites.ts
    // -------------------------------------------------------------------

    /** POST /favorites/posts/:postId: toggles the (post, me) favorite. */
    method ToggleFavorite(me: int, postId: Option<int>, now: int) returns (r: Result<bool>)
      requires Valid() && me in db.users
      modifies this
      ensures Valid()
      ensures r.Err? ==> db == old(db)
      ensures postId.None? ==> r == Err(BadId)
      ensures postId.Some? && postId.value !in old(db).posts ==> r == Err(PostNotFound)
      ensures postId.Some? && postId.value in old(db).posts ==>
                var d, p := old(db), postId.value;
                var favorited := (p, me) !in d.favorites;
                && r == Ok(favorited)
                && (favorited <==> (p, me) in db.favorites)
                && db == d.(favorites := if favorited then d.favorites[(p, me) := now] else d.favorites - {(p, me)})
    {
      if postId.None? {
        return Err(BadId);
      }
      var d, p := db, postId.value;
      if p !in d.posts {
        return Err(PostNotFound);
      }
      if (p, me) in d.favorites {
        db := d.(favorites := d.favorites - {(p, me)});
        r := Ok(false);
      } else {
        db := d.(favorites := d.favorites[(p, me) := now]);
        r := Ok(true);
      }
    }
  }
}
