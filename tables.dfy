/**
 * The rows of the forum's relational store, the failures the route handlers
 * answer with, and the integrity constraints the schema and the handlers
 * keep between the tables.
 */
module Tables {

  datatype Option<T> = None | Some(value: T)

  /** What a handler answers: a value, or an HTTP error. */
  datatype Result<T> = Ok(value: T) | Err(failure: Failure)

  /** The optional authentication found a token: `req.userId` is truthy (ids are never 0). */
  predicate SignedIn(viewer: Option<int>)
  {
    viewer.Some? && viewer.value != 0
  }

  datatype Failure =
    | Invalid             // the request validator rejected the body or query
    | BadId               // a path id that parseInt turns into NaN
    | AlreadyCheckedIn
    | InsufficientPoints
    | SelfReward
    | SelfFollow
    | BadgeOwned
    | NameTaken           // username or email already registered
    | BadCredentials
    | NotPermitted        // neither the author nor an admin
    | PostLocked
    | PostNotFound
    | CommentNotFound
    | ParentNotFound
    | UserNotFound
    | ItemNotFound
    | ConstraintViolation // a foreign key rejected the INSERT or UPDATE
  {
    /** The HTTP status the handler sends. */
    function Status(): int
    {
      match this
      case BadCredentials => 401
      case NotPermitted | PostLocked => 403
      case PostNotFound | CommentNotFound | ParentNotFound | UserNotFound | ItemNotFound => 404
      case ConstraintViolation => 500
      case _ => 400
    }
  }

  datatype Role = Member | Admin

  datatype User = User(username: string, email: string, passwordHash: string,
                       role: Role, points: int, level: int)

  datatype Post = Post(author: int, title: string, content: string, category: Option<int>,
                       views: int, likes: int, pinned: bool, locked: bool,
                       createdAt: int, updatedAt: int)

  datatype Comment = Comment(post: int, author: int, parent: Option<int>, content: string,
                             likes: int, createdAt: int, updatedAt: int)

  /** A row of daily_checkins, keyed in the store by (user, day). */
  datatype Checkin = Checkin(consecutiveDays: int, pointsEarned: int)

  datatype Reward = Reward(from: int, to: int, points: int, relatedType: string,
                           relatedId: int, message: Option<string>)

  datatype Item = Item(name: string, price: int, itemType: string, itemValue: string,
                       icon: string, available: bool)

  datatype Purchase = Purchase(user: int, item: int, pointsSpent: int)

  datatype Badge = Badge(user: int, name: string, icon: string, obtainedAt: int)

  datatype NoticeKind = LikeNotice | RewardNotice | ReplyNotice | CommentNotice
                      | FollowNotice | UnfollowNotice

  /** A notification row: its recipient, type and the row it points at. */
  datatype Notification = Notification(recipient: int, kind: NoticeKind,
                                       relatedId: int, relatedType: string)

  /** Number of (row, user) pairs in a like table for one row: what `likes` must equal. */
  function LikeCount(pairs: set<(int, int)>, row: int): nat
  {
    |set pr | pr in pairs && pr.0 == row|
  }

  /** A new pair adds one like to its own row and none to any other. */
  lemma LikeCountInsert(pairs: set<(int, int)>, x: (int, int), row: int)
    requires x !in pairs
    ensures LikeCount(pairs + {x}, row) == LikeCount(pairs, row) + (if x.0 == row then 1 else 0)
  {
    var before := set pr | pr in pairs && pr.0 == row;
    var after := set pr | pr in pairs + {x} && pr.0 == row;
    if x.0 == row {
      assert after == before + {x};
    } else {
      assert after == before;
    }
  }

  /** Removing a pair takes one like from its own row and none from any other. */
  lemma LikeCountRemove(pairs: set<(int, int)>, x: (int, int), row: int)
    requires x in pairs
    ensures LikeCount(pairs - {x}, row) == LikeCount(pairs, row) - (if x.0 == row then 1 else 0)
  {
    var before := set pr | pr in pairs && pr.0 == row;
    var after := set pr | pr in pairs - {x} && pr.0 == row;
    if x.0 == row {
      assert before == after + {x};
    } else {
      assert after == before;
    }
  }

  /** Dropping the pairs of other rows leaves a row's like count as it was. */
  lemma LikeCountKeep(pairs: set<(int, int)>, kept: set<(int, int)>, row: int)
    requires kept <= pairs
    requires forall pr :: pr in pairs && pr.0 == row ==> pr in kept
    ensures LikeCount(kept, row) == LikeCount(pairs, row)
  {
    assert (set pr | pr in kept && pr.0 == row) == (set pr | pr in pairs && pr.0 == row);
  }

  /** The rows of a pair-keyed table whose second component is `second`, keyed by the first. */
  function BySecond<V>(m: map<(int, int), V>, second: int): (r: map<int, V>)
    ensures forall k :: k in r <==> (k, second) in m
    ensures forall k :: k in r ==> r[k] == m[(k, second)]
  {
    map pr | pr in m && pr.1 == second :: pr.0 := m[pr]
  }

  /** The rows of a pair-keyed table whose first component is `first`, keyed by the second. */
  function ByFirst<V>(m: map<(int, int), V>, first: int): (r: map<int, V>)
    ensures forall k :: k in r <==> (first, k) in m
    ensures forall k :: k in r ==> r[k] == m[(first, k)]
  {
    map pr | pr in m && pr.0 == first :: pr.1 := m[pr]
  }

  /** `COUNT(*) ... WHERE first = ?` over a pair-keyed table. */
  function CountFirst<V>(m: map<(int, int), V>, first: int): nat
  {
    |set pr | pr in m && pr.0 == first|
  }

  /** `COUNT(*) ... WHERE second = ?` over a pair-keyed table. */
  function CountSecond<V>(m: map<(int, int), V>, second: int): nat
  {
    |set pr | pr in m && pr.1 == second|
  }

  /** A set is empty or has a member. */
  lemma Occupied(keys: set<int>)
    ensures keys == {} || exists k :: k in keys
  {
    if forall k :: k !in keys {
      assert keys == {};
    }
  }

  /** Pairing every id of a set with one fixed id loses none of them. */
  lemma {:induction false} PairedCard(ids: set<int>, other: int, first: bool)
    decreases |ids|
    ensures |set k | k in ids :: if first then (other, k) else (k, other)| == |ids|
  {
    var paired := set k | k in ids :: if first then (other, k) else (k, other);
    Occupied(ids);
    if ids != {} {
      var k :| k in ids;
      var pk := if first then (other, k) else (k, other);
      var rest := set j | j in ids - {k} :: if first then (other, j) else (j, other);
      PairedCard(ids - {k}, other, first);
      assert paired == rest + {pk};
      assert pk !in rest;
    }
  }

  /** The count of pairs with a given first id is the number of rows `ByFirst` finds. */
  lemma CountFirstIsByFirst<V>(m: map<(int, int), V>, first: int)
    ensures CountFirst(m, first) == |ByFirst(m, first).Keys|
  {
    var ids := ByFirst(m, first).Keys;
    PairedCard(ids, first, true);
    assert (set pr | pr in m && pr.0 == first) == (set k | k in ids :: if true then (first, k) else (k, first));
  }

  /** The count of pairs with a given second id is the number of rows `BySecond` finds. */
  lemma CountSecondIsBySecond<V>(m: map<(int, int), V>, second: int)
    ensures CountSecond(m, second) == |BySecond(m, second).Keys|
  {
    var ids := BySecond(m, second).Keys;
    PairedCard(ids, second, false);
    assert (set pr | pr in m && pr.1 == second) == (set k | k in ids :: if false then (second, k) else (k, second));
  }

  // ---------------------------------------------------------------------
  // Integrity constraints of the store (UNIQUE, FOREIGN KEY, and the
  // counters the handlers keep in step with the like tables)
  // ---------------------------------------------------------------------

  /** AUTOINCREMENT ids below the next id; usernames and emails UNIQUE. */
  ghost predicate UsersOk(users: map<int, User>, nextUserId: int)
  {
    && 1 <= nextUserId
    && (forall id :: id in users ==> 1 <= id < nextUserId)
    && (forall a, b {:trigger users[a].username, users[b].username} ::
          a in users && b in users && users[a].username == users[b].username ==> a == b)
    && (forall a, b {:trigger users[a].email, users[b].email} ::
          a in users && b in users && users[a].email == users[b].email ==> a == b)
  }

  /** Every post has an author and a known (or no) category. */
  ghost predicate PostsOk(userIds: set<int>, categories: set<int>, posts: map<int, Post>, nextPostId: int)
  {
    && 1 <= nextPostId
    && forall id :: id in posts ==>
         && 1 <= id < nextPostId
         && posts[id].author in userIds
         && (posts[id].category.Some? ==> posts[id].category.value in categories)
  }

  /**
   * Every comment belongs to a post and an author; a reply's parent is an
   * older comment of the same post.
   */
  ghost predicate CommentsOk(userIds: set<int>, postIds: set<int>, comments: map<int, Comment>, nextCommentId: int)
  {
    && 1 <= nextCommentId
    && (forall id :: id in comments ==>
          && 1 <= id < nextCommentId
          && comments[id].post in postIds
          && comments[id].author in userIds)
    && ParentsOk(comments)
  }

  /**
   * Every reply's parent is an older comment of the same post. The
   * quantifier fires only on `ParentOk` terms, so that a parent found in
   * the table does not set off its own parent's instance, and so on.
   */
  ghost predicate ParentsOk(comments: map<int, Comment>)
  {
    forall id {:trigger ParentOk(comments, id)} :: id in comments ==> ParentOk(comments, id)
  }

  ghost predicate ParentOk(comments: map<int, Comment>, id: int)
    requires id in comments
  {
    var parent := comments[id].parent;
    parent.Some? ==>
      parent.value in comments && parent.value < id && comments[parent.value].post == comments[id].post
  }

  /** Each like pair points at an existing row, and each row's counter is its number of pairs. */
  ghost predicate PostLikesOk(posts: map<int, Post>, postLikes: set<(int, int)>)
  {
    && (forall pr :: pr in postLikes ==> pr.0 in posts)
    && (forall p :: p in posts ==> posts[p].likes == LikeCount(postLikes, p))
  }

  ghost predicate CommentLikesOk(comments: map<int, Comment>, commentLikes: set<(int, int)>)
  {
    && (forall pr :: pr in commentLikes ==> pr.0 in comments)
    && (forall c :: c in comments ==> comments[c].likes == LikeCount(commentLikes, c))
  }

  /** Favorites point at existing posts; nobody follows themself. */
  ghost predicate RelationsOk(postIds: set<int>, userIds: set<int>,
                              favorites: map<(int, int), int>, follows: map<(int, int), int>)
  {
    && (forall pr :: pr in favorites ==> pr.0 in postIds)
    && (forall pr :: pr in follows ==> pr.0 != pr.1 && pr.1 in userIds)
  }

  /** Rewards move between two different users, 1 to 1000 points at a time. */
  ghost predicate RewardsOk(rewards: seq<Reward>)
  {
    forall i :: 0 <= i < |rewards| ==>
      rewards[i].from != rewards[i].to && 1 <= rewards[i].points <= 1000
  }

  /** A purchase records the price of the item bought. */
  ghost predicate PurchasesOk(items: map<int, Item>, purchases: seq<Purchase>)
  {
    forall i :: 0 <= i < |purchases| ==>
      purchases[i].item in items && purchases[i].pointsSpent == items[purchases[i].item].price
  }

  /** UNIQUE(user_id, badge_name). */
  ghost predicate BadgesOk(badges: seq<Badge>)
  {
    forall i, j :: 0 <= i < j < |badges| ==>
      badges[i].user != badges[j].user || badges[i].name != badges[j].name
  }

  /** Changing a user's balance or level keeps the ids and the UNIQUE columns. */
  lemma UsersOkUpdate(users: map<int, User>, nextUserId: int, id: int, u: User)
    requires UsersOk(users, nextUserId) && id in users
    requires u.username == users[id].username && u.email == users[id].email
    ensures UsersOk(users[id := u], nextUserId)
    ensures users[id := u].Keys == users.Keys
  {
  }

  /** Changing a post's counters or text keeps its foreign keys. */
  lemma PostsOkUpdate(userIds: set<int>, categories: set<int>, posts: map<int, Post>, nextPostId: int,
                      id: int, p: Post)
    requires PostsOk(userIds, categories, posts, nextPostId) && id in posts
    requires p.author == posts[id].author
    requires p.category.Some? ==> p.category.value in categories
    ensures PostsOk(userIds, categories, posts[id := p], nextPostId)
    ensures posts[id := p].Keys == posts.Keys
  {
  }

  /** Changing a comment's counter or text keeps its foreign keys and its parent. */
  lemma CommentsOkUpdate(userIds: set<int>, postIds: set<int>, comments: map<int, Comment>,
                         nextCommentId: int, id: int, c: Comment)
    requires CommentsOk(userIds, postIds, comments, nextCommentId) && id in comments
    requires c.post == comments[id].post && c.author == comments[id].author && c.parent == comments[id].parent
    ensures CommentsOk(userIds, postIds, comments[id := c], nextCommentId)
    ensures comments[id := c].Keys == comments.Keys
  {
    var after := comments[id := c];
    forall k | k in after ensures ParentOk(after, k) {
      assert ParentOk(comments, k);
    }
  }

  /** Toggling the (post, user) pair and moving the post's counter by one keeps the counters right. */
  lemma PostLikeToggle(posts: map<int, Post>, postLikes: set<(int, int)>, p: int, user: int)
    requires PostLikesOk(posts, postLikes) && p in posts
    ensures var liked := (p, user) !in postLikes;
            PostLikesOk(posts[p := posts[p].(likes := posts[p].likes + if liked then 1 else -1)],
                        if liked then postLikes + {(p, user)} else postLikes - {(p, user)})
  {
    var liked := (p, user) !in postLikes;
    var after := if liked then postLikes + {(p, user)} else postLikes - {(p, user)};
    forall q | q in posts
      ensures LikeCount(after, q) == LikeCount(postLikes, q) + (if q != p then 0 else if liked then 1 else -1)
    {
      if liked {
        LikeCountInsert(postLikes, (p, user), q);
      } else {
        LikeCountRemove(postLikes, (p, user), q);
      }
    }
  }

  /** Toggling the (comment, user) pair and moving the comment's counter by one keeps the counters right. */
  lemma CommentLikeToggle(comments: map<int, Comment>, commentLikes: set<(int, int)>, c: int, user: int)
    requires CommentLikesOk(comments, commentLikes) && c in comments
    ensures var liked := (c, user) !in commentLikes;
            CommentLikesOk(comments[c := comments[c].(likes := comments[c].likes + if liked then 1 else -1)],
                           if liked then commentLikes + {(c, user)} else commentLikes - {(c, user)})
  {
    var liked := (c, user) !in commentLikes;
    var after := if liked then commentLikes + {(c, user)} else commentLikes - {(c, user)};
    forall q | q in comments
      ensures LikeCount(after, q) == LikeCount(commentLikes, q) + (if q != c then 0 else if liked then 1 else -1)
    {
      if liked {
        LikeCountInsert(commentLikes, (c, user), q);
      } else {
        LikeCountRemove(commentLikes, (c, user), q);
      }
    }
  }

  /** A new comment under the next id, with no likes, on an existing post and parent, keeps the comment tables consistent. */
  lemma CommentAdded(userIds: set<int>, postIds: set<int>, comments: map<int, Comment>, nextCommentId: int,
                     commentLikes: set<(int, int)>, c: Comment)
    requires CommentsOk(userIds, postIds, comments, nextCommentId)
    requires CommentLikesOk(comments, commentLikes)
    requires c.post in postIds && c.author in userIds && c.likes == 0
    requires c.parent.Some? ==> c.parent.value in comments && comments[c.parent.value].post == c.post
    ensures CommentsOk(userIds, postIds, comments[nextCommentId := c], nextCommentId + 1)
    ensures CommentLikesOk(comments[nextCommentId := c], commentLikes)
  {
    var after := comments[nextCommentId := c];
    forall k | k in after ensures ParentOk(after, k) {
      if k != nextCommentId {
        assert ParentOk(comments, k);
      }
    }
    assert (set pr | pr in commentLikes && pr.0 == nextCommentId) == {};
  }

  /** A new post under the next id, with no likes, by an existing author in a known (or no) category. */
  lemma PostAdded(userIds: set<int>, categories: set<int>, posts: map<int, Post>, nextPostId: int,
                  postLikes: set<(int, int)>, p: Post)
    requires PostsOk(userIds, categories, posts, nextPostId) && PostLikesOk(posts, postLikes)
    requires p.author in userIds && p.likes == 0
    requires p.category.Some? ==> p.category.value in categories
    ensures PostsOk(userIds, categories, posts[nextPostId := p], nextPostId + 1)
    ensures PostLikesOk(posts[nextPostId := p], postLikes)
    ensures posts.Keys <= posts[nextPostId := p].Keys
  {
    assert (set pr | pr in postLikes && pr.0 == nextPostId) == {};
  }

  /** The pairs of a like table whose row is still in `rows`: what ON DELETE CASCADE leaves. */
  function Surviving(pairs: set<(int, int)>, rows: set<int>): (r: set<(int, int)>)
    ensures forall pr :: pr in r <==> pr in pairs && pr.0 in rows
  {
    set pr | pr in pairs && pr.0 in rows
  }

  /** The entries of a (post, user)-keyed table whose post is still in `rows`. */
  function SurvivingMap<V>(m: map<(int, int), V>, rows: set<int>): (r: map<(int, int), V>)
    ensures forall pr :: pr in r <==> pr in m && pr.0 in rows
    ensures forall pr :: pr in r ==> r[pr] == m[pr]
  {
    map pr | pr in m && pr.0 in rows :: m[pr]
  }

  /** The comments whose post is still in `postIds`. */
  function OnPosts(comments: map<int, Comment>, postIds: set<int>): (r: map<int, Comment>)
    ensures forall c :: c in r <==> c in comments && comments[c].post in postIds
    ensures forall c :: c in r ==> r[c] == comments[c]
  {
    map c | c in comments && comments[c].post in postIds :: comments[c]
  }

  /**
   * Removing a post together with its comments, its likes, the likes of
   * its comments and its favorites keeps every foreign key and like counter right.
   */
  lemma PostRemoved(userIds: set<int>, categories: set<int>, posts: map<int, Post>, nextPostId: int,
                    comments: map<int, Comment>, nextCommentId: int,
                    postLikes: set<(int, int)>, commentLikes: set<(int, int)>,
                    favorites: map<(int, int), int>, follows: map<(int, int), int>, p: int)
    requires PostsOk(userIds, categories, posts, nextPostId)
    requires CommentsOk(userIds, posts.Keys, comments, nextCommentId)
    requires PostLikesOk(posts, postLikes) && CommentLikesOk(comments, commentLikes)
    requires RelationsOk(posts.Keys, userIds, favorites, follows)
    ensures var posts' := posts - {p};
            var comments' := OnPosts(comments, posts'.Keys);
            && PostsOk(userIds, categories, posts', nextPostId)
            && CommentsOk(userIds, posts'.Keys, comments', nextCommentId)
            && PostLikesOk(posts', Surviving(postLikes, posts'.Keys))
            && CommentLikesOk(comments', Surviving(commentLikes, comments'.Keys))
            && RelationsOk(posts'.Keys, userIds, SurvivingMap(favorites, posts'.Keys), follows)
  {
    var posts' := posts - {p};
    var comments' := OnPosts(comments, posts'.Keys);
    var postLikes' := Surviving(postLikes, posts'.Keys);
    var commentLikes' := Surviving(commentLikes, comments'.Keys);
    forall k | k in comments' ensures ParentOk(comments', k) {
      assert ParentOk(comments, k);
    }
    forall q | q in posts' ensures posts'[q].likes == LikeCount(postLikes', q) {
      LikeCountKeep(postLikes, postLikes', q);
    }
    forall c | c in comments' ensures comments'[c].likes == LikeCount(commentLikes', c) {
      LikeCountKeep(commentLikes, commentLikes', c);
    }
  }

  /** Changing a comment without touching its like counter keeps the counters right. */
  lemma CommentLikesKept(comments: map<int, Comment>, commentLikes: set<(int, int)>, c: int, comment: Comment)
    requires CommentLikesOk(comments, commentLikes) && c in comments
    requires comment.likes == comments[c].likes
    ensures CommentLikesOk(comments[c := comment], commentLikes)
  {
  }

  /** Whether `user` already holds a badge called `name`. */
  predicate HasBadge(badges: seq<Badge>, user: int, name: string)
  {
    exists i :: 0 <= i < |badges| && badges[i].user == user && badges[i].name == name
  }
}
