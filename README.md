# OnlyTalk forum server: points ledger and toggle relations

This project models the core of the OnlyTalk forum server in Dafny. The server is an Express application over one SQLite database. The model covers three parts of it.

- **The points and level ledger.** Every user has a point balance and a level. Points change in these cases:
  - registration starts a user at 10
  - a daily check-in earns 10 or 20
  - a new post earns 5 and a new comment earns 2
  - a like from someone else earns 1, and an un-like of a post costs 1
  - a reward moves points from one user to another
  - a shop purchase debits the price

  The level is `floor(points / K) + 1`. The posts, likes and check-in routes use K = 30. The rewards route and `/me` use K = 100.
- **The toggle relations.** The server keeps four sets of pairs: post likes, comment likes, favorites and follows. Each toggle request inserts the pair when it is absent and deletes it when it is present.
- **The reads.** These are the paginated, ordered queries over the same tables: the post feed, comment threads, favorites, following and followers, the shop catalogue, badges, check-in status and the two leaderboards.

## Structure

- `Tables`
  - the rows of every table as datatypes (User, Post, Comment, Checkin, Reward, Item, Purchase, Badge, Notification)
  - the Result and Failure types
  - the integrity predicates of the store: unique usernames and emails, foreign keys, and each like counter equal to the number of like pairs
  - the lemmas showing that each kind of update preserves those predicates
- `Ledger`: the level rule, credits, the check-in tier and streak, and conservation of total points.
- `Ranking`
  - SQLite `LIMIT`/`OFFSET` windows
  - `parseInt(x) || d` defaults
  - page counts
  - a generic ordering of rows by a major and a minor key
- `Store`: the class `Forum`, which holds the whole database as one `Db` record and has one method per write handler. The module also holds the pure transitions of the two like toggles and the helpers the handlers use.
- `AuthQueries`, `CheckinQueries`, `LikeQueries`, `PostQueries`, `CommentQueries`, `FavoriteQueries`, `FollowQueries`, `ShopQueries`, `Leaderboard`: the read handlers of each route file, as functions over the tables.
- `Scenarios`: properties of several requests in a row.

Some environment details are parameters:
- The authenticated user is the `me` parameter.
- The request time is the `now` parameter. Days are integers, and yesterday is `today - 1`.
- Password checking is the `Matches` predicate, and the password hash is supplied by the caller.
- The result of `parseInt` is an `Option<int>`, with `None` for NaN. A validated query parameter carries both its parse and whether its text is an integer literal, since `parseInt` reads "2.5" as 2 but the `isInt` validator rejects it.
- Whether an email is well formed is a boolean parameter.

## Model

| member | source | states |
|---|---|---|
| Ledger.Level | server/src/routes/likes.ts:37-38 | the level for a balance is the unique L with K*(L-1) <= points < K*L, that is floor(points/K)+1, also for negative balances |
| Ledger.Credit | server/src/routes/likes.ts:49 | `UPDATE users SET points = points + delta`: the balance moves by exactly delta and every other column of the row stays |
| Ledger.Relevel | server/src/routes/likes.ts:52-54 | the level is recomputed from the current balance with divisor K (K*(level-1) <= points < K*level) and every other column of the row stays |
| Ledger.LevelSign | server/src/routes/auth.ts:157-159 | the level is at least 1 exactly when the balance is not negative |
| Ledger.LevelMonotone | server/src/routes/checkin.ts:77-79 | more points never give a lower level |
| Ledger.StepsDisagree | server/src/routes/rewards.ts:99-101 | the two divisors disagree on every balance from 30 to 99: the activity rule (K=30) puts it above level 1, the profile and reward rule (K=100) at level 1 |
| Ledger.CheckinPoints | server/src/routes/checkin.ts:59-66 | a check-in earns 20 points from a 7-day streak on and 10 before it |
| Ledger.CheckinNeverTopTiers | server/src/routes/checkin.ts:59-66 | the 50 and 100 point tiers sit behind the else-if after the 7-day test, so no streak ever earns them |
| Ledger.Streak | server/src/routes/checkin.ts:44-56 | the streak is yesterday's consecutive days plus one when yesterday's record exists, otherwise 1, so it is at least 1 whenever every stored record is |
| Ledger.TotalPointsUpdate | server/src/routes/rewards.ts:73-76 | replacing one user's row changes the sum of all balances by exactly the change in that user's points |
| Ledger.TransferConserves | server/src/routes/rewards.ts:73-76 | debiting the sender N and crediting the recipient N leaves the total number of points unchanged, whatever the recipient's level becomes |
| Tables.LikeCountInsert | server/src/database/schema.ts:111-118 | adding a new like pair raises the like count of exactly its own row by one |
| Tables.LikeCountRemove | server/src/database/schema.ts:111-118 | removing a like pair lowers the like count of exactly its own row by one |
| Tables.UsersOkUpdate | server/src/database/schema.ts:48-51 | rewriting a user's row without touching username or email keeps usernames and emails unique |
| Tables.PostsOkUpdate | server/src/database/schema.ts:75-88 | rewriting a post keeps its author and keeps every category reference valid |
| Tables.CommentsOkUpdate | server/src/routes/comments.ts:213 | rewriting a comment's content keeps its post, author and parent links valid |
| Tables.PostLikeToggle | server/src/routes/likes.ts:26-47 | flipping a (post, user) pair and moving that post's counter by one keeps every post's counter equal to its number of like pairs |
| Tables.CommentLikeToggle | server/src/routes/likes.ts:92-106 | flipping a (comment, user) pair and moving that comment's counter by one keeps every comment's counter equal to its number of like pairs |
| Tables.CommentAdded | server/src/routes/comments.ts:114-123 | inserting a comment with zero likes under the next id, on an existing post and with a parent on the same post, keeps the comment table consistent |
| Tables.PostAdded | server/src/routes/posts.ts:158-160 | inserting a post with zero likes under the next id, with a valid or null category, keeps the post table consistent |
| Tables.Surviving | server/src/database/schema.ts:111-118 | the like pairs left by a cascade are exactly those whose row survives |
| Tables.OnPosts | server/src/database/schema.ts:94-105 | the comments left by a post deletion are exactly those on the surviving posts |
| Tables.PostRemoved | server/src/routes/posts.ts:339 | deleting a post and cascading to its comments, their likes, its likes and its favorites keeps the post and comment foreign keys, both like counters and the favorite and follow references valid |
| Tables.CommentLikesKept | server/src/routes/comments.ts:213 | editing a comment's content keeps its like counter consistent |
| Store.PostLikeKeepsConsistent | server/src/routes/likes.ts:26-68 | a post-like toggle keeps every store invariant, including each counter equal to its number of pairs |
| Store.CommentLikeKeepsConsistent | server/src/routes/likes.ts:92-118 | a comment-like toggle keeps every store invariant |
| Store.PostLikeToggled | server/src/routes/likes.ts:22-70 | the post-like transition: the (post, user) pair is present afterwards iff it was absent, no other pair changes, the post counter moves by +1 or -1, and only when the post is someone else's does the author's balance move by the same amount, the level follow with K=30 and, on a like, one like notice go to the author; no other table or user changes |
| Store.CommentLikeToggled | server/src/routes/likes.ts:92-118 | the comment-like transition: the pair flips, no other pair changes, the comment counter moves by +1 or -1, and only a like on someone else's comment credits the author one point and relevels them with K=30; an un-like leaves every user as they were |
| Store.PostSideChanged | server/src/routes/posts.ts:158-171 | a change confined to users, posts, post likes and notifications that keeps those tables sound keeps the whole store consistent |
| Store.CommentSideChanged | server/src/routes/comments.ts:121-162 | a change confined to users, comments, comment likes and notifications that keeps those tables sound keeps the whole store consistent |
| Store.Truthy | server/src/routes/comments.ts:123 | `x \|\| null`: a missing id or the id 0 is stored as null, and any other id is kept |
| Store.StoredMessage | server/src/routes/rewards.ts:83 | `message \|\| null`: an empty or absent message is stored as null |
| Store.RegistrationValid | server/src/routes/auth.ts:14-16 | the register validator: a username of 3 to 20 characters, an email the isEmail check accepts, a password of at least 6 characters |
| Store.Taken | server/src/routes/auth.ts:28-44 | some stored user already has the username or the email |
| Store.RewardRequestValid | server/src/routes/rewards.ts:13-16 | the reward validator: the type is post or comment, the amount is from 1 to 1000, a message has at most 100 characters |
| Store.RewardTarget | server/src/routes/rewards.ts:36-48 | the recipient is the author of the referenced post or comment, or none when that row does not exist |
| Store.PostDraftValid | server/src/routes/posts.ts:145-146 | the create validator: a title of 1 to 200 characters and non-empty content |
| Store.PostEditValid | server/src/routes/posts.ts:201-202 | the update validator: a supplied title has 1 to 200 characters and supplied content is not empty |
| Store.EditPost | server/src/routes/posts.ts:229-247 | an edit changes exactly the supplied fields (title, content, category) plus the update time, and nothing else in the post |
| Store.MayModerate | server/src/routes/posts.ts:223-224 | the caller may change a row when they wrote it or are an admin |
| Store.CommentNotices | server/src/routes/comments.ts:131-162 | a new comment sends at most one notice: to the parent's author for a reply, otherwise to the post's author, and never to the commenter |
| Store.ThreadStaysOnPost | server/src/database/schema.ts:94-105 | every comment in the reply thread under a comment belongs to the same post as that comment |
| Store.Prune | server/src/routes/comments.ts:258 | deleting a comment removes exactly that comment and the replies beneath it, and keeps every other comment as it was |
| Store.ThreadRemoved | server/src/routes/comments.ts:246-260 | removing a reply thread together with its comment likes keeps the comment table and the like counters consistent |
| Store.Forum.constructor | server/src/database/schema.ts:48-160 | a new forum has empty tables, the next id of every table is 1, and the categories and shop catalogue are fixed |
| Store.Forum.Register | server/src/routes/auth.ts:11-91 | invalid input and a taken username or email are rejected without change; otherwise exactly one user is added, under a fresh id, with 10 points and level 1 |
| Store.Forum.Me | server/src/routes/auth.ts:149-168 | an unknown user gives not-found; otherwise the level is set to floor(points/100)+1, so a second call changes nothing |
| Store.Forum.CheckIn | server/src/routes/checkin.ts:8-94 | a second check-in on the same day is rejected without change; otherwise one record holding the streak and its tier is inserted, only that user gains exactly those points, and the level becomes floor(points/30)+1 |
| Store.Forum.SendReward | server/src/routes/rewards.ts:9-118 | the checks run in the source's order (validation, balance, target, self); every failure leaves the store unchanged; a success moves N points, appends one reward row and one notice, relevels only the recipient with K=100, conserves total points and keeps a non-negative sender balance non-negative |
| Store.Forum.TogglePostLike | server/src/routes/likes.ts:8-76 | a bad id or a missing post fails without change; otherwise the result is true iff the pair was absent and membership flips; the counter moves by one; only a like or un-like by someone else moves the author by one point, relevels them with K=30 and, on a like, adds one notice; nothing else changes |
| Store.Forum.ToggleCommentLike | server/src/routes/likes.ts:79-123 | a bad id or a missing comment fails without change; otherwise membership flips and the counter moves by one; only a like by someone else gives the author a point and relevels them with K=30; an un-like refunds nothing; nothing else changes |
| Store.Forum.PurchaseItem | server/src/routes/shop.ts:53-157 | an unknown or withdrawn item, an insufficient balance or a badge already held fails without change; a success debits exactly the price, appends one purchase and, for a badge, one badge row, and never changes the level or takes a non-negative balance below zero |
| Store.Forum.ViewPost | server/src/routes/posts.ts:91-138 | a bad id gives 400 and a missing post 404; otherwise only that post's views go up by exactly one, and a signed-in reader, and only such a reader, gets whether the (post, reader) pair is in the post likes and in the favorites |
| Store.Forum.CreatePost | server/src/routes/posts.ts:141-194 | an invalid draft or an unknown category fails without change; otherwise one post with no likes is inserted under a fresh id, and the author gains 5 points and is releveled with K=30 |
| Store.Forum.UpdatePost | server/src/routes/posts.ts:197-271 | invalid input, a bad id, a missing post, a user who is neither author nor admin, or an unknown category fails without change; otherwise only that post changes, to the edit of the supplied fields |
| Store.Forum.DeletePost | server/src/routes/posts.ts:320-345 | a missing post or a user who is neither author nor admin fails without change; otherwise the post goes, and so do its comments and the likes and favorites that referred to it |
| Store.Forum.CreateComment | server/src/routes/comments.ts:86-183 | empty content, a missing or locked post, or a parent that does not exist on the same post fails without change; otherwise one comment is inserted, the commenter gains exactly 2 points with no relevel, and the notices follow the reply rule |
| Store.Forum.UpdateComment | server/src/routes/comments.ts:186-235 | only the comment's author may edit it, not an admin; a success changes only that comment's content and update time |
| Store.Forum.DeleteComment | server/src/routes/comments.ts:238-263 | the author or an admin may delete; a success removes the comment with its replies and their likes, and every removed comment was on the same post |
| Store.Forum.ToggleFollow | server/src/routes/follows.ts:9-72 | following oneself gives 400 and an unknown user 404, without change; otherwise the pair flips, the result says whether it is now present, and exactly one follow or unfollow notice goes to the target |
| Store.Forum.ToggleFavorite | server/src/routes/favorites.ts:8-39 | a missing post fails without change; otherwise the (post, user) pair flips and the result is true iff it was absent before |
| AuthQueries.Named | server/src/routes/auth.ts:110-113 | the accounts a login name matches are exactly those whose username or email equals it |
| AuthQueries.First | server/src/routes/auth.ts:110-113 | the row taken among several matches is the one with the lowest id |
| AuthQueries.Login | server/src/routes/auth.ts:94-146 | an empty field is invalid; with no matching account the result is the credentials error; a success names a matching account, the lowest-numbered one |
| AuthQueries.LoginOutcomes | server/src/routes/auth.ts:110-122 | an unknown account and a wrong password produce the same error |
| AuthQueries.TwoAccountsNamed | server/src/database/schema.ts:48-51 | one login name can match two accounts, one by username and one by email, so the choice between them matters |
| CheckinQueries.Status | server/src/routes/checkin.ts:97-144 | checked-in-today holds iff today's record exists; the streak shown is today's count, else yesterday's, else 0 |
| CheckinQueries.StatusAfterCheckIn | server/src/routes/checkin.ts:69-71 | after today's record is inserted, the status reports checked in with the new streak |
| LikeQueries.Status | server/src/routes/likes.ts:126-142 | a bad id fails; otherwise the answer is membership of the (post, user) pair |
| LikeQueries.ToggleFlipsStatus | server/src/routes/likes.ts:22-70 | after a post-like toggle the status of that (post, user) pair is the opposite of before, and the status of every other pair is unchanged |
| PostQueries.InCategory | server/src/routes/posts.ts:27-45 | with a category filter the feed holds exactly the posts of that category, and without one every post |
| PostQueries.PinnedThenNewest | server/src/routes/posts.ts:62 | the feed order lists every shown post once, pinned posts first, then newest first |
| PostQueries.RankedFeed | server/src/routes/posts.ts:62 | an order by pin rank, then age, is pinned-first and newest-first |
| PostQueries.Feed | server/src/routes/posts.ts:30-62 | the feed has one row per shown post, each carrying that post's like count, comment count and the viewer's like and favorite flags |
| PostQueries.FeedPinnedFirst | server/src/routes/posts.ts:62 | the feed lists each shown post exactly once, pinned first, then newest first |
| PostQueries.List | server/src/routes/posts.ts:9-88 | invalid paging input is rejected; page and limit default to 1 and 20, the rows are the window at (page-1)*limit, and the total page count is ceil(total/limit) |
| PostQueries.ListValid | server/src/routes/posts.ts:12-14 | the list validators: page an integer literal of at least 1, limit an integer literal from 1 to 100, category an integer literal, each when given |
| PostQueries.NonIntegerQueryRejected | server/src/routes/posts.ts:12-14 | a page, limit or category that parseInt could read but that is not an integer literal ("2.5", "12abc") gets 400 |
| PostQueries.UnfilteredCountsAll | server/src/routes/posts.ts:27 | without a category filter the total counts every post |
| CommentQueries.OnPost | server/src/routes/comments.ts:33-55 | a thread holds exactly the comments of that post |
| CommentQueries.OldestFirst | server/src/routes/comments.ts:55-56 | the thread order lists every comment once, oldest first |
| CommentQueries.EarliestFirst | server/src/routes/comments.ts:55-56 | an order by creation time, then id, is oldest first |
| CommentQueries.Thread | server/src/routes/comments.ts:33-56 | a thread has one row per comment of the post, with its like count and the viewer's like flag |
| CommentQueries.ThreadOldestFirst | server/src/routes/comments.ts:55-56 | a thread lists each comment of the post exactly once, oldest first |
| CommentQueries.List | server/src/routes/comments.ts:9-83 | invalid paging input is rejected, then a bad post id; page and limit default to 1 and 50, the rows are the window at (page-1)*limit, and the page count is ceil(total/limit) |
| CommentQueries.NonIntegerQueryRejected | server/src/routes/comments.ts:12-13 | a page or limit that is not an integer literal gets 400, before the post id is examined |
| CommentQueries.FirstPageHoldsSmallThread | server/src/routes/comments.ts:28-30 | with the defaults, a thread of at most 50 comments is shown whole on the first page |
| FavoriteQueries.Favorites | server/src/routes/favorites.ts:47-64 | one row per favorite of the user, with its time and the post, if that post still exists |
| FavoriteQueries.FavoritesNewestFirst | server/src/routes/favorites.ts:63-64 | the favorites list holds each favorited post exactly once, newest favorite first |
| FavoriteQueries.List | server/src/routes/favorites.ts:42-84 | page and limit default to 1 and 20, the rows are the window at (page-1)*limit, the total is the user's favorite count, and the page count is ceil(total/limit) |
| FavoriteQueries.Status | server/src/routes/favorites.ts:87-103 | a bad id fails; otherwise the answer is membership of the (post, user) pair |
| FollowQueries.Following | server/src/routes/follows.ts:75-121 | one row per user that u follows, with the time of the follow |
| FollowQueries.Followers | server/src/routes/follows.ts:124-170 | one row per user that follows u, with the time of the follow |
| FollowQueries.FollowingNewestFirst | server/src/routes/follows.ts:100 | the following list holds each followed user exactly once, newest follow first |
| FollowQueries.FollowersNewestFirst | server/src/routes/follows.ts:149 | the followers list holds each follower exactly once, newest follow first |
| FollowQueries.ListFollowing | server/src/routes/follows.ts:75-121 | a bad id fails; otherwise a page of the following list with the default page 1 and limit 20 |
| FollowQueries.ListFollowers | server/src/routes/follows.ts:124-170 | a bad id fails; otherwise a page of the followers list with the default page 1 and limit 20 |
| FollowQueries.Check | server/src/routes/follows.ts:173-189 | a bad id fails; otherwise the answer is membership of the (me, target) pair |
| FollowQueries.Stats | server/src/routes/follows.ts:192-221 | following counts the pairs with u as follower, followers the pairs with u as target, and is-following is false with no viewer or when the viewer is u |
| FollowQueries.StatsMatchLists | server/src/routes/follows.ts:199-210 | the two counts equal the lengths of the following and followers lists |
| FollowQueries.StatsNeverSelf | server/src/routes/follows.ts:205-209 | a user viewing their own stats is never shown as following themselves |
| ShopQueries.OnSale | server/src/routes/shop.ts:13 | the catalogue shows exactly the available items |
| ShopQueries.Cheapest | server/src/routes/shop.ts:13 | the catalogue order lists every available item once, cheapest first |
| ShopQueries.CheapestFirst | server/src/routes/shop.ts:13 | an order by price, then id, is cheapest first |
| ShopQueries.Items | server/src/routes/shop.ts:9-50 | one row per available item, with that item's data |
| ShopQueries.ItemsCheapestFirst | server/src/routes/shop.ts:13 | the item list holds each available item exactly once, in ascending price |
| ShopQueries.WithdrawnItemHidden | server/src/routes/shop.ts:13 | once an item is made unavailable it leaves the list |
| ShopQueries.Held | server/src/routes/shop.ts:165 | a user's badges are exactly the badge rows that name that user |
| ShopQueries.NewestBadges | server/src/routes/shop.ts:165 | the badge order lists every held badge once, most recently obtained first |
| ShopQueries.Badges | server/src/routes/shop.ts:160-179 | a bad user id lists nothing; otherwise one row per badge the user holds, each one a stored badge of that user |
| ShopQueries.BadgesNewestFirst | server/src/routes/shop.ts:165 | the badge list holds each badge of the user exactly once, most recently obtained first |
| Leaderboard.BoardLimit | server/src/routes/leaderboard.ts:10 | the limit is the parsed limit, or 50 when it is absent or 0, capped at 100 |
| Leaderboard.BoardOffset | server/src/routes/leaderboard.ts:11 | the offset is the parsed offset, or 0 when it is absent |
| Leaderboard.PostCount | server/src/routes/leaderboard.ts:22 | the number of posts whose author is the user |
| Leaderboard.CommentCount | server/src/routes/leaderboard.ts:23 | the number of comments whose author is the user |
| Leaderboard.ByPoints | server/src/routes/leaderboard.ts:14-26 | one row per user, with that user's points, level, post count and comment count |
| Leaderboard.ByLevel | server/src/routes/leaderboard.ts:46-58 | one row per user, with that user's level, points, post count and comment count |
| Leaderboard.ByPointsOrdered | server/src/routes/leaderboard.ts:25 | the points board holds every user once, by points descending, with ties by level descending |
| Leaderboard.ByLevelOrdered | server/src/routes/leaderboard.ts:57 | the level board holds every user once, by level descending, with ties by points descending |
| Leaderboard.PointsBoard | server/src/routes/leaderboard.ts:7-36 | the points board is the window of the ordering at the offset, with at most 100 rows for a non-negative limit |
| Leaderboard.LevelBoard | server/src/routes/leaderboard.ts:39-68 | the level board is the window of the ordering at the offset, with at most 100 rows for a non-negative limit |
| Leaderboard.BoardsOrdered | server/src/routes/leaderboard.ts:25-26 | both boards are contiguous runs of their orderings, so each stays in order |
| Leaderboard.NegativeLimitListsEveryone | server/src/routes/leaderboard.ts:10 | a negative limit slips past the cap of 100, because SQLite reads a negative LIMIT as no limit, and every user from the offset on is listed |
| Leaderboard.DefaultBoard | server/src/routes/leaderboard.ts:10-11 | with no parameters the points board is the top 50 users, or all of them when fewer |
| Ranking.RowIds | server/src/database/schema.ts:75-88 | the rowids of a table, ascending, each exactly once |
| Ranking.SortBy | server/src/routes/posts.ts:62 | an ORDER BY on two descending keys returns a permutation of its rows in that order |
| Ranking.OrderIds | server/src/routes/posts.ts:62 | the ordering of a table's ids by two keys lists every id exactly once, each before every id it ranks above |
| Ranking.NewestFirst | server/src/routes/favorites.ts:63 | ordering by a timestamp lists every id once, newest first |
| Ranking.Start | server/src/routes/posts.ts:62 | where an OFFSET starts: a negative offset counts as 0 and an offset past the end as the end |
| Ranking.Window | server/src/routes/posts.ts:62 | the rows LIMIT/OFFSET returns: a negative offset counts as 0, a negative limit means no limit, and the rows are the consecutive ones from the offset |
| Ranking.FirstRows | server/src/routes/leaderboard.ts:10-26 | the window at offset 0 of limit n is the first min(n, length) rows |
| Ranking.WindowKeepsOrder | server/src/routes/leaderboard.ts:25-26 | a window of an ordered list is ordered |
| Ranking.WindowsTile | server/src/routes/posts.ts:57-62 | two adjacent windows, one after the other, make the window of their combined length |
| Ranking.PageCount | server/src/routes/posts.ts:80 | the page count is ceil(total/limit): the smallest number of pages that holds every row |
| Ranking.Fallback | server/src/routes/posts.ts:24-25 | `parseInt(x) \|\| d` is the parsed value unless it is NaN or 0, in which case it is d |
| Ranking.Parsed | server/src/routes/posts.ts:24-25 | an absent query parameter parses as NaN, and a given one parses as its text |
| Ranking.IsIntParam | server/src/routes/posts.ts:14 | `optional().isInt()`: absent, or a text that is an integer literal |
| Ranking.AtLeast | server/src/routes/posts.ts:12 | `optional().isInt({ min })`: absent, or an integer literal no smaller than the minimum |
| Ranking.Between | server/src/routes/posts.ts:13 | `optional().isInt({ min, max })`: absent, or an integer literal within both bounds |
| Ranking.Paginate | server/src/routes/posts.ts:57-80 | a page is the window at (page-1)*limit; a page before the last is full, the last page is not empty and ends at the last row, and a page past it is empty |
| Ranking.PageBounds | server/src/routes/posts.ts:57-80 | the offsets of the pages up to ceil(total/limit) cover every row |
| Ranking.PagesUpToWindow | server/src/routes/posts.ts:57-62 | the first n pages put together are the first n*limit rows |
| Ranking.PagesCoverAll | server/src/routes/posts.ts:57-80 | walking every page from 1 to ceil(total/limit) returns every row exactly once, in order |
| Scenarios.LikeUndone | server/src/routes/likes.ts:29-53 | a like and then an un-like of another user's post leave the post, its counter and the author's points as they were, apart from the author's level being recomputed and the notice the like sent |
| Scenarios.LikeThenUnlike | server/src/routes/likes.ts:8-76 | two post-like requests in a row by a non-author restore the author's points and the post's counter |
| Scenarios.CommentLikeKept | server/src/routes/likes.ts:97-115 | a like and then an un-like of another user's comment restore the counter but leave the author one point richer |
| Scenarios.CommentLikeThenUnlike | server/src/routes/likes.ts:79-123 | two comment-like requests in a row by a non-author net the author exactly one point |
| Scenarios.CheckInTwice | server/src/routes/checkin.ts:29-36 | the second check-in of a day is rejected, one record is stored, and the status reports it |
| Scenarios.CheckInTwoDays | server/src/routes/checkin.ts:44-66 | a check-in the day after another one extends the streak by exactly one and earns that streak's tier |
| Scenarios.MeTwice | server/src/routes/auth.ts:157-161 | two `/me` calls return the same user, and afterwards the stored level agrees with the K=100 rule |
| Scenarios.FavoriteTwice | server/src/routes/favorites.ts:22-34 | two favorite toggles restore the set of pairs, and nothing but the favorites changes |
| Scenarios.FollowTwice | server/src/routes/follows.ts:27-66 | two follow toggles restore the set of pairs and send a follow notice and an unfollow notice |

## Left out

- The client application, the upload route, the search route and the categories listing are not part of this model. They hold presentation, file storage or `LIKE` matching, and none of them touches the ledger.
- The hot-post list in server/src/routes/posts.ts:274-317 is not modelled. It scores posts with floating-point weights over a window of wall-clock dates, and the `/:id` route shadows it.
- Password hashing and tokens are not modelled: bcrypt is the `Matches` predicate, the stored hash is a parameter, and the authenticated user is the `me` parameter.
- Dates are integers, and yesterday is today minus one. The mix of UTC and local time in the check-in route is not modelled.
- Tables are always present. The model assumes a `follows(follower_id, following_id, created_at)` table, although server/src/database/schema.ts creates none and the follows routes have no "no such table" branch, so on a database built only by that schema every follows route answers 500. The lazy table creation, the "no such table" branches and the shop's seed catalogue are not modelled; the catalogue is a parameter of the forum.
- Notifications keep the recipient, the type and the related row only. Their titles and texts are left out.
- The schema bootstrap, the server wiring and the order of concurrent requests are not modelled. Each request is one atomic step. That matches the server for every synchronous handler; registration awaits in the middle of its work, as the Store.Forum.Register line below says.
- Integers are unbounded. SQLite's 64-bit integers and JavaScript's doubles never overflow at forum sizes, and string lengths count characters rather than UTF-16 units.
- Joined display columns (author name, avatar, category name) are left out of the query rows. Rows carry the ids and the counters instead.
- Ranking.OrderIds: where the source's ORDER BY leaves ties unordered, the model breaks them by id. The stated orders hold for any tie-break.
- AuthQueries.First: the source takes whichever matching row SQLite returns first; the model takes the lowest id.
- Store.Forum.Register: the email format check is the `emailIsValid` parameter, not a model of the validator's rules.
- Store.Forum.Register: the handler awaits the password hash (server/src/routes/auth.ts:47) between the username and email check (auth.ts:28-44) and the INSERT (auth.ts:51-53). Two concurrent registrations of the same name or email can therefore both pass the check. The second INSERT then fails on the UNIQUE column and gets the 500 of auth.ts:54-60, not the `NameTaken` error the model gives. The model runs each registration as one step, so it does not capture that race. Usernames and emails stay unique in the database all the same, because the schema declares both columns UNIQUE.
- ShopQueries.Badges: the user id is taken as already parsed; any failure to parse it is the `None` case.
- Leaderboard.PointsBoard: the cap of 100 holds only for a non-negative limit, because a negative parsed limit passes `Math.min` and SQLite reads it as unlimited; Leaderboard.NegativeLimitListsEveryone states this case.
- Store.Forum.CheckIn: requires the authenticated user to exist, because a token is only issued at register and login and no route deletes a user; the 500 the handler answers for a token naming a missing user is not modelled. It also leaves out that the check-in handler inserts its record before the missing user makes it fail.
- Store.Forum.TogglePostLike: requires the authenticated user to exist, because a token is only issued at register and login and no route deletes a user; the 500 the handler answers for a token naming a missing user is not modelled.
- Store.Forum.ToggleCommentLike: requires the authenticated user to exist, because a token is only issued at register and login and no route deletes a user; the 500 the handler answers for a token naming a missing user is not modelled.
- Store.Forum.CreatePost: requires the authenticated user to exist, because a token is only issued at register and login and no route deletes a user; the 500 the handler answers for a token naming a missing user is not modelled.
- Store.Forum.UpdatePost: requires the authenticated user to exist, because a token is only issued at register and login and no route deletes a user; the 500 the handler answers for a token naming a missing user is not modelled.
- Store.Forum.DeletePost: requires the authenticated user to exist, because a token is only issued at register and login and no route deletes a user; the 500 the handler answers for a token naming a missing user is not modelled.
- Store.Forum.CreateComment: requires the authenticated user to exist, because a token is only issued at register and login and no route deletes a user; the 500 the handler answers for a token naming a missing user is not modelled.
- Store.Forum.DeleteComment: requires the authenticated user to exist, because a token is only issued at register and login and no route deletes a user; the 500 the handler answers for a token naming a missing user is not modelled.
- Store.Forum.ToggleFollow: requires the authenticated user to exist, because a token is only issued at register and login and no route deletes a user; the 500 the handler answers for a token naming a missing user is not modelled.
- Store.Forum.ToggleFavorite: requires the authenticated user to exist, because a token is only issued at register and login and no route deletes a user; the 500 the handler answers for a token naming a missing user is not modelled.
- Store.Forum.PurchaseItem: item_id in the request body is an integer in the model, so the 400 the `isInt` validator gives for a body value that is not an integer is not modelled.
- Store.Forum.CreateComment: post_id and parent_id in the request body are integers in the model, so the 400 the `isInt` validator gives for a body value that is not an integer is not modelled.
- Store.Forum.CreatePost: category_id in the request body is an integer in the model, so the 400 the `isInt` validator gives for a body value that is not an integer is not modelled.
- Store.Forum.SendReward: related_id and the amount in the request body are integers in the model, so the 400 the `isInt` validator gives for a body value that is not an integer is not modelled.
- Store.Forum.CreatePost: the optional `attachments` value of the request body is neither stored nor returned, because the `Post` row has no such column. The handler writes it into an `attachments` column (server/src/routes/posts.ts:156-160) that the posts table created in server/src/database/schema.ts:75-90 does not declare, so on a database built by that schema the INSERT fails and the handler answers 500. The model assumes the INSERT succeeds.
- Store.Forum.UpdatePost: the PUT route has no validator for category_id and binds whatever JSON value arrives (server/src/routes/posts.ts:240-243). The model takes it as absent, null or an integer; a string, boolean or fractional value is not an input of the model. A value that matches no category gets the 500 that the model gives as ConstraintViolation.
