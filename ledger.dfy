/**
 * The points ledger: the fixed bonuses, the level rule, the check-in streak
 * and tier, and the sum of all balances.
 *
 * The level rule `Math.floor(points / K) + 1` appears with two divisors:
 * 30 after a post, a like and a check-in, 100 after a reward and on `/me`.
 * Both are kept, one constant per group of call sites.
 */
module Ledger {
  import opened Tables

  /** Divisor of posts.ts, likes.ts and checkin.ts. */
  const ACTIVITY_LEVEL_STEP: int := 30
  /** Divisor of rewards.ts and of the `/me` resync in auth.ts. */
  const PROFILE_LEVEL_STEP: int := 100

  const REGISTER_POINTS: int := 10
  const POST_POINTS: int := 5
  const COMMENT_POINTS: int := 2

  /**
   * `Math.floor(points / step) + 1`. Dafny's `/` rounds down for a positive
   * divisor, as `Math.floor` does, negative balances included.
   */
  function Level(points: int, step: int): (level: int)
    requires 0 < step
    ensures step * (level - 1) <= points < step * level
  {
    points / step + 1
  }

  /** A non-negative balance is at level 1 or above; a negative one is below level 1. */
  lemma LevelSign(points: int, step: int)
    requires 0 < step
    ensures 0 <= points <==> 1 <= Level(points, step)
  {
  }

  /** More points never mean a lower level. */
  lemma LevelMonotone(p: int, q: int, step: int)
    requires 0 < step && p <= q
    ensures Level(p, step) <= Level(q, step)
  {
    var lp, lq := Level(p, step), Level(q, step);
    assert step * (lp - 1) < step * lq;
    ProductOrder(step, lp - 1, lq);
  }

  /** Dividing both sides of `step * x < step * y` by a positive `step`. */
  lemma ProductOrder(step: int, x: int, y: int)
    requires 0 < step && step * x < step * y
    ensures x < y
  {
    assert step * (y - x) > 0;
  }

  /**
   * The two divisors disagree on every balance from 30 to 99: the activity
   * paths give it level 2 or 3, the profile and reward paths level 1.
   */
  lemma StepsDisagree(points: int)
    requires ACTIVITY_LEVEL_STEP <= points < PROFILE_LEVEL_STEP
    ensures Level(points, PROFILE_LEVEL_STEP) == 1 < Level(points, ACTIVITY_LEVEL_STEP)
  {
    var high, low := Level(points, ACTIVITY_LEVEL_STEP), Level(points, PROFILE_LEVEL_STEP);
    ProductOrder(ACTIVITY_LEVEL_STEP, 1, high);
    ProductOrder(PROFILE_LEVEL_STEP, 0, low);
    ProductOrder(PROFILE_LEVEL_STEP, low - 1, 1);
  }

  /** The user row after `UPDATE users SET points = points + delta`. */
  function Credit(u: User, delta: int): (r: User)
    ensures r.points == u.points + delta
    ensures r.(points := u.points) == u
  {
    u.(points := u.points + delta)
  }

  /** The user row after the level is recomputed from its points with divisor `step`. */
  function Relevel(u: User, step: int): (r: User)
    requires 0 < step
    ensures step * (r.level - 1) <= r.points < step * r.level
    ensures r.(level := u.level) == u
  {
    u.(level := Level(u.points, step))
  }

  /**
   * The check-in tier as written: the tests after `>= 7` sit in `else if`
   * branches, so a streak of 30 or 100 days still earns 20.
   */
  function CheckinPoints(days: int): (points: int)
    ensures 7 <= days ==> points == 20
    ensures days < 7 ==> points == 10
  {
    if days >= 7 then 20
    else if days >= 30 then 50
    else if days >= 100 then 100
    else 10
  }

  /** No streak ever earns 50 or 100 points. */
  lemma CheckinNeverTopTiers(days: int)
    ensures CheckinPoints(days) != 50 && CheckinPoints(days) != 100
  {
  }

  /**
   * The streak a check-in on `today` records: one more than yesterday's
   * record, or 1 when there was none.
   */
  function Streak(checkins: map<(int, int), Checkin>, user: int, today: int): (days: int)
    ensures CheckinsOk(checkins) ==> 1 <= days
    ensures (user, today - 1) in checkins ==> days - 1 == checkins[(user, today - 1)].consecutiveDays
    ensures (user, today - 1) !in checkins ==> days == 1
  {
    if (user, today - 1) in checkins then checkins[(user, today - 1)].consecutiveDays + 1 else 1
  }

  /** Every check-in record has a streak of at least one day and the tier's points. */
  ghost predicate CheckinsOk(checkins: map<(int, int), Checkin>)
  {
    forall k :: k in checkins ==>
      1 <= checkins[k].consecutiveDays &&
      checkins[k].pointsEarned == CheckinPoints(checkins[k].consecutiveDays)
  }

  /** The sum of the balances of the users with ids in [lo, hi). */
  function TotalPoints(users: map<int, User>, lo: int, hi: int): int
    decreases hi - lo
  {
    if lo >= hi then 0
    else (if lo in users then users[lo].points else 0) + TotalPoints(users, lo + 1, hi)
  }

  /** Replacing one user's row changes the sum by exactly that user's change of balance. */
  lemma {:induction false} TotalPointsUpdate(users: map<int, User>, id: int, u: User, lo: int, hi: int)
    requires id in users
    decreases hi - lo
    ensures TotalPoints(users[id := u], lo, hi)
            == TotalPoints(users, lo, hi) + (if lo <= id < hi then u.points - users[id].points else 0)
  {
    if lo < hi {
      TotalPointsUpdate(users, id, u, lo + 1, hi);
    }
  }

  /**
   * Moving `n` points from one user to another, whatever happens to their
   * levels, leaves the sum of all balances unchanged.
   */
  lemma TransferConserves(users: map<int, User>, from: int, to: int, n: int, step: int, lo: int, hi: int)
    requires from in users && to in users && from != to && 0 < step
    requires lo <= from < hi && lo <= to < hi
    ensures var after := users[from := Credit(users[from], -n)][to := Relevel(Credit(users[to], n), step)];
            TotalPoints(after, lo, hi) == TotalPoints(users, lo, hi)
  {
    var mid := users[from := Credit(users[from], -n)];
    TotalPointsUpdate(users, from, Credit(users[from], -n), lo, hi);
    TotalPointsUpdate(mid, to, Relevel(Credit(users[to], n), step), lo, hi);
  }
}
