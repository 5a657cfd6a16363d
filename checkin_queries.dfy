/**
 * GET /checkin/status (checkin.ts): whether the user has checked in today,
 * the streak the page shows, and today's record. It reads the
 * daily_checkins table and changes nothing.
 */
module CheckinQueries {
  import opened Tables
  import opened Ledger

  datatype CheckinStatus = CheckinStatus(checkedInToday: bool, consecutiveDays: int, todayCheckin: Option<Checkin>)

  /**
   * Today's streak if the user has checked in today, otherwise
   * yesterday's (not yet extended), otherwise 0.
   */
  function Status(checkins: map<(int, int), Checkin>, user: int, today: int): (s: CheckinStatus)
    ensures s.checkedInToday <==> (user, today) in checkins
    ensures s.checkedInToday ==>
              s.todayCheckin == Some(checkins[(user, today)]) &&
              s.consecutiveDays == checkins[(user, today)].consecutiveDays
    ensures !s.checkedInToday ==>
              s.todayCheckin == None && s.consecutiveDays + 1 == Streak(checkins, user, today)
    ensures CheckinsOk(checkins) ==> 0 <= s.consecutiveDays && (s.checkedInToday ==> 1 <= s.consecutiveDays)
  {
    if (user, today) in checkins then
      CheckinStatus(true, checkins[(user, today)].consecutiveDays, Some(checkins[(user, today)]))
    else if (user, today - 1) in checkins then
      CheckinStatus(false, checkins[(user, today - 1)].consecutiveDays, None)
    else
      CheckinStatus(false, 0, None)
  }

  /**
   * The record a check-in writes is what the status shows afterwards: today
   * is done, and the streak is one more than the status showed before.
   */
  lemma StatusAfterCheckIn(checkins: map<(int, int), Checkin>, user: int, today: int)
    requires (user, today) !in checkins
    ensures var days := Streak(checkins, user, today);
            var record := Checkin(days, CheckinPoints(days));
            && Status(checkins[(user, today) := record], user, today) == CheckinStatus(true, days, Some(record))
            && days == Status(checkins, user, today).consecutiveDays + 1
  {
  }
}
