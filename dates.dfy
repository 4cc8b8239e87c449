/**
 * The reporting window. "Today" is a day number and the hour of the local
 * clock is passed in; rendering a day as `YYYY-MM-DD` is not modelled, so the
 * window is stated in day numbers.
 */
module Dates {

  const WeeklyTitle: string := "\U{1F4C5} Relat\U{F3}rio Semanal PMO"
  const MorningTitle: string := "\U{2600}\U{FE0F} Dashboard Di\U{E1}rio PMO - Manh\U{E3}"
  const AfternoonTitle: string := "\U{1F306} Dashboard Di\U{E1}rio PMO - Tarde"

  /** First and last day of the window, and the report's title. */
  datatype DateRange = DateRange(start: int, end: int, title: string)

  /**
   * `weekly` covers the seven days before today and today; every other mode
   * is the daily report of today alone, titled for the morning or afternoon.
   */
  function GetDateRange(mode: string, today: int, hour: nat): (r: DateRange)
    requires hour < 24
    ensures mode == "weekly" ==> r.start == today - 7 && r.end == today && r.title == WeeklyTitle
    ensures mode != "weekly" ==> r.start == today && r.end == today
    ensures mode != "weekly" && hour < 12 ==> r.title == MorningTitle
    ensures mode != "weekly" && hour >= 12 ==> r.title == AfternoonTitle
  {
    if mode == "weekly" then
      DateRange(today - 7, today, WeeklyTitle)
    else if hour < 12 then
      DateRange(today, today, MorningTitle)
    else
      DateRange(today, today, AfternoonTitle)
  }

  /** The window always ends today and never starts after it ends. */
  lemma WindowEndsToday(mode: string, today: int, hour: nat)
    requires hour < 24
    ensures GetDateRange(mode, today, hour).end == today
    ensures GetDateRange(mode, today, hour).start <= today
    ensures today - GetDateRange(mode, today, hour).start == (if mode == "weekly" then 7 else 0)
  {
  }

  /** The weekly report does not depend on the hour it runs at. */
  lemma WeeklyIgnoresHour(today: int, h1: nat, h2: nat)
    requires h1 < 24 && h2 < 24
    ensures GetDateRange("weekly", today, h1) == GetDateRange("weekly", today, h2)
  {
  }

  /** The daily title changes exactly between hour 11 and hour 12. */
  lemma DailyTitleSwitchesAtNoon(mode: string, today: int, hour: nat)
    requires hour < 24 && mode != "weekly"
    ensures GetDateRange(mode, today, hour).title == MorningTitle <==> hour < 12
    ensures GetDateRange(mode, today, hour).title == AfternoonTitle <==> hour >= 12
  {
  }

  /** The three titles are distinct, so the title tells which report it is. */
  lemma TitlesDistinct()
    ensures WeeklyTitle != MorningTitle && WeeklyTitle != AfternoonTitle && MorningTitle != AfternoonTitle
  {
    assert WeeklyTitle[0] != MorningTitle[0];
    assert WeeklyTitle[0] != AfternoonTitle[0];
    assert MorningTitle[0] != AfternoonTitle[0];
  }
}
