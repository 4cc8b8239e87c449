/**
 * One run of the report: choose the mode from the arguments, resolve the
 * window, search the tracker and build the Slack message. The search itself
 * and the webhook post are outside the model: the search's outcome comes in
 * as `searchResult`, `None` when the request failed.
 */
module Report {
  import opened Wrappers
  import opened Jira
  import opened Dates
  import opened CommandLine
  import opened Slack

  /** The issues a run reports on: those the search returned, or none when it failed. */
  function IssuesFound(searchResult: Option<seq<Issue>>): (issues: seq<Issue>)
    ensures searchResult.None? ==> issues == []
    ensures searchResult.Some? ==> issues == searchResult.value
  {
    match searchResult
    case Some(found) => found
    case None => []
  }

  /**
   * The steps of a run. `formatDate` renders a day number as the run's date
   * text; the request asks for exactly the window of the chosen mode, and the
   * message is the one built for the issues found in that window.
   */
  method RunReport(argv: seq<string>, today: int, hour: nat, formatDate: int -> string,
                   searchResult: Option<seq<Issue>>)
    returns (request: SearchRequest, message: SlackMessage)
    requires hour < 24
    requires forall day :: '"' !in formatDate(day)
    ensures var r := GetDateRange(SelectMode(argv), today, hour);
      request == SearchFor(formatDate(r.start), formatDate(r.end))
      && ParseJql(request.jql) == Some((formatDate(r.start), formatDate(r.end)))
      && message.blocks == SlackBlocks(IssuesFound(searchResult), r.title, formatDate(r.start), formatDate(r.end))
  {
    var mode := SelectMode(argv);
    var range := GetDateRange(mode, today, hour);
    var startDate, endDate := formatDate(range.start), formatDate(range.end);
    request := SearchFor(startDate, endDate);
    var issues := IssuesFound(searchResult);
    message := FormatSlackMessage(issues, range.title, startDate, endDate);
  }

  /** A failed search still produces a message: the opening blocks with a total of zero. */
  lemma FailedSearchStillReports(title: string, startDate: string, endDate: string)
    ensures SlackBlocks(IssuesFound(None), title, startDate, endDate)
         == [Header(title), Section(PeriodText(startDate, endDate, 0)), Divider]
  {
    EmptyReport(title, startDate, endDate);
  }
}
