# PMO report generator — Dafny model

A model of `pmo_report_generator.py`, a script that reads the issues of a Jira
site updated in a daily or weekly window and posts a summary to a Slack
webhook. The model covers everything in the script that computes rather than
talks to the outside world:

- **Mode selection** (`CommandLine`): the mode is the argument after a leading
  `--mode` flag, `daily` otherwise.
- **Date window** (`Dates`): `weekly` covers today − 7 to today; any other
  mode is today alone, titled for the morning before 12:00 and for the
  afternoon from 12:00 on. Days are day numbers; the hour is a parameter.
- **Search** (`Jira`): the JQL expression for the window and the search
  request's fixed URL, result limit and field list, with a parser that reads
  the two dates back out of the expression.
- **Status tally** (`StatusTally`): the loop that counts issues per status in a
  dictionary whose keys keep first-seen order, modelled as an ordered
  dictionary (`keys` plus `counts`) and proved against a specifying function.
- **Slack message** (`Slack`): the block list: a header with the title, the
  period and total, a divider, the per-status summary with its emoji table,
  then a divider, a heading and one section per issue among the first five,
  each with its browse link and its assignee or the `Não atribuído`
  placeholder. The three loops of the source (tally, summary text, listing)
  are methods with loop invariants, each proved equal to a specifying function.
- **A run** (`Report`): `main`'s sequence from arguments to message, with the
  search outcome as a parameter (a failed search counts as no issues).
- **Decimal numerals** (`Decimal`): Python's `str` of a count, with a parser
  that reads it back.

Non-ASCII text (emoji, accented Portuguese) is written with `\U{…}` escapes
holding the same code points as the script's literals.

## Model

| member | source | states |
|---|---|---|
| CommandLine.SelectMode | pmo_report_generator.py:174-177 | the mode is `argv[2]` exactly when `argv[1] == '--mode'` and there are more than two arguments; otherwise `daily` |
| CommandLine.WeeklyOnlyWhenAsked | pmo_report_generator.py:174-182 | a run covers the weekly window if and only if it was invoked with `--mode weekly`; missing, misplaced or unknown modes give the daily window |
| Dates.GetDateRange | pmo_report_generator.py:23-41 | `weekly` gives start today − 7, end today, the weekly title; every other mode gives start = end = today with the morning title for hour < 12 and the afternoon title otherwise |
| Dates.WindowEndsToday | pmo_report_generator.py:27-35 | the window always ends today, starts no later, and spans 7 days for `weekly` and 0 otherwise |
| Dates.WeeklyIgnoresHour | pmo_report_generator.py:27-31 | the weekly window and title do not depend on the hour |
| Dates.DailyTitleSwitchesAtNoon | pmo_report_generator.py:36-41 | for a daily run the title is the morning one if and only if hour < 12, the afternoon one if and only if hour >= 12 |
| Dates.TitlesDistinct | pmo_report_generator.py:31-41 | the weekly, morning and afternoon titles are pairwise different |
| Jira.Jql | pmo_report_generator.py:55 | the search text: `updated >= "start" AND updated <= "end" ORDER BY updated DESC`, the dates spliced in verbatim; its meaning is pinned by the parser round trip in both directions below |
| Jira.JqlRoundTrip | pmo_report_generator.py:55 | the JQL expression carries both dates: parsing it gives back start and end when they hold no double quote |
| Jira.ParseJqlSound | pmo_report_generator.py:55 | whatever the JQL parser accepts is exactly the expression built from the two dates it returns |
| Jira.SearchFor | pmo_report_generator.py:57-64 | the search goes to the REST `/search` URL with at most 100 results, the fixed field list, and a JQL expression for exactly the given dates |
| Jira.IssueUrl | pmo_report_generator.py:141 | an issue's link is the browse prefix of the site followed by the key, and nothing else |
| Jira.UrlKeyOfIssueUrl | pmo_report_generator.py:141 | every browse link reads back as the key it was built from |
| Jira.UrlKeyOnlyOfIssueUrls | pmo_report_generator.py:141 | a URL reads as a key exactly when it is that key's browse link, so distinct keys get distinct links |
| StatusTally.Statuses | pmo_report_generator.py:76-77 | the status name of each issue, position by position |
| StatusTally.Bump | pmo_report_generator.py:76-78 | one pass of the tally loop: the status's entry goes up by one, created at zero and appended to the keys when new; no other entry changes |
| StatusTally.TallyOf | pmo_report_generator.py:75-78 | the dictionary the loop leaves after the statuses in order, the specification `CountStatuses` is proved against; its meaning is given by the tally lemmas below |
| StatusTally.TallyValid | pmo_report_generator.py:75-78 | the tally has no duplicate key, its keys are exactly the statuses that occur, and it is empty exactly when there are no issues |
| StatusTally.CountStatuses | pmo_report_generator.py:75-78 | the dictionary-updating loop leaves exactly the tally of the issues' statuses, a well-formed ordered dictionary |
| StatusTally.TallyCounts | pmo_report_generator.py:75-78 | each status's count is the number of issues carrying that status |
| StatusTally.TallyOrder | pmo_report_generator.py:75-78 | the keys are in the order in which each status first occurs among the issues |
| StatusTally.TallyTotal | pmo_report_generator.py:75-78 | the counts add up to the number of issues |
| StatusTally.TallyOrderStep | pmo_report_generator.py:76-78 | handling one more issue keeps the keys in first-seen order, whether its status is new or already counted |
| StatusTally.FirstIndex | pmo_report_generator.py:78 | the position of a status's first occurrence: it is there and not before |
| Slack.StatusEmoji | pmo_report_generator.py:105-110 | the four known statuses get their emoji from the table; every other status gets the pin |
| Slack.StatusEmojiDistinguishesKnown | pmo_report_generator.py:105-110 | a status gets the pin if and only if it is not one of the four known ones, and known statuses never share an emoji |
| Slack.AssigneeName | pmo_report_generator.py:138-139 | an issue without assignee shows `Não atribuído`; one with an assignee shows the assignee's display name |
| Slack.PeriodText | pmo_report_generator.py:93 | the period section's text: period label, start date, `até`, end date, total label and the count in decimal |
| Slack.PeriodTextReports | pmo_report_generator.py:93 | the period section shows the start and end dates, and the number at its end reads back as the number of issues |
| Slack.StatusLine | pmo_report_generator.py:111 | one summary line: the status's emoji, a space, the status, `: `, its count in decimal, and a newline |
| Slack.SummaryLines | pmo_report_generator.py:104-111 | one line per tally key, the i-th being the emoji, name and count of the i-th key |
| Slack.JoinAppend | pmo_report_generator.py:111 | joining two runs of lines gives the first run's text followed by the second's |
| Slack.SummaryInKeyOrder | pmo_report_generator.py:103-111 | in the summary, the line of the i-th status comes right after the heading and the lines of the statuses before it in the tally, and before those after it |
| Slack.StatusSummary | pmo_report_generator.py:103-111 | the summary section's text: the `*Resumo por Status:*` heading followed by the joined status lines of the tally, in key order |
| Slack.BuildStatusSummary | pmo_report_generator.py:103-111 | the `+=` loop yields the heading followed by one emoji, status and count line per tally entry in key order |
| Slack.IssueText | pmo_report_generator.py:135-147 | an issue's section text: the bold browse link labelled with the key, ` - `, the summary, then a line with the status and the assignee |
| Slack.IssueTextLinksIssue | pmo_report_generator.py:135-147 | an issue's section opens with its browse link, which reads back as its key, shows its summary and status name, and ends with its assignee name or the placeholder |
| Slack.SummaryBlocks | pmo_report_generator.py:102-119 | the status summary section, present exactly when the tally has an entry, holding the summary text |
| Slack.ListingBlocks | pmo_report_generator.py:122-149 | when there are issues, a divider, the listing heading and the listing; nothing otherwise |
| Slack.Listing | pmo_report_generator.py:134-149 | the listing has min(5, n) sections, the i-th built from the i-th issue |
| Slack.AppendListing | pmo_report_generator.py:134-149 | the append loop adds exactly the listing's sections, in order, after the blocks already there |
| Slack.SlackBlocks | pmo_report_generator.py:71-151 | the specification of the whole message: the opening blocks, the summary section when the tally is non-empty, and the divider, heading and listing when there are issues |
| Slack.FormatSlackMessage | pmo_report_generator.py:71-151 | the whole builder yields exactly `SlackBlocks`: the opening blocks, then the summary section if the tally is non-empty, then the divider, heading and listing if there are issues |
| Slack.OpeningBlocks | pmo_report_generator.py:81-99 | the title header, the period and total section, and a divider |
| Slack.MessageOpening | pmo_report_generator.py:81-99 | every message opens with the title header, the period and total section, and a divider |
| Slack.EmptyReport | pmo_report_generator.py:102-122 | with no issues the message is those three blocks alone: no summary, no listing |
| Slack.NonEmptyReport | pmo_report_generator.py:102-149 | with issues the message has 3 + 1 + 2 + min(5, n) blocks: the opening, the status summary, a divider, the heading, then the listing |
| Slack.ListingIgnoresUnlisted | pmo_report_generator.py:134 | issues after the fifth never change the listing part of the message |
| Decimal.NatToString | pmo_report_generator.py:93 | a count is rendered as one or more digits with no leading zero |
| Decimal.ParseNatToString | pmo_report_generator.py:93 | reading a rendered count back gives the count |
| Decimal.NatToStringInjective | pmo_report_generator.py:111 | distinct counts render differently |
| Report.IssuesFound | pmo_report_generator.py:63-69 | the issues are those the search returned, or none when it failed |
| Report.RunReport | pmo_report_generator.py:174-192 | a run sends exactly the search request for the selected mode's window (REST `/search` URL, 100 results, fixed field list, JQL parsing back to the two dates) and builds the message for the issues found under that window's title and dates |
| Report.FailedSearchStillReports | pmo_report_generator.py:63-69 | a failed search still yields a message: the opening blocks with a total of zero |

## Left out

- The HTTP requests (the Jira search, the Slack webhook POST) and their error
  handling are network I/O; the search outcome is a parameter of
  `Report.RunReport` and the webhook post is not modelled.
- Reading the environment, the missing-configuration check and `sys.exit(1)`
  are process plumbing.
- The request headers (the Base64 `Authorization` header and `Content-Type`)
  are not part of the search request model.
- `datetime.now()` and `strftime('%Y-%m-%d')`: today is a day number and the
  hour a parameter; rendering a day as text is the `formatDate` parameter of
  `Report.RunReport`, assumed never to contain a double quote (true of
  `YYYY-MM-DD`).
- Decoding the JSON response: issues arrive as typed records. An issue's
  assignee is `Some(displayName)` or `None`; an assignee object that Python
  would find falsy (an empty dictionary) is not represented.
- `print` logging.
- Email: formatting a report as an email body and sending it over SMTP are not
  part of this script, so they are not part of this model.
- A search that returns more than 100 issues: the tracker's paging is not
  followed by the script, and the model takes whatever list the search gave.
- Slack.AssigneeName: renders the display name verbatim, so an assignee whose
  display name is empty shows an empty name, as the script does; only a
  missing assignee gets the placeholder.
- How the tracker evaluates the search expression: `Jira.Jql` is modelled as
  the text the script sends. The tracker reads a date with no time as midnight
  at the start of that day, so `updated <= "end"` stops at 00:00 of the end
  date, and the daily search (start equal to end) covers only that instant.
  The model states which text is sent, not which issues it selects.
- The JSON encoding of the blocks (`type`, `plain_text`, `mrkdwn` fields) is
  represented by the `Header`/`Section`/`Divider` constructors.
