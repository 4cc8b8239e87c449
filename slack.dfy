/**
 * The Slack message of a report: a list of blocks holding a header with the
 * title, the period and total, a per-status summary and the first five
 * issues, each linked to the tracker.
 */
module Slack {
  import opened Wrappers
  import opened Decimal
  import opened Jira
  import opened StatusTally

  /** A Slack layout block: a plain-text header, a markdown section, or a divider. */
  datatype Block = Header(text: string) | Section(text: string) | Divider

  /** The payload posted to the webhook: `{'blocks': blocks}`. */
  datatype SlackMessage = SlackMessage(blocks: seq<Block>)

  /** How many issues the message lists at most. */
  const ListedIssues: nat := 5

  const Unassigned: string := "N\U{E3}o atribu\U{ED}do"
  const DefaultEmoji: string := "\U{1F4CC}"
  const SummaryHeading: string := "*Resumo por Status:*\n"
  const ListingHeading: string := "*\U{DA}ltimas issues atualizadas:*"
  const PeriodOpen: string := "*Per\U{ED}odo:* "
  const PeriodUntil: string := " at\U{E9} "
  const TotalLabel: string := "\n*Total de issues atualizadas:* "

  /** The emoji of the four statuses the report knows. */
  const StatusEmojis: map<string, string> := map[
    "To Do" := "\U{1F4C4}",
    "In Progress" := "\U{1F6E0}\U{FE0F}",
    "Done" := "\U{2705}",
    "Blocked" := "\U{1F6AB}"
  ]

  function Min(a: nat, b: nat): nat {
    if a < b then a else b
  }

  // ---------------------------------------------------------------------------
  // Texts

  /** The emoji shown before a status: its own for a known status, the pin otherwise. */
  function StatusEmoji(status: string): (e: string)
    ensures status in StatusEmojis ==> e == StatusEmojis[status]
    ensures status !in StatusEmojis ==> e == DefaultEmoji
  {
    if status in StatusEmojis then StatusEmojis[status] else DefaultEmoji
  }

  /** Only an unknown status gets the pin, and no two known statuses share an emoji. */
  lemma StatusEmojiDistinguishesKnown(s1: string, s2: string)
    ensures StatusEmoji(s1) == DefaultEmoji <==> s1 !in StatusEmojis
    ensures s1 in StatusEmojis && s2 in StatusEmojis && StatusEmoji(s1) == StatusEmoji(s2) ==> s1 == s2
  {
    assert StatusEmojis["To Do"][0] == '\U{1F4C4}';
    assert StatusEmojis["In Progress"][0] == '\U{1F6E0}';
    assert StatusEmojis["Done"][0] == '\U{2705}';
    assert StatusEmojis["Blocked"][0] == '\U{1F6AB}';
    assert DefaultEmoji[0] == '\U{1F4CC}';
  }

  /** The name shown for an issue's assignee, or the placeholder when it has none. */
  function AssigneeName(issue: Issue): (name: string)
    ensures issue.assignee.None? ==> name == Unassigned
    ensures issue.assignee.Some? ==> name == issue.assignee.value
  {
    match issue.assignee
    case Some(displayName) => displayName
    case None => Unassigned
  }

  /** Text of the second block: the period and how many issues were found. */
  function PeriodText(startDate: string, endDate: string, total: nat): string {
    PeriodOpen + startDate + PeriodUntil + endDate + TotalLabel + NatToString(total)
  }

  ghost predicate Contains(text: string, part: string) {
    exists i :: 0 <= i <= |text| && part <= text[i..]
  }

  /** The period text shows both dates, and the number at its end reads back as the total. */
  lemma PeriodTextReports(startDate: string, endDate: string, total: nat)
    ensures Contains(PeriodText(startDate, endDate, total), startDate)
    ensures Contains(PeriodText(startDate, endDate, total), endDate)
    ensures ParseDecimal(TrailingDigits(PeriodText(startDate, endDate, total))) == total
  {
    var head := PeriodOpen + startDate + PeriodUntil + endDate + TotalLabel;
    var t := PeriodText(startDate, endDate, total);
    assert t == head + NatToString(total);
    var i := |PeriodOpen|;
    assert startDate <= t[i..];
    var j := |PeriodOpen| + |startDate| + |PeriodUntil|;
    assert endDate <= t[j..];
    assert head[|head| - 1] == ' ';
    TrailingDigitsAfter(head, NatToString(total));
    ParseNatToString(total);
  }

  /** `part` occurs in `a + part + b`. */
  lemma ContainsMiddle(a: string, part: string, b: string)
    ensures Contains(a + part + b, part)
  {
    assert part <= (a + part + b)[|a|..];
  }

  /** Text added at the end keeps every part that already occurs. */
  lemma ContainsExtend(text: string, part: string, more: string)
    requires Contains(text, part)
    ensures Contains(text + more, part)
  {
    var i :| 0 <= i <= |text| && part <= text[i..];
    assert part <= (text + more)[i..];
  }

  /** A prefix of `text` stays a prefix when more text is added. */
  lemma PrefixExtend(prefix: string, text: string, more: string)
    requires prefix <= text
    ensures prefix <= text + more
  {
  }

  /** Text opening with `*<` and a URL holds that URL at positions 2 onwards. */
  lemma LinkAt(url: string, text: string)
    requires "*<" + url <= text
    ensures |text| >= 2 + |url| && text[2..2 + |url|] == url
  {
    assert text[2..2 + |url|] == ("*<" + url)[2..];
  }

  /** `last` is what remains at the end of `text + last`. */
  lemma EndsWith(text: string, last: string)
    ensures (text + last)[|text + last| - |last|..] == last
  {
  }

  /** One line of the status summary: emoji, status and its count. */
  function StatusLine(status: string, count: nat): string {
    StatusEmoji(status) + " " + status + ": " + NatToString(count) + "\n"
  }

  /** The lines `lines` written one after another. */
  function Join(lines: seq<string>): string {
    if lines == [] then [] else Join(lines[..|lines| - 1]) + lines[|lines| - 1]
  }

  lemma {:induction false} JoinAppend(a: seq<string>, b: seq<string>)
    ensures Join(a + b) == Join(a) + Join(b)
  {
    if b == [] {
      assert a + b == a;
    } else {
      var n := |b| - 1;
      var ab := a + b;
      assert ab[..|ab| - 1] == a + b[..n] && ab[|ab| - 1] == b[n];
      JoinAppend(a, b[..n]);
    }
  }

  /** Joining one more line appends it. */
  lemma JoinNext(lines: seq<string>, i: nat)
    requires i < |lines|
    ensures Join(lines[..i + 1]) == Join(lines[..i]) + lines[i]
  {
    assert lines[..i + 1][..i] == lines[..i];
  }

  /** The summary lines, one per tally key, in key order. */
  function SummaryLines(t: StatusCounts): (lines: seq<string>)
    requires t.Valid()
    ensures |lines| == |t.keys|
    ensures forall i :: 0 <= i < |t.keys| ==> lines[i] == StatusLine(t.keys[i], t.counts[t.keys[i]])
  {
    seq(|t.keys|, i requires 0 <= i < |t.keys| => StatusLine(t.keys[i], t.counts[t.keys[i]]))
  }

  /** Text of the status summary section. */
  function StatusSummary(t: StatusCounts): string
    requires t.Valid()
  {
    SummaryHeading + Join(SummaryLines(t))
  }

  lemma AppendAssoc(a: string, b: string, c: string)
    ensures a + b + c == a + (b + c)
  {
  }

  /** Line `i` sits between the lines before it and the lines after it. */
  lemma JoinAround(lines: seq<string>, i: nat)
    requires i < |lines|
    ensures Join(lines) == Join(lines[..i]) + lines[i] + Join(lines[i + 1..])
  {
    assert lines == lines[..i + 1] + lines[i + 1..];
    JoinAppend(lines[..i + 1], lines[i + 1..]);
    JoinNext(lines, i);
  }

  /**
   * The summary lists the statuses in the tally's key order: after the
   * heading, the line of the i-th key comes right after the lines of the keys
   * before it and right before the lines of the keys after it.
   */
  lemma SummaryInKeyOrder(t: StatusCounts, i: nat)
    requires t.Valid() && i < |t.keys|
    ensures StatusSummary(t) == SummaryHeading + (
      Join(SummaryLines(t)[..i])
      + StatusLine(t.keys[i], t.counts[t.keys[i]])
      + Join(SummaryLines(t)[i + 1..]))
  {
    JoinAround(SummaryLines(t), i);
  }

  /** The summary loop: the heading, then one `+=` per tally entry in key order. */
  method BuildStatusSummary(t: StatusCounts) returns (statusText: string)
    requires t.Valid()
    ensures statusText == StatusSummary(t)
  {
    ghost var lines := SummaryLines(t);
    statusText := SummaryHeading;
    for i := 0 to |t.keys|
      invariant statusText == SummaryHeading + Join(lines[..i])
    {
      var status := t.keys[i];
      AppendAssoc(SummaryHeading, Join(lines[..i]), lines[i]);
      statusText := statusText + StatusLine(status, t.counts[status]);
      JoinNext(lines, i);
    }
    assert lines[..|t.keys|] == lines;
  }

  /** Text of an issue's section: its linked key, summary, status and assignee. */
  function IssueText(issue: Issue): string {
    "*<" + IssueUrl(issue.key) + "|" + issue.key + ">* - " + issue.summary
    + "\n*Status:* " + issue.statusName + " | *Respons\U{E1}vel:* " + AssigneeName(issue)
  }

  /**
   * An issue's section opens with the link to that issue, shows its summary
   * and status name, and closes with its assignee.
   */
  lemma IssueTextLinksIssue(issue: Issue)
    ensures var text, url := IssueText(issue), IssueUrl(issue.key);
      |text| >= 2 + |url| && text[2..2 + |url|] == url
      && UrlKey(text[2..2 + |url|]) == Some(issue.key)
      && text[|text| - |AssigneeName(issue)|..] == AssigneeName(issue)
      && Contains(text, issue.summary) && Contains(text, issue.statusName)
  {
    var url, name := IssueUrl(issue.key), AssigneeName(issue);
    var opening := "*<" + url;
    var linked := opening + "|" + issue.key + ">* - ";
    var status, responsible := "\n*Status:* ", " | *Respons\U{E1}vel:* ";
    var body := linked + issue.summary + status + issue.statusName + responsible;
    assert IssueText(issue) == body + name;
    PrefixExtend(opening, opening, "|");
    PrefixExtend(opening, opening + "|", issue.key);
    PrefixExtend(opening, opening + "|" + issue.key, ">* - ");
    PrefixExtend(opening, linked, issue.summary);
    PrefixExtend(opening, linked + issue.summary, status);
    PrefixExtend(opening, linked + issue.summary + status, issue.statusName);
    PrefixExtend(opening, linked + issue.summary + status + issue.statusName, responsible);
    PrefixExtend(opening, body, name);
    LinkAt(url, body + name);
    UrlKeyOfIssueUrl(issue.key);
    EndsWith(body, name);
    ContainsMiddle(linked, issue.summary, status);
    ContainsExtend(linked + issue.summary + status, issue.summary, issue.statusName);
    ContainsExtend(linked + issue.summary + status + issue.statusName, issue.summary, responsible);
    ContainsMiddle(linked + issue.summary + status, issue.statusName, responsible);
    ContainsExtend(body, issue.summary, name);
    ContainsExtend(body, issue.statusName, name);
  }

  // ---------------------------------------------------------------------------
  // Blocks

  /** The three blocks every message opens with. */
  function OpeningBlocks(title: string, startDate: string, endDate: string, total: nat): seq<Block> {
    [Header(title), Section(PeriodText(startDate, endDate, total)), Divider]
  }

  /** The sections for the first `ListedIssues` issues, in order. */
  function Listing(issues: seq<Issue>): (r: seq<Block>)
    ensures |r| == Min(ListedIssues, |issues|)
    ensures forall i :: 0 <= i < |r| ==> r[i] == Section(IssueText(issues[i]))
  {
    var n := Min(ListedIssues, |issues|);
    seq(n, i requires 0 <= i < n => Section(IssueText(issues[i])))
  }

  /** The status summary section, present when the tally has an entry. */
  function SummaryBlocks(issues: seq<Issue>): seq<Block> {
    var statusCount := TallyOf(Statuses(issues));
    TallyValid(Statuses(issues));
    if statusCount.keys != [] then [Section(StatusSummary(statusCount))] else []
  }

  /** The listing part, present when there are issues. */
  function ListingBlocks(issues: seq<Issue>): seq<Block> {
    if issues != [] then [Divider, Section(ListingHeading)] + Listing(issues) else []
  }

  /** The blocks of the message for `issues` found between the two dates. */
  function SlackBlocks(issues: seq<Issue>, title: string, startDate: string, endDate: string): seq<Block> {
    OpeningBlocks(title, startDate, endDate, |issues|) + SummaryBlocks(issues) + ListingBlocks(issues)
  }

  /**
   * Builds the message: the tally loop, the opening blocks, the summary if
   * the tally is not empty, and, if there are issues, a divider, the listing
   * heading and one appended section per issue among the first five.
   */
  method FormatSlackMessage(issues: seq<Issue>, title: string, startDate: string, endDate: string)
    returns (message: SlackMessage)
    ensures message.blocks == SlackBlocks(issues, title, startDate, endDate)
  {
    var statusCount := CountStatuses(issues);
    var blocks := [Header(title), Section(PeriodText(startDate, endDate, |issues|)), Divider];
    if statusCount.keys != [] {
      var statusText := BuildStatusSummary(statusCount);
      blocks := blocks + [Section(statusText)];
    }
    assert blocks == OpeningBlocks(title, startDate, endDate, |issues|) + SummaryBlocks(issues);
    ghost var summarized := blocks;
    if issues != [] {
      blocks := blocks + [Divider];
      blocks := blocks + [Section(ListingHeading)];
      blocks := AppendListing(blocks, issues);
      AppendParts(summarized, Divider, Section(ListingHeading), Listing(issues));
    } else {
      assert blocks == summarized + [];
    }
    message := SlackMessage(blocks);
  }

  lemma AppendParts(front: seq<Block>, a: Block, b: Block, rest: seq<Block>)
    ensures front + [a] + [b] + rest == front + ([a, b] + rest)
  {
  }

  /** The listing loop: one section appended per issue among the first five. */
  method AppendListing(blocks: seq<Block>, issues: seq<Issue>) returns (extended: seq<Block>)
    ensures extended == blocks + Listing(issues)
  {
    extended := blocks;
    ghost var listing := Listing(issues);
    for i := 0 to Min(ListedIssues, |issues|)
      invariant extended == blocks + listing[..i]
    {
      extended := extended + [Section(IssueText(issues[i]))];
      ExtendByNext(blocks, listing, i);
    }
    assert listing[..|listing|] == listing;
  }

  lemma ExtendByNext(done: seq<Block>, all: seq<Block>, i: nat)
    requires i < |all|
    ensures done + all[..i] + [all[i]] == done + all[..i + 1]
  {
    assert all[..i + 1] == all[..i] + [all[i]];
  }

  // ---------------------------------------------------------------------------
  // What the message promises

  /** Every message opens with the title, the period and total, and a divider. */
  lemma MessageOpening(issues: seq<Issue>, title: string, startDate: string, endDate: string)
    ensures var b := SlackBlocks(issues, title, startDate, endDate);
      |b| >= 3 && b[0] == Header(title)
      && b[1] == Section(PeriodText(startDate, endDate, |issues|)) && b[2] == Divider
  {
  }

  /** With no issues the message is the opening alone: no summary and no listing. */
  lemma EmptyReport(title: string, startDate: string, endDate: string)
    ensures SlackBlocks([], title, startDate, endDate) == OpeningBlocks(title, startDate, endDate, 0)
  {
  }

  /**
   * With issues, the message is the opening, the status summary, a divider,
   * the listing heading and a section for each of the first five issues in
   * their order.
   */
  lemma NonEmptyReport(issues: seq<Issue>, title: string, startDate: string, endDate: string)
    requires issues != []
    ensures var b := SlackBlocks(issues, title, startDate, endDate);
      |b| == 3 + 1 + 2 + Min(ListedIssues, |issues|)
      && TallyOf(Statuses(issues)).Valid()
      && b[3] == Section(StatusSummary(TallyOf(Statuses(issues))))
      && b[4] == Divider && b[5] == Section(ListingHeading)
      && b[6..] == Listing(issues)
  {
    var statusCount := TallyOf(Statuses(issues));
    var opening := OpeningBlocks(title, startDate, endDate, |issues|);
    TallyValid(Statuses(issues));
    LayoutAt(opening, Section(StatusSummary(statusCount)), Listing(issues));
  }

  /** Where each part lands in `opening + [summary] + [Divider, heading] + listing`. */
  lemma LayoutAt(opening: seq<Block>, summary: Block, listing: seq<Block>)
    requires |opening| == 3
    ensures var b := opening + [summary] + ([Divider, Section(ListingHeading)] + listing);
      |b| == 6 + |listing| && b[..3] == opening && b[3] == summary
      && b[4] == Divider && b[5] == Section(ListingHeading) && b[6..] == listing
  {
    var b := opening + [summary] + ([Divider, Section(ListingHeading)] + listing);
    assert b[..3] == opening;
    assert b[6..] == listing;
  }

  /** Issues after the fifth never change the listing part of the message. */
  lemma ListingIgnoresUnlisted(issues: seq<Issue>, more: seq<Issue>)
    requires |issues| >= ListedIssues
    ensures ListingBlocks(issues + more) == ListingBlocks(issues)
  {
    var longer, shorter := Listing(issues + more), Listing(issues);
    assert |longer| == |shorter| == ListedIssues;
    forall i | 0 <= i < ListedIssues
      ensures longer[i] == shorter[i]
    {
      assert (issues + more)[i] == issues[i];
    }
    assert longer == shorter;
  }
}
