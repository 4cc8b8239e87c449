/**
 * What the report needs from the issue tracker: the decoded issue record, the
 * browse link of an issue, and the search expression sent for a date window.
 */
module Jira {
  import opened Wrappers

  /** The tracker's site; the browse and REST URLs are built on it. */
  const JiraDomain: string := "ybymartech.atlassian.net"

  /** Base of the REST API the search request goes to. */
  const JiraApiUrl: string := "https://" + JiraDomain + "/rest/api/3"

  /** Most issues asked for in one search. */
  const MaxResults: nat := 100

  /** The issue fields the search asks the tracker to return. */
  const SearchFields: string := "summary,status,assignee,priority,created,updated"

  /**
   * An issue as the search response decodes it: its key, its summary, the
   * name of its status, and the display name of its assignee if it has one.
   */
  datatype Issue = Issue(key: string, summary: string, statusName: string, assignee: Option<string>)

  const BrowsePrefix: string := "https://" + JiraDomain + "/browse/"

  /** The link that opens an issue in the tracker's web interface. */
  function IssueUrl(key: string): (url: string)
    ensures |url| == |BrowsePrefix| + |key|
    ensures url[..|BrowsePrefix|] == BrowsePrefix && url[|BrowsePrefix|..] == key
  {
    BrowsePrefix + key
  }

  /** The key a browse link points at, if it is one. */
  function UrlKey(url: string): Option<string> {
    if |BrowsePrefix| <= |url| && url[..|BrowsePrefix|] == BrowsePrefix
    then Some(url[|BrowsePrefix|..])
    else None
  }

  /** Every browse link leads back to the issue it was built for. */
  lemma UrlKeyOfIssueUrl(key: string)
    ensures UrlKey(IssueUrl(key)) == Some(key)
  {
  }

  /** Exactly the browse links are read as keys, each of its own key. */
  lemma UrlKeyOnlyOfIssueUrls(url: string, key: string)
    ensures UrlKey(url) == Some(key) <==> url == IssueUrl(key)
  {
    if UrlKey(url) == Some(key) {
      assert url == url[..|BrowsePrefix|] + url[|BrowsePrefix|..];
    }
  }

  // ---------------------------------------------------------------------------
  // The search expression

  const JqlOpen: string := "updated >= \""
  const JqlMiddle: string := "\" AND updated <= \""
  const JqlClose: string := "\" ORDER BY updated DESC"

  /**
   * Issues whose `updated` field compares at or after `startDate` and at or
   * before `endDate`, most recently updated first. The tracker reads a date
   * without a time as midnight at the start of that day.
   */
  function Jql(startDate: string, endDate: string): string {
    JqlOpen + startDate + JqlMiddle + endDate + JqlClose
  }

  /** Position of the first double quote in `s`, if any. */
  function QuoteIndex(s: string): (r: Option<nat>)
    ensures r.Some? ==> r.value < |s| && s[r.value] == '"' && '"' !in s[..r.value]
    ensures r.None? ==> '"' !in s
  {
    if s == [] then None
    else if s[0] == '"' then Some(0)
    else match QuoteIndex(s[1..])
      case None => None
      case Some(i) => assert s[..i + 1] == [s[0]] + s[1..][..i]; Some(i + 1)
  }

  /** The first quote of `a + b` is the first quote of `b` when `a` has none. */
  lemma {:induction false} QuoteIndexAfter(a: string, b: string)
    requires '"' !in a
    ensures QuoteIndex(a + b) == match QuoteIndex(b) case None => None case Some(i) => Some(|a| + i)
  {
    if a == [] {
      assert a + b == b;
    } else {
      assert (a + b)[1..] == a[1..] + b;
      QuoteIndexAfter(a[1..], b);
    }
  }

  lemma SplitAt(p: string, x: string)
    ensures (p + x)[..|p|] == p && (p + x)[|p|..] == x
  {
  }

  /** `s` splits as `p` followed by the rest. */
  predicate StartsWith(s: string, p: string) {
    |p| <= |s| && s[..|p|] == p
  }

  /**
   * Reads a search expression of the shape `Jql` builds back into its two
   * dates; each date is the text up to the next double quote.
   */
  function ParseJql(q: string): Option<(string, string)> {
    if !StartsWith(q, JqlOpen) then None
    else
      var rest := q[|JqlOpen|..];
      match QuoteIndex(rest)
      case None => None
      case Some(i) =>
        match ParseAfterStart(rest[i..])
        case None => None
        case Some(endDate) => Some((rest[..i], endDate))
  }

  /** Reads the middle of the expression and the end date, after the start date. */
  function ParseAfterStart(s: string): Option<string> {
    if !StartsWith(s, JqlMiddle) then None
    else
      var tail := s[|JqlMiddle|..];
      match QuoteIndex(tail)
      case None => None
      case Some(j) => if tail[j..] == JqlClose then Some(tail[..j]) else None
  }

  lemma ParseAfterStartOf(endDate: string)
    requires '"' !in endDate
    ensures ParseAfterStart(JqlMiddle + endDate + JqlClose) == Some(endDate)
  {
    var tail := endDate + JqlClose;
    assert JqlMiddle + endDate + JqlClose == JqlMiddle + tail;
    SplitAt(JqlMiddle, tail);
    assert QuoteIndex(JqlClose) == Some(0);
    QuoteIndexAfter(endDate, JqlClose);
    SplitAt(endDate, JqlClose);
  }

  lemma ParseAfterStartSound(s: string, endDate: string)
    requires ParseAfterStart(s) == Some(endDate)
    ensures s == JqlMiddle + endDate + JqlClose && '"' !in endDate
  {
    var tail := s[|JqlMiddle|..];
    Rejoin(s, |JqlMiddle|);
    var j := QuoteIndex(tail).value;
    Rejoin(tail, j);
  }

  /** The search expression carries both dates, recoverable when they hold no quote. */
  lemma JqlRoundTrip(startDate: string, endDate: string)
    requires '"' !in startDate && '"' !in endDate
    ensures ParseJql(Jql(startDate, endDate)) == Some((startDate, endDate))
  {
    var afterStart := JqlMiddle + endDate + JqlClose;
    var rest := startDate + afterStart;
    JqlShape(startDate, endDate);
    SplitAt(JqlOpen, rest);
    assert QuoteIndex(afterStart) == Some(0);
    QuoteIndexAfter(startDate, afterStart);
    SplitAt(startDate, afterStart);
    ParseAfterStartOf(endDate);
  }

  /** Whatever the parser accepts is exactly the expression built from what it returns. */
  lemma ParseJqlSound(q: string, startDate: string, endDate: string)
    requires ParseJql(q) == Some((startDate, endDate))
    ensures q == Jql(startDate, endDate)
    ensures '"' !in startDate && '"' !in endDate
  {
    var rest := q[|JqlOpen|..];
    Rejoin(q, |JqlOpen|);
    var i := QuoteIndex(rest).value;
    assert rest[..i] == startDate;
    Rejoin(rest, i);
    ParseAfterStartSound(rest[i..], endDate);
    JqlShape(startDate, endDate);
  }

  /** `Jql` nests its five parts to the right. */
  lemma JqlShape(startDate: string, endDate: string)
    ensures Jql(startDate, endDate) == JqlOpen + (startDate + (JqlMiddle + endDate + JqlClose))
  {
    Assoc5(JqlOpen, startDate, JqlMiddle, endDate, JqlClose);
  }

  lemma Assoc5(a: string, b: string, c: string, d: string, e: string)
    ensures a + b + c + d + e == a + (b + (c + d + e))
  {
  }

  lemma Rejoin(s: string, i: nat)
    requires i <= |s|
    ensures s == s[..i] + s[i..]
  {
  }

  // ---------------------------------------------------------------------------
  // The search request

  /** The parameters of the one search a run makes (authentication left out). */
  datatype SearchRequest = SearchRequest(url: string, jql: string, maxResults: nat, fields: string)

  /** The search for issues updated between the two dates. */
  function SearchFor(startDate: string, endDate: string): (r: SearchRequest)
    requires '"' !in startDate && '"' !in endDate
    ensures r.url == JiraApiUrl + "/search" && r.maxResults == MaxResults && r.fields == SearchFields
    ensures ParseJql(r.jql) == Some((startDate, endDate))
  {
    JqlRoundTrip(startDate, endDate);
    SearchRequest(JiraApiUrl + "/search", Jql(startDate, endDate), MaxResults, SearchFields)
  }
}
