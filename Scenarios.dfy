/**
  Sequences of requests against one store, and what a client observes
  afterwards. Each method is a request script; its postconditions follow from
  the handlers' contracts and the lemmas about the specification functions.
 */
module Scenarios {
  import opened JsText
  import opened BugTracker

  /**
    POST /create, then GET /report with the assigned id and GET /titles with
    the new title: the report is found under id N + 1 with the status the
    client sent, and it is the last title match.
   */
  method CreateThenFetch(s: Store, body: Report)
    returns (created: Result<string>, fetched: Result<Report>, found: Result<seq<Report>>)
    modifies s
    ensures old(s.Valid()) ==> s.Valid()
    ensures var stored := body.(id := |old(s.reports)| + 1);
      created == Ok("Sent report with ID " + IntToString(|old(s.reports)| + 1))
      && fetched == Ok(stored) && fetched.value.status == body.status
      && found.Ok? && found.value != [] && found.value[|found.value| - 1] == stored
  {
    var n := |s.reports|;
    created := s.CreateReport(body);
    var stored := body.(id := n + 1);
    ParseIntOfIntToString(n + 1, []);
    assert IntToString(n + 1) + [] == IntToString(n + 1);
    fetched := s.GetReport(Some(IntToString(n + 1)));
    found := s.SearchTitles(Some(body.title));
    IncludesTrivial(Lower(body.title));
    assert s.reports[..|s.reports| - 1] == old(s.reports);
  }

  /** Two creates in a row get two consecutive, distinct ids at the end of the store. */
  method CreateTwice(s: Store, a: Report, b: Report)
    requires s.Valid()
    modifies s
    ensures s.Valid()
    ensures |s.reports| == |old(s.reports)| + 2
    ensures s.reports[..|old(s.reports)|] == old(s.reports)
    ensures s.reports[|old(s.reports)|].id + 1 == s.reports[|old(s.reports)| + 1].id
  {
    var first := s.CreateReport(a);
    var second := s.CreateReport(b);
    assert s.reports[..|old(s.reports)|] == old(s.reports);
  }

  /**
    POST /updatestatus on an existing id with a listed status, then GET
    /report for that id: only the status of that report has changed.
   */
  method UpdateThenFetch(s: Store, k: nat, status: string)
    returns (updated: Result<string>, fetched: Result<Report>)
    requires s.Valid() && 0 < k <= |s.reports| && status in StatusNames
    modifies s
    ensures s.Valid()
    ensures |s.reports| == |old(s.reports)|
    ensures forall j :: 0 <= j < |s.reports| && j != k - 1 ==> s.reports[j] == old(s.reports)[j]
    ensures updated == Ok("Updated report with ID " + IntToString(k))
    ensures fetched == Ok(old(s.reports)[k - 1].(status := status))
  {
    ParseIntOfIntToString(k, []);
    assert IntToString(k) + [] == IntToString(k);
    SetStatusDense(s.reports, k, status);
    updated := s.UpdateStatus(Some(IntToString(k)), Some(status));
    fetched := s.GetReport(Some(IntToString(k)));
  }

  /**
    The id is checked before the status: an unknown id is reported as such
    even when the status is not a listed one, and nothing changes.
   */
  method UpdateChecksIdFirst(s: Store) returns (r: Result<string>)
    modifies s`reports, s`savedReports
    ensures r == BadRequest(NoSuchReport("0"))
    ensures s.reports == old(s.reports) && s.savedReports == old(s.savedReports)
  {
    ParseIntOfIntToString(0, []);
    assert IntToString(0) == "0";
    r := s.UpdateStatus(Some("0"), Some("new"));
  }

  /**
    POST /comment on an existing report, then the three comment queries with
    the same id string: the new comment, stamped `now`, is listed last, the
    count grows by one and the last-comment time is `now`.
   */
  method CommentThenQuery(s: Store, body: Comment, now: string)
    returns (listed: Result<seq<Comment>>, counted: Result<seq<int>>, last: Result<seq<string>>)
    requires InRange(ParseInt(body.bugID), |s.reports|)
    modifies s
    ensures s.reports == old(s.reports)
    ensures listed == Ok(CommentsFor(old(s.comments), body.bugID) + [body.(time := now)])
    ensures counted == Ok([|CommentsFor(old(s.comments), body.bugID)| + 1])
    ensures last == Ok([now])
  {
    var posted := s.PostComment(body, now);
    assert s.comments[..|s.comments| - 1] == old(s.comments);
    listed := s.ListComments(Some(body.bugID));
    counted := s.CountComments(Some(body.bugID));
    last := s.LastComment(Some(body.bugID));
  }

  /**
    The comment queries validate the id by its parsed value but select
    comments by the raw string: a comment posted for "1" is not listed for
    "01", although "01" passes the id check.
   */
  method RawIdSelectsComments(s: Store, text: string, now: string)
    returns (asOne: Result<seq<Comment>>, asZeroOne: Result<seq<Comment>>)
    requires |s.reports| >= 1
    modifies s
    ensures asOne.Ok? && asOne.value != [] && asOne.value[|asOne.value| - 1] == Comment("1", text, now)
    ensures asZeroOne.Ok? && Comment("1", text, now) !in asZeroOne.value
  {
    ParseIntOfIntToString(1, []);
    assert IntToString(1) + [] == "1";
    ParseIntExamples();
    var posted := s.PostComment(Comment("1", text, "client time"), now);
    asOne := s.ListComments(Some("1"));
    asZeroOne := s.ListComments(Some("01"));
    CommentsForExact(s.comments, "01", Comment("1", text, now));
  }
}
