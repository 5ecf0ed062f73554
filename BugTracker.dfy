/**
  The report and comment store behind the bug tracker's HTTP handlers: two
  in-memory sequences, `reports` and `comments`, a closed list of status
  names, six query handlers and three mutating handlers. Every handler
  answers either `Ok(payload)` (HTTP 200) or `BadRequest(message)` (HTTP 400).
 */
module BugTracker {
  import opened JsText

  /** A bug report as stored; every field but `id` comes from the client. */
  datatype Report = Report(id: int, title: string, description: string, status: string)

  /** A comment as stored; `bugID` is the client's string, `time` the server's. */
  datatype Comment = Comment(bugID: string, text: string, time: string)

  /** The answer of a handler: HTTP 200 with a payload, or HTTP 400 with a message. */
  datatype Result<T> = Ok(value: T) | BadRequest(msg: string)

  /** The six report statuses, the only values a status search or update accepts. */
  const StatusNames: seq<string> :=
    ["New", "Requires Evidence", "Pending Fixes", "Fixed", "Duplicate", "Invalid"]

  /** `statusNames.indexOf(q) >= 0`: exact, case-sensitive membership. */
  predicate IsStatus(q: Option<string>) {
    q.Some? && q.value in StatusNames
  }

  /** `x > 0 && x <= count`; NaN fails both comparisons. */
  predicate InRange(x: Num, count: nat) {
    x.Int? && 0 < x.n <= count
  }

  /** The id check shared by the report and comment handlers. */
  predicate IsReportId(q: Option<string>, count: nat) {
    InRange(ParseQuery(q), count)
  }

  function NoSuchReport(shown: string): string {
    "400 Error: \"" + shown + "\" does not match any report ID"
  }

  function NotAStatus(shown: string): string {
    "400 Error: \"" + shown + "\" is not a valid status"
  }

  function NotAReportStatus(shown: string): string {
    "400 Error: \"" + shown + "\" is not a valid report status"
  }

  const NoTitleQuery: string := "400 Error: No search query provided"

  // ---------------------------------------------------------------------
  // Specification functions: what each scanning loop computes

  /** Report `k` (0-based) carries id `k + 1`: position and id agree. */
  ghost predicate IdsDense(rs: seq<Report>) {
    forall k :: 0 <= k < |rs| ==> rs[k].id == k + 1
  }

  /** The reports whose status is exactly `s`, in store order. */
  ghost function WithStatus(rs: seq<Report>, s: string): (r: seq<Report>)
    ensures |r| <= |rs|
    ensures forall i :: 0 <= i < |r| ==> r[i].status == s
  {
    if rs == [] then []
    else WithStatus(rs[..|rs| - 1], s) + (if rs[|rs| - 1].status == s then [rs[|rs| - 1]] else [])
  }

  /** The lower-cased title of `r` includes the lower-cased `keyword`. */
  predicate TitleMatches(r: Report, keyword: string) {
    Includes(Lower(r.title), Lower(keyword))
  }

  /** The reports whose title matches `keyword`, in store order. */
  ghost function WithTitle(rs: seq<Report>, keyword: string): (r: seq<Report>)
    ensures |r| <= |rs|
    ensures forall i :: 0 <= i < |r| ==> TitleMatches(r[i], keyword)
  {
    if rs == [] then []
    else WithTitle(rs[..|rs| - 1], keyword) + (if TitleMatches(rs[|rs| - 1], keyword) then [rs[|rs| - 1]] else [])
  }

  /** The comments whose `bugID` is exactly the string `id`, in insertion order. */
  ghost function CommentsFor(cs: seq<Comment>, id: string): (r: seq<Comment>)
    ensures |r| <= |cs|
    ensures forall i :: 0 <= i < |r| ==> r[i].bugID == id
  {
    if cs == [] then []
    else CommentsFor(cs[..|cs| - 1], id) + (if cs[|cs| - 1].bugID == id then [cs[|cs| - 1]] else [])
  }

  /** The time of the last-inserted comment on `id`, or "None". */
  ghost function LastTime(cs: seq<Comment>, id: string): (t: string)
    ensures t == "None" || exists i :: 0 <= i < |cs| && cs[i].bugID == id && cs[i].time == t
  {
    if cs == [] then "None"
    else if cs[|cs| - 1].bugID == id then cs[|cs| - 1].time
    else LastTime(cs[..|cs| - 1], id)
  }

  /** The position of the first report whose id is `n`, if there is one. */
  ghost function FirstWithId(rs: seq<Report>, n: int): (k: Option<nat>)
    ensures k.Some? ==> k.value < |rs| && rs[k.value].id == n
    ensures k.Some? ==> forall j :: 0 <= j < k.value ==> rs[j].id != n
    ensures k.None? ==> forall j :: 0 <= j < |rs| ==> rs[j].id != n
  {
    if rs == [] then None
    else if rs[0].id == n then Some(0)
    else match FirstWithId(rs[1..], n)
      case None => None
      case Some(k) => Some(k + 1)
  }

  /** `rs` with the status of the first report whose id is `n` set to `s`. */
  ghost function SetStatus(rs: seq<Report>, n: int, s: string): (r: seq<Report>)
    ensures |r| == |rs|
    ensures forall k :: 0 <= k < |rs| ==> r[k].id == rs[k].id
    ensures FirstWithId(rs, n).Some? ==> r[FirstWithId(rs, n).value].status == s
  {
    match FirstWithId(rs, n)
    case None => rs
    case Some(k) => rs[k := rs[k].(status := s)]
  }

  // ---------------------------------------------------------------------
  // Lemmas about the specification functions

  /** The status gate accepts exactly the six names, spelt and capitalised as listed. */
  lemma StatusGateExact(q: Option<string>)
    ensures IsStatus(q) <==>
      q == Some("New") || q == Some("Requires Evidence") || q == Some("Pending Fixes")
      || q == Some("Fixed") || q == Some("Duplicate") || q == Some("Invalid")
    ensures !IsStatus(Some("new")) && !IsStatus(Some("")) && !IsStatus(None)
  {
  }

  /**
    For an id written the way `String(k)` prints it, possibly followed by
    text that does not start with a digit, the id check passes exactly when
    `k` is between 1 and the number of reports.
   */
  lemma IdCheckOfPrinted(k: int, rest: string, count: nat)
    requires rest == [] || !IsDigit(rest[0])
    ensures IsReportId(Some(IntToString(k) + rest), count) <==> 0 < k <= count
  {
    ParseIntOfIntToString(k, rest);
  }

  /** A missing id is rejected like an out-of-range one. */
  lemma AbsentIdRejected(count: nat)
    ensures !IsReportId(None, count)
  {
    ParseQueryOfAbsent();
  }

  /** The status search holds exactly the reports with that status, as often as the store does. */
  lemma {:induction false} WithStatusExact(rs: seq<Report>, s: string, r: Report)
    ensures multiset(WithStatus(rs, s))[r] == if r.status == s then multiset(rs)[r] else 0
    ensures r in WithStatus(rs, s) <==> r in rs && r.status == s
  {
    if rs != [] {
      var front := rs[..|rs| - 1];
      WithStatusExact(front, s, r);
      assert rs == front + [rs[|rs| - 1]];
    }
  }

  /** The title search holds exactly the reports whose title matches, as often as the store does. */
  lemma {:induction false} WithTitleExact(rs: seq<Report>, keyword: string, r: Report)
    ensures multiset(WithTitle(rs, keyword))[r] == if TitleMatches(r, keyword) then multiset(rs)[r] else 0
    ensures r in WithTitle(rs, keyword) <==> r in rs && TitleMatches(r, keyword)
  {
    if rs != [] {
      var front := rs[..|rs| - 1];
      WithTitleExact(front, keyword, r);
      assert rs == front + [rs[|rs| - 1]];
    }
  }

  /** Lower-casing the keyword first does not change the title search. */
  lemma {:induction false} WithTitleIgnoresKeywordCase(rs: seq<Report>, keyword: string)
    ensures WithTitle(rs, Lower(keyword)) == WithTitle(rs, keyword)
  {
    LowerIdempotent(keyword);
    if rs != [] {
      WithTitleIgnoresKeywordCase(rs[..|rs| - 1], keyword);
    }
  }

  /** The empty keyword matches every title, so it returns the whole store. */
  lemma {:induction false} WithTitleEmptyKeyword(rs: seq<Report>)
    ensures WithTitle(rs, "") == rs
  {
    if rs != [] {
      WithTitleEmptyKeyword(rs[..|rs| - 1]);
      IncludesTrivial(Lower(rs[|rs| - 1].title));
      assert rs == rs[..|rs| - 1] + [rs[|rs| - 1]];
    }
  }

  /** The comment list holds exactly the comments on `id`, as often as the store does. */
  lemma {:induction false} CommentsForExact(cs: seq<Comment>, id: string, c: Comment)
    ensures multiset(CommentsFor(cs, id))[c] == if c.bugID == id then multiset(cs)[c] else 0
    ensures c in CommentsFor(cs, id) <==> c in cs && c.bugID == id
  {
    if cs != [] {
      var front := cs[..|cs| - 1];
      CommentsForExact(front, id, c);
      assert cs == front + [cs[|cs| - 1]];
    }
  }

  /** The last-comment time is the time of the last entry of the comment list, or "None". */
  lemma {:induction false} LastTimeIsLastListed(cs: seq<Comment>, id: string)
    ensures var l := CommentsFor(cs, id);
      LastTime(cs, id) == if l == [] then "None" else l[|l| - 1].time
  {
    if cs != [] && cs[|cs| - 1].bugID != id {
      LastTimeIsLastListed(cs[..|cs| - 1], id);
    }
  }

  /** A status update keeps every id, title and description and touches one report at most. */
  lemma SetStatusChangesOnlyStatus(rs: seq<Report>, n: int, s: string)
    ensures var rs' := SetStatus(rs, n, s);
      |rs'| == |rs|
      && (forall k :: 0 <= k < |rs| ==>
            rs'[k].id == rs[k].id && rs'[k].title == rs[k].title
            && rs'[k].description == rs[k].description)
      && (forall k :: 0 <= k < |rs| && rs'[k] != rs[k] ==> FirstWithId(rs, n) == Some(k))
  {
  }

  /** The update lands on the first report carrying id `n`. */
  lemma SetStatusAtFirst(rs: seq<Report>, n: int, s: string, i: nat)
    requires i < |rs| && rs[i].id == n
    requires forall j :: 0 <= j < i ==> rs[j].id != n
    ensures SetStatus(rs, n, s) == rs[i := rs[i].(status := s)]
  {
    match FirstWithId(rs, n)
    case None =>
      assert false;
    case Some(k) =>
      assert k == i;
  }

  /** With dense ids, the report updated for id `n` is the one at position `n - 1`. */
  lemma SetStatusDense(rs: seq<Report>, n: int, s: string)
    requires IdsDense(rs) && 0 < n <= |rs|
    ensures SetStatus(rs, n, s) == rs[n - 1 := rs[n - 1].(status := s)]
    ensures IdsDense(SetStatus(rs, n, s))
  {
    SetStatusAtFirst(rs, n, s, n - 1);
  }

  /** Appending the report with the next id keeps ids dense. */
  lemma AppendKeepsDense(rs: seq<Report>, r: Report)
    requires IdsDense(rs) && r.id == |rs| + 1
    ensures IdsDense(rs + [r])
  {
  }

  // ---------------------------------------------------------------------
  // The store

  class Store {
    /** The loaded and created reports, in creation order. */
    var reports: seq<Report>
    /** The loaded and posted comments, in posting order. */
    var comments: seq<Comment>
    /** The last snapshot of `reports` handed to the file writer. */
    ghost var savedReports: seq<Report>
    /** The last snapshot of `comments` handed to the file writer. */
    ghost var savedComments: seq<Comment>

    /** The store's invariant: each report's id is its position plus one. */
    ghost predicate Valid()
      reads this
    {
      IdsDense(reports)
    }

    /** The store as loaded at start-up from the two snapshot files. */
    constructor (loadedReports: seq<Report>, loadedComments: seq<Comment>)
      ensures reports == loadedReports && comments == loadedComments
      ensures savedReports == loadedReports && savedComments == loadedComments
    {
      reports, comments := loadedReports, loadedComments;
      savedReports, savedComments := loadedReports, loadedComments;
    }

    /** GET /status?search=...: the reports with exactly that status. */
    method SearchStatus(search: Option<string>) returns (r: Result<seq<Report>>)
      ensures IsStatus(search) ==> r == Ok(WithStatus(reports, search.value))
      ensures !IsStatus(search) ==> r == BadRequest(NotAStatus(ToJsString(search)))
    {
      if !IsStatus(search) {
        return BadRequest(NotAStatus(ToJsString(search)));
      }
      var response: seq<Report> := [];
      for i := 0 to |reports|
        invariant response == WithStatus(reports[..i], search.value)
      {
        assert reports[..i + 1][..i] == reports[..i];
        if reports[i].status == search.value {
          response := response + [reports[i]];
        }
      }
      assert reports[..|reports|] == reports;
      r := Ok(response);
    }

    /** GET /titles?search=...: the reports whose title includes the keyword, ignoring case. */
    method SearchTitles(search: Option<string>) returns (r: Result<seq<Report>>)
      ensures search.Some? ==> r == Ok(WithTitle(reports, search.value))
      ensures search.None? ==> r == BadRequest(NoTitleQuery)
    {
      if search.None? {
        return BadRequest(NoTitleQuery);
      }
      var keyword := Lower(search.value);
      var response: seq<Report> := [];
      for i := 0 to |reports|
        invariant response == WithTitle(reports[..i], search.value)
      {
        assert reports[..i + 1][..i] == reports[..i];
        if Includes(Lower(reports[i].title), keyword) {
          response := response + [reports[i]];
        }
      }
      assert reports[..|reports|] == reports;
      r := Ok(response);
    }

    /** GET /report?id=...: the report at position id - 1. */
    method GetReport(id: Option<string>) returns (r: Result<Report>)
      ensures IsReportId(id, |reports|) ==> r == Ok(reports[ParseQuery(id).n - 1])
      ensures !IsReportId(id, |reports|) ==> r == BadRequest(NoSuchReport(ToJsString(id)))
      ensures Valid() && r.Ok? ==> r.value.id == ParseQuery(id).n && r.value in reports
    {
      var intID := ParseQuery(id);
      if InRange(intID, |reports|) {
        r := Ok(reports[intID.n - 1]);
      } else {
        r := BadRequest(NoSuchReport(ToJsString(id)));
      }
    }

    /** GET /countcomments?reportid=...: the number of comments whose bugID is the raw query string. */
    method CountComments(reportid: Option<string>) returns (r: Result<seq<int>>)
      ensures IsReportId(reportid, |reports|) ==>
        reportid.Some? && r == Ok([|CommentsFor(comments, reportid.value)|])
      ensures !IsReportId(reportid, |reports|) ==> r == BadRequest(NoSuchReport(ToJsString(reportid)))
    {
      var intID := ParseQuery(reportid);
      if !InRange(intID, |reports|) {
        return BadRequest(NoSuchReport(ToJsString(reportid)));
      }
      AbsentIdRejected(|reports|);
      var id := reportid.value;
      var count := 0;
      for i := 0 to |comments|
        invariant count == |CommentsFor(comments[..i], id)|
      {
        assert comments[..i + 1][..i] == comments[..i];
        if comments[i].bugID == id {
          count := count + 1;
        }
      }
      assert comments[..|comments|] == comments;
      r := Ok([count]);
    }

    /** GET /lastcomment?reportid=...: the time of the newest comment on that raw id, or "None". */
    method LastComment(reportid: Option<string>) returns (r: Result<seq<string>>)
      ensures IsReportId(reportid, |reports|) ==>
        reportid.Some? && r == Ok([LastTime(comments, reportid.value)])
      ensures !IsReportId(reportid, |reports|) ==> r == BadRequest(NoSuchReport(ToJsString(reportid)))
    {
      var intID := ParseQuery(reportid);
      if !InRange(intID, |reports|) {
        return BadRequest(NoSuchReport(ToJsString(reportid)));
      }
      AbsentIdRejected(|reports|);
      var id := reportid.value;
      var response: seq<string> := [];
      var found := false;
      var i := |comments| - 1;
      assert comments[..i + 1] == comments;
      while i >= 0
        invariant -1 <= i < |comments|
        invariant !found && response == []
        invariant LastTime(comments[..i + 1], id) == LastTime(comments, id)
      {
        if comments[i].bugID == id {
          assert comments[..i + 1][i] == comments[i];
          assert LastTime(comments, id) == comments[i].time;
          response := response + [comments[i].time];
          found := true;
          break;
        }
        assert comments[..i + 1][..i] == comments[..i];
        i := i - 1;
      }
      if !found {
        assert comments[..i + 1] == [];
        response := response + ["None"];
      }
      assert response == [LastTime(comments, id)];
      assert id == reportid.value;
      r := Ok(response);
    }

    /** GET /comments?reportid=...: the comments whose bugID is the raw query string. */
    method ListComments(reportid: Option<string>) returns (r: Result<seq<Comment>>)
      ensures IsReportId(reportid, |reports|) ==>
        reportid.Some? && r == Ok(CommentsFor(comments, reportid.value))
      ensures !IsReportId(reportid, |reports|) ==> r == BadRequest(NoSuchReport(ToJsString(reportid)))
    {
      var intID := ParseQuery(reportid);
      if !InRange(intID, |reports|) {
        return BadRequest(NoSuchReport(ToJsString(reportid)));
      }
      AbsentIdRejected(|reports|);
      var id := reportid.value;
      var response: seq<Comment> := [];
      for i := 0 to |comments|
        invariant response == CommentsFor(comments[..i], id)
      {
        assert comments[..i + 1][..i] == comments[..i];
        if comments[i].bugID == id {
          response := response + [comments[i]];
        }
      }
      assert comments[..|comments|] == comments;
      r := Ok(response);
    }

    /** POST /create: append the client's report under the next id; its status is kept as sent. */
    method CreateReport(body: Report) returns (r: Result<string>)
      modifies this`reports, this`savedReports
      ensures reports == old(reports) + [body.(id := |old(reports)| + 1)]
      ensures savedReports == reports
      ensures r == Ok("Sent report with ID " + IntToString(|old(reports)| + 1))
      ensures old(Valid()) ==> Valid()
    {
      var newReport := body.(id := |reports| + 1);
      if IdsDense(reports) {
        AppendKeepsDense(reports, newReport);
      }
      reports := reports + [newReport];
      savedReports := reports;
      r := Ok("Sent report with ID " + IntToString(newReport.id));
    }

    /** The scan of POST /updatestatus: set the status of the first report carrying id `n`. */
    method SetFirstStatus(n: int, s: string)
      modifies this`reports
      ensures reports == SetStatus(old(reports), n, s)
    {
      var i := 0;
      while i < |reports|
        invariant 0 <= i <= |reports|
        invariant reports == old(reports)
        invariant forall j :: 0 <= j < i ==> reports[j].id != n
      {
        if reports[i].id == n {
          SetStatusAtFirst(reports, n, s, i);
          reports := reports[i := reports[i].(status := s)];
          return;
        }
        i := i + 1;
      }
    }

    /**
      POST /updatestatus: check the id, then the status, then set the status
      of the first report carrying the parsed id.
     */
    method UpdateStatus(id: Option<string>, status: Option<string>) returns (r: Result<string>)
      modifies this`reports, this`savedReports
      ensures !InRange(ParseQuery(id), |old(reports)|) ==>
        r == BadRequest(NoSuchReport(NumToString(ParseQuery(id))))
        && reports == old(reports) && savedReports == old(savedReports)
      ensures InRange(ParseQuery(id), |old(reports)|) && !IsStatus(status) ==>
        r == BadRequest(NotAReportStatus(ToJsString(status)))
        && reports == old(reports) && savedReports == old(savedReports)
      ensures InRange(ParseQuery(id), |old(reports)|) && IsStatus(status) ==>
        r == Ok("Updated report with ID " + ToJsString(id))
        && reports == SetStatus(old(reports), ParseQuery(id).n, status.value)
        && savedReports == reports
      ensures old(Valid()) ==> Valid()
    {
      var parsed := ParseQuery(id);
      var intID := ParseInt(NumToString(parsed));
      ReparseNum(parsed);
      if !InRange(intID, |reports|) {
        return BadRequest(NoSuchReport(NumToString(parsed)));
      }
      if !IsStatus(status) {
        return BadRequest(NotAReportStatus(ToJsString(status)));
      }
      SetStatusChangesOnlyStatus(reports, parsed.n, status.value);
      SetFirstStatus(parsed.n, status.value);
      savedReports := reports;
      r := Ok("Updated report with ID " + ToJsString(id));
    }

    /** POST /comment: append the client's comment, stamped with the server's time `now`. */
    method PostComment(body: Comment, now: string) returns (r: Result<string>)
      modifies this`comments, this`savedComments
      ensures InRange(ParseInt(body.bugID), |reports|) ==>
        comments == old(comments) + [body.(time := now)] && savedComments == comments
        && r == Ok("Posted comment on bug report ID " + body.bugID)
      ensures !InRange(ParseInt(body.bugID), |reports|) ==>
        comments == old(comments) && savedComments == old(savedComments)
        && r == BadRequest(NoSuchReport(NumToString(ParseInt(body.bugID))))
    {
      var intID := ParseInt(body.bugID);
      if InRange(intID, |reports|) {
        var newComment := body.(time := now);
        comments := comments + [newComment];
        savedComments := comments;
        r := Ok("Posted comment on bug report ID " + newComment.bugID);
      } else {
        r := BadRequest(NoSuchReport(NumToString(intID)));
      }
    }
  }
}
