# Bug-tracker report and comment store, in Dafny

This project models the server side of a small bug tracker. The server keeps
two in-memory arrays, `reports` and `comments`, and a closed list of six
status names. Nine HTTP handlers work on them:

- six queries: status search, title search, report lookup, comment count,
  last comment time, comment list;
- three mutations: create report, update status, post comment.

Each handler first validates its input, then either scans the arrays or
changes one of them in place. Here the arrays are the `seq` fields of the
class `BugTracker.Store`, and each handler is a method of it. A method returns
`Ok(payload)` for HTTP 200 or `BadRequest(message)` for HTTP 400, with the
source's message text. Each scanning loop is kept as a loop. Its result is
proved equal to a specification function (`WithStatus`, `WithTitle`,
`CommentsFor`, `LastTime`, `SetStatus`), and lemmas prove what those
functions mean.

Module `JsText` models the JavaScript behaviour the handlers rely on:

- `parseInt` on a string: leading white space, an optional sign, then the
  longest run of decimal digits; no digits gives NaN;
- `String(n)` for an integer and `String(undefined)`;
- ASCII `toLowerCase`;
- `String.prototype.includes`.

An absent query value is `None`, and `parseInt(undefined)` is NaN. So a
missing id fails the range check `intID > 0 && intID <= reports.length`, the
same way NaN does.

Module `Scenarios` chains several requests on one store and states what a
client then sees.

Three behaviours of the code are modelled as written:

- `/create` overwrites only `id`. It keeps the title, description and status
  the client sent, so the default status `New` is the client's choice, not
  the server's. The comment at client/client.js:117 says the server ignores a
  client-supplied status and sets `New`. The code does not do that, and the
  model follows the code.
- The comment queries validate `parseInt(reportid)` but select comments whose
  `bugID` is the raw query string. So `reportid=01` passes the check but
  lists only comments whose `bugID` is `"01"` (`Scenarios.RawIdSelectsComments`).
- `/updatestatus` parses the id twice and matches reports on the parsed
  number. It checks the id before the status. If no report carries the id
  (possible only when ids are not dense), it changes nothing and still
  reports success.

The store's invariant `Store.Valid()` says that the report at position `k`
has id `k + 1`. `/create` and `/updatestatus` preserve it. `/report` does not
need it, since it indexes by position. Given the invariant, the report it
returns carries the requested id.

## Model

| member | source | states |
|---|---|---|
| `JsText.ToJsString` | app.js:58 | string concatenation of a query value: a present value is itself; an absent one prints as "undefined", as in the error messages at app.js:20, 58 and 153 |
| `JsText.TrimStart` | app.js:52 | parseInt's white-space skip: the result is no longer than the input and does not start with white space |
| `JsText.TrimStartDropsSpace` | app.js:52 | the white-space skip keeps a suffix of the input and removes only white space before it |
| `JsText.LeadingSpace` | app.js:52 | every input is the white space the skip removes followed by what it keeps |
| `JsText.TrimStartOfSpaces` | app.js:52 | white space in front of text that does not start with white space is removed, and nothing more |
| `JsText.DigitPrefix` | app.js:52 | the digits parseInt reads: a prefix of the input, all decimal digits, and followed by a non-digit or the end |
| `JsText.NatToDigits` | app.js:132 | String(n) of a natural number: non-empty, all digits, reads back as n, and never starts with "0" unless it is the single digit "0" |
| `JsText.IntToString` | app.js:132 | String(n) of an integer: non-empty, starts with "-" exactly when n is negative, digits after the first character, all digits when n is not negative, and no leading zero ("0" itself aside, so String(0) is "0" in the id error messages of app.js:157 and 174) |
| `JsText.Lower` | app.js:42 | ASCII toLowerCase: same length, no capital letter left, each capital becomes the corresponding small letter, every other character is kept |
| `JsText.LowerIdempotent` | app.js:42 | lower-casing twice equals lower-casing once, for every string |
| `JsText.LowerIgnoresCase` | app.js:42 | strings that differ only in that some ASCII letters are capital in one and small in the other lower-case to the same string |
| `JsText.DigitPrefixOfDigits` | app.js:52 | a run of digits followed by a non-digit is read exactly up to that non-digit |
| `JsText.TrimStartOfNonSpace` | app.js:52 | text that does not start with white space is left as it is |
| `JsText.ParseDigitsOfDigits` | app.js:52 | a run of digits followed by a non-digit parses as the value of those digits |
| `JsText.ParseIntOfNatToDigits` | app.js:138-139 | parseInt(String(m) + rest) is m for every natural m |
| `JsText.ParseIntOfNegative` | app.js:138-139 | parseInt("-" + String(m) + rest) is -m for every natural m |
| `JsText.ParseIntOfIntToString` | app.js:138-139 | parseInt(String(n) + rest) is n for every integer n and every rest that does not start with a digit |
| `JsText.ParseIntOfParts` | app.js:52 | parseInt (`ParseInt`) of white space, an optional "+" or "-", a non-empty run of digits and anything not starting with a digit is the signed value of the digits |
| `JsText.ParseSignedSplit` | app.js:52 | after the white space, a number is read only from an optional sign followed by at least one digit |
| `JsText.ParseIntSplit` | app.js:52 | conversely, whenever parseInt is not NaN its input splits into white space, a sign, at least one digit and a rest not starting with a digit, and the result is the signed value; so parseInt is NaN exactly when no such split exists |
| `JsText.ReparseNum` | app.js:138-139 | parseInt(String(x)) == x for every number x (`NumToString`), NaN included, so the second parse in /updatestatus changes nothing |
| `JsText.ParseQueryOfAbsent` | app.js:108-109 | parseInt(undefined) (`ParseQuery(None)`) is NaN |
| `JsText.ParseIntExamples` | app.js:109-113 | "01" parses to 1 although String(1) is "1"; " -7x" parses to -7; "", "abc" and "-" parse to NaN |
| `JsText.IncludesIff` | app.js:42 | includes (`Includes`) holds if and only if the needle occurs at some position of the string |
| `JsText.IncludesTrivial` | app.js:39-45 | every string includes the empty string and itself |
| `JsText.LowerExamples` | app.js:42 | concrete cases: "BUG" lower-cases to "bug", so it matches the title "bug report" |
| `BugTracker.StatusGateExact` | app.js:12-18 | the status gate `IsStatus`, used at app.js:18 and 141, accepts exactly the six names, case-sensitively; "new", "" and an absent value are rejected |
| `BugTracker.IdCheckOfPrinted` | app.js:52-53 | the shared id check (`IsReportId`, parseInt then `InRange`, also at app.js:65-67, 85-87, 109-111, 139-140 and 164-165) accepts String(k), followed by anything not starting with a digit, exactly when 1 <= k <= number of reports |
| `BugTracker.AbsentIdRejected` | app.js:107-111 | a missing id never passes the range check |
| `BugTracker.WithStatus` | app.js:23-27 | the status search's target: no longer than the store, and every entry has the searched status |
| `BugTracker.WithTitle` | app.js:41-45 | the title search's target: no longer than the store, and every entry's title matches the keyword |
| `BugTracker.CommentsFor` | app.js:112-116 | the comment list's target: no longer than the store, and every entry's bugID is the raw id string |
| `BugTracker.LastTime` | app.js:89-98 | the last-comment time is "None" or the time of a stored comment on that raw id |
| `BugTracker.SetStatus` | app.js:142-147 | the status update keeps the length and every id, and the first report with the id gets the new status |
| `BugTracker.FirstWithId` | app.js:142-146 | the scan's target: the first position whose report has the id, or none when no report has it |
| `BugTracker.WithStatusExact` | app.js:23-27 | the status search holds each report with that status exactly as often as the store does, and no other report |
| `BugTracker.WithTitleExact` | app.js:41-45 | the title search holds each report whose lower-cased title includes the lower-cased keyword exactly as often as the store does, and no other report |
| `BugTracker.WithTitleIgnoresKeywordCase` | app.js:42 | searching for the lower-cased keyword gives the same reports as searching for the keyword |
| `BugTracker.WithTitleEmptyKeyword` | app.js:39-45 | the empty keyword returns every report, in store order |
| `BugTracker.CommentsForExact` | app.js:112-116 | the comment list holds each comment whose bugID equals the raw id string exactly as often as the store does, and no other comment |
| `BugTracker.LastTimeIsLastListed` | app.js:88-98 | the last-comment time is the time of the last entry of the comment list for the same id, or "None" when the list is empty |
| `BugTracker.SetStatusChangesOnlyStatus` | app.js:142-147 | a status update keeps the length and every id, title and description, and changes at most the first report with the id |
| `BugTracker.SetStatusAtFirst` | app.js:142-146 | when position i holds the first report with id n, the update sets the status at position i |
| `BugTracker.SetStatusDense` | app.js:140-147 | with dense ids, the update for id n sets the status of the report at position n - 1, and ids stay dense |
| `BugTracker.AppendKeepsDense` | app.js:127-128 | appending a report with id length + 1 keeps ids dense |
| `BugTracker.Store.constructor` | app.js:10-11 | the store starts with the loaded arrays, which are also the saved snapshots |
| `BugTracker.Store.SearchStatus` | app.js:15-29 | a name outside the six gives the "not a valid status" error; a listed name gives exactly the reports with that status, in store order, possibly none |
| `BugTracker.Store.SearchTitles` | app.js:32-47 | an absent query gives "No search query provided"; otherwise the reports whose title matches, ignoring case, in store order |
| `BugTracker.Store.GetReport` | app.js:50-60 | succeeds if and only if parseInt(id) is in [1, count] and returns the report at position id - 1; with dense ids it is a stored report carrying that id |
| `BugTracker.Store.CountComments` | app.js:63-80 | the shared range check; on success a one-element array holding the length of the comment list for the raw id |
| `BugTracker.Store.LastComment` | app.js:83-104 | the shared range check; on success a one-element array with the time of the newest comment on the raw id, or "None" |
| `BugTracker.Store.ListComments` | app.js:107-122 | the shared range check; on success the comments whose bugID is the raw id string, in insertion order |
| `BugTracker.Store.CreateReport` | app.js:125-133 | appends the client's report with id = old length + 1 and its title, description and status as sent; earlier reports unchanged; snapshot updated; ids stay dense |
| `BugTracker.Store.SetFirstStatus` | app.js:142-147 | the scan with `break`: the reports become SetStatus of the old reports, so only the first report with the id changes |
| `BugTracker.Store.UpdateStatus` | app.js:136-159 | an out-of-range id gives the id error even for a bad status; then a bad status gives the status error; the store is unchanged in both; on success only the status of the first report with the parsed id changes |
| `BugTracker.Store.PostComment` | app.js:162-176 | an in-range bugID appends the comment with the server's time and leaves earlier comments alone; an out-of-range one changes nothing and reports the parsed id |
| `Scenarios.CreateThenFetch` | app.js:125-133 | for any store, dense ids or not, after a create /report with the new id returns the report with the client's status, and title search on its title lists it last; a store with dense ids keeps them |
| `Scenarios.CreateTwice` | app.js:127-128 | two creates give consecutive ids at the end of the store and leave earlier reports alone |
| `Scenarios.UpdateThenFetch` | app.js:140-147 | after a valid update, /report for that id shows the new status; every other report is unchanged |
| `Scenarios.UpdateChecksIdFirst` | app.js:140-158 | id "0" with the invalid status "new" gives the id error; the reports and their saved snapshot are unchanged, and the frame leaves the comments untouched |
| `Scenarios.CommentThenQuery` | app.js:162-176 | after posting, the comment list for that bugID ends with the new comment, the count is one more, and the last-comment time is the server's `now` |
| `Scenarios.RawIdSelectsComments` | app.js:109-114 | a comment posted for "1" is listed for "1" but not for "01", although "01" passes the id check |

## Left out

- Express setup, routing, JSON body parsing, static hosting and the 404 for unmatched routes (app.js:1-6, 178): framework plumbing. Each handler is a method and each response a `Result`.
- The `fs.writeFile` calls (app.js:130-131, 148-149, 169-170) are asynchronous file I/O. The model keeps the snapshot handed to the writer as a ghost field (`savedReports`, `savedComments`). It does not model the write itself, its failure or its logging.
- The loading of `reports.json` and `comments.json` (app.js:10-11): the loaded arrays are constructor arguments. Like the source, the constructor does not check that ids are dense.
- `new Date()` (app.js:166) reads the wall clock: the time is a `now` parameter, and times are the strings a `Date` serialises to.
- `toLowerCase` beyond ASCII letters: `Lower` maps only `A`-`Z`. Unicode case mapping, which can change a string's length, is not modelled.
- `parseInt` with a `0x`/`0X` prefix (read as hexadecimal) or another radix is not modelled. Every string is read as decimal.
- JavaScript numbers are unbounded integers here. Rounding above 2^53, and `String(n)` writing exponent notation from 10^21 up, are not modelled.
- Request bodies and loaded records are cut to the modelled fields, all strings. The source pushes `req.body` whole (app.js:126-128, 163-167), so extra JSON fields a client sends are stored, saved and echoed by later queries; `Report` and `Comment` have no room for them. A loaded comment whose `bugID` is a JSON number (which `===` would never match against a query string) cannot be represented either.
- A query key given twice (Express then passes an array) is not modelled. Nor are body fields of another JSON type than string, or missing body fields: `title`, `status`, `bugID` and the other fields are strings.
- Handlers return references into the shared arrays. Each response is serialised at once, so the model uses values and ignores this aliasing.
- The source has no concurrency control and handles one request at a time; the model runs the methods in sequence.
- `client/client.js` (browser DOM code and `fetch` calls) and `app.test.js` (HTTP-level tests) are not part of this model.
