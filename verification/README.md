# NOTA voting app: a verified model of its core

NOTA is a small web app for running elections. A host signs in by phone, fills in a form of positions and candidates, and shares a link. The vote route accepts one ballot per email address. The host closes the election and downloads the results as a spreadsheet. This project models in Dafny the logic behind those steps:

- the API routes `submitVote`, `createElection`, `closeElection`, `getElectionResults`, `getVoteCounts` and `getMyElections`, over an abstract two-table store;
- the page logic of the host form (`host.tsx`), the host's election list (`my-elections.tsx`) and the login page (`login.tsx`).

It then proves what those routes and pages promise.

Modules, one per file:

| file | module | what it holds |
|---|---|---|
| base.dfy | `Base` | optional fields, route responses, JavaScript truthiness of a string field |
| text.dfy | `Text` | ECMAScript `trim()`, ASCII `toLowerCase()`, "blank after trim" |
| store.dfy | `Store` | the `elections` and `votes` tables as values and the queries the routes run |
| database.dfy | `Database` | class `Db` holding both tables; one method per route |
| tally.dfy | `Tally` | the two counting folds and the report of `getElectionResults` |
| listing.dfy | `Listing` | `getMyElections` as a pure function |
| host_form.dfy | `HostForm` | class `Form` with the editing handlers, and the `handleCreate` checks |
| my_elections.dfy | `MyElectionsPage` | file-name sanitiser, share link, buttons, download outcome |
| login.dfy | `Login` | OTP digit filter, and class `LoginPage` with the two-step login state |

How the model is set up:

- The store is one object (`Database.Db`) with two fields, `elections` and `votes`. Each route that writes reassigns them. Its invariant is `Valid()`: election ids are unique, no voter has two vote rows in one election, and every vote row belongs to an existing election. Every route method keeps that invariant, so it holds after any sequence of calls.
- SHA-256 is a function parameter `hash`.
- A failing query is a boolean parameter.
- The database clock behind `created_at` is the parameter `now`.
- A ballot (`vote_json`) is the list of its `[position, candidate]` entries in `Object.entries` order.

Facts about the voting route that the model keeps as the code has them:

- `submitVote` has no device-fingerprint gate and no per-network-address cap.
- A repeat voter on a closed election gets 409 rather than the closed error, because the duplicate check runs first (`Database.RepeatVoterTurnedAway`).
- The duplicate check is keyed by the hashed email only.

## Model

| member | source | states |
|---|---|---|
| Base.Given | nota/pages/api/submitVote.ts:9 | The test `if (!field)` fails for a string field: the field is present and not the empty string. |
| Base.OrElse | nota/pages/my-elections.tsx:95 | `field \|\| fallback`: the field itself when it is a non-empty string, and the fallback otherwise. |
| Database.Db.SubmitVote | nota/pages/api/submitVote.ts:4-52 | The gates in source order: 405 for a non-POST request, then 400 "Email required", then 500 on a store failure, then 409 if the voter (hash of the lowercased, trimmed email) already has a row for this election, then 404 for an unknown election, then 400 for a closed one. Only when all pass is exactly one row `(id, hash, ballot)` appended, and the election's ballots gain exactly that ballot at the end. Every other outcome leaves both tables as they were. A closed or unknown election never gains a row. One vote per voter per election is preserved, and so is every row belonging to an existing election. |
| Database.Db.CreateElection | nota/pages/api/createElection.ts:4-17 | 405 for a non-POST request. Otherwise one open election is appended with the given id, title and positions, `createdBy || null` as creator and `now` as creation time. A store failure or a taken id answers 500 "db" and adds nothing. Votes are untouched. |
| Database.Db.CloseElection | nota/pages/api/closeElection.ts:4-11 | 405 for a non-POST request, with nothing changed. Otherwise every election row with that id is closed and the rest stay as they were. There is no existence check. The answer is the ballots stored for that id. For an id that names no election the answer is `{ ok: true, votes: [] }`, because every vote row belongs to an existing election. Votes are untouched. |
| Database.Db.ElectionResults | nota/pages/api/getElectionResults.ts:4-80 | 400 "Election ID required" without an id. 500 when a query fails. 404 for an unknown election. 500 when a ballot names a position the election lacks. Otherwise the full report of the election's ballots. |
| Database.Db.VoteCountsOf | nota/pages/api/getVoteCounts.ts:4-58 | 400, 500 and 404 as for the results route. Otherwise `totalVotes` is the number of ballot rows. `voteCounts` has a key for every defined position and for every position a ballot names. Each lookup equals the number of entries choosing that candidate. Only voted candidates have keys, and all counts add up to the number of ballot entries. |
| Database.VoteInNewElection | nota/pages/api/submitVote.ts:18-47 | In a freshly created open election, a first vote is accepted and stored as the only row, keyed by the voter's hash. |
| Database.RepeatVoterTurnedAway | nota/pages/api/submitVote.ts:14-25 | After a first accepted vote, the same address in another letter case and with surrounding whitespace is turned away with 409, even once the election is closed. |
| Store.Find | nota/pages/api/submitVote.ts:27-33 | The lookup by id finds nothing exactly when no row has that id. Otherwise it returns a row of the table with that id. |
| Store.FindUnique | nota/pages/api/getElectionResults.ts:13-22 | With unique ids, the row the lookup returns is the only row with that id. |
| Store.RowsFor | nota/pages/api/getMyElections.ts:18-20 | The rows of one election: exactly the table's rows with that election id, and no more rows than the table has. |
| Store.RowsForMultiplicity | nota/pages/api/getMyElections.ts:18-20 | Each row of the election is selected exactly as often as it is stored, and no other row at all. |
| Store.RowsForConcat | nota/pages/api/getVoteCounts.ts:25-28 | Selecting the rows of an election distributes over appending rows to the table. |
| Store.Ballots | nota/pages/api/closeElection.ts:9-10 | The `vote_json` of the rows of that election, one per row, in the order the model fixes for the selected rows (see "## Left out"). |
| Store.BallotsAfterAppend | nota/pages/api/submitVote.ts:42-45 | Inserting a row adds its ballot at the end of its own election's ballots and to no other election's. |
| Store.NoBallotsForUnknown | nota/pages/api/closeElection.ts:9-10 | When every vote row belongs to an existing election, an id naming no election has no ballots. |
| Store.NoRowsFor | nota/pages/api/closeElection.ts:9 | A table without rows of that election selects nothing. |
| Store.HasVoted | nota/pages/api/submitVote.ts:18-23 | The duplicate query finds a row: some vote row has both this election id and this email hash. |
| Store.NormalizeEmail | nota/pages/api/submitVote.ts:14 | `email.toLowerCase().trim()`: the result has no whitespace at either end and no ASCII capital letter. |
| Store.VoterHash | nota/pages/api/submitVote.ts:14 | The hash is taken of the normalised email, so only the normalised form identifies a voter (`Store.SameVoterIgnoringCaseAndSpaces`). |
| Store.AppendKeepsOneVotePerVoter | nota/pages/api/submitVote.ts:18-25 | Appending a row for a voter with no row in that election keeps at most one row per (election, voter). |
| Store.SameVoterIgnoringCaseAndSpaces | nota/pages/api/submitVote.ts:14 | Two emails that differ only in letter case and surrounding whitespace get the same hash. |
| Store.CloseRows | nota/pages/api/closeElection.ts:7 | The update closes each row with that id, changes nothing else, and keeps the table's length. |
| Store.CloseKeepsUniqueIds | nota/pages/api/closeElection.ts:7 | Closing keeps election ids unique. |
| Store.FindAfterClose | nota/pages/api/closeElection.ts:7 | After closing, the closed election reads as closed, and every other lookup reads as before. |
| Store.CloseIdempotent | nota/pages/api/closeElection.ts:7 | Closing twice leaves the same table as closing once. |
| Text.TrimKeepsMiddle | nota/pages/api/submitVote.ts:14 | What `trim()` returns is the middle of the string, starting right after its leading whitespace. |
| Text.TrimCutsWhitespace | nota/pages/api/submitVote.ts:14 | What `trim()` removes from each end is whitespace only. |
| Text.TrimIsTrimmed | nota/pages/api/submitVote.ts:14 | What `trim()` returns is empty or begins and ends with a character that is not whitespace. |
| Text.Trim | nota/pages/api/submitVote.ts:14 | `trim()`: the leading whitespace, then the trailing whitespace of what remains, removed. Its meaning is stated by `Text.TrimKeepsMiddle`, `Text.TrimCutsWhitespace` and `Text.TrimIsTrimmed`. |
| Text.IsBlank | nota/pages/host.tsx:40 | `!s.trim()`: every character is whitespace, which is exactly when the trimmed string is empty (`Text.BlankIsTrimmedEmpty`). |
| Text.TrimIgnoresSurroundingWhitespace | nota/pages/api/submitVote.ts:14 | Whitespace added on either side never changes what `trim()` returns. |
| Text.BlankIsTrimmedEmpty | nota/pages/host.tsx:40 | A string trims to empty exactly when all of its characters are whitespace. |
| Text.Lower | nota/pages/api/submitVote.ts:14 | Lowercasing keeps the length and maps each character on its own. |
| Text.LowerIgnoresCase | nota/pages/api/submitVote.ts:14 | Strings equal up to letter case lowercase to the same string. |
| Tally.EmptyCounts | nota/pages/api/getElectionResults.ts:39-42 | The dictionary starts with exactly the keys `0..n-1`, each mapped to an empty count map. |
| Tally.Increment | nota/pages/api/getVoteCounts.ts:44-46 | One increment creates the position and candidate entries if missing, then adds one. |
| Tally.BumpCounts | nota/pages/api/getVoteCounts.ts:44-46 | An increment adds the position key and raises exactly one (position, candidate) lookup by one. No zero count appears. |
| Tally.BumpGrand | nota/pages/api/getVoteCounts.ts:44-46 | An increment raises the sum of all counts by one. |
| Tally.TalliesStep | nota/pages/api/getElectionResults.ts:50-53 | If the dictionary tallies a list of entries, one more increment tallies that list extended by the entry. |
| Tally.LenientStep | nota/pages/api/getVoteCounts.ts:39-48 | One increment keeps the lenient fold's state: keys, tallies, no zero counts, and total equal to the number of entries. |
| Tally.CountBallot | nota/pages/api/getVoteCounts.ts:41-47 | Counting all entries of one ballot, in order, extends the fold's state by that ballot. |
| Tally.CountLenient | nota/pages/api/getVoteCounts.ts:30-48 | After the fold: a key exactly for the defined positions and the positions named by a ballot. `voteCounts[p][c] \|\| 0` equals the number of entries choosing c for p. Only voted candidates have keys. All counts add up to the number of entries. |
| Tally.CountStrict | nota/pages/api/getElectionResults.ts:38-55 | The fold fails exactly when some ballot names a position outside `0..n-1`. Otherwise the keys are exactly `0..n-1` and each lookup equals the number of entries choosing that candidate. |
| Tally.StrictStep | nota/pages/api/getElectionResults.ts:50-53 | One increment of a position the election has keeps the strict fold's state: keys exactly `0..n-1`, tallies, and all entries in range. |
| Tally.CountBallotStrict | nota/pages/api/getElectionResults.ts:47-54 | Counting one ballot throws exactly when one of its entries names a position outside `0..n-1`. Otherwise it extends the fold's state by that ballot. |
| Tally.StrayFound | nota/pages/api/getElectionResults.ts:50 | Each entry of each ballot is among the entries the fold reads. |
| Tally.CountIgnoresOrder | nota/pages/api/getElectionResults.ts:45-55 | Counts do not depend on the order of the vote rows. |
| Tally.EntriesPermutation | nota/pages/api/getElectionResults.ts:45-55 | Reordering the ballots reorders their entries and loses or adds none. |
| Tally.EntriesConcat | nota/pages/api/getElectionResults.ts:45-47 | The entries of two runs of ballots are the entries of each, one after the other. |
| Tally.Count | nota/pages/api/getElectionResults.ts:45-54 | The number of ballot entries that give position p to candidate c: the quantity each fold's lookup is proved equal to. |
| Tally.Lookup | nota/pages/api/getVoteCounts.ts:44-46 | `voteCounts[p][c] \|\| 0`: the stored count, or 0 where either key is missing. |
| Tally.Bump | nota/pages/api/getVoteCounts.ts:44-46 | One increment on the nested dictionary, creating missing entries at 0 first. Its effect is stated by `Tally.BumpCounts` and `Tally.BumpGrand`. |
| Tally.PositionsAreNamed | nota/pages/api/getVoteCounts.ts:44 | A position is among those the entries name exactly when some entry names it. |
| Tally.CountIsVoters | nota/pages/api/getElectionResults.ts:45-55 | When each ballot names each position at most once (a JSON object), a count is the number of ballots choosing that candidate. |
| Tally.OnceInWellFormed | nota/pages/api/getElectionResults.ts:46-47 | A ballot object holds each entry at most once. |
| Tally.SumUpdate | nota/pages/api/getVoteCounts.ts:46 | Setting one count changes the sum of a count map by the difference. |
| Tally.EmptyCountsFacts | nota/pages/api/getVoteCounts.ts:34-36 | The initial dictionary has no zero counts, sums to 0 and reads 0 everywhere. |
| Tally.PositionRows | nota/pages/api/getElectionResults.ts:59-65 | The rows of one position: one per candidate, in candidate order, each with its count. |
| Tally.Report | nota/pages/api/getElectionResults.ts:57-73 | The result rows: each position's candidate rows in order, then the TOTAL row. Its meaning is stated by `Tally.ReportLength`, `Tally.ReportCell`, `Tally.ReportTotal` and `Tally.ReportOnlyCells`. |
| Tally.FormatResults | nota/pages/api/getElectionResults.ts:57-73 | The pushed rows are exactly the report: candidate rows in position order and then candidate order, followed by the TOTAL row. |
| Tally.ReportLength | nota/pages/api/getElectionResults.ts:58-73 | The report has one row per candidate of every position, plus one. |
| Tally.ReportCell | nota/pages/api/getElectionResults.ts:58-66 | Candidate c of position p sits after all candidates of earlier positions. Its row carries the position name, the candidate name and its count (0 without votes). |
| Tally.ReportTotal | nota/pages/api/getElectionResults.ts:69-73 | The last row is `TOTAL / Total Votes Cast` with the number of vote rows. |
| Tally.ReportOnlyCells | nota/pages/api/getElectionResults.ts:58-66 | Every row before the last is the row of a listed candidate. A candidate index outside the list is never reported. |
| Tally.ReportIgnoresOrder | nota/pages/api/getElectionResults.ts:45-73 | Reordering the vote rows leaves the report unchanged. |
| Tally.CandidateRowsLength | nota/pages/api/getElectionResults.ts:58-66 | The candidate rows of the first p positions number their candidates. |
| Tally.CandidateRowsCell | nota/pages/api/getElectionResults.ts:58-66 | Rows of earlier positions keep their places as later positions are appended. |
| Tally.OffsetGrows | nota/pages/api/getElectionResults.ts:58-66 | A position's rows end no later than where any later position's rows begin. |
| Listing.SummaryOf | nota/pages/api/getMyElections.ts:13-33 | An entry carries the election's id, title, closed flag and creation time. Its vote count is the number of vote rows of that election, 0 when there are none. |
| Listing.Hosted | nota/pages/api/getMyElections.ts:21 | The filter keeps exactly the elections created by that email. |
| Listing.HostedMultiplicity | nota/pages/api/getMyElections.ts:21 | Each election the host created is kept exactly as often as it is stored, and no other election at all. |
| Listing.Summaries | nota/pages/api/getMyElections.ts:27-33 | One summary per row, in order. |
| Listing.Insert | nota/pages/api/getMyElections.ts:23 | Insertion adds exactly that entry and loses none. |
| Listing.ConsNewestFirst | nota/pages/api/getMyElections.ts:23 | An entry no older than everything after it can lead a newest-first list. |
| Listing.InsertNewestFirst | nota/pages/api/getMyElections.ts:23 | Insertion keeps a newest-first list newest first. |
| Listing.SortNewestFirst | nota/pages/api/getMyElections.ts:23 | The sort is a permutation of its input. |
| Listing.SortIsNewestFirst | nota/pages/api/getMyElections.ts:23 | The sort's output is ordered by creation time, descending. |
| Listing.MyElections | nota/pages/api/getMyElections.ts:4-40 | 400 "Email required" without an email, 500 on a failing query, and otherwise an answer. |
| Listing.MyElectionsAnswer | nota/pages/api/getMyElections.ts:12-35 | The answer is newest first. It is a permutation of the summaries of the host's elections, with one entry per such election. Every election the host created appears. |
| Listing.MyElectionsOnlyHosted | nota/pages/api/getMyElections.ts:21-33 | Every entry is the summary of an election the host created. |
| HostForm.Form.constructor | nota/pages/host.tsx:12-13 | The form starts with an empty title and one unnamed position with one empty candidate. |
| HostForm.Form.AddPosition | nota/pages/host.tsx:29-31 | `addPosition` appends one `{name:'', candidates:['']}`. Earlier positions and the title are unchanged. |
| HostForm.Form.AddCandidate | nota/pages/host.tsx:33-37 | `addCandidate(i)` appends `''` to position i's candidates only. |
| HostForm.Form.RemoveCandidate | nota/pages/host.tsx:150-156 | A candidate is removed (splice) only while its position has more than one, so no candidate list becomes empty. Other positions are unchanged. |
| HostForm.Form.RemovePosition | nota/pages/host.tsx:172-177 | A position is removed only while there is more than one. The rest keep their order. |
| HostForm.Form.SetTitle | nota/pages/host.tsx:112 | The title input sets the title only. |
| HostForm.Form.SetPositionName | nota/pages/host.tsx:126-129 | The name input changes that position's name only. |
| HostForm.Form.SetCandidate | nota/pages/host.tsx:142-145 | The candidate input changes that one candidate only. |
| HostForm.Form.HandleCreate | nota/pages/host.tsx:39-74 | The verdict is that of the checks. A body is sent exactly when they pass. It carries the fresh id, the title as typed, each position with its blank candidates dropped, and the user's phone number as `createdBy`. |
| HostForm.Check | nota/pages/host.tsx:39-56 | The validation loop returns the verdict of `Judge`. |
| HostForm.JudgeMeaning | nota/pages/host.tsx:39-56 | A blank title is refused first. Otherwise the form passes exactly when every position has a non-blank name and a non-blank candidate. When it fails, the alert names the first failing position in index order, for its name if blank and for its candidates otherwise. |
| HostForm.FirstProblemMeaning | nota/pages/host.tsx:46-56 | From index i on, the verdict is the first incomplete position, or acceptance when there is none. |
| HostForm.FirstProblem | nota/pages/host.tsx:46-56 | The position check of `handleCreate` from index i on; its meaning is `HostForm.FirstProblemMeaning`. |
| HostForm.Judge | nota/pages/host.tsx:39-56 | All checks of `handleCreate`, title first; its meaning is `HostForm.JudgeMeaning`. |
| HostForm.NonBlankMembers | nota/pages/host.tsx:51 | The filter keeps exactly the candidates that are not blank. |
| HostForm.NonBlankConcat | nota/pages/host.tsx:70 | Filtering distributes over concatenation, so the kept candidates stay in their original order. |
| HostForm.NonBlankIdempotent | nota/pages/host.tsx:70 | Filtering twice equals filtering once. |
| HostForm.NonBlankKeepsNamed | nota/pages/host.tsx:70 | A list without blank candidates passes unchanged. |
| HostForm.Payload | nota/pages/host.tsx:68-71 | Position names are unchanged and candidates are filtered, one position per position. |
| HostForm.PayloadOfValidated | nota/pages/host.tsx:46-71 | A body that passed the checks has non-blank names and non-empty lists of non-blank candidates. |
| HostForm.WithoutIsSplice | nota/pages/host.tsx:175 | Filtering by index removes exactly the entry at that index and keeps the rest in order. |
| HostForm.Without | nota/pages/host.tsx:175 | `filter((_, idx) => idx !== i)`; `HostForm.WithoutIsSplice` states that it removes exactly that entry. |
| MyElectionsPage.Sanitize | nota/pages/my-elections.tsx:92 | The sanitised name has the title's length, and each character is an ASCII letter, digit or `_`. |
| MyElectionsPage.SanitizeKeepsAlnum | nota/pages/my-elections.tsx:92 | Letters and digits stay in place; every other character becomes `_`. |
| MyElectionsPage.SanitizeIdempotent | nota/pages/my-elections.tsx:92 | Sanitising twice equals sanitising once. |
| MyElectionsPage.SanitizeKeepsPlainTitles | nota/pages/my-elections.tsx:92 | A title of letters and digits is its own stem. |
| MyElectionsPage.DownloadName | nota/pages/my-elections.tsx:92 | The spreadsheet's file name; its shape is `MyElectionsPage.DownloadNameShape`. |
| MyElectionsPage.DownloadNameShape | nota/pages/my-elections.tsx:92 | The file name is the sanitised title followed by `_results.xlsx`. Every character is an ASCII letter, a digit, `_` or `.`. |
| MyElectionsPage.ShareLinkParts | nota/pages/my-elections.tsx:171-172 | The link is the trimmed base URL, then `/election/`, then the election id. |
| MyElectionsPage.ShareLink | nota/pages/my-elections.tsx:163-172 | The link shown and copied; its parts are `MyElectionsPage.ShareLinkParts`. |
| MyElectionsPage.ShareLinkWithoutBase | nota/pages/my-elections.tsx:163 | Without a base URL, or with a blank one, the link is `/election/<id>`. |
| MyElectionsPage.ShareLinkInjective | nota/pages/my-elections.tsx:171-172 | Different elections get different links. |
| MyElectionsPage.ButtonsFor | nota/pages/my-elections.tsx:193-210 | "Close Election" appears only for open elections and shows "Closing..." while its own request runs. "Download Excel" appears only for closed elections. |
| MyElectionsPage.CloseOrDownload | nota/pages/my-elections.tsx:193-210 | Exactly one of the two buttons is shown. |
| MyElectionsPage.DownloadOutcome | nota/pages/my-elections.tsx:91-95 | The download runs only when the response is ok and has results. Otherwise the alert shows the error, or "No results available". |
| MyElectionsPage.Fields | nota/pages/my-elections.tsx:88-91 | What the page reads from the results route's answer: `response.ok`, `data.results` and `data.error`. |
| MyElectionsPage.DownloadOfResponse | nota/pages/my-elections.tsx:86-96 | Against the results route, the full report is written to the sanitised file name exactly when the route answers 200. A route error reaches the alert. |
| MyElectionsPage.CloseResult | nota/pages/my-elections.tsx:69-77 | Closing succeeds exactly when the response is ok. Otherwise the alert shows the error, or "Unknown error". |
| Login.DigitsOnly | nota/pages/login.tsx:130 | The filtered code is all digits and no longer than the input. |
| Login.DigitsOnlyMembers | nota/pages/login.tsx:130 | The filter keeps every digit and only digits. |
| Login.DigitsOnlyConcat | nota/pages/login.tsx:130 | Filtering distributes over concatenation, so digits keep their order. |
| Login.DigitsOnlyKeepsDigits | nota/pages/login.tsx:130 | A string of digits passes unchanged. |
| Login.DigitsOnlyIdempotent | nota/pages/login.tsx:130 | Filtering twice equals filtering once. |
| Login.DigitsOnlyOfNonDigits | nota/pages/login.tsx:130 | A string without digits filters to the empty code. |
| Login.DigitsOnlyIgnoresNonDigits | nota/pages/login.tsx:130 | Non-digits inserted anywhere change nothing. |
| Login.LoginPage.constructor | nota/pages/login.tsx:10-14 | The page starts in the phone step with empty inputs and no error. |
| Login.LoginPage.PhoneStep | nota/pages/login.tsx:96 | The phone form is shown exactly while no confirmation is pending. |
| Login.LoginPage.PhoneChanged | nota/pages/login.tsx:102 | The phone input sets the phone only. |
| Login.LoginPage.OtpChanged | nota/pages/login.tsx:130 | The code field receives the digits of what was typed. |
| Login.LoginPage.SendOtp | nota/pages/login.tsx:37-64 | An empty phone or one shorter than 10 characters is refused with "Please enter a valid phone number", without touching the confirmation. On success the code step opens for that phone and the error is cleared. On failure the error is Firebase's message or the default. `loading` is false afterwards. |
| Login.LoginPage.VerifyOtp | nota/pages/login.tsx:66-85 | A code whose length is not exactly 6 is refused with "Please enter a valid 6-digit OTP". Otherwise an accepted code signs in, and a refused one sets "Invalid OTP. Please try again.". `loading` is false afterwards. |
| Login.LoginPage.ChangePhone | nota/pages/login.tsx:152-156 | "Change Phone Number" returns to the phone step, with the confirmation reset and an empty code and error. |

## Left out

- Postgres and the `pg` pool (nota/lib/db.ts is not part of this model): the tables are values in memory. A failing query is a boolean parameter. SQL text is modelled only through what each query selects.
- Concurrency: each route is one method, called one request at a time. The race between the duplicate check and the insert of `submitVote` is not modelled.
- SHA-256 is a function parameter. `created_at` is the parameter `now`.
- The primary key on `elections.id` is assumed: the schema is not part of this model. `CreateElection` therefore refuses a taken id with 500 "db".
- Database.Db.CloseElection: does not model store failures. The route has no `catch`, so a failing query ends in an unhandled rejection and no JSON answer.
- Database.Db.SubmitVote: `email` is assumed to be a string. A non-string email making `toLowerCase` throw is not modelled.
- Text.Lower: lowercases ASCII letters only. JavaScript's full Unicode case mapping is not modelled.
- Lengths are counted in Unicode scalar values, not UTF-16 code units. For characters outside the Basic Multilingual Plane, `phone.length`, `otp.length` and the sanitiser's one `_` per code unit differ from the model.
- A `vote_json` that is `null` or not an object, and `parseInt` yielding `NaN`, are not modelled: a ballot is a list of integer pairs.
- Listing.SortNewestFirst: elections with equal `created_at` are kept in input order. Postgres leaves their order unspecified, and the model fixes one.
- Store.RowsFor: the rows come back in table order. The votes queries have no `ORDER BY`, so Postgres leaves their order unspecified, and the model fixes one. The counts and the report are proved not to depend on it (`Tally.CountIgnoresOrder`, `Tally.ReportIgnoresOrder`).
- Store.Ballots: the ballots come back in table order, for the same reason. Only the order of the `votes` list answered by `closeElection` is affected: `Database.Db.CloseElection` states one order where Postgres promises none.
- The voter page nota/pages/election/[id].tsx posts `{ id, votes, phoneNumber }` without an `email` field (lines 127-134). `submitVote` reads `email` from the body, so every ballot from that page is refused with 400 "Email required" (`Database.Db.SubmitVote`, the `!Given(email)` case). Only nota/pages/election/[id]_new.tsx sends `email: user.email`. The voter pages are not otherwise part of this model.
- The number in the alerts `Position ${i + 1}` is not rendered as text. `HostForm.Verdict` carries the index instead.
- `[...positions]` copies the list but not the position objects. The editing handlers therefore also change the previous React state in place. The model treats the form as one value updated in place.
- The `maxLength={6}` attribute of the code input is a browser limit on typing and is not modelled; `VerifyOtp` checks the length itself.
- Firebase, reCAPTCHA, `signInWithPhoneNumber` and `confirm` are parameters: whether the code was sent, the error message, and whether the code was accepted. Auth-state listeners, routing and rendering are not modelled.
- `fetch`, `alert`, `window.confirm`, the clipboard, DOM toasts and date formatting are not modelled, apart from the alert texts of the download and close outcomes.
- nota/utils/excel.ts (the spreadsheet writer) and nota/utils/deviceFingerprint.ts are not part of this model.
- nota/pages/api/getResults.ts and nota/pages/api/getElectionWithHost.ts are not part of this model.
- The host page sends `user?.phoneNumber` as `createdBy` (`HostForm.Form.HandleCreate` carries it in the body), while the election list asks `getMyElections` for the signed-in user's email. A phone-only account has no email, so the list page never sends its request and stays on "Loading your elections..."; an account with both finds only elections whose creator equals its email. The page's loading state and authentication listener are not modelled.
