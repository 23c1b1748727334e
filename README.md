# JayTec E-Voting: a Dafny model of the voting core

JayTec E-Voting is a web application for running elections. Administrators create elections and
open or close them. They verify registered voters and publish results. Verified voters choose
one candidate per position and submit a ballot. Each vote is stored in the `votes` table and
raises its candidate's `vote_count`. The results page lists the published elections with
per-position totals, rounded percentages and one winner per position. Around this core sit a
route guard, Clerk user webhooks that keep the `users` table in step with sign-ups, a contact
form with a mail endpoint, environment and credential checks, and a few pages whose handlers
validate forms step by step.

The model covers the following:

- **Data and fixtures.** The table rows, inserts and updates, and the demo fixture, in
  `database_types.dfy` and `demo_data.dfy`.
- **The hosted tables.** An in-memory stand-in for them: class `Tables.Database`. Each table
  operation is a pure function with lemmas about it, plus a method that applies it to the
  fields.
- **The results page.** A pure projection in `results.dfy`. The ordering by vote count is a
  stable insertion sort, so candidates with equal counts keep their table order.
  `Math.round(count / total * 100)` is computed exactly over the integers.
- **The voter and admin dashboards.** Classes whose methods update the page state and the
  tables, in `voter_dashboard.dfy` and `admin_dashboard.dfy`. The insert-then-increment loop of
  `submitVotes` is a `while` loop proved against `ApplyIncrements`. The at-most-one-vote-per-
  position property is proved under the display gate, which is the only duplicate guard the
  source has. `ResubmitDuplicates` shows that nothing else stops a second, identical ballot.
- **The route guard** and **the two Clerk webhook handlers**, in `protected_route.dfy`,
  `clerk_webhook_api.dfy` and `clerk_webhook_server.dfy`.
- **The two contact endpoints** and **the contact page**, in `contact_route.dfy`,
  `contact_api.dfy` and `contact_page.dfy`.
- **The environment and credential checks**, in `environment_check.dfy` and
  `supabase_config.dfy`.
- **The register and reset-password handlers**, in `register.dfy` and `reset_password.dfy`.
- **The demo carousel and the pricing arithmetic**, in `demo_slider.dfy` and `pricing.dfy`.
- **Shared JavaScript primitives**: `Array.filter`, `||` on optional strings, `includes`,
  `slice`, `substring`, `toUpperCase`, `Number.toString`, `Math.round` of a quotient, and
  string `<`. They live in `js_prims.dfy`.

Outside inputs are parameters of the methods. These include query and insert success,
per-call `increment_vote` success, database-generated ids and timestamps, the svix signature
verdict, zod's e-mail verdict, `Date.now()` and `Math.random()` text.

Where the two contact endpoints differ, each is modelled as written. `server/routes/contact.ts`
sends support mail to `support@jaytec.com` and `api/contact.ts` to `support@jaytecgh.com`; both
use the same subject. The contact page checks name, e-mail and message but not the subject,
while both servers require a non-empty subject. `ContactPage.EmptySubjectRejected` states this
gap. The users table declares `first_name` and `last_name` as `string`, so a Clerk event whose
name is `null` cannot be upserted by `api/webhook/clerk.ts` (`ClerkWebhookApi.UpsertRow` is
`None`, and the handler answers 500). The server route stores `""` in their place.

## Model

| member | source | states |
|---|---|---|
| JsPrims.RoundDiv | client/pages/Results.tsx:120-123 | the integer r with 2br ≤ 2a + b < 2b(r+1): `Math.round(a / b)` over exact rationals, halves rounded up |
| JsPrims.FilterOnly | client/pages/Results.tsx:82-86 | a filter that only the element at index k satisfies gives exactly `[s[k]]` |
| JsPrims.FilterAppend | client/pages/Results.tsx:82-86 | filtering distributes over concatenation |
| JsPrims.Utf16Length | server/routes/contact.ts:10 | JavaScript's `.length`: one code unit per character below U+10000 and two above, so between the character count and twice it |
| JsPrims.Utf16LengthAppend | server/routes/contact.ts:10 | the code-unit length of a concatenation is the sum of the lengths |
| JsPrims.DecimalRoundTrip | server/routes/clerk-webhook.ts:75-77 | `Number.toString` of a natural is a digit string that reads back to the number |
| JsPrims.LastDigitsValue | server/routes/clerk-webhook.ts:75-77 | `slice(-6)` of the decimal text is the number modulo 10^6, written in at most six digits |
| JsPrims.IncludesAt | client/lib/supabase.ts:10-13 | `includes` holds iff the needle occurs at some offset |
| DatabaseTypes.ParseRole | shared/database.types.ts:19 | a role text parses iff it is exactly "voter" or "admin", and parsing inverts `RoleName` |
| DatabaseTypes.RoleRoundTrip | shared/database.types.ts:174 | every role survives printing and parsing |
| DatabaseTypes.ApplyElectionUpdate | shared/database.types.ts:72-83 | each column of the updated election is the update's value if named, otherwise the old value |
| DatabaseTypes.ApplyUserUpdate | shared/database.types.ts:35-45 | each column of the updated user is the update's value if named, otherwise the old value |
| DatabaseTypes.EmptyUpdateKeepsRow | shared/database.types.ts:35-45 | an update naming no field leaves the row equal to itself |
| DatabaseTypes.ElectionFromInsert | shared/database.types.ts:60-70 | the new row holds every required column of the insert and every optional column the insert names, `created_at` and `updated_at` included |
| DatabaseTypes.PositionFromInsert | shared/database.types.ts:94-100 | the new position holds its election reference, title and description, and `max_votes` when given |
| DatabaseTypes.CandidateFromInsert | shared/database.types.ts:121-128 | the new candidate holds its position reference, name and bio, and `vote_count` when given |
| DatabaseTypes.VoteFromInsert | shared/database.types.ts:149-155 | the new vote holds its user, candidate, position and election references |
| DatabaseTypes.UserFromInsert | shared/database.types.ts:24-33 | the new user holds id, email, voter id and names, and role and verification when given |
| DatabaseTypes.FilterKeysDistinct | shared/database.types.ts:86-93 | a filtered table keeps distinct primary keys |
| DemoDates.Election1DatesOrdered | client/lib/demo-data.ts:14-15 | the first demo election starts before it ends |
| DemoDates.Election2DatesOrdered | client/lib/demo-data.ts:25-26 | the second demo election starts before it ends |
| DemoData.GetDemoData | client/lib/demo-data.ts:172-177 | the fixture has 2 elections, 6 users, 2 positions and 5 candidates |
| DemoData.DemoOwnershipTree | client/lib/demo-data.ts:105-170 | every demo position names a demo election and every demo candidate a demo position |
| DemoData.DemoKeysDistinct | client/lib/demo-data.ts:8-170 | ids are unique within each demo table, and every demo position has `max_votes` 1 |
| DemoData.DemoElectionFlags | client/lib/demo-data.ts:16-29 | demo-election-1 is active and published; demo-election-2 is neither |
| DemoData.DemoUserRoles | client/lib/demo-data.ts:43-66 | exactly one demo user is an admin, and demo-user-2 is the only unverified one |
| DemoData.DemoElectionDatesOrdered | client/lib/demo-data.ts:14-26 | every demo election's start date sorts before its end date |
| Tables.UpdateElections | client/pages/AdminDashboard.tsx:172-175 | `update(...).eq("id", id)`: rows with the id get the update, the others are kept |
| Tables.UpdateUsers | client/pages/AdminDashboard.tsx:213-216 | rows with the id get the update, the others are kept, and the length is kept |
| Tables.DeleteUsers | server/routes/clerk-webhook.ts:140-157 | `delete().eq("id", id)`: a row remains iff it was there and has another id |
| Tables.InsertUsers | server/routes/clerk-webhook.ts:80-92 | an insert fails iff the id is taken; otherwise the new row is appended |
| Tables.InsertElections | client/pages/AdminDashboard.tsx:139-147 | an insert fails iff the id is taken; otherwise the new row is appended |
| Tables.UpsertUsers | api/webhook/clerk.ts:59-67 | `upsert` keyed by id: the named columns overwrite the row with the id, or a new row is appended |
| Tables.UpsertResult | api/webhook/clerk.ts:59-67 | after an upsert ids stay distinct, exactly one row has the id, it holds the named columns, and every other row is kept (both ways) |
| Tables.RecordedVotes | client/pages/VoterDashboard.tsx:203 | one stored vote per ballot row, holding its references |
| Tables.Incremented | client/pages/VoterDashboard.tsx:209-211 | `increment_vote(cid)` raises exactly the counters of rows with that id by one and changes no other column |
| Tables.ApplyIncrements | client/pages/VoterDashboard.tsx:208-214 | the table after the calls in order, each succeeding one applying `Incremented`; its size is kept |
| Tables.IncrementsPerCandidate | client/pages/VoterDashboard.tsx:208-214 | after the loop each counter rose by the number of succeeding calls naming it |
| Tables.IncrementedTotal | client/pages/VoterDashboard.tsx:209-211 | with distinct ids one call raises the total by one iff the candidate exists |
| Tables.IncrementsTotal | client/pages/VoterDashboard.tsx:203-214 | the counters rise in total by the number of effective calls, at most the ballot size, and exactly the ballot size when every call succeeds on an existing candidate |
| Tables.Database.UpdateElection | client/pages/AdminDashboard.tsx:172-175 | the elections become `UpdateElections` of the old table; the other tables are unchanged |
| Tables.Database.InsertElection | client/pages/AdminDashboard.tsx:139-147 | reports success iff the insert applies, stores its result; the other tables are unchanged |
| Tables.Database.UpdateUser | server/routes/clerk-webhook.ts:122-128 | the users become `UpdateUsers` of the old table; the other tables are unchanged |
| Tables.Database.InsertUser | server/routes/clerk-webhook.ts:80-92 | reports success iff the insert applies, stores its result; the other tables are unchanged |
| Tables.Database.DeleteUser | server/routes/clerk-webhook.ts:144-147 | the users become `DeleteUsers` of the old table; the other tables are unchanged |
| Tables.Database.UpsertUser | api/webhook/clerk.ts:59-67 | the users become `UpsertUsers` of the old table; the other tables are unchanged |
| Tables.Database.InsertVotes | client/pages/VoterDashboard.tsx:203 | the ballot's votes are appended; the other tables are unchanged |
| Tables.Database.IncrementVote | client/pages/VoterDashboard.tsx:209-211 | the candidates become `Incremented` of the old table; the other tables are unchanged |
| Results.SumVotes | client/pages/Results.tsx:112-115 | with non-negative counts the total is non-negative and bounds every count |
| Results.SumVotesAppend | client/pages/Results.tsx:112-115 | the total of a concatenation is the sum of the totals |
| Results.SortByVotes | client/pages/Results.tsx:108 | the sorted list is a permutation of the input in descending `vote_count` order |
| Results.SortKeepsTies | client/pages/Results.tsx:108 | the sort is stable: candidates with equal counts keep their table order |
| Results.SortKeepsSum | client/pages/Results.tsx:108-115 | sorting does not change the total |
| Results.FirstMaxIndex | client/pages/Results.tsx:124 | reference winner: the first index holding the maximum count |
| Results.SortHeadIsFirstMax | client/pages/Results.tsx:108-124 | the candidate sorted first is the reference winner |
| Results.Percentage | client/pages/Results.tsx:117-123 | the nearest integer to 100·count/total (halves up), 0 when the total is 0, and in [0,100] when 0 ≤ count ≤ total |
| Results.ProjectPosition | client/pages/Results.tsx:102-132 | a position keeps its row and lists one entry per candidate naming it |
| Results.ProjectElection | client/pages/Results.tsx:90-145 | an election keeps its row and lists one entry per position naming it |
| Results.SortByCreated | client/pages/Results.tsx:86 | the elections are a permutation of the input, newest first |
| Results.FetchResults | client/pages/Results.tsx:77-149 | one entry per published election |
| Results.PublishedOnly | client/pages/Results.tsx:82-86 | an election is listed iff it is in the table with `results_published`, as often as there, newest first |
| Results.ResultsPage.Initialize | client/pages/Results.tsx:64-71 | without a session token nothing is fetched; with one the page state is that of `Fetch` |
| Results.ResultsPage.Fetch | client/pages/Results.tsx:77-156 | on success the listing becomes `FetchResults` of the tables; on an error it is kept; both spinners stop |
| Results.ResultsPage.HandleRefresh | client/pages/Results.tsx:158-160 | a refresh fetch: the same outcome as `Fetch` |
| Results.ProjectCandidates | client/pages/Results.tsx:117-126 | one entry per sorted candidate |
| Results.PositionTotal | client/pages/Results.tsx:112-115 | a position's total is the vote sum of the candidates naming it |
| Results.PositionKeepsRows | client/pages/Results.tsx:117-126 | the projection lists exactly the position's candidate rows unchanged, sorted by votes, ties in table order |
| Results.PercentagesInRange | client/pages/Results.tsx:117-123 | with non-negative counts each percentage lies in [0,100] and is the rounded share of the position total |
| Results.CandidatePercentages | client/pages/Results.tsx:117-123 | every projected candidate carries its rounded share of the total it is given |
| Results.SingleWinner | client/pages/Results.tsx:108-124 | a non-empty position has exactly one winner, listed first, the first in table order with the most votes and with no fewer votes than any other; an empty position has none |
| Results.TotalsOverPositions | client/pages/Results.tsx:136-139 | with distinct position ids the sum of position totals is the vote sum of candidates naming any of them |
| Results.ElectionTotal | client/pages/Results.tsx:136-139 | an election's total is the sum of its position totals, i.e. the votes of the candidates of its positions |
| Results.TiedPositionExample | client/pages/Results.tsx:108-126 | counts 30, 30, 10 give shares 43, 43, 14 and only the first tied candidate is flagged |
| VoterDashboard.ViewOf | client/pages/VoterDashboard.tsx:70-84 | one position view per position naming the election |
| VoterDashboard.ViewOfContents | client/pages/VoterDashboard.tsx:70-84 | a view holds exactly the election's positions and each exactly its candidates |
| VoterDashboard.GroupActive | client/pages/VoterDashboard.tsx:68-84 | one view per active election |
| VoterDashboard.GroupActiveContents | client/pages/VoterDashboard.tsx:68-84 | the demo listing holds exactly the active elections, each with exactly its positions and candidates |
| VoterDashboard.ActiveListing | client/pages/VoterDashboard.tsx:91-132 | one view per active election of the table |
| VoterDashboard.ActiveListingContents | client/pages/VoterDashboard.tsx:91-132 | the listing shows the table's active elections, each as often as there, newest first, each view holding exactly its positions and their candidates |
| VoterDashboard.HasVotedForPosition | client/pages/VoterDashboard.tsx:171-173 | true iff some loaded vote names the position |
| VoterDashboard.BuildBallot | client/pages/VoterDashboard.tsx:194-201 | one row per position with a selection |
| VoterDashboard.BallotContents | client/pages/VoterDashboard.tsx:194-201 | each ballot row holds the user's id, the election's id and the selected candidate; a position is on the ballot iff it belongs to the election and has a selection; the rows follow the election's position order |
| VoterDashboard.GateHolds | client/pages/VoterDashboard.tsx:358-365 | every selection names a position the user has not voted on, since voted positions show no control |
| VoterDashboard.GateKeepsOneVotePerPosition | client/pages/VoterDashboard.tsx:358-365 | under the display gate, with distinct positions, recording the ballot keeps at most one vote per user and position |
| VoterDashboard.ResubmitDuplicates | client/pages/VoterDashboard.tsx:175-214 | recording the same non-empty ballot twice gives a user two votes for one position |
| VoterDashboard.FindElection | client/pages/VoterDashboard.tsx:191 | `find` returns the first listed election with the id, and nothing iff none has it |
| VoterDashboard.ShowsSubmit | client/pages/VoterDashboard.tsx:410-424 | the button shows for a verified user when some position is unvoted |
| VoterDashboard.SubmitEnabled | client/pages/VoterDashboard.tsx:410-424 | the shown button is enabled when nothing is submitting and an unvoted position has a selection |
| VoterDashboard.EnabledSubmitHasBallot | client/pages/VoterDashboard.tsx:410-424 | an enabled submit button submits a non-empty ballot |
| VoterDashboard.DemoVote | client/pages/VoterDashboard.tsx:146-155 | the simulated vote is the user's, for demo-position-1 |
| VoterDashboard.CandidateIds | client/pages/VoterDashboard.tsx:208-211 | the candidate ids of the ballot, in ballot order |
| VoterDashboard.VoterDashboardPage.FetchActiveElections | client/pages/VoterDashboard.tsx:63-138 | demo grouping without credentials, the table listing on success, the old listing on failure; loading ends |
| VoterDashboard.VoterDashboardPage.FetchUserVotes | client/pages/VoterDashboard.tsx:140-169 | nothing without a profile id, the demo vote without credentials, the user's rows on success |
| VoterDashboard.VoterDashboardPage.SelectCandidate | client/pages/VoterDashboard.tsx:368-372 | only the position's entry of the selection changes |
| VoterDashboard.VoterDashboardPage.SubmitVotes | client/pages/VoterDashboard.tsx:175-223 | no profile: nothing; demo: cleared selection, no write; unknown election: nothing; insert failure: no table change; otherwise the ballot is appended, the counters become `ApplyIncrements` over the ballot, the selection is cleared and submitting ends |
| AdminDashboard.ToggleActive | client/pages/AdminDashboard.tsx:172-175 | the row with the id gets `is_active := !v`; every other row and column is unchanged |
| AdminDashboard.TogglePublished | client/pages/AdminDashboard.tsx:194-197 | the row with the id gets `results_published := !v`; every other row and column is unchanged |
| AdminDashboard.SetVerified | client/pages/AdminDashboard.tsx:213-216 | the user with the id gets `is_verified := !v`; every other row and column is unchanged |
| AdminDashboard.TogglesIdempotent | client/pages/AdminDashboard.tsx:172-216 | repeating a toggle with the same argument changes nothing further |
| AdminDashboard.TogglesInvolutive | client/pages/AdminDashboard.tsx:172-216 | passing the stored value, then its negation, restores the table |
| AdminDashboard.FlagsIndependent | client/pages/AdminDashboard.tsx:172-197 | each toggle keeps the other flag, the two commute, and together they set any of the four combinations |
| AdminDashboard.StatsOf | client/pages/AdminDashboard.tsx:225-250 | the counters are the number of elections, of users, of verified users and of active elections, each part at most its whole |
| AdminDashboard.VerifyChangesCount | client/pages/AdminDashboard.tsx:213-240 | verifying an unverified user raises the verified count by one; revoking lowers it by one |
| AdminDashboard.VerifiedCounterMoves | client/pages/AdminDashboard.tsx:206-250 | after `verifyUser` on a matching row the verified-voters counter moves by one and the other three counters stay |
| AdminDashboard.PublishingShowsResults | client/pages/AdminDashboard.tsx:194-197 | publishing an election's results makes it appear on the results page |
| AdminDashboard.ElectionInsertOf | client/pages/AdminDashboard.tsx:139-145 | the insert holds the form's title, description and dates and `created_by` = profile id or "" |
| AdminDashboard.AdminDashboardPage.FetchElections | client/pages/AdminDashboard.tsx:82-101 | demo elections without credentials, the table newest first on success, the old list on failure |
| AdminDashboard.AdminDashboardPage.FetchUsers | client/pages/AdminDashboard.tsx:103-122 | demo users without credentials, the table on success, the old list on failure; loading ends |
| AdminDashboard.AdminDashboardPage.CreateElection | client/pages/AdminDashboard.tsx:124-160 | demo: dialog closed and form reset, no write; otherwise the insert, and on success the dialog closed, the form reset and the listing reloaded newest first (kept when the reload fails); on failure nothing changes |
| AdminDashboard.AdminDashboardPage.ToggleElectionStatus | client/pages/AdminDashboard.tsx:162-182 | demo or failure: no change; otherwise the table becomes `ToggleActive` of the old one and the listing is reloaded newest first, or kept when the reload fails |
| AdminDashboard.AdminDashboardPage.ToggleResultsPublication | client/pages/AdminDashboard.tsx:184-204 | demo or failure: no change; otherwise the table becomes `TogglePublished` of the old one and the listing is reloaded newest first, or kept when the reload fails |
| AdminDashboard.AdminDashboardPage.VerifyUser | client/pages/AdminDashboard.tsx:206-223 | demo or failure: no change; otherwise the users become `SetVerified` of the old table, the user listing is reloaded (kept when the reload fails) and loading ends |
| ProtectedRoute.Guard | client/components/ProtectedRoute.tsx:12-48 | spinner while loading, /login when signed out, children iff signed in, verified, profile loaded and (no admin requirement or an admin) |
| ProtectedRoute.UnverifiedNeverShowsChildren | client/components/ProtectedRoute.tsx:28-30 | with `isEmailVerified` falsy the guard never renders its children; once loaded it always redirects |
| ProtectedRoute.UnverifiedGoesToVerify | client/components/ProtectedRoute.tsx:28-30 | an unverified signed-in user goes to /verify-email whatever the profile and the route |
| ProtectedRoute.VoterRedirect | client/components/ProtectedRoute.tsx:44-46 | the guard sends to /voter iff the route requires an admin and a loaded profile is a voter |
| ProtectedRoute.RequireAdminDefault | client/components/ProtectedRoute.tsx:12-13 | omitting `requireAdmin` is passing false; an admin sees the same on every route |
| ProtectedRoute.LoadingIgnoresRest | client/components/ProtectedRoute.tsx:16-22 | while loading the spinner is shown whatever else holds |
| ClerkWebhookApi.UpsertRow | api/webhook/clerk.ts:44-67 | the row exists iff the role (default "voter") is valid and both names are present; email = first address or "", voter_id = metadata or "", `is_verified` iff status "verified" |
| ClerkWebhookApi.RoleDefault | api/webhook/clerk.ts:56 | a missing role becomes "voter" |
| ClerkWebhookApi.UpsertedUser | api/webhook/clerk.ts:59-67 | after the upsert exactly one user has the event's id, holding the mapped columns, and the other users are kept |
| ClerkWebhookApi.HeadersPresent | api/webhook/clerk.ts:17-23 | all three svix headers are present and non-empty |
| ClerkWebhookApi.IsUserEvent | api/webhook/clerk.ts:44 | the event type is user.created or user.updated |
| ClerkWebhookApi.HandleWebhook | api/webhook/clerk.ts:12-80 | 405 for other methods, 400 with no verification when a header is missing, 400 on a bad signature; user events upsert (200, or 500 on error), other events write nothing (200) |
| ClerkWebhookServer.PrimaryEmail | server/routes/clerk-webhook.ts:67-72 | found iff some address has the primary id, and then it is such an address |
| ClerkWebhookServer.FindEmail | server/routes/clerk-webhook.ts:67-69 | `find` returns the first address with the id, and nothing iff none has it |
| ClerkWebhookServer.VoterId | server/routes/clerk-webhook.ts:75-78 | the voter id starts with "V" and has 2 to 10 characters |
| ClerkWebhookServer.VoterIdShape | server/routes/clerk-webhook.ts:75-78 | "V", then the timestamp modulo 10^6 in decimal (six digits for timestamps from 100000), then up to 3 uppercased random characters |
| ClerkWebhookServer.CreatedRow | server/routes/clerk-webhook.ts:80-92 | a created row is a verified voter with the primary e-mail, names defaulting to "" and both timestamps from `created_at` |
| ClerkWebhookServer.UpdatedColumns | server/routes/clerk-webhook.ts:122-128 | an update writes e-mail, names and `updated_at` only |
| ClerkWebhookServer.UpdateKeepsAccountColumns | server/routes/clerk-webhook.ts:122-128 | an update keeps every user's id, voter id, role and verification |
| ClerkWebhookServer.HandleUserCreated | server/routes/clerk-webhook.ts:57-102 | without a primary e-mail, or on a database error, the users stay; otherwise the created row is inserted |
| ClerkWebhookServer.HandleUserUpdated | server/routes/clerk-webhook.ts:104-138 | without a primary e-mail, or on a database error, the users stay; otherwise the update is applied |
| ClerkWebhookServer.HandleUserDeleted | server/routes/clerk-webhook.ts:140-157 | the user's rows are deleted unless the database reports an error |
| ClerkWebhookServer.Dispatched | server/routes/clerk-webhook.ts:33-48 | other types write nothing; a delete removes exactly the id's rows; no primary e-mail means no create or update |
| ClerkWebhookServer.HandleClerkWebhook | server/routes/clerk-webhook.ts:7-55 | 500 without a secret and 400 on a bad signature, both with no write; otherwise 200 after the dispatch |
| ClerkWebhookServer.CreatedIsAppended | server/routes/clerk-webhook.ts:57-92 | a created user with a new id is appended as the created row |
| ContactRoute.StringAtLeast | server/routes/contact.ts:6-12 | `z.string().min(k)`: the field is a string of at least k UTF-16 code units |
| ContactRoute.SchemaAccepts | server/routes/contact.ts:6-12 | name, e-mail and subject are non-empty strings, the e-mail passes zod's check, the message has at least 10 UTF-16 code units, and `inquiryType` is absent or a string |
| ContactRoute.SchemaRejects | server/routes/contact.ts:6-12 | a missing or non-string required field, an empty name, e-mail or subject, a message under 10 code units (so any under 5 characters), a non-string `inquiryType` or a failed e-mail check is rejected |
| ContactRoute.EmojiMessageAccepted | server/routes/contact.ts:10 | a message of 8 letters and one emoji (9 characters, 10 code units) passes the minimum length |
| ContactRoute.InquiryTypeOf | server/routes/contact.ts:11 | the optional inquiry type is present exactly when the field is a string, and is that string |
| ContactRoute.DemoMode | server/routes/contact.ts:24-27 | demo mode when the mail-service key is unset, empty or "demo-key" |
| ContactRoute.SupportSubject | server/routes/contact.ts:49 | "[JayTec E-Voting] ", then "[type] " exactly when the inquiry type is non-empty, then the subject |
| ContactRoute.SupportMail | server/routes/contact.ts:46-74 | the support mail goes to support and replies to the submitter |
| ContactRoute.ConfirmationMail | server/routes/contact.ts:77-120 | the confirmation goes to the submitter |
| ContactRoute.HandleContact | server/routes/contact.ts:17-148 | 400 "Validation error" when the schema rejects (in particular a non-string `inquiryType`), 200 without mail in demo mode, otherwise 200 with both mails or 500; `success` iff 200; the demo, sent and failure message texts |
| ContactRoute.MailsGoToSubmitter | server/routes/contact.ts:49-79 | the support mail replies to the submitter, the confirmation addresses them, and the subject carries the optional type |
| ContactApi.SupportMail | api/contact.ts:30-36 | the support mail goes to support, replies to the submitter and uses the shared subject |
| ContactApi.ConfirmationMail | api/contact.ts:38-43 | the confirmation goes to the submitter |
| ContactApi.Handler | api/contact.ts:16-54 | 405 before validation, 400 when the schema rejects (in particular a non-string `inquiryType`), 200 without mail in demo mode, otherwise 200 with both mails or 500 |
| ContactApi.SameSupportSubject | api/contact.ts:33-35 | both endpoints compose the same subject and reply-to, to different support mailboxes |
| EnvironmentCheck.ClerkUnconfigured | client/components/EnvironmentCheck.tsx:26-38 | the Clerk key is unset, empty or one of its three placeholders |
| EnvironmentCheck.UrlUnconfigured | client/components/EnvironmentCheck.tsx:40-51 | the Supabase URL is unset, empty or one of its two placeholders |
| EnvironmentCheck.KeyUnconfigured | client/components/EnvironmentCheck.tsx:53-64 | the anon key is unset, empty or one of its two placeholders |
| EnvironmentCheck.CheckEnvironment | client/components/EnvironmentCheck.tsx:19-67 | the pushes produce exactly the expected issue list |
| EnvironmentCheck.IssuesCharacterized | client/components/EnvironmentCheck.tsx:19-66 | one issue per unconfigured variable, iff it is missing or a placeholder, at most three, in the order Clerk key, URL, key |
| EnvironmentCheck.RenderGate | client/components/EnvironmentCheck.tsx:72-74 | children render iff no variable is unconfigured |
| SupabaseConfig.Credentials | client/lib/supabase.ts:4-7 | missing or empty env values fall back to the demo URL and key |
| SupabaseConfig.HasValidCredentials | client/lib/supabase.ts:10-13 | neither value is its demo fallback and the URL contains ".supabase.co" |
| SupabaseConfig.ValidIff | client/lib/supabase.ts:10-13 | credentials are valid iff the URL is not the demo URL, the key not the demo key, and the URL contains ".supabase.co" |
| SupabaseConfig.FallbacksInvalid | client/lib/supabase.ts:4-13 | with the key unset the credentials are invalid whatever the URL |
| SupabaseConfig.RealProjectValid | client/lib/supabase.ts:10-13 | a real project URL with a real key is valid |
| SupabaseConfig.ForeignUrlInvalid | client/lib/supabase.ts:10-13 | a URL without ".supabase.co" is invalid |
| Register.WithField | client/pages/Register.tsx:70-72 | the named field takes the value |
| Register.WithFieldOnly | client/pages/Register.tsx:70-72 | every other field is unchanged |
| Register.Validate | client/pages/Register.tsx:37-51 | "All fields are required." iff a required field is empty; "Passwords do not match." iff all are filled and the passwords differ; otherwise valid |
| Register.SignUpOf | client/pages/Register.tsx:54-59 | sign-up always gets role "voter" and the form's e-mail, password, voter id, first and last name |
| Register.RegisterPage.HandleInputChange | client/pages/Register.tsx:70-72 | the form becomes `WithField` of the old form |
| Register.RegisterPage.HandleSubmit | client/pages/Register.tsx:33-68 | a validation error is shown with no sign-up; otherwise sign-up is called, its error (or a default) shown or success set and loading ends; a throwing call leaves the page loading with no message and `success` unchanged |
| ResetPassword.ResetPasswordPage.HandleSubmit | client/pages/ResetPassword.tsx:25-63 | a missing code, then mismatched passwords, give their error with no attempt; success iff the status is "complete"; loading ends on every path |
| ContactPage.WithField | client/pages/Contact.tsx:48-50 | the named field takes the value |
| ContactPage.WithFieldOnly | client/pages/Contact.tsx:48-50 | every other field is unchanged |
| ContactPage.RequestOf | client/pages/Contact.tsx:72-75 | the body is the form fields plus the user id |
| ContactPage.ClearedAfterSend | client/pages/Contact.tsx:82-89 | name and e-mail are kept; subject, message and inquiry type are cleared |
| ContactPage.ContactPageState.HandleInputChange | client/pages/Contact.tsx:48-50 | the form becomes `WithField` of the old form |
| ContactPage.ContactPageState.HandleSubmit | client/pages/Contact.tsx:52-95 | an empty name, e-mail or message gives "Please fill in all required fields" and no request; otherwise the request is sent, success clears the form, failure shows the server text or the default; loading ends |
| ContactPage.ClientAccepts | client/pages/Contact.tsx:58-62 | name, e-mail and message are non-empty; the subject is not checked |
| ContactPage.EmptySubjectRejected | client/pages/Contact.tsx:58-62 | a form the page accepts with an empty subject is rejected by the server schema |
| ContactPage.ServerAcceptedPassesClient | client/pages/Contact.tsx:58-62 | a form the server accepts also passes the page's check |
| DemoSlider.NextStep | client/components/DemoSlider.tsx:72-74 | i+1, wrapping from the last step to 0, in [0,3) |
| DemoSlider.PrevStep | client/components/DemoSlider.tsx:76-78 | i−1, wrapping from 0 to the last step, in [0,3) |
| DemoSlider.StepsInverse | client/components/DemoSlider.tsx:72-78 | previous undoes next and next undoes previous |
| DemoSlider.FullCycle | client/components/DemoSlider.tsx:62-74 | three advances return to the start, and fewer do not |
| DemoSlider.Slider.Next | client/components/DemoSlider.tsx:72-74 | the step becomes `NextStep` of the old step |
| DemoSlider.Slider.Prev | client/components/DemoSlider.tsx:76-78 | the step becomes `PrevStep` of the old step |
| DemoSlider.Slider.SelectIndicator | client/components/DemoSlider.tsx:166-169 | the step becomes the indicator's index |
| DemoSlider.Slider.TogglePlay | client/components/DemoSlider.tsx:118 | playing flips |
| DemoSlider.Slider.Tick | client/components/DemoSlider.tsx:62-70 | the timer advances only while playing |
| Pricing.ShownPrice | client/pages/Pricing.tsx:215-217 | monthly mode shows the monthly price; yearly mode the yearly price / 12 rounded |
| Pricing.YearlySaving | client/pages/Pricing.tsx:224 | the saving plus the yearly price is twelve monthly prices |
| Pricing.TenMonthSaving | client/pages/Pricing.tsx:224 | a yearly price of ten months saves two monthly prices |
| Pricing.YearlyCheaper | client/pages/Pricing.tsx:215-217 | for such a plan the yearly monthly-equivalent is below the monthly price |
| Pricing.PlanFigures | client/pages/Pricing.tsx:39-101 | every plan's yearly price is ten months, the saving is positive, and the shown yearly prices are 24, 66 and 166 |
| Pricing.PlanTable | client/pages/Pricing.tsx:39-101 | plan ids are distinct and exactly the professional plan is popular |

## Left out

- Floating point: `Math.round(count / total * 100)` and `Math.round(yearlyPrice / 12)` are
  modelled over exact rationals. A float quotient that falls just below a half (for example
  29/200·100) may round differently in JavaScript.
- Concurrency and timing: the `Promise.all` fan-out, the 30-second results poll (each tick is
  a call of `Results.ResultsPage.Fetch`), `setTimeout`
  delays and the carousel interval are left out. The interval is `DemoSlider.Slider.Tick`,
  called by its user. Every handler runs to completion as one sequential step.
- The hosted database is an in-memory `Tables.Database`. Election and user ids act as primary
  keys; vote rows are appended under the ids the caller supplies, unchecked. The schema's column
  defaults are not part of this model and are fixed in `DatabaseTypes`: both election flags
  false, `max_votes` 1, `vote_count` 0, role voter, `is_verified` false, and the generated id
  and insertion time passed by the caller. The SQL of `increment_vote` is not part of this
  model: each call raises the named candidate's counter by one or fails, as the caller says.
- Outside verdicts are `bool` inputs: the svix signature check, zod's e-mail check, query,
  insert, delete and upsert success, and each `increment_vote` call. Ids, timestamps,
  `Date.now()` and the `Math.random()` text are parameters too.
- Clerk sessions, `signUp`, `attemptFirstFactor` and `setActive` are outcome inputs, and
  navigation is left out. `isEmailVerified` is passed to the guard as an input.
- Register.RegisterPage.HandleSubmit: `signUp` is read from the `useAuth()` of
  client/contexts/AuthContext.tsx, whose context type and provider value (lines 22-29 and
  94-101) have no `signUp` member. As written it is `undefined`, so every valid form reaches
  the `Threw` outcome: loading stays on, no message shows, no account is made. The model keeps
  the other two outcomes for a context that does provide `signUp`.
- ProtectedRoute.Guard: client/components/ProtectedRoute.tsx reads `useAuth()` from
  client/contexts/ClerkAuthContext.tsx, whose context (lines 8-15, 63-70) has no
  `isEmailVerified`. As written it is `undefined`, so a signed-in user is always sent to
  /verify-email (`ProtectedRoute.UnverifiedNeverShowsChildren`, `UnverifiedGoesToVerify`),
  and both dashboards, which wrap themselves in the guard, never render. Moreover client/App.tsx
  mounts only `AuthProvider` from client/contexts/AuthContext.tsx, not `ClerkAuthProvider`, so
  ClerkAuthContext's `useAuth` throws at render (lines 75-79). The guard is modelled over its
  hook values as if a provider supplied them.
- The `webhookSecret` constant of server/routes/clerk-webhook.ts:5 is unused by the handler
  and is not modelled.
- Outer `catch` blocks for exceptions other than the ones named are left out. These are
  api/webhook/clerk.ts:76-78, server/routes/clerk-webhook.ts:51-54 and the dashboards'
  `console.error` paths. A failing query is the `queryOk` input; the results page's `catch`
  keeps the previous listing (`Results.ResultsPage.Fetch`).
- Mail bodies (HTML), logging, toasts and JSX rendering are left out. Only the mail addresses,
  subject and reply-to are modelled.
- `handleInputChange` takes one of the form's own fields. An input with another `name` would add
  a key to the form object and is not modelled.
- Results.SortByVotes: candidates with equal `vote_count` keep table order, which the
  database does not promise (`.order("vote_count", { ascending: false })` has no tie-breaker).
  On a tie the page flags whichever tied row the query returns first; `SortKeepsTies`,
  `SortHeadIsFirstMax`, `SingleWinner` and `TiedPositionExample` hold for the table order.
- ClerkWebhookApi.HandleWebhook: the svix `Webhook` is built from the webhook secret or `""`
  outside any `try`. What svix does with an empty secret is library code, not part of this
  model: an unset secret is covered only by the `signatureValid` input, so it reads as a
  signature verdict (400 when false), not as a thrown error.
- Results.SortByCreated: `created_at` texts are compared code point by code point. This orders
  ISO-8601 timestamps chronologically. Ties keep table order, which the database does not
  promise.
- ClerkWebhookServer.VoterIdShape: the six-digit claim is stated for timestamps ≥ 100000.
- AdminDashboard.AdminDashboardPage.CreateElection: the reload after a successful insert reads
  the table through `FetchElections`, whose own contract states the new list.
