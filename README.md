# LeadFlow CRM core in Dafny

This project models the logic of LeadFlow, a small sales CRM built with
Next.js and Supabase, and proves properties of it. LeadFlow stores leads,
reps, tags, activities, follow-ups and email templates. The model covers
the parts of the program that compute or decide something:

- the lead quality score;
- the admin and rep dashboard aggregations;
- the CSV export and import of leads, and the bulk insert of imported rows;
- the lead list filters and their option lists;
- the pipeline board (stage order, columns, optimistic drag and revert);
- the follow-up list and table (order, status toggle, overdue / today / upcoming);
- the route guard of the session middleware;
- the profile update action and the profile card;
- the lead server actions (tags, assignment, ownership checks, the `updates` record);
- the send-email dialog and the send-email action.

Each source file has its own module. Code that is a pure expression
becomes a function with lemmas. Code that updates variables in a loop
becomes a method with loop invariants, proved against a function that
specifies it. Component state that handlers update becomes a class with
fields and `modifies` clauses.

Services are not modelled. The signed-in user, query results and database
answers are parameters. Each server action returns the writes it makes, in
order, next to its result. Timestamps are integer milliseconds. Local time
is the timestamp shifted by a fixed offset `tz` (module `Clock`). Strings
are sequences of characters, and lower-casing is ASCII lower-casing.

Shared modules:

- `Common`: options, JavaScript truthiness of strings, `trim`, `split`/`join`,
  decimal rendering, de-duplication, subsequences.
- `Sorting`: a stable insertion sort by a total preorder, standing in for `Array.prototype.sort`.
- `Tally`: counting rows by key in first-seen key order, standing in for a
  `Record` filled by a `forEach`.
- `Clock`: local midnight and end of day.

## Model

| member | source | states |
|---|---|---|
| LeadScoring.StageBonus | utils/leadScoring.ts:31-57 | the stage bonus is at most 30, and it is 30 exactly for Won |
| LeadScoring.StageScore | utils/leadScoring.ts:32-57 | the status `switch` yields the stage bonus: New 0, Contacted 5, Qualified 10, Proposal 15, Negotiation 20, Won 30, Lost and anything else 0 |
| LeadScoring.Score | utils/leadScoring.ts:5-58 | the score is at most 100; it is 100 only with nothing deducted, and nothing deducted means at least 70 |
| LeadScoring.Deductions | utils/leadScoring.ts:5-62 | at most five deduction texts, each from the fixed check list; none exactly for email, phone and company present, a LinkedIn or Website source and a stage other than New or Lost |
| LeadScoring.ReasonFor | utils/leadScoring.ts:64-69 | the reason is "Excellent lead profile and progression." exactly for 100; any other score gives a reason starting "Score: N - " |
| LeadScoring.CalculateLeadScore | utils/leadScoring.ts:1-72 | the step-by-step score is 20 per present email, phone and company, plus 10 for LinkedIn or Website, plus the stage bonus; it is at most 100; the reason is built from that score and the deductions in check order |
| LeadScoring.ScoreBounds | utils/leadScoring.ts:5-58 | the score lies in [0, 100] |
| LeadScoring.ScoreMonotone | utils/leadScoring.ts:6-22 | filling in a missing email, phone or company never lowers the score |
| LeadScoring.PerfectScore | utils/leadScoring.ts:64-66 | the score is 100 exactly for full contact details, a good source and Won; then nothing is deducted and the reason is "Excellent lead profile and progression." |
| LeadScoring.DeductionsInOrder | utils/leadScoring.ts:9-62 | the deductions are a subsequence of email, phone, company, source, early/lost stage; each appears exactly when its check fails; "early/lost stage" appears only for New or Lost |
| LeadScoring.DeductionMember | utils/leadScoring.ts:60-62 | the i-th deduction text is present exactly when the i-th check fails |
| LeadScoring.GoodProfileReason | utils/leadScoring.ts:68 | below 100 with no deductions, the reason is "Score: N - Good lead profile.", and then the status is not Won |
| Dashboard.CountStage | app/actions/dashboard.ts:27 | one row's stage increment keeps the counts equal to the number of rows per status, with keys in first-seen order; the other tallies are unchanged |
| Dashboard.CountRepWin | app/actions/dashboard.ts:31-42 | a Won row with a rep id creates that rep's entry on first sight and then counts it up; the board stays equal to the per-rep Won counts |
| Dashboard.CountLead | app/actions/dashboard.ts:25-46 | the `forEach` body keeps every accumulator equal to its definition over the rows seen so far |
| Dashboard.CountLeads | app/actions/dashboard.ts:23-47 | after all rows the accumulators hold the Won and Lost counts, the value sum, the stage counts and the rep table of all rows |
| Dashboard.AdminDashboardMetrics | app/actions/dashboard.ts:6-62 | a non-Admin is redirected to /login; with no data every metric is empty; otherwise totals, won, lost, value, rate, stage list and top reps are the functions of the rows |
| Dashboard.RepDashboardMetrics | app/actions/dashboard.ts:64-131 | a non-SalesRep is redirected; the assigned count is the number of rows; won is at most assigned; the three reminder lists are the bucket selections |
| Dashboard.StageCountsSumToTotal | app/actions/dashboard.ts:24-27 | the per-stage counts add up to `totalLeads` |
| Dashboard.WonLostBounded | app/actions/dashboard.ts:31-45 | won + lost is at most `totalLeads` |
| Dashboard.RepCountMeaning | app/actions/dashboard.ts:34-41 | a rep's count is the number of its Won rows; Won rows with an empty rep id count for nobody |
| Dashboard.RepWinsBounded | app/actions/dashboard.ts:34-41 | the wins credited to reps are at most all wins |
| Dashboard.TopRepsSorted | app/actions/dashboard.ts:51 | the leaderboard has at most 5 entries, in non-increasing `wonCount` |
| Dashboard.TopRepsEntries | app/actions/dashboard.ts:51 | every leaderboard entry is a rep with a Won lead, carrying its true Won count |
| Dashboard.TopRepsSum | app/actions/dashboard.ts:51 | the leaderboard's wins add up to at most `won` |
| Dashboard.TopRepsBest | app/actions/dashboard.ts:51 | no rep left off the leaderboard has more wins than a rep on it |
| Dashboard.NoDataMetrics | app/actions/dashboard.ts:16-23 | with no data, every count is zero, the lists are empty and the rate is the '0.0' case, which is exactly what an empty lead table yields |
| Dashboard.StageEntriesTallied | app/actions/dashboard.ts:49 | `Object.entries(stageCounts)` of the tallied dictionary is the stage list of the rows |
| Dashboard.RepEntriesTallied | app/actions/dashboard.ts:51 | `Object.values(repWonCounts)` of the tallied dictionary is the rep table of the rows |
| Dashboard.StageEntries | app/actions/dashboard.ts:49 | `Object.entries` lists each stage key, in key order, with its count |
| Dashboard.RepEntries | app/actions/dashboard.ts:51 | `Object.values` lists each rep key's entry, in key order |
| Dashboard.BucketMembers | app/actions/dashboard.ts:106-119 | a follow-up is in a bucket exactly when its day falls in that bucket |
| Dashboard.BucketOrder | app/actions/dashboard.ts:106-119 | each bucket keeps the input order |
| Dashboard.BucketSizes | app/actions/dashboard.ts:106-119 | the three bucket sizes add up to the number of follow-ups, so each lands in exactly one |
| Dashboard.BucketMeaning | app/actions/dashboard.ts:99-117 | overdue is before today's midnight, today is within today's 24 hours, upcoming is from tomorrow's midnight on |
| Dashboard.CountWon | app/actions/dashboard.ts:76-81 | the rep's won count is at most the number of assigned leads |
| ImportExport.DoubleQuotes | components/ImportExportButtons.tsx:35 | doubling grows the text by one character per quote and keeps whether it holds a quote |
| ImportExport.DoubleQuotesOther | components/ImportExportButtons.tsx:35 | doubling adds and removes no character other than `"` |
| ImportExport.Sanitize | components/ImportExportButtons.tsx:33-41 | null exports as ""; a field that needs quoting comes out enclosed in a pair of quotes |
| ImportExport.SanitizeMeaning | components/ImportExportButtons.tsx:33-41 | null exports as ""; a field is wrapped in quotes, with its quotes doubled, exactly when its own text holds `"`, `,` or a line feed |
| ImportExport.SanitizeAll | components/ImportExportButtons.tsx:56 | each field of a row is sanitized in place |
| ImportExport.Rows | components/ImportExportButtons.tsx:45-57 | one line per lead, in lead order |
| ImportExport.ExportCsv | components/ImportExportButtons.tsx:24-58 | nothing is exported exactly when there are no leads; otherwise the header line comes first, then the lead lines, joined by line feeds |
| ImportExport.SplitLines | components/ImportExportButtons.tsx:75 | splitting at `\r?\n` always gives at least one line |
| ImportExport.SplitLine | components/ImportExportButtons.tsx:85-101 | the character loop as written, where a quote only toggles the in-quotes state and is not stored, computes `SplitFields(line, false)` |
| ImportExport.SplitFields | components/ImportExportButtons.tsx:85-101 | one value more than the commas the scan splits at; for a line without `"`, either splitter gives the trimmed pieces between commas |
| ImportExport.QuoteFreeFields | components/ImportExportButtons.tsx:85-101 | on a line without `"`, the scan and cleanup give the trimmed comma-separated pieces |
| ImportExport.BuildRecord | components/ImportExportButtons.tsx:103-106 | the header loop builds the record of headers to column values |
| ImportExport.ParseRows | components/ImportExportButtons.tsx:80-108 | the line loop, with the splitter as written, gives one record per non-blank data line, in line order |
| ImportExport.DataRecords | components/ImportExportButtons.tsx:80-108 | at most one record per data line, and every record has exactly the header keys |
| ImportExport.ParseCsv | components/ImportExportButtons.tsx:73-110 | `parseCSV` as written gives no records for fewer than two lines, and otherwise the records of the data lines under the mapped header keys |
| ImportExport.RecordOfKeys | components/ImportExportButtons.tsx:103-106 | a record has exactly the header keys |
| ImportExport.RecordOfValue | components/ImportExportButtons.tsx:105 | a header not repeated later takes its column's value, or "" past the last column |
| ImportExport.RecordOfDistinct | components/ImportExportButtons.tsx:103-106 | with distinct headers, every header takes the value of its own column |
| ImportExport.ParseSingleLine | components/ImportExportButtons.tsx:76 | a text without a line feed gives no records |
| ImportExport.DataRecordsCount | components/ImportExportButtons.tsx:80-82 | the number of records is the number of non-blank data lines |
| ImportExport.UndoubleDoubleQuotes | components/ImportExportButtons.tsx:94 | un-doubling `""` undoes the export's doubling of quotes |
| ImportExport.CleanSanitize | components/ImportExportButtons.tsx:94 | stripping the outer quotes, un-doubling and trimming a sanitized field gives its text back |
| ImportExport.CleanAll | components/ImportExportButtons.tsx:94 | every split value is cleaned in place |
| ImportExport.RunField | components/ImportExportButtons.tsx:89-99 | with the corrected splitter, outside quotes the scanner copies a sanitized field whole, commas inside quotes included |
| ImportExport.RawRow | components/ImportExportButtons.tsx:89-101 | the scanner splits a row of sanitized fields at exactly the separating commas: the corrected splitter keeps each field as exported, the splitter as written gives the text of each field without `"` |
| ImportExport.RowRoundTrip | components/ImportExportButtons.tsx:89-101 | a row of sanitized fields splits back into the fields' texts: with the splitter as written when no field holds `"`, with the corrected splitter always |
| ImportExport.FieldRoundTrip | components/ImportExportButtons.tsx:89-101 | with the corrected splitter, one sanitized field with no line feed and no surrounding whitespace reads back as its text |
| ImportExport.AsWrittenDropsQuotes | components/ImportExportButtons.tsx:89-101 | with the loop as written, no parsed value holds a `"` |
| ImportExport.AsWrittenFieldRoundTrip | components/ImportExportButtons.tsx:33-101 | with the loop as written, a field without `"`, line feed or surrounding whitespace survives export and split unchanged |
| ImportExport.AsWrittenLosesQuotes | components/ImportExportButtons.tsx:89-101 | with the loop as written, no exported field holding a `"` reads back as itself |
| ImportExport.QuoteExample | components/ImportExportButtons.tsx:35-101 | `a"b` exports as `"a""b"`; it is lost as written and read back by the corrected splitter |
| ImportExport.SanitizeQuoteExample | components/ImportExportButtons.tsx:33-41 | `a"b` is exported as `"a""b"` |
| CsvRoundTrip.ExportHeaderKeys | components/ImportExportButtons.tsx:78 | the nine export headers map to exactly the keys the bulk import reads |
| CsvRoundTrip.ImportKeysDistinct | app/actions/import.ts:16-24 | the import keys are pairwise distinct, so no column overwrites another |
| CsvRoundTrip.HeaderLineSplits | components/ImportExportButtons.tsx:44 | the header line splits at commas back into the nine headers |
| CsvRoundTrip.SanitizeEdges | components/ImportExportButtons.tsx:33-41 | an exported field holds no line feed and has no surrounding whitespace, so the import's `trim` keeps it |
| CsvRoundTrip.RowEdges | components/ImportExportButtons.tsx:45-57 | an exported row is a non-empty line without a line feed or surrounding whitespace, so the import neither skips nor alters it |
| CsvRoundTrip.CsvLines | components/ImportExportButtons.tsx:43-58 | the exported text splits back into the header line and the rows |
| CsvRoundTrip.DataRecordsOfRows | components/ImportExportButtons.tsx:80-107 | the rows of exported leads parse to one record per lead: with the splitter as written when no field holds `"`, with the corrected splitter always |
| CsvRoundTrip.ExportImportRoundTrip | components/ImportExportButtons.tsx:24-110 | importing the export of leads with exportable fields gives one record per lead, in order, each key holding its column's text: as written when no field holds `"`, with the corrected splitter always |
| CsvRoundTrip.LeadRecordFields | components/ImportExportButtons.tsx:103-107 | a lead's record has exactly the import keys, each holding its column's text |
| Common.Lookup | app/actions/import.ts:16-24 | a form or CSV field is present exactly when the record has the key, and then holds its value |
| BulkImport.InsertData | app/actions/import.ts:15-27 | one insert row per record, in record order |
| BulkImport.RowDefaults | app/actions/import.ts:16-26 | the name defaults to 'Unknown Lead', the source to 'Import' and the status to 'New'; empty contact fields and notes become null; the rep is always the caller |
| BulkImport.PresentColumnsKept | app/actions/import.ts:16-24 | a non-empty column is carried over unchanged |
| BulkImport.BulkInsertLeads | app/actions/import.ts:6-42 | no user means it throws; an insert error is reported; otherwise the count is the number of returned rows, or 0 |
| BulkImport.InsertRequest | app/actions/import.ts:10-29 | rows are sent only with a user, one per record |
| BulkImport.LeadRecordRow | app/actions/import.ts:15-27 | the record the import builds for a lead inserts the lead's own values, with the defaults where it had none |
| BulkImport.TextOrElse | app/actions/import.ts:16-24 | an exported "" column falls back to the import default exactly like a missing one |
| BulkImport.ExportImportInsert | app/actions/import.ts:15-27 | exporting, importing and inserting leads sends one row per lead, in order, with that lead's values: as written when no field holds `"`, with the corrected splitter always |
| LeadsTable.FilteredIsSubsequence | components/LeadsTable.tsx:55-78 | the filtered list is an order-preserving subsequence holding exactly the passing leads |
| LeadsTable.FilteredLeads | components/LeadsTable.tsx:55-78 | no more leads than given, and every listed lead passes all the filters |
| LeadsTable.NoFiltersKeepAll | components/LeadsTable.tsx:57-76 | with empty search, every select on 'All' and no dates, every lead is listed |
| LeadsTable.SearchMissingFields | components/LeadsTable.tsx:57-59 | a lead without name, email and company matches no non-empty search |
| LeadsTable.SearchIgnoresCase | components/LeadsTable.tsx:57-59 | the search does not depend on the case of the search text |
| LeadsTable.TagFilterMeaning | components/LeadsTable.tsx:64 | a chosen tag passes exactly the leads carrying that tag |
| LeadsTable.DateRangeInclusive | components/LeadsTable.tsx:66-74 | both date bounds are inclusive, the upper one through 23:59:59.999 of its day |
| LeadsTable.PassesNarrower | components/LeadsTable.tsx:76 | a lead that passes the narrower filters passes the wider ones |
| LeadsTable.NarrowingShrinks | components/LeadsTable.tsx:76 | setting more filters never lists more leads |
| LeadsTable.Options | components/LeadsTable.tsx:50-53 | an option list is 'All' followed by the distinct values in first-seen order |
| LeadsTable.RepNames | components/LeadsTable.tsx:52 | the rep names are exactly the non-empty assigned rep names |
| LeadsTable.TagNames | components/LeadsTable.tsx:53 | the tag names are exactly the tags of the leads that have tags |
| LeadsTable.StageOptionsMeaning | components/LeadsTable.tsx:50 | the stage list is 'All' and then every status of the list once |
| LeadsTable.RepOptionsMeaning | components/LeadsTable.tsx:52 | the rep list is 'All' and then every non-empty rep name once, never the empty name |
| LeadsTable.BadgeIgnoresCase | components/LeadsTable.tsx:91-100 | statuses that differ only in letter case get the same colour |
| LeadsTable.BadgeKnown | components/LeadsTable.tsx:91-100 | the badge a status gets (`StatusBadge`) has a colour exactly for the six known statuses, in any case; all others are gray |
| LeadsTable.GetStatusColor | components/LeadsTable.tsx:91-101 | the badge is the gray one exactly when the lower-cased status is none of the six known ones |
| LeadsTable.NegotiationIsGray | components/LeadsTable.tsx:91-100 | the pipeline's Negotiation stage is drawn gray |
| PipelineBoard.SortedStagesOrdered | components/PipelineBoard.tsx:38-44 | the sorted stages (`SortedStages`) are a permutation of the given ones, in ascending `order_index` |
| PipelineBoard.GroupLeads | components/PipelineBoard.tsx:105-122 | the grouping loop gives one column per stage, plus the fallback column when one is needed, each holding its leads in lead order |
| PipelineBoard.GroupedStep | components/PipelineBoard.tsx:111-119 | pushing the next lead onto its column, or onto the fallback column, keeps the columns right |
| PipelineBoard.ColumnOf | components/PipelineBoard.tsx:111-119 | with stages, a lead lands in its own status's column when that is a stage, otherwise in the first stage's; always in a stage's column; with no stages, in the New bucket |
| PipelineBoard.ColumnMembers | components/PipelineBoard.tsx:111-119 | a column holds exactly the leads that belong to it, in lead order |
| PipelineBoard.ColumnSize | components/PipelineBoard.tsx:111-119 | a column holds as many leads as belong to it |
| PipelineBoard.ColumnsPartition | components/PipelineBoard.tsx:105-121 | with distinct stage names, the column sizes add up to the number of leads |
| PipelineBoard.BoardView | components/PipelineBoard.tsx:128-134 | with no stages the empty message is shown, otherwise one column per stage name |
| PipelineBoard.Find | components/PipelineBoard.tsx:65 | `find` returns a lead with the id, or nothing exactly when no lead has it |
| PipelineBoard.WithStatus | components/PipelineBoard.tsx:70-74 | the map changes the status of the leads with the id and nothing else |
| PipelineBoard.AfterDrop | components/PipelineBoard.tsx:57-98 | a drop keeps the number and order of the leads, changes at most their statuses, and leaves every lead other than the dragged one as it was |
| PipelineBoard.Board.constructor | components/PipelineBoard.tsx:34-44 | the board starts from the given leads and the stage names in stage order |
| PipelineBoard.Board.HandleDragEnd | components/PipelineBoard.tsx:57-98 | after a drop, the leads and the alert are those of the drop function |
| PipelineBoard.IgnoredDrops | components/PipelineBoard.tsx:60-67 | a drop outside a column, of an unknown card or onto its own column changes nothing and shows nothing |
| PipelineBoard.AcceptedMove | components/PipelineBoard.tsx:70-74 | an accepted move changes only the dragged lead's status |
| PipelineBoard.RevertRestores | components/PipelineBoard.tsx:82-86 | setting the old status back restores the pre-drag leads |
| PipelineBoard.FailedMoveReverts | components/PipelineBoard.tsx:77-97 | on an error result or an exception, the board is as it was before the drag |
| PipelineBoard.DropAlert | components/PipelineBoard.tsx:77-91 | an alert is shown exactly for a moved card whose update failed: the error text for a refusal, "Failed to update lead status" for a rejected call |
| LeadFollowups.PendingFirstPreorder | components/LeadFollowups.tsx:66-71 | the ordering is a total preorder, so sorting by it is well defined |
| LeadFollowups.ComparatorAgrees | components/LeadFollowups.tsx:66-71 | for Pending and Completed, the comparator keeps `a` first exactly when the ordering does |
| LeadFollowups.ComparatorBeyondTwoValues | components/LeadFollowups.tsx:67-69 | for two different non-Pending statuses each claims to come after the other |
| LeadFollowups.SortedFollowupsOrder | components/LeadFollowups.tsx:66-71 | the sorted list is a permutation of the input, every Pending item before the rest, and items of one status in ascending due order |
| LeadFollowups.SortedFollowups | components/LeadFollowups.tsx:66-71 | a missing list sorts to the empty list; a present one to a permutation of itself |
| LeadFollowups.NextStatus | components/LeadFollowups.tsx:56 | Pending toggles to Completed, anything else to Pending |
| LeadFollowups.ToggleTwice | components/LeadFollowups.tsx:56 | toggling twice is the identity on Pending and Completed |
| LeadFollowups.AfterStatusChange | components/LeadFollowups.tsx:57-61 | a returned truthy error is alerted with its text; any other returned answer, an empty text included, refreshes; a rejected call does neither |
| LeadFollowups.ToggleStatus | components/LeadFollowups.tsx:55-62 | a toggle writes Completed exactly for a Pending item and Pending otherwise; it refreshes exactly when the call returns with no truthy error, alerts a returned error, and does nothing when the call rejects |
| LeadFollowups.OverdueMeaning | components/LeadFollowups.tsx:127-128 | only a Pending item can be overdue, exactly when its due time has passed; it stays overdue later on, and toggling its status clears it for good |
| LeadFollowups.SubmitCallsMeaning | components/LeadFollowups.tsx:29-46 | no call exactly when both date and notes are blank; an activity exactly for non-blank notes; a follow-up exactly for a set date; the activity comes first |
| LeadFollowups.FollowupForm.constructor | components/LeadFollowups.tsx:22-25 | the form starts idle, with no date, the Note type and no notes |
| LeadFollowups.FollowupForm.HandleSubmit | components/LeadFollowups.tsx:27-53 | an ignored submit changes nothing; otherwise the calls are made in order, activity first, and the form is reset; a rejected call ends the submit there, with the calls made until then, `loading` still set and the inputs kept |
| LeadFollowups.CallsMadePrefix | components/LeadFollowups.tsx:33-46 | the calls a submit has made when a call rejects are a prefix of the calls it means to make, and all of them when none rejects |
| FollowupsTable.AsWrittenTodayOnlyAtMidnight | components/FollowupsTable.tsx:79-84 | as written, a Pending row is today only when due exactly at today's midnight and overdue when due before it; any other row is upcoming |
| FollowupsTable.DateStatusAsWritten | components/FollowupsTable.tsx:75-84 | as written, a row is other than upcoming only when Pending and due at or before today's midnight, and overdue only when due before it |
| FollowupsTable.TodayMissed | components/FollowupsTable.tsx:79-84 | due one millisecond after today's midnight, a Pending row is upcoming as written and today as intended |
| FollowupsTable.DateStatusMeaning | components/FollowupsTable.tsx:79-84 | corrected (`DateStatus`): a Pending row is overdue before today's midnight, today within today's 24 hours, else upcoming; a Completed row is always upcoming |
| FollowupsTable.AsWrittenAgreesElsewhere | components/FollowupsTable.tsx:79-84 | the two classifications differ only for Pending rows due later today than midnight |
| FollowupsTable.TableOverdueIsListOverdue | components/FollowupsTable.tsx:80-81 | a row marked overdue is also overdue in the lead's follow-up panel at the same moment |
| FollowupsTable.ActionFor | components/FollowupsTable.tsx:114-134 | a Pending row offers Complete, any other row Reopen |
| FollowupsTable.ActionMatchesToggle | components/FollowupsTable.tsx:114-134 | the row's action sets the status the panel's toggle would set |
| FollowupsTable.StatusChange | components/FollowupsTable.tsx:41-51 | Complete writes Completed and Reopen writes Pending; when the call returns, the busy mark is cleared and the table refreshes, or alerts a truthy error; when it rejects, nothing is shown or refreshed and the row stays busy |
| FollowupsTable.StatusChangeMatchesToggle | components/FollowupsTable.tsx:41-51 | the table's status change on a row sends what the panel's toggle of that follow-up sends and has the same effect, for every answer |
| FollowupsTable.TableView | components/FollowupsTable.tsx:53-84 | a missing or empty list shows the empty message; otherwise there is one row per follow-up, in order, with its classification and action |
| RouteGuard.HomeOf | utils/supabase/middleware.ts:58 | the dashboard is /admin/dashboard exactly for an Admin, /rep/dashboard for everyone else |
| RouteGuard.Decide | utils/supabase/middleware.ts:36-63 | a request passes to /admin… or /rep… only when signed in, to /admin… only as an Admin, and every redirect goes to /login or one of the two dashboards |
| RouteGuard.AnonymousGuarded | utils/supabase/middleware.ts:39-43 | an anonymous visitor is sent to /login exactly on /admin… and /rep… paths and passes elsewhere |
| RouteGuard.NonAdminKeptOut | utils/supabase/middleware.ts:49-53 | a signed-in non-Admin, missing role included, is sent from /admin… to /rep/dashboard |
| RouteGuard.SignedInLeavesLogin | utils/supabase/middleware.ts:56-60 | a signed-in user on /login or /signup is sent to the dashboard of the role |
| RouteGuard.AdminPasses | utils/supabase/middleware.ts:46-63 | an Admin passes everywhere, /rep included, except /login and /signup |
| RouteGuard.RedirectReasons | utils/supabase/middleware.ts:36-63 | a request is redirected exactly for one of the three guarded reasons |
| RouteGuard.PrefixMatching | utils/supabase/middleware.ts:39-49 | matching is by prefix: any path beginning with /admin or /rep is guarded |
| RouteGuard.RedirectSettles | utils/supabase/middleware.ts:36-63 | the target of every redirect lets the same session through |
| ProfileAction.AvatarUrl | app/actions/profile.ts:24-45 | there is an avatar URL exactly when a non-empty file was uploaded |
| ProfileAction.FieldUpdate | app/actions/profile.ts:52-55 | name and avatar are included exactly when non-empty and on one's own profile, the role exactly when non-empty and for an Admin, each with its value, and nothing else |
| ProfileAction.UpdateProfile | app/actions/profile.ts:12-85 | unauthorised calls write nothing; a failed upload stops before any update; the auth update always carries the permitted fields; an auth error returns before the users table; the users table gets the same fields, unless there are none |
| ProfileAction.FieldPermissions | app/actions/profile.ts:48-55 | only the user may change name and avatar; only an Admin may change the role, on their own profile too |
| ProfileAction.AdminOnOthers | app/actions/profile.ts:48-71 | an Admin on someone else's profile can change only the role, so a form without a role writes no users row |
| ProfileAction.AvatarOnlyForSelf | app/actions/profile.ts:54 | an uploaded avatar reaches the update exactly on one's own profile |
| LeadActions.ParseTags | app/actions/leads.ts:100 | every parsed tag is non-empty, has no surrounding whitespace and holds no comma |
| LeadActions.TrimmedNonBlank | app/actions/leads.ts:100 | trimming and dropping blanks keeps at most the pieces there were, each non-empty and already trimmed |
| LeadActions.TrimmedNoComma | app/actions/leads.ts:100 | comma-free pieces give comma-free tags |
| LeadActions.ParsedTagsClean | app/actions/leads.ts:100 | a parsed tag is never empty, never padded with whitespace and never holds a comma |
| LeadActions.TagsRoundTrip | app/actions/leads.ts:160 | tags shown ", "-joined in the edit form parse back to the same list when each is clean |
| LeadActions.TrimmedImages | app/actions/leads.ts:100 | trimming the pieces and dropping the empty ones is the map-then-filter with `trim` |
| LeadActions.ImagesAll | app/actions/leads.ts:100 | pieces whose trimmed images are non-empty keep every piece, in order |
| LeadActions.TrimmedClean | app/actions/leads.ts:100 | comma-free pieces trim to clean tags |
| LeadActions.ParseEmpty | app/actions/leads.ts:100 | an empty tags field parses to no tags |
| LeadActions.AssignedRepOnCreate | app/actions/leads.ts:71 | a SalesRep is always assigned to themselves; others get the chosen rep, or themselves when none is chosen |
| LeadActions.CreateDefaults | app/actions/leads.ts:73-84 | a new lead's source is Website and its status New unless the form gives one; a SalesRep's lead is their own |
| LeadActions.NewLeadOf | app/actions/leads.ts:70-84 | a new lead always has a source and a status, a SalesRep's is their own, and the expected value and creation date are set exactly when the form gives them |
| LeadActions.Defined | app/actions/leads.ts:148 | the pruned record holds exactly the entries that are not `undefined`, with their values |
| LeadActions.PruneUndefined | app/actions/leads.ts:148 | the key loop removes exactly the `undefined` entries |
| LeadActions.UpdateAssignment | app/actions/leads.ts:138 | a SalesRep's update never holds `assigned_rep_id`; an Admin's empty choice becomes null |
| LeadActions.UpdateColumns | app/actions/leads.ts:130-148 | every other column is written; `created_at` only when the form gives one |
| LeadActions.UpdatesOf | app/actions/leads.ts:130-148 | `created_at` is in the record exactly when the form gives it; `assigned_rep_id` always is, and is `undefined` exactly for a SalesRep |
| LeadActions.Answered | app/actions/leads.ts:92-95 | a database error is returned as the action's error; otherwise the action succeeds |
| LeadActions.TagWrites | app/actions/leads.ts:101-104 | tag rows are inserted exactly when some tag parses |
| LeadActions.CreateLead | app/actions/leads.ts:62-113 | no user means it throws; an insert error is returned after the one insert; otherwise the lead is inserted, then its parsed tags when the field is non-empty |
| LeadActions.TagReplacement | app/actions/leads.ts:158-166 | a present tags field, even empty, deletes the lead's tags and inserts the parsed ones; no tags field writes nothing |
| LeadActions.ReplaceTags | app/actions/leads.ts:158-166 | the tags step makes exactly the tag replacement writes |
| LeadActions.BuildUpdates | app/actions/leads.ts:130-148 | the record sent is the built record with the `undefined` entries removed |
| LeadActions.UpdateLead | app/actions/leads.ts:115-176 | a SalesRep may update only a lead that exists and is assigned to them, or gets an error and nothing is written; otherwise the pruned update, then the tag replacement |
| LeadActions.UpdateLeadStatus | app/actions/leads.ts:178-208 | the same ownership check, then the status write |
| LeadActions.DeleteLead | app/actions/leads.ts:210-234 | a SalesRep can never delete; anyone else deletes |
| LeadActions.CreateActivity | app/actions/leads.ts:253-279 | the ownership check, then the activity row with the form's type and notes |
| LeadActions.CreateFollowup | app/actions/leads.ts:281-307 | the ownership check, then a follow-up that always starts as Pending |
| LeadActions.UpdateFollowupStatus | app/actions/leads.ts:309-338 | ownership through the follow-up's lead, then the status write |
| LeadActions.OwnershipRule | app/actions/leads.ts:123-128 | a SalesRep may touch exactly the leads found and assigned to them; other roles are not checked |
| SendEmailModal.NoPlaceholderUnchanged | components/SendEmailModal.tsx:41 | a body without `{{name}}` in any case is left as it is |
| SendEmailModal.LeftmostReplaced | components/SendEmailModal.tsx:41 | the leftmost `{{name}}` is replaced by the lead name, the text before it kept, and the scan goes on after it |
| SendEmailModal.MixedCaseReplaced | components/SendEmailModal.tsx:41 | `{{NAME}}` and `{{Name}}` are replaced too |
| SendEmailModal.NameNotRescanned | components/SendEmailModal.tsx:41 | an inserted name that itself holds the placeholder is not replaced again |
| SendEmailModal.FindTemplate | components/SendEmailModal.tsx:37 | a template is found exactly when one has the id, and it is the first with that id |
| SendEmailModal.TemplateSubject | components/SendEmailModal.tsx:39 | the subject is the template's own, or "" when it is missing or empty |
| SendEmailModal.MissingBodyEmpty | components/SendEmailModal.tsx:41 | the body a template gives (`TemplateBody`) is empty when the template has none |
| SendEmailModal.EmailModal.constructor | components/SendEmailModal.tsx:19-24 | the dialog starts closed and not loading, with no templates and an empty subject and body |
| SendEmailModal.EmailModal.HandleTemplateSelect | components/SendEmailModal.tsx:33-44 | the empty option and an unknown id change nothing; a known template sets the subject and the filled-in body |
| SendEmailModal.EmailModal.HandleSend | components/SendEmailModal.tsx:46-62 | the current subject and body are sent; a returned truthy error is shown and everything kept; any other returned answer, an empty error text included, clears the form and closes the dialog; a rejected call shows nothing, keeps the dialog as it was and leaves it loading |
| SendEmailModal.EmailModal.TemplatesLoaded | components/SendEmailModal.tsx:27-31 | fetched templates replace the list and change nothing else |
| EmailAction.NewlinesToBreaks | app/actions/emails.ts:36 | no line feed is left |
| EmailAction.HtmlBody | app/actions/emails.ts:36 | the HTML is one paragraph without line feeds |
| EmailAction.BreaksLength | app/actions/emails.ts:36 | each line feed grows into five characters and everything else is kept |
| EmailAction.NoNewlineKept | app/actions/emails.ts:36 | a body without line feeds is wrapped as it is |
| EmailAction.BreaksRoundTrip | app/actions/emails.ts:36 | for a body without `<`, reading `<br/>` back as a line feed gives the body back |
| EmailAction.RefusalMessageOrder | app/actions/emails.ts:40-49 | the message is chosen in order: JSON `message`, then `name`, then the raw text; when the body does not parse, the status line |
| EmailAction.RefusalMessage | app/actions/emails.ts:40-50 | the message starts with "Resend Error: " exactly when the body parses to a non-null JSON value; a body of `null`, or one that does not parse, gives the status line |
| EmailAction.ApiKey | app/actions/emails.ts:14 | a key is configured exactly when the server key or the public key is; the server key wins |
| EmailAction.SendEmail | app/actions/emails.ts:6-80 | no user means it throws; a missing key or lead email returns an error before anything is sent; a failure returns its message; after a send the log is written first, a failed log records no activity, and success records an 'Email' activity with notes "Sent Email: " + subject |
| ProfileSection.FlagsExclusive | components/ProfileSection.tsx:33-37 | name/avatar and role editing never come together; nothing is editable exactly for a non-Admin viewing someone else |
| ProfileSection.EditButton | components/ProfileSection.tsx:84-88 | the button shows exactly when not editing and something is editable; it reads 'Edit Role' exactly when the role can be edited and 'Edit Profile' exactly on one's own profile |
| ProfileSection.DrawnAvatar | components/ProfileSection.tsx:63-78 | an avatar image is drawn exactly for a non-empty URL |
| ProfileSection.SubmittedForm | components/ProfileSection.tsx:118-165 | disabled inputs are left out: name and avatar are sent only when they can be edited, the role exactly when it can |
| ProfileSection.CardWithinAction | components/ProfileSection.tsx:48-61 | whatever the card submits, the update action changes only fields the card lets the viewer edit |
| ProfileSection.AdminOwnRoleNotOffered | components/ProfileSection.tsx:153-166 | an Admin on their own profile could have the role changed by the action, but the card does not send it |
| ProfileSection.ProfileCard.AvatarChanged | components/ProfileSection.tsx:39-46 | a chosen file sets the preview only when the avatar can be edited |
| ProfileSection.ProfileCard.Submit | components/ProfileSection.tsx:48-61 | the card's form is sent; an error is shown and editing goes on; otherwise editing ends |
| ProfileSection.ProfileCard.Cancel | components/ProfileSection.tsx:174-178 | editing ends and the name and avatar preview go back to the user's, drawing as at the start |
| ProfileSection.ProfileCard.StartEditing | components/ProfileSection.tsx:85 | the button click starts editing and changes nothing else |
| ProfileSection.ProfileCard.NameChanged | components/ProfileSection.tsx:143 | typing sets the name and changes nothing else |
| ProfileSection.ProfileCard.constructor | components/ProfileSection.tsx:26-29 | the card starts not editing, with the user's name and only a non-empty avatar URL as preview |
| Clock.StartOfDay | components/FollowupsTable.tsx:76-77 | local midnight is at or before the instant, within one day, and a whole number of local days |
| Clock.EndOfDay | components/LeadsTable.tsx:71-72 | the end of day is the last millisecond of the instant's local day |
| Tally.SumOverKeyOrder | app/actions/dashboard.ts:25-27 | counting every first-seen key covers every keyed row once |

## Left out

- Supabase queries, row-level security, auth calls, storage uploads and public URLs are services. Their results are parameters.
- `revalidatePath`, `redirect` inside the lead and profile actions, and `router.refresh` are framework effects and are not modelled. The dashboard's `redirect` is modelled as the `RedirectTo` outcome.
- `getLeads`, `getLead` and `getSalesReps` in app/actions/leads.ts are single queries with no logic of their own.
- The Resend HTTP request and the reading of its response are network I/O. The mail service's answer is a parameter, `SendOutcome`.
- The cookie `setAll` callback in utils/supabase/middleware.ts is framework plumbing.
- `Math.random` in the avatar file name is nondeterministic, and the file name is not modelled.
- Date parsing (`new Date(string)`, `toISOString`) is left out. Dates are integer timestamps, and date texts are kept as text.
- Local time uses one fixed offset, so daylight-saving changes are not modelled.
- `toLowerCase` is modelled as ASCII lower-casing. Non-ASCII case mappings are left out.
- `String.replace` treats `$` patterns in the lead name specially. The model inserts the name literally.
- A JavaScript object lists integer-like keys first. The tallies use plain insertion order; stage names and rep ids are not integer-like.
- JSON `message` or `name` values that are not strings are left out; they are modelled as strings or missing.
- The answers of the tag inserts in `createLead`/`updateLead` and of the activity insert in `sendEmail` are ignored by the source, and the model ignores them too.
- Errors thrown inside the email action's lead lookup are folded into `RequestFailed`.
- Overlapping optimistic drags are not modelled. A drag, its answer and its revert are one sequential step.
- The template list is fetched when the dialog opens. The fetch is modelled as `TemplatesLoaded`.
- Dashboard.AdminDashboardMetrics: `pipelineValue` sums integers rather than `Number(expected_value)` floats, and `conversionRate` is the pair (won, total) rather than the `toFixed(1)` text. The '0.0' case is kept as `NoLeads`.
- Dashboard.RepDashboardMetrics: `conversionRate` is the pair (won, total) rather than the `toFixed(1)` text.
- BulkImport.InsertData: `expected_value` is kept as the text handed to `parseFloat`, not the number it parses to.
- LeadActions.UpdateColumns: `expected_value` is kept as the text handed to `parseFloat` (or the literal 0), and `created_at` as the text handed to `new Date`.
- LeadFollowups.SortedFollowupsOrder: the source comparator is inconsistent for three or more distinct statuses (see `ComparatorBeyondTwoValues`), and the engine's order is then unspecified. The model sorts by rank (Pending, then the rest) and due date, which agrees with the comparator on the two statuses the app writes.
- PipelineBoard.ColumnsPartition: with duplicate stage names a lead would be counted once per duplicate, so partitioning is proved for distinct stage names only.
- Round trips through the import: the splitter as written, `SplitFields(_, false)`, which `SplitLine`, `ParseRows` and `ParseCsv` run, brings back only fields without `"` (see Findings). The lemmas state that case, and state the general round trip for the corrected splitter, `SplitFields(_, true)`.
- SendEmailModal.ReplaceName: its contract is stated by the lemmas `NoPlaceholderUnchanged`, `LeftmostReplaced`, `MixedCaseReplaced` and `NameNotRescanned`, not by `ensures` clauses on the function.
- FollowupsTable.TableView: uses the corrected day classification (see Findings). The classification as written is `DateStatusAsWritten`.

## Findings

| source | as written | input that shows it | evidently intended | confidence | as-written member | corrected member |
|---|---|---|---|---|---|---|
| components/ImportExportButtons.tsx:89-101 | a `"` only toggles `inQuotes` and is never stored, so the later `.replace(/""/g, '"')` never fires and every quote in a field is lost | the field `a"b` exports as `"a""b"` and reads back as `ab` | quote characters are kept while scanning; the outer pair is then stripped and doubled quotes are un-doubled, so an exported field reads back as itself | not executed | ImportExport.AsWrittenLosesQuotes | ImportExport.FieldRoundTrip |
| components/FollowupsTable.tsx:79-84 | the due instant itself is compared with today's midnight, so 'today' needs a due time of exactly 00:00:00.000 | a Pending follow-up due at 10:00 today is shown as upcoming | compare the due date's day with today, as app/actions/dashboard.ts:108-114 does | not executed | FollowupsTable.TodayMissed | FollowupsTable.DateStatusMeaning |
