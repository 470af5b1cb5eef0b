# Job board core, modelled in Dafny

The system is a small job board. An Express server keeps job postings in one
MySQL table, `jobs`. A React client has two screens:

- a list screen that fetches every posting and filters it in the browser by
  title, location, job type and salary;
- a creation form that posts a new nine-field record.

This project models the core of all three parts.

- **Server** (`backend/server.js`). The table is a map from id to record plus
  an AUTO_INCREMENT counter (`JobStore.Table`). The `job_type` ENUM column
  stores one of its four members. The table sets no collation, so the default
  case-insensitive one applies: a value that differs from a member only in
  letter case, such as `full-time`, is stored as that member (`Full-time`). A
  value that matches no member but is one of `1` to `4` is read as a 1-based
  index, so `2` is stored as `Part-time`. Any other value is refused. The list
  route builds its SQL text
  and parameters (`ListQuery`). The get, create, update and delete routes map
  their database outcomes to HTTP responses (`JobStore.*Outcome` and the class
  `JobStore.JobDatabase`). Start-up seeding inserts four sample rows into an
  empty table.
- **List screen** (`frontend/src/components/JobList.js`). `applyFilters` is a
  chain of up to four `.filter` passes (`JobFilter`). The salary pass reads a
  free-text range with the regular expression `₹?(\d+)k?\s*-\s*₹?(\d+)k?`,
  modelled as a leftmost-match scanner (`SalaryPattern`). The screen's state
  and handlers are the class `JobListComponent.JobList`, and the HTTP client's
  error is turned into one message (`TransportErrors`).
- **Creation form** (`frontend/src/components/CreateJob.js`). The form's state
  and handlers are the class `CreateJobComponent.CreateJobForm`. It uses the
  same error classifier with a different detail and a different last-resort
  text.

Pure logic is written as functions with lemmas. Code that updates state (the
React state setters, the table) is written as classes whose methods are
proved against those functions.

Each awaited handler (`fetchJobs`, `handleSubmit`) is split in two:

- a `Begin…` method holds the synchronous part before the first `await`;
- a `Finish…` method takes the settled reply of the HTTP call as a parameter.

A composite method runs the two in sequence.

The effect that re-runs `applyFilters` whenever `jobs` or `filters` change runs
at the end of every method that changes either. The invariant `Valid()` of
`JobList` says its result is always current.

The four sample rows use three of the four job types: two `Full-time`, one
`Part-time`, one `Contract`, and no `Internship` row;
`JobStore.SampleJobsStorable` states this.

## Model

| member | source | states |
|---|---|---|
| Text.Lower | frontend/src/components/JobList.js:79 | `toLowerCase` keeps the length and maps every upper-case ASCII letter to its own lower-case letter, other characters unchanged |
| Text.IncludesFromSpec | frontend/src/components/JobList.js:79 | the position-by-position search from `from` succeeds iff the needle occurs at some start at or after `from` |
| Text.IncludesSpec | frontend/src/components/JobList.js:85 | `includes` holds iff the needle is a contiguous slice of the haystack |
| Text.IncludesTrivial | frontend/src/components/JobList.js:77-81 | every text includes the empty text and itself |
| Text.Includes | frontend/src/components/JobList.js:79 | `hay.includes(needle)`; its meaning, the needle occurring as a contiguous slice, is stated by Text.IncludesFromSpec and Text.IncludesSpec |
| Text.Decimal | frontend/src/components/JobList.js:63 | a rendered status is a non-empty digit string without leading zero |
| Text.DecimalRoundTrip | frontend/src/components/JobList.js:100-101 | `parseInt(…, 10)` reads back the number a decimal rendering wrote |
| Text.DecimalValue | frontend/src/components/JobList.js:100-101 | `parseInt(…, 10)` on a run of ASCII digits; Text.DecimalRoundTrip states that it inverts the decimal rendering |
| Text.CountZero | backend/server.js:113-135 | a character is counted zero times iff it does not occur |
| Text.CountAppend | backend/server.js:113-135 | counting a character distributes over concatenation |
| Posting.WithField | frontend/src/components/CreateJob.js:28-34 | `{...prev, [name]: value}` sets the named field and keeps the other eight |
| Posting.WithFieldSame | frontend/src/components/CreateJob.js:28-34 | setting a field to its own value leaves the record unchanged |
| Posting.FieldsExtensional | frontend/src/components/CreateJob.js:7-17 | two drafts that agree on all nine named fields are equal |
| SalaryPattern.SkipOne | frontend/src/components/JobList.js:97 | an optional `₹` or `k` is taken exactly when it is the next character |
| SalaryPattern.DigitsEnd | frontend/src/components/JobList.js:97 | `\d+` stops at a digit-only run followed by a non-digit or the end |
| SalaryPattern.SpacesEnd | frontend/src/components/JobList.js:97 | `\s*` stops at a whitespace run followed by a non-space or the end |
| SalaryPattern.DigitsEndUnique | frontend/src/components/JobList.js:97 | a maximal digit run has only one end |
| SalaryPattern.SpacesEndUnique | frontend/src/components/JobList.js:97 | a maximal whitespace run has only one end |
| SalaryPattern.Shape | frontend/src/components/JobList.js:97 | a span is a match of `₹?(\d+)k?\s*-\s*₹?(\d+)k?` with the captures the greedy engine reports; SalaryPattern.ScanAt and SalaryPattern.ScanAtComplete prove the scanner agrees with it both ways |
| SalaryPattern.ScanAt | frontend/src/components/JobList.js:97 | a match the scanner reports at `i` starts at `i` and is a match of the pattern with greedy captures |
| SalaryPattern.ScanAtComplete | frontend/src/components/JobList.js:97 | every match of the pattern is the one the scanner reports at its start (the pattern has one match per start) |
| SalaryPattern.FirstMatch | frontend/src/components/JobList.js:97 | the search returns the first start from `from` at which the pattern matches, and none when no start matches |
| SalaryPattern.Match | frontend/src/components/JobList.js:97-98 | `salary_range.match(…)` returns only matches of the pattern |
| SalaryPattern.MatchIsLeftmost | frontend/src/components/JobList.js:97-98 | whenever the pattern matches somewhere, `match` succeeds at that start or further left |
| SalaryPattern.SalaryBounds | frontend/src/components/JobList.js:97-101 | the two bounds are absent iff the pattern matches nowhere in the text |
| SalaryPattern.NoDashNoBounds | frontend/src/components/JobList.js:98 | a text without `-`, such as "Negotiable", yields no bounds |
| SalaryPattern.RangeTextRoundTrip | frontend/src/components/JobList.js:97-101 | reading a canonical "₹Lk - ₹Hk" text gives back L and H |
| SalaryPattern.CanonicalFifty | backend/server.js:87 | the first sample row's range is the canonical text of 50 to 80 |
| JobFilter.FilterBy | frontend/src/components/JobList.js:78-80 | one `.filter` pass keeps exactly the postings that pass its test and never grows the list |
| JobFilter.SalaryFits | frontend/src/components/JobList.js:93-104 | the salary test of one posting: a non-empty range whose first match brackets the value; its meaning is stated by JobFilter.SalaryFilterSpec and JobFilter.SalaryExample |
| JobFilter.Holds | frontend/src/components/JobList.js:77-104 | the four `.filter` predicates; JobFilter.TitleFilterSpec, LocationFilterSpec, TypeFilterSpec and SalaryFilterSpec state each one's meaning |
| JobFilter.ApplyFilters | frontend/src/components/JobList.js:74-108 | `applyFilters` as the chain of up to four passes; JobFilter.ApplyFiltersIsConjunction and JobFilter.ApplyFiltersSpec state that it keeps, in order, exactly the postings every active test accepts |
| JobFilter.Selected | frontend/src/components/JobList.js:74-108 | the reference single pass keeps exactly the postings every active test accepts |
| JobFilter.FilterByAppend | frontend/src/components/JobList.js:78-80 | a pass over a concatenation is the concatenation of the passes |
| JobFilter.ApplyFiltersSingle | frontend/src/components/JobList.js:74-108 | on one posting the four passes keep it iff the conjunction of active tests accepts it |
| JobFilter.ApplyFiltersIsConjunction | frontend/src/components/JobList.js:74-108 | the chain of passes equals one pass filtering by the conjunction of the active tests |
| JobFilter.SelectedIsSubsequence | frontend/src/components/JobList.js:74-108 | the reference pass drops postings but never adds, repeats or reorders them |
| JobFilter.ApplyFiltersSpec | frontend/src/components/JobList.js:74-108 | `applyFilters` returns an order-preserving sub-list holding exactly the fetched postings every active test accepts |
| JobFilter.FilterByCommutes | frontend/src/components/JobList.js:77-105 | two passes give the same list in either order |
| JobFilter.ClearedShowsAll | frontend/src/components/JobList.js:126-133 | with every control cleared the whole fetched list is shown |
| JobFilter.TitleFilterSpec | frontend/src/components/JobList.js:77-81 | the title filter alone keeps a posting iff its lower-cased title contains the lower-cased text |
| JobFilter.OwnTitleKept | frontend/src/components/JobList.js:77-81 | searching for a posting's own title keeps that posting |
| JobFilter.LocationFilterSpec | frontend/src/components/JobList.js:83-87 | the location filter alone keeps a posting iff its lower-cased location contains the lower-cased text |
| JobFilter.TypeFilterSpec | frontend/src/components/JobList.js:89-91 | the type filter alone keeps a posting iff its type equals the selection exactly |
| JobFilter.UnknownTypeEmpties | frontend/src/components/JobList.js:89-91 | a type outside the enum empties the list without any error |
| JobFilter.SalaryFilterSpec | frontend/src/components/JobList.js:93-105 | the salary filter alone drops empty and unmatched ranges and keeps a matched one iff `min <= salary <= max` |
| JobFilter.SalaryExample | frontend/src/components/JobList.js:93-104 | "₹50k - ₹80k" is kept for 50, 60 and 80 and dropped for 90 |
| TransportErrors.FixedTextsDistinct | frontend/src/components/JobList.js:60-68 | the fixed messages differ from each other and none starts with "Server error: " |
| TransportErrors.Classify | frontend/src/components/JobList.js:60-68 | the failure's class, tested in the order timeout code, response, request sent, other; TransportErrors.MessagesIdentifyClass ties both screens' messages to it |
| TransportErrors.FetchErrorMessage | frontend/src/components/JobList.js:60-68 | the list screen's message; TransportErrors.MessagesIdentifyClass and TransportErrors.ServerTextHasPrefix state that it identifies the class |
| TransportErrors.SubmitErrorMessage | frontend/src/components/CreateJob.js:78-86 | the creation form's message; TransportErrors.ClassifiersAgree states how it differs from the list screen's |
| TransportErrors.ServerTextHasPrefix | frontend/src/components/JobList.js:63 | every server-error message starts with "Server error: " |
| TransportErrors.MessagesIdentifyClass | frontend/src/components/JobList.js:60-68 | each screen's message identifies the failure's class, tested in the order timeout, response, request, other (the form's classifier at CreateJob.js:78-86 likewise) |
| TransportErrors.ClassifiersAgree | frontend/src/components/CreateJob.js:78-86 | the two screens' messages differ only in the server detail (the form prefers the body's `error`) and the last-resort text |
| JobListComponent.WithControl | frontend/src/components/JobList.js:110-116 | a filter change sets the named control, keeps the other two and keeps the salary |
| JobListComponent.JobList.constructor | frontend/src/components/JobList.js:6-15 | the screen starts with no postings, loading, no error and cleared filters, with the filter effect current |
| JobListComponent.JobList.BeginFetch | frontend/src/components/JobList.js:28-31 | fetching starts loading and clears the error; postings and filters are untouched |
| JobListComponent.JobList.FinishFetch | frontend/src/components/JobList.js:35-71 | a failed health check or list request sets that failure's message and keeps the postings; success stores and filters them; loading ends either way |
| JobListComponent.JobList.FetchJobs | frontend/src/components/JobList.js:28-72 | after a fetch there is no error iff both requests succeeded, the postings change only on success, and loading is false |
| JobListComponent.JobList.HandleFilterChange | frontend/src/components/JobList.js:110-116 | the named control changes and the shown list is re-filtered from the fetched one |
| JobListComponent.JobList.HandleSalaryChange | frontend/src/components/JobList.js:118-124 | only the salary changes and the shown list is re-filtered |
| JobListComponent.JobList.ClearFilters | frontend/src/components/JobList.js:126-133 | filters return to their initial values and the whole fetched list is shown |
| CreateJobComponent.SelectableTypesMatchColumn | frontend/src/components/CreateJob.js:26 | the type buttons offer exactly the four members of the `job_type` column |
| CreateJobComponent.CreateJobForm.constructor | frontend/src/components/CreateJob.js:7-21 | the form starts with nine empty fields, idle, no modal, no error |
| CreateJobComponent.CreateJobForm.HandleChange | frontend/src/components/CreateJob.js:28-34 | the named input takes the value and the other eight fields are untouched; re-entering a field's current value changes nothing |
| CreateJobComponent.CreateJobForm.HandleJobTypeSelect | frontend/src/components/CreateJob.js:36-41 | only the job type changes |
| CreateJobComponent.CreateJobForm.BeginSubmit | frontend/src/components/CreateJob.js:43-52 | submitting starts loading, clears the error and posts the draft as it stands |
| CreateJobComponent.CreateJobForm.FinishSubmit | frontend/src/components/CreateJob.js:59-89 | success opens the modal and empties the draft; failure sets the classified message and keeps draft and modal; loading ends either way |
| CreateJobComponent.CreateJobForm.HandleSubmit | frontend/src/components/CreateJob.js:43-90 | the current draft is posted and the form ends idle, either with modal, empty draft and no error, or unchanged with exactly one error |
| CreateJobComponent.CreateJobForm.CloseModal | frontend/src/components/CreateJob.js:102-105 | the modal closes |
| ListQuery.Wrap | backend/server.js:118 | a LIKE term is the raw text with one `%` on each side |
| ListQuery.BuildListQuery | backend/server.js:113-135 | the `query +=` / `params.push` sequence yields the specified SQL text and parameter list |
| ListQuery.QueryText | backend/server.js:113-135 | the SQL text the list route sends; ListQuery.PlaceholdersMatchParams, QueryTextIgnoresValues and NoFilterQuery state its meaning |
| ListQuery.QueryParams | backend/server.js:114-129 | the values bound to the placeholders; ListQuery.ParamsSpec and PlaceholdersMatchParams state its meaning |
| ListQuery.NoFilterQuery | backend/server.js:113-135 | with no filter the query is the bare SELECT ordered by `created_at` descending |
| ListQuery.TitlePlaceholder | backend/server.js:117 | the title clause holds one placeholder |
| ListQuery.LocationPlaceholder | backend/server.js:122 | the location clause holds one placeholder |
| ListQuery.TypePlaceholder | backend/server.js:127 | the type clause holds one placeholder |
| ListQuery.SalaryPlaceholders | backend/server.js:132 | the salary gate holds no placeholder |
| ListQuery.SelectPlaceholders | backend/server.js:113 | the SELECT head holds no placeholder |
| ListQuery.OrderPlaceholders | backend/server.js:135 | the ORDER BY tail holds no placeholder |
| ListQuery.CountClauses | backend/server.js:116-133 | four optional fragments with 1, 1, 1 and 0 placeholders contribute one per present filter |
| ListQuery.FilterClausesPlaceholders | backend/server.js:116-133 | the filter clauses hold one placeholder per present title, location or type filter |
| ListQuery.PlaceholdersMatchParams | backend/server.js:113-137 | the query's placeholders and its parameter list have the same count, so the bind never misaligns |
| ListQuery.QueryTextIgnoresValues | backend/server.js:113-135 | the SQL text depends only on which filters are present, never on their values |
| ListQuery.ParamsSpec | backend/server.js:114-129 | one parameter per present filter, in clause order: wrapped title, wrapped location, verbatim type |
| ListQuery.SalaryBoundsUnused | backend/server.js:131-133 | the salary bounds add no parameter, and only their joint presence changes the text |
| JobStore.SelectById | backend/server.js:151-153 | a lookup by primary key returns at most one row, and none iff the id is absent |
| JobStore.SameIgnoringCase | backend/server.js:63 | equality under the column's default collation, letter case ignored; JobStore.SameIgnoringCaseSpec states its meaning |
| JobStore.SameIgnoringCaseSpec | backend/server.js:63 | ignoring letter case character by character is the same as comparing the lower-cased texts |
| JobStore.ByIndex | backend/server.js:63 | the texts `1` to `4`, and only they, name the member with that 1-based index |
| JobStore.EnumMember | backend/server.js:63 | a `job_type` value is stored as the member it equals with letter case ignored, failing that as the member whose index it spells, and is refused iff it is neither |
| JobStore.MembersDistinctIgnoringCase | backend/server.js:63 | no two of the four members are equal with letter case ignored |
| JobStore.EnumMemberIgnoresCase | backend/server.js:63 | a value equal to a member with letter case ignored is stored as that member; every member is stored as itself |
| JobStore.Stored | backend/server.js:166-244 | the stored record holds the ENUM member the value names, in its declared spelling (one equal to the value up to letter case unless the value is an index), and every other field as submitted |
| JobStore.GetOutcome | backend/server.js:149-163 | the get route's response; JobStore.JobDatabase.GetJob, DeleteThenGet, CreateThenGet and UpdateThenGet state its meaning |
| JobStore.CreateOutcome | backend/server.js:166-204 | the create route's table and response; JobStore.CreateThenGet, CaseVariantAccepted, IndexAccepted, RoutesPreserveConsistency and FailuresChangeNothing state its meaning |
| JobStore.UpdateOutcome | backend/server.js:207-244 | the update route's table and response; JobStore.UpdateThenGet, CaseVariantAccepted, IndexAccepted, RoutesPreserveConsistency and FailuresChangeNothing state its meaning |
| JobStore.DeleteOutcome | backend/server.js:247-261 | the delete route's table and response; JobStore.DeleteThenGet, RoutesPreserveConsistency and FailuresChangeNothing state its meaning |
| JobStore.SeedOutcome | backend/server.js:80-101 | start-up seeding of the table; JobStore.SeedSpec and SeedOnce state its meaning |
| JobStore.JobDatabase.constructor | backend/server.js:57-72 | a new table is empty with its counter at 1 |
| JobStore.JobDatabase.GetJob | backend/server.js:149-163 | a fault gives 500, an absent id 404, else 200 with the row |
| JobStore.JobDatabase.CreateJob | backend/server.js:166-204 | the new state and response are those of the create route, which stores a case variant or an index of a member as that member, and the table stays consistent |
| JobStore.JobDatabase.UpdateJob | backend/server.js:207-244 | the new state and response are those of the update route, which stores a case variant or an index of a member as that member, and the table stays consistent |
| JobStore.JobDatabase.DeleteJob | backend/server.js:247-261 | the new state and response are those of the delete route, and the table stays consistent |
| JobStore.JobDatabase.SeedIfEmpty | backend/server.js:80-101 | the new table is the seeding outcome of the old one, and stays consistent |
| JobStore.ListJobs | backend/server.js:110-146 | the list route sends the specified query and parameters and answers 500 on a query error, else 200 with the rows |
| JobStore.SampleJobsStorable | backend/server.js:86-91 | every sample row's type is an enum value, and none is `Internship` |
| JobStore.InsertAllSpec | backend/server.js:93-94 | a multi-row insert gives the k-th record id `nextId + k`, advances the counter by the row count and keeps earlier rows |
| JobStore.InsertAllConsistent | backend/server.js:93-94 | inserting records whose types are ENUM members keeps the table consistent |
| JobStore.InsertAllCount | backend/server.js:93-94 | every inserted record adds one row |
| JobStore.InsertFour | backend/server.js:93-94 | inserting four records is four single inserts with consecutive ids |
| JobStore.SeedSpec | backend/server.js:80-101 | seeding leaves a non-empty table alone and fills an empty one with exactly the four samples under the next four ids |
| JobStore.SeedOnce | backend/server.js:81-85 | seeding twice is the same as seeding once |
| JobStore.CreateThenGet | backend/server.js:166-204 | a created posting is read back under the returned, never-used id as stored (exactly the submitted fields when the type is a member as spelled), and other rows are undisturbed |
| JobStore.RoutesPreserveConsistency | backend/server.js:57-72 | create, update and delete keep ids below the counter and types inside the enum, and never move the counter back |
| JobStore.FailuresChangeNothing | backend/server.js:193-261 | a 404 or 500 leaves the table unchanged; update and delete answer 404 iff no fault and the id is absent |
| JobStore.DeleteThenGet | backend/server.js:247-261 | after a delete, get answers 404 for that id and the same as before for every other id |
| JobStore.UpdateThenGet | backend/server.js:207-244 | after an update, get returns the stored new fields for that id (exactly the submitted ones when the type is a member as spelled) and the same as before for others; rewriting a row's own values answers 200 and changes nothing |
| JobStore.CaseVariantAccepted | backend/server.js:166-244 | create answers 201 and update of an existing id answers 200 for a type that matches a member only up to letter case, and both store the member |
| JobStore.LowerCaseFullTime | backend/server.js:63 | `full-time` is stored as `Full-time`, and `Freelance` matches no member |
| JobStore.ShortTextMatchesNoMember | backend/server.js:63 | a one-character text equals no member even with letter case ignored, so an index text is never read as a name |
| JobStore.IndexAccepted | backend/server.js:166-244 | create answers 201 and update of an existing id answers 200 for the text of a member's 1-based index, and both store that member |
| JobStore.IndexExamples | backend/server.js:63 | `2` is stored as `Part-time`, while `0` and `5` are refused |

## Left out

- HTTP transport, axios timeouts, headers, the API URL fallback and CORS are left out. The outcome of each awaited call is a `Reply` parameter of the `Finish…` methods.
- The health route, with its timestamp, and the listener start-up are left out; they have no logic beyond a fixed reply.
- The MySQL engine is not modelled. Each route's database error is a `fault` parameter, and the list route's rows are a parameter. LIKE collation, `ORDER BY created_at` and the timestamps are not evaluated.
- JobStore.CreateOutcome: the only refusal it predicts is a `job_type` that matches no ENUM member even with letter case ignored and is not one of the index texts `1` to `4` (strict SQL mode). The other refusals of the table definition (backend/server.js:57-72) are folded into `fault`: a NULL in a NOT NULL column, a value longer than its `VARCHAR(255)` or `VARCHAR(100)` column, and an `application_deadline` that is not a date, including the empty string the form posts when no deadline is picked. For those inputs the source answers 500 where `CreateOutcome(t, f, false)` answers 201.
- JobStore.UpdateOutcome: the UPDATE meets the same column checks, and the model folds the same refusals (NULL, over-long values, a non-date deadline) into `fault`. JobStore.UpdateThenGet and JobStore.CreateThenGet therefore promise their 200 and 201 only for records the database accepts beyond the ENUM check.
- JobStore.EnumMember: the column's default collation is followed only as far as ASCII letter case. Its other equivalences (accents, non-ASCII case, and the trailing-space padding of PAD SPACE collations) are not modelled. Of the numbers MySQL reads as an index, only the plain texts `1` to `4` are; other spellings of those numbers (`02`, `2.0`, ` 2`) depend on MySQL's string-to-number conversion. The model refuses all such values where MySQL may accept them, and so do JobStore.JobDatabase.CreateJob and JobStore.JobDatabase.UpdateJob, which follow it.
- JobStore.GetOutcome: the row is returned as stored. The MySQL client library reads the `DATE` column back as a JavaScript `Date`, so the get and list routes answer with `application_deadline` as an ISO timestamp rather than the posted text; east of UTC that timestamp falls on the previous day. The `created_at` and `updated_at` columns are not part of the record.
- JobStore.FailuresChangeNothing: a `fault` stands for a statement that failed without taking effect, so a faulted route returns the old table. The server runs each autocommitted INSERT, UPDATE or DELETE on one shared connection (backend/server.js:37-46). If that connection is lost after the statement has committed, the route answers 500 with the change already made; the model does not cover that case.
- JobStore.UpdateOutcome: `affectedRows` is taken as the number of matched rows, which is what the client library's found-rows default reports. Rewriting a row with its own values therefore answers 200.
- A missing value (`null` or `undefined`) and the empty string are both the empty string. The JavaScript code treats them alike wherever it tests them (`!job.salary_range`, query-string truthiness). MySQL does not: the `DATE` column accepts NULL but refuses `''`, and the NOT NULL text columns accept `''` but refuse NULL. The model leaves both refusals to `fault`.
- Route ids are natural numbers. Parsing the `:id` path text, and query parameters given as arrays, are left out.
- Text.Lower and Text.IsSpace cover ASCII only. JavaScript's `toLowerCase` maps all of Unicode, and its `\s` also matches Unicode spaces.
- JobListComponent.JobList.HandleSalaryChange takes the slider's value as a natural number. `parseInt` of a non-numeric value (NaN) and the slider's bounds are left out.
- `retryFetch` calls `fetchJobs` again and is modelled by `FetchJobs`. The mount effect that calls it first is the constructor followed by `FetchJobs`.
- Rendering (JSX), `console` logging, `handleSaveDraft` (localStorage and `alert`) and the navigation in `closeModal` are left out.
- Concurrency is left out. The model does not cover overlapping fetches or submits, or the ordering of the asynchronous seed against early requests.
