# Job board: a Dafny model of its submission, listing and admin rules

The job board lets companies submit job postings through a form. The
postings land in a job table as PENDING, and an administrator approves or
rejects them. The public home page lists the APPROVED postings, narrowed
by a free-text search and three enum filters. This project models those
rules and proves their properties. One module per source file:

- `Types` (`types.dfy`). The four closed enumerations, the stored `Job`
  record, the submission keys, the listing filters and the label tables.
- `JobsRoute` (`jobs_route.dfy`). `POST /api/jobs` checks the required
  keys in a fixed order, creates the record as PENDING, reads it back and
  sends a best-effort admin notice. `GET /api/jobs` lists the approved
  records newest first. `JobsApi` is a class whose fields are the job
  table, the next key and the log of notices.
- `SubmissionForm` (`submission_form.dfy`). The client-side schema as a
  predicate, the JSON body the form posts, and the `onSubmit` state
  sequence as a method of `FormState`.
- `HomePage` (`home_page.dfy`). The public listing: APPROVED only, a
  case-insensitive substring search over four fields, and the enum
  filters, all combined with AND. `HomeView` holds the page's state, and
  its `FilterJobs` narrows the list step by step, as the source does.
- `JobFiltersPanel` (`job_filters.dfy`). Setting, clearing and counting
  filter keys.
- `AdminPage` (`admin_page.dfy`). The admin page's local list: its updates
  after a status change or a delete comes back ok, the status filter and
  the card counts.
- `ManagementTable` (`management_table.dfy`). The actions each row offers
  for each status, and the per-job loading flags raised around the page's
  handlers.
- `Auth` (`auth.dfy`). The fixed admin credentials and the token kept in
  the browser's local storage.
- `Seqs` and `Wrappers`. `Array.prototype.filter` as `Filter`, with its
  subsequence, idempotence and commutation lemmas, and `Option`.

Inputs from outside the program are parameters:

- the response of each `fetch` (`responseOk`, or the decoded list);
- whether the store fails during a POST, and at which step (`StoreFault`: connecting, `create`, a read-back that finds nothing, or a read-back that throws after `create` committed);
- whether the admin notice was delivered;
- whether the user confirmed the delete dialog;
- whether a `window` exists;
- the clock (`now`);
- zod's URL check (`isUrl`).

## Model

| member | source | states |
|---|---|---|
| Types.EnumerationsComplete | src/lib/types.ts:2-5 | JobStatus has exactly PENDING, APPROVED and REJECTED; Department has four values; LocationType and JobType have three each |
| Types.ParseDepartment | src/lib/types.ts:3 | a string names a department exactly when it is one of the four literals, and parsing a literal gives back its value |
| Types.ParseLocationType | src/lib/types.ts:4 | the same round trip for the three location-type literals |
| Types.ParseJobType | src/lib/types.ts:5 | the same round trip for the three job-type literals |
| Types.NamesAreTruthy | src/lib/types.ts:2-5 | every enum literal is a non-empty string, so a present enum value is truthy |
| Types.RequiredFieldsAreTheRequiredKeys | src/lib/types.ts:26-38 | the server's eight required keys are exactly the keys the submission interface declares without `?`, each listed once |
| Types.LabelsTotal | src/lib/types.ts:46-63 | each label table has every value of its enumeration as a key and gives distinct values distinct labels |
| JobsRoute.FirstMissing | src/app/api/jobs/route.ts:50-68 | the key named in the 400 is a required key whose value is falsy; the other properties are stated by `NoneMissingIffComplete` and `MissingFieldIsFirst` |
| JobsRoute.FirstMissingIn | src/app/api/jobs/route.ts:61-68 | no field is reported exactly when every listed key is truthy; a reported field is falsy and every key before it is truthy |
| JobsRoute.NoneMissingIffComplete | src/app/api/jobs/route.ts:50-68 | the required-key loop passes a body exactly when all eight required keys are filled in |
| JobsRoute.MissingFieldIsFirst | src/app/api/jobs/route.ts:50-67 | the field in the 400 error is a required key, is falsy (absent or the empty string) and is the first such key in the checking order |
| JobsRoute.OptionalKeysNeverChecked | src/app/api/jobs/route.ts:50-59 | changing companyWebsite, location, salaryRange or status never changes the validation result |
| JobsRoute.SameRequiredKeysSameResult | src/app/api/jobs/route.ts:61-68 | two bodies whose checked keys are equally truthy get the same validation result |
| JobsRoute.NewRecord | src/app/api/jobs/route.ts:77-82 | the record to create is PENDING, has the key and the timestamps the store assigns, and carries the body's submitted keys unchanged |
| JobsRoute.NewRecordCopiesBody | src/app/api/jobs/route.ts:77-82 | the created record is PENDING whatever status the body claimed, and every other submitted key is copied unchanged |
| JobsRoute.PostOutcome | src/app/api/jobs/route.ts:42-115 | every answer is a 201, a 400 or a 500, and a created record is PENDING under the key the store handed out; the case split is stated by `PostOutcomeCases` |
| JobsRoute.PostOutcomeCases | src/app/api/jobs/route.ts:42-115 | a record is created exactly when the store works and the body is complete; a 400 occurs exactly when the connection works and the body is incomplete, and it names the first missing key; a record that cannot be read back, a read-back that throws, and every other store fault give a 500 |
| JobsRoute.InsertNewestFirst | src/app/api/jobs/route.ts:16-18 | inserting a record adds exactly that record to the list's multiset |
| JobsRoute.InsertKeepsNewestFirst | src/app/api/jobs/route.ts:16-18 | inserting into a list ordered by createdAt descending keeps it ordered |
| JobsRoute.InsertKeepsDistinctIds | src/app/api/jobs/route.ts:12-19 | inserting a record whose key is new keeps the keys distinct |
| JobsRoute.JobsApi.constructor | src/lib/db-init.ts:28-66 | the store starts from a given table (such as the two APPROVED seed rows) whose rows sit under their own keys below the next key, with no notices |
| JobsRoute.JobsApi.FindUnique | src/app/api/jobs/route.ts:87-89 | finds a record exactly when its key is in the table, and returns the stored record |
| JobsRoute.JobsApi.Post | src/app/api/jobs/route.ts:42-115 | the response is the one described above; on 201 the table gains exactly the new record under a fresh key and one notice is logged, delivered or not; when `findUnique` throws after `create` committed, the answer is a 500 and yet the new PENDING record stays stored, with no notice; on every other response the table and the notice log are unchanged |
| JobsRoute.JobsApi.ListApproved | src/app/api/jobs/route.ts:12-19 | returns exactly the stored APPROVED records, each once, ordered by createdAt descending |
| SubmissionForm.Errors | src/components/forms/job-submission-form.tsx:23-35 | the reported keys are exactly the schema keys whose rule the value fails; what that means key by key is stated by `NoErrorsIffAcceptable` |
| SubmissionForm.NoErrorsIffAcceptable | src/components/forms/job-submission-form.tsx:23-35 | the schema reports no error exactly when: companyName and jobTitle have at least 2 characters; companyContact has at least 3 and companyDescription at least 10; jobDescription has at least 50; the three selects hold enum literals; companyWebsite is absent, empty or a URL |
| SubmissionForm.FreeTextNeverReported | src/components/forms/job-submission-form.tsx:31-33 | location and salaryRange never carry an error |
| SubmissionForm.AcceptedPassesServerCheck | src/components/forms/job-submission-form.tsx:23-35 | every set of values the schema accepts passes the server's required-key check and, with a working store, is created as a PENDING record holding exactly those values |
| SubmissionForm.RequestBody | src/components/forms/job-submission-form.tsx:66 | the posted body carries no status, and each enum key it holds names the literal the select held |
| SubmissionForm.ServerIsLaxerThanForm | src/app/api/jobs/route.ts:61-68 | a one-character company name fails the form but passes the server's check |
| SubmissionForm.FormState.OnSubmit | src/components/forms/job-submission-form.tsx:56-81 | while the request is in flight isSubmitting is true and error is cleared; the body is posted; on ok the inputs are reset and onSuccess runs once; otherwise only the error message is set; isSubmitting is false on both paths |
| SubmissionForm.FormState.constructor | src/components/forms/job-submission-form.tsx:44-54 | the form starts not submitting, with no error and blank values, having sent no request and called `onSuccess` no times |
| HomePage.Lower | src/app/page.tsx:44 | lower-casing keeps the length, turns each ASCII capital `'A'..'Z'` into the small letter 32 code points above it (`'a'..'z'`), leaves no upper-case ASCII letter and changes no other character |
| HomePage.Contains | src/app/page.tsx:46-49 | `includes` holds only for a query no longer than the text; its meaning is stated by `ContainsIffOccurs` |
| HomePage.PublicListing | src/app/page.tsx:39-65 | the listing is no longer than the fetched list and holds only APPROVED jobs; its other properties are stated by `ListingIsApprovedSubsequence` and the lemmas below |
| HomePage.LowerIdempotent | src/app/page.tsx:44 | lower-casing twice is lower-casing once |
| HomePage.ContainsIffOccurs | src/app/page.tsx:46-49 | `includes` holds exactly when the query occurs at some offset of the text |
| HomePage.ListingIsApprovedSubsequence | src/app/page.tsx:40-62 | the listing holds only APPROVED jobs, holds exactly the visible jobs, and keeps the fetched order |
| HomePage.EmptyQueryRestrictsNothing | src/app/page.tsx:43 | with an empty query the listing depends on status and the filters alone |
| HomePage.SearchIgnoresCase | src/app/page.tsx:44 | a query and its lower-cased form list the same jobs |
| HomePage.OnlyFourFieldsSearched | src/app/page.tsx:45-50 | two jobs that agree on jobTitle, companyName, companyDescription and jobDescription match the same queries |
| HomePage.MatchIffOccursInField | src/app/page.tsx:45-50 | a job matches exactly when the query occurs in one of its four lower-cased searched fields |
| HomePage.SearchExample | src/app/page.tsx:44-46 | a job titled "Senior Frontend Developer" matches the query "frontend" |
| HomePage.DepartmentIsConjunct | src/app/page.tsx:54-56 | a set department filter keeps exactly the listed jobs of that department |
| HomePage.LocationTypeIsConjunct | src/app/page.tsx:57-59 | a set location-type filter keeps exactly the listed jobs of that location type |
| HomePage.JobTypeIsConjunct | src/app/page.tsx:60-62 | a set job-type filter keeps exactly the listed jobs of that job type |
| HomePage.NarrowingOrderIrrelevant | src/app/page.tsx:42-62 | each of the six pairs of steps among the search and the three enum filters commutes, so the four steps give the same list in whichever order they are applied |
| HomePage.ListingIdempotent | src/app/page.tsx:39-65 | filtering the listing again with the same query and filters changes nothing |
| HomePage.ClearedListingIsAllApproved | src/app/page.tsx:147-150 | with the query cleared and no filter, every APPROVED job is listed |
| HomePage.ThroughSearch | src/app/page.tsx:40-51 | after the search step the list is the fetched jobs narrowed by status and search |
| HomePage.ThroughDepartment | src/app/page.tsx:54-56 | after the department step the list is narrowed by the department filter as well |
| HomePage.ThroughLocationType | src/app/page.tsx:57-59 | after the location-type step the list is narrowed by the location-type filter as well |
| HomePage.ThroughJobType | src/app/page.tsx:60-62 | after the last step the list is the public listing |
| HomePage.HomeView.FilterJobs | src/app/page.tsx:39-65 | the stored list is the public listing for the current jobs, query and filters |
| HomePage.HomeView.constructor | src/app/page.tsx:13-17 | the page starts with empty `jobs` and `filteredJobs`, no filters, an empty query and `loading` true |
| HomePage.HomeView.FetchJobs | src/app/page.tsx:23-37 | a decoded response replaces the jobs, and a failure keeps them; loading ends; the listing is recomputed |
| HomePage.HomeView.SetSearchQuery | src/app/page.tsx:23-25 | a new query is stored and the listing is recomputed for it |
| HomePage.HomeView.SetFilters | src/app/page.tsx:23-25 | new filters are stored and the listing is recomputed for them |
| HomePage.HomeView.ClearAll | src/app/page.tsx:147-150 | clear-all empties the query and the filters, after which every APPROVED job is listed |
| JobFiltersPanel.ValuesDetermineFilters | src/lib/types.ts:40-44 | two filters holding the same value under every key are equal |
| JobFiltersPanel.HandleFilterChange | src/components/jobs/job-filters.tsx:27-32 | the empty option unsets the key and any other option sets it; the other keys keep their values |
| JobFiltersPanel.ClearFilter | src/components/jobs/job-filters.tsx:34-39 | the key becomes unset and the other keys keep their values |
| JobFiltersPanel.ClearAllFilters | src/components/jobs/job-filters.tsx:41-43 | every key is unset |
| JobFiltersPanel.ActiveKeys | src/components/jobs/job-filters.tsx:45 | a key is counted exactly when it is set |
| JobFiltersPanel.ActiveFiltersCount | src/components/jobs/job-filters.tsx:45 | the badge number is the number of set keys, and at most 3 |
| JobFiltersPanel.EmptyOptionClears | src/components/jobs/job-filters.tsx:30 | choosing the empty option is the same as clearing the key |
| JobFiltersPanel.ClearFilterIdempotent | src/components/jobs/job-filters.tsx:34-39 | clearing a key twice is clearing it once |
| JobFiltersPanel.ClearingLowersCount | src/components/jobs/job-filters.tsx:34-45 | clearing a set key lowers the count by exactly one; clearing an unset key changes nothing |
| JobFiltersPanel.NoActiveFiltersIffEmpty | src/components/jobs/job-filters.tsx:41-45 | the count is zero exactly for the empty filter |
| JobFiltersPanel.ChangeThenClear | src/components/jobs/job-filters.tsx:27-39 | choosing a value and then clearing the key leaves what clearing alone leaves |
| AdminPage.WithStatus | src/app/admin/page.tsx:50-54 | the status change keeps the length, sets the status of the jobs with that id and leaves the other jobs as they were |
| AdminPage.WithoutId | src/app/admin/page.tsx:72 | the result holds exactly the jobs whose id differs, and is no longer than the list; order is stated by `DeleteRemovesExactlyThatId` |
| AdminPage.FilteredJobs | src/app/admin/page.tsx:79 | 'ALL' gives the list itself, and a status gives only jobs with that status; exactness and order are stated by `FilterShowsThatStatus` |
| AdminPage.CountStatus | src/app/admin/page.tsx:83-85 | a status count never exceeds the length of the list |
| AdminPage.GetStats | src/app/admin/page.tsx:81-88 | pending + approved + rejected = total = the number of jobs, and each count is at most the total |
| AdminPage.CountsPartition | src/app/admin/page.tsx:82-85 | the three status counts add up to the length of the list |
| AdminPage.StatusChangeTouchesOnlyThatId | src/app/admin/page.tsx:50-54 | no field other than status changes, and only jobs with that id get the new status |
| AdminPage.StatusChangeDoesNotLowerCount | src/app/admin/page.tsx:50-54 | after a status change to s the count for s does not decrease |
| AdminPage.StatusChangeRaisesNoOtherCount | src/app/admin/page.tsx:50-54 | after a status change to s no other status count increases, and the total is unchanged |
| AdminPage.DeleteRemovesExactlyThatId | src/app/admin/page.tsx:72 | the delete removes every job with that id, keeps the others in their order, and changes nothing when no job has that id |
| AdminPage.FilterShowsThatStatus | src/app/admin/page.tsx:79 | 'ALL' shows the list unchanged; a status filter shows exactly the jobs with that status, in order, as many as that status's count |
| AdminPage.AdminView.Shown | src/app/admin/page.tsx:79 | the table shows the whole list under 'ALL' and exactly the jobs with the chosen status otherwise, in the list's order |
| AdminPage.AdminView.Counts | src/app/admin/page.tsx:81-90 | the card counts add up to the total, which is the length of the list, and each status count is the length of that status's filtered list |
| AdminPage.AdminView.constructor | src/app/admin/page.tsx:15-17 | the admin page starts with an empty list, `loading` true, the filter on ALL and no alerts |
| AdminPage.AdminView.FetchJobs | src/app/admin/page.tsx:23-33 | a decoded response replaces the list, and a failure keeps it; loading ends either way |
| AdminPage.AdminView.SetFilter | src/app/admin/page.tsx:17 | the chosen filter is stored |
| AdminPage.AdminView.HandleStatusChange | src/app/admin/page.tsx:35-59 | on an ok response the list gets the status change; otherwise it is unchanged and one alert is shown |
| AdminPage.AdminView.HandleDelete | src/app/admin/page.tsx:61-77 | on an ok response the jobs with that id are removed; otherwise the list is unchanged and one alert is shown |
| ManagementTable.OfferedActions | src/components/admin/job-management-table.tsx:119-183 | view and delete are shown for every status; approve and reject exactly for PENDING; move-to-pending exactly for APPROVED and REJECTED |
| ManagementTable.Disabled | src/components/admin/job-management-table.tsx:121-183 | a button is disabled exactly when it is not view and the job's loading entry is present and true |
| ManagementTable.Moves | src/components/admin/job-management-table.tsx:119-163 | the statuses a row can move a job to are exactly the targets of the buttons shown for its status |
| ManagementTable.MovesPerStatus | src/components/admin/job-management-table.tsx:119-163 | PENDING offers exactly APPROVED and REJECTED; APPROVED and REJECTED offer only PENDING |
| ManagementTable.NoDirectVerdictSwap | src/components/admin/job-management-table.tsx:119-163 | no row moves a job directly between APPROVED and REJECTED, and no row offers the job's own status |
| ManagementTable.DeleteAlwaysOffered | src/components/admin/job-management-table.tsx:166-183 | delete and view are offered for every status |
| ManagementTable.EveryStatusReachable | src/components/admin/job-management-table.tsx:119-163 | every status can be reached from every other in at most two moves |
| ManagementTable.LoadingDisablesActions | src/components/admin/job-management-table.tsx:119-183 | while a job's flag is raised all its buttons except view are disabled; lowering the flag enables them again; other jobs' buttons are unaffected |
| ManagementTable.TableView.HandleStatusChange | src/components/admin/job-management-table.tsx:20-27 | the job's flag is true while the page's handler runs and false afterwards, on both outcomes; other jobs' flags are unchanged; the page's list changes as its handler promises |
| ManagementTable.TableView.HandleDelete | src/components/admin/job-management-table.tsx:29-38 | without confirmation nothing changes; with it, the flag is raised around the page's delete handler and lowered afterwards, and other flags are unchanged |
| ManagementTable.TableView.constructor | src/components/admin/job-management-table.tsx:18 | the table starts with no loading flags, attached to the admin page whose handlers it calls |
| Auth.OneCredentialPair | src/lib/auth.ts:2-9 | the credentials are accepted exactly for username "admin" with password "admin123" |
| Auth.ValidateCredentials | src/lib/auth.ts:7-9 | definition; its meaning is stated by `OneCredentialPair` and by `Login` returning exactly this check |
| Auth.TokenStore.IsAuthenticated | src/lib/auth.ts:30-32 | definition; its meaning is stated by `AuthenticatedIffToken` |
| Auth.TokenStore.GetAuthToken | src/lib/auth.ts:17-22 | without a window the result is null; otherwise it is the stored token, if one is stored |
| Auth.TokenStore.AuthenticatedIffToken | src/lib/auth.ts:30-32 | the user is authenticated exactly when a window exists and the stored token is "admin_authenticated"; without a window, never |
| Auth.TokenStore.SetAuthToken | src/lib/auth.ts:11-15 | stores the token under its key when a window exists, and otherwise does nothing |
| Auth.TokenStore.RemoveAuthToken | src/lib/auth.ts:24-28 | removes the token's key when a window exists, and otherwise does nothing |
| Auth.TokenStore.Login | src/lib/auth.ts:34-40 | returns exactly the credential check; a success stores the token, which authenticates whenever a window exists; a failure leaves the storage and the authentication unchanged |
| Auth.TokenStore.Logout | src/lib/auth.ts:42-44 | afterwards nobody is authenticated and all other keys are kept; once the token is gone, a further logout changes nothing |
| Auth.TokenStore.constructor | src/lib/auth.ts:11-28 | the helpers see whether a `window` exists and the local storage as it currently stands, unchanged |
| Seqs.FilterIsSubsequence | src/app/page.tsx:40-62 | `filter` keeps the elements it retains in their original order |
| Seqs.FilterFilter | src/app/page.tsx:40-62 | filtering by two predicates in turn is filtering by their conjunction |
| Seqs.FilterCommutes | src/app/page.tsx:54-62 | two filters can be applied in either order |
| Seqs.Filter | src/app/page.tsx:40-62 | `Array.prototype.filter`: the result is no longer than the input, holds exactly the input elements that satisfy the predicate, and every element satisfies it |

## Left out

- `GET /api/jobs` error fallback (`src/app/api/jobs/route.ts:23-38`). It handles database connectivity and returns `[]` or a 500; the model's store never fails on GET.
- Order of records with equal `createdAt`. The database breaks such ties, so `ListApproved` promises only a non-increasing order.
- The admin listing route `src/app/api/admin/jobs/route.ts` is not part of this model. The database does its ordering. A comment there says PENDING comes first, but status is stored as text, and plain text order puts APPROVED first. No order is claimed.
- The server side of the admin status change and delete is not part of this model (`/api/admin/jobs/{id}/status`, `/api/admin/jobs/{id}`). The page sees only whether the response was ok, a parameter here. Server-side transition checks, not-found handling, the `updatedAt` refresh and the approval notice are not modelled.
- The admin notifier (`src/lib/telegram.ts`, the settings UI and its test route) is an HTTP client to an external service. Each attempt is logged with a delivered flag, and the response does not depend on it.
- Database and deployment glue: `src/lib/db-init.ts` (its table DDL and one-shot flag; its seed rows are one possible initial table of `JobsApi`), `src/app/api/init/route.ts`, `scripts/deploy-db.js`, the seed data and the Prisma client. They are raw SQL, process control or fixture data.
- Pure presentation: layout, header, job card, job detail page, submit page, protected route, badges, `truncateText` and `formatRelativeTime`. None of them decides what is stored or listed.
- zod's URL check is a parameter `isUrl`, and the validation messages are not modelled; `Errors` reports which keys fail.
- The form's `reset()` leaves the inputs blank. `BlankValues` models that, and the select inputs hold `""`.
- `toLowerCase` is modelled over ASCII letters only. Unicode case mapping is not modelled.
- `SubmissionForm.NoErrorsIffAcceptable`: string lengths are counted in Unicode scalar values, but zod's `.min(n)` counts UTF-16 code units. The two differ for characters outside the Basic Multilingual Plane: the schema accepts the company name "🚀" (two code units), and the model reports it as too short.
- `HomePage.ContainsIffOccurs`: `includes` is modelled over sequences of scalar values rather than UTF-16 code units. The two agree on well-formed strings; lone surrogates are not representable in the model.
- A POST body whose enum keys hold a non-empty string outside their enumerations is not modelled; `SubmissionBody` types those keys by their enumerations. Such a body passes the server's truthiness check, and what the database does with it is not part of this model. (An empty string there is falsy and gets the 400 naming the key, as an absent key does.)
- `JobsRoute.NewRecord`: the route spreads every key of the JSON body into the record it creates (`src/app/api/jobs/route.ts:77-82`), not only the eleven declared ones. A client-supplied `id` (or, if the schema accepts them, `createdAt` or `updatedAt`) would reach the store and decide the record's key or its place in the newest-first order; a duplicate `id` makes `create` throw, giving a 500. The model's body has only the declared keys, so it does not capture this.
- Values of the wrong JSON type in the string keys of a POST body are not modelled. In the source a falsy one such as `0` gets the 400 and a truthy one such as `5` makes `create` throw, giving a 500.
- `JobsRoute.JobsApi.Post`: a body that is not valid JSON makes `request.json()` throw, giving a 500 (`src/app/api/jobs/route.ts:47`). The model takes the body already parsed, so this path is not represented.
- Record keys are natural numbers handed out by the store in sequence; the database's generated string ids are opaque.
- `JobsRoute.JobsApi` starts from a given table. `POST` only ever adds PENDING rows, so APPROVED rows in that table come from seeding or from the admin status route, which is not part of this model.
- Timestamps are a parameter `now`; the database's clock is not modelled.
- React scheduling is not modelled. Each handler is one sequential step, and the home page's `useEffect` recompute is a call at the end of each setter. The panel's `isOpen` toggle, the loading spinners and `console` logging are view-only.
- `window.alert` is modelled as a log of alert messages, and `window.confirm` as a parameter.
- In `onSubmit` and in the admin page's status-change and delete handlers, a failed `fetch` and a non-ok response take the same path, so both are `responseOk == false`.
- `HomePage.HomeView.FetchJobs`: the source's `fetchJobs` never checks `response.ok` (`src/app/page.tsx:27-37`). A 500 reply such as `{ error: 'Database connection failed' }` decodes and replaces `jobs`, after which `jobs.filter` throws in `filterJobs`. The model's `fetched` is a list or nothing, so it does not represent a non-list body stored as `jobs` or the crash that follows.
- `AdminPage.AdminView.FetchJobs`: the same holds for the admin page's `fetchJobs` (`src/app/admin/page.tsx:23-33`). A non-ok JSON body replaces `jobs`, and `getStats` then throws on `jobs.filter`. The model does not represent this.
- `Auth.TokenStore`: `localStorage` is a map from keys to strings held by the store; other tabs and storage events are not modelled.
