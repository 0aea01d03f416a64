# Billing dashboard: reconciliation and billing core in Dafny

This project models the core of a small MSP billing tool. Two batch scripts pull
records from two outside systems into one local SQLite store, keyed by a shared
account number:

- `pull_freshservice.py` reads the companies (Freshservice "departments") and the
  users ("requesters"). It maps each user to the first department that has an
  account number and upserts both tables in one transaction.
- `pull_datto.py` walks the Datto RMM sites, reads each site's `AccountNumber`
  variable and upserts the site's devices as assets.

A Flask app (`main.py`) reads the store. It counts each company's servers,
workstations and users, joins in the billing plan for the company's
(contract_type, billing_plan) pair, and computes a total bill. It also saves the
plan settings posted from a form. The schema (`init_db.py`) supplies the keys and
NOT NULL and UNIQUE constraints that decide when an upsert succeeds.

Files (one module each):

- `common.dfy` (`Common`): Python and SQLite primitives the scripts rely on.
  - `dict.get` with defaults and JSON nulls; Python truthiness and `str()`.
  - Decimal rendering of integers, with its parse round trip; `str.strip`.
  - SQLite `LIKE '%…%'`, which folds ASCII case, and the BINARY collation order.
  - The result of a paginated fetch.
- `store.dfy` (`Store`): the four tables and their constraints as validity predicates.
  - Each `INSERT … ON CONFLICT … DO UPDATE` and `INSERT OR REPLACE` as a pure function on a table.
  - The class `Database`, whose batch methods apply those functions in place.
- `freshservice.dfy` (`Freshservice`), from `pull_freshservice.py`:
  - the two pagination loops, including the 429 retry;
  - building the company batch; the department-id → account-number map;
  - the user linking loop and the transaction of the main block.
- `datto.dfy` (`Datto`), from `pull_datto.py`:
  - the next-page-URL loop; the site-variable lookup;
  - the site/device loop and the asset transaction.
- `billing.dfy` (`Billing`), from `main.py`:
  - the dashboard query as a specification, with its counts and COALESCE defaults;
  - the total loop; the settings query; the settings form save.

HTTP answers are function parameters: a page number, or a (page, attempt) pair, or a
URL, mapped to an answer. Every loop that the source runs `while True` or
`while next_page_url` has a `fuel` bound on its requests. `OutOfFuel` stands for a run
that is still looping when the bound is reached; in that case the store is never
touched.

Some behaviours of the code differ from what one might expect of such a tool; the
model follows the code:

- **Server classification ignores case.** A server is an asset whose operating system
  matches `LIKE '%Server%'`. SQLite folds ASCII case for LIKE, so "Windows server 2019"
  counts as a server, not as a workstation (`Billing.LowerCaseServerExample`), where a
  case-sensitive reading of the rule would call it a workstation.
- **Assets can point at a missing company.** Nothing checks that an asset's account
  number belongs to a stored company. The foreign-key pragma is set only on the
  connection that creates the schema. An asset can therefore reference an account with
  no company row (`Datto.DanglingAssetExample`); one might expect such assets to be
  rejected.
- **Re-running a sync is a no-op for keyed rows.** A second run with the same
  batch changes nothing when every record carries a distinct key: an account number for
  companies (`Store.UpsertCompaniesIdempotent`), a freshservice id for users
  (`Store.UpsertUsersIdempotent`) and a datto uid for assets
  (`Store.UpsertAssetsIdempotent`). A user without a freshservice id, or a
  device without a uid, never conflicts with an existing row, so each run appends it
  again. For a device, and for a user without an email, that adds a duplicate row
  (`Store.NullUidAssetInsertedTwice`, `Store.NullIdUserInsertedTwice`). A user without
  an id but with an email repeats that email on the second run: `email UNIQUE` fails the
  users batch, and the whole Freshservice sync rolls back
  (`Store.NullIdUserWithEmailRejected`).
- **The two pages show a missing plan differently.** The dashboard shows it as
  'Not Configured' and bills 0. The settings page shows the same pair as 'Per Device'
  (`Billing.DefaultsDisagree`).

## Model

| member | source | states |
|---|---|---|
| Common.Decimal | pull_freshservice.py:89 | `str(n)` of an int: non-empty, and starts with '-' exactly for negative n |
| Common.DecimalRoundTrip | pull_freshservice.py:89 | parsing `str(n)` back gives n, so the rendered account number loses nothing |
| Common.DecimalInjective | pull_freshservice.py:89 | distinct integer account numbers render to distinct strings |
| Common.PyStr | pull_freshservice.py:89 | `str()` of a truthy scalar is a non-empty string |
| Common.Strip | pull_freshservice.py:168 | the result is a slice of the input with only whitespace cut off before and after it; it has no leading or trailing whitespace and is unchanged when the input has none |
| Common.StripIdempotent | pull_freshservice.py:168 | stripping twice equals stripping once |
| Common.ExactImpliesLike | main.py:87 | every case-sensitive occurrence of the pattern is also a LIKE match |
| Common.StrLeRefl | main.py:99 | the BINARY collation order used by ORDER BY is reflexive |
| Common.StrLeTotal | main.py:99 | any two names are comparable |
| Common.StrLeTrans | main.py:99 | the order is transitive |
| Common.StrLeAntisym | main.py:99 | two names ordered both ways are equal, so the sort has no ties between distinct names |
| Common.FilterMap | pull_freshservice.py:82-94 | a loop that appends at most one value per element: the result is no longer than the input, holds every value produced and nothing else |
| Common.FilterMapOne | pull_freshservice.py:82-94 | one element contributes its value when one is produced, and nothing otherwise |
| Common.FilterMapAppend | pull_freshservice.py:82-94 | the result for a concatenation is the result for the first part followed by that for the second, so values come out once each, in element order |
| Store.UpsertCompany | pull_freshservice.py:101-109 | succeeds iff name, contract_type and billing_plan are non-NULL and the merged table keeps names and freshservice ids unique; then the row for the account is replaced by the merged row |
| Store.UpsertCompanies | pull_freshservice.py:101-109 | a successful batch leaves a table whose names and freshservice ids are unique |
| Store.UpsertCompaniesEffect | pull_freshservice.py:104-108 | after a batch each account holds the columns of its last record and keeps the status it had (the 'Active' default for a new row); accounts not in the batch are untouched |
| Store.UpsertCompaniesKeys | pull_freshservice.py:101-109 | every account number of a successful batch is in the table afterwards |
| Store.CompanyBatchNoOp | pull_freshservice.py:101-109 | a batch whose rows already hold their records' values leaves the table unchanged |
| Store.UpsertCompaniesIdempotent | pull_freshservice.py:101-109 | re-running a successful batch with distinct account numbers changes nothing |
| Store.UserIndex | init_db.py:55 | finds the row holding a freshservice_id, or reports that no row holds it |
| Store.UserIndexUnique | init_db.py:55 | with unique ids, the row found is the one row holding the id |
| Store.UpsertUser | pull_freshservice.py:120-128 | succeeds iff date_added is non-NULL and emails stay unique; a matching id updates its row in place, otherwise a row is appended |
| Store.UpsertUsers | pull_freshservice.py:120-128 | a successful batch keeps freshservice ids and emails unique |
| Store.UpsertUsersKeepsRows | pull_freshservice.py:123-127 | no row is removed, and existing rows keep their id and date_added |
| Store.UpsertUserStep | pull_freshservice.py:120-128 | one record updates exactly the row of its own id and no other id's row |
| Store.UpsertUsersLastWins | pull_freshservice.py:120-128 | after a batch each id holds its last record's columns; ids not in the batch keep their rows |
| Store.UserBatchNoOp | pull_freshservice.py:120-128 | a dated batch whose ids already have rows holding its records' values leaves the table unchanged |
| Store.UpsertUsersIdempotent | pull_freshservice.py:120-128 | re-running a successful batch whose records carry distinct freshservice ids changes nothing |
| Store.NullIdUserInsertedTwice | pull_freshservice.py:120-128 | a record without an id and without an email is inserted again by a second run, adding two rows |
| Store.NullIdUserWithEmailRejected | init_db.py:57 | a record without an id but with an email makes a second run's users batch fail on the repeated email |
| Store.AssetIndex | init_db.py:39 | finds the row holding a datto_uid, or reports that none does |
| Store.AssetIndexUnique | init_db.py:39 | with unique uids, the row found is the one row holding the uid |
| Store.UpsertAsset | pull_datto.py:76-86 | succeeds iff hostname and date_added are non-NULL; a known uid updates its row (keeping date_added), otherwise one row is appended; uids stay unique |
| Store.UpsertAssets | pull_datto.py:76-86 | a successful batch keeps datto uids unique |
| Store.UpsertAssetsFailsOnNull | init_db.py:35-48 | a batch fails exactly when a record lacks hostname or date_added |
| Store.UpsertAssetsLastWins | pull_datto.py:79-85 | no row is removed and old rows keep uid and date_added; each uid holds its last record; other uids' rows are unchanged |
| Store.AssetBatchNoOp | pull_datto.py:76-86 | a filled batch whose uids already have rows holding its records' values leaves the table unchanged |
| Store.UpsertAssetsIdempotent | pull_datto.py:76-86 | re-running a successful batch whose records carry distinct datto uids changes nothing |
| Store.NullUidAssetInsertedTwice | pull_datto.py:76-86 | a device without a uid is inserted again by a second run |
| Store.ReplacePlan | main.py:165-169 | succeeds iff contract_type, billing_plan and billed_by are non-NULL; the pair's row is replaced whole, others untouched |
| Store.ReplacePlans | main.py:165-169 | the executemany of INSERT OR REPLACE: the records applied in order, stopping at the first that fails; its effect is stated by ReplacePlansEffect |
| Store.ReplacePlansEffect | main.py:165-169 | a batch succeeds iff every record is filled; each pair holds its last record's plan; other pairs unchanged |
| Store.Database.constructor | init_db.py:18-91 | a freshly created store has four empty tables |
| Store.Database.Restore | pull_freshservice.py:191-195 | a rollback puts back the saved contents |
| Store.Database.UpsertCompanyBatch | pull_freshservice.py:101-109 | reports success iff the batch upsert succeeds; then the companies table is its result; the other tables are unchanged |
| Store.Database.UpsertUserBatch | pull_freshservice.py:120-128 | the same for the users table |
| Store.Database.UpsertAssetBatch | pull_datto.py:76-86 | the same for the assets table |
| Store.Database.ReplacePlanBatch | main.py:165-169 | the same for the billing_plans table |
| Freshservice.PagesFrom | pull_freshservice.py:26-45 | the reference for the department loop: pages in order until an empty page, None on a failed request, OutOfFuel after `fuel` requests; characterised by PagesFetched and PagesFailed |
| Freshservice.PagesFetched | pull_freshservice.py:31-45 | the department loop returns the items of pages page..stop-1 iff those pages are non-empty and page `stop` is empty |
| Freshservice.PagesFailed | pull_freshservice.py:41-43 | the department loop returns None iff some page after non-empty pages fails |
| Freshservice.GetAllCompanies | pull_freshservice.py:26-45 | the loop method returns exactly the specified pagination result |
| Freshservice.RetryDelay | pull_freshservice.py:61 | the wait after a 429 is the Retry-After value when the header is present, 5 seconds otherwise |
| Freshservice.UsersFrom | pull_freshservice.py:47-75 | the run's log starts with a request for its first page; the users it returns are stated by UsersItems, its failures by UsersFailedOnError |
| Freshservice.UsersRequests | pull_freshservice.py:55-73 | the (page, attempt) pairs the requester loop asks for, in order; its shape is stated by UsersChain |
| Freshservice.Continues | pull_freshservice.py:60-70 | the loop goes on after a 429 to the same page's next attempt, after a non-empty page to the next page's first attempt, and after nothing else |
| Freshservice.EventsOf | pull_freshservice.py:58-64 | the log of a run of requests: each request's page, followed by its sleep when it got a 429 |
| Freshservice.UsersEvents | pull_freshservice.py:55-73 | the run's log is exactly its requests in order, each 429 followed by a sleep of RetryDelay of its own Retry-After |
| Freshservice.UsersLog | pull_freshservice.py:55-64 | after a wait, the next request is for the same page again; consecutive requests are for consecutive pages; and each sleep lasts RetryDelay of the 429 just before it |
| Freshservice.UsersItems | pull_freshservice.py:55-73 | a finished requester loop returns the users of every page answer in request order; a 429 adds none, so no page is lost or repeated by the retry |
| Freshservice.UsersChain | pull_freshservice.py:55-73 | at most `fuel` requests, starting at the given page and attempt, each next one as Continues allows |
| Freshservice.UsersWithoutRateLimit | pull_freshservice.py:55-73 | with no 429 answers, the requester loop returns what the plain page loop of the department fetch returns on the same pages |
| Freshservice.UsersFailedOnError | pull_freshservice.py:71-73 | the requester loop returns None exactly when the last request it makes fails outright (a 429 is retried); the log then ends with that request |
| Freshservice.RetryAfterExample | pull_freshservice.py:60-64 | a 429 with Retry-After 2 on page 1: request, wait 2 s, request page 1 again, then page 2 |
| Freshservice.GetAllUsers | pull_freshservice.py:47-75 | the loop method returns the specified result and request/wait log |
| Freshservice.CompanyRecordOf | pull_freshservice.py:83-94 | a department yields a record iff its account number is truthy; the record carries `str(account)`, name, id, and type/plan with default 'Unknown' |
| Freshservice.CompanyBatchMembers | pull_freshservice.py:82-94 | the batch holds the record of every department with an account number, and only such records |
| Freshservice.PopulateCompanies | pull_freshservice.py:78-110 | succeeds iff the batch upsert does, and leaves the companies table as the upsert's result |
| Freshservice.IdMap | pull_freshservice.py:151-154 | every department id is a key, and every key maps to the account of a department with that id |
| Freshservice.IdMapLastWins | pull_freshservice.py:151-154 | for a repeated id, the last department with it decides the account |
| Freshservice.FirstLinkIndex | pull_freshservice.py:161-164 | picks the first department id whose mapped account is truthy, or none |
| Freshservice.UserRecordOf | pull_freshservice.py:165-172 | the tuple: `str(account)`, id, stripped "first last", email, Active/Inactive by truthiness, created_at defaulting to now |
| Freshservice.LinkOf | pull_freshservice.py:159-172 | the record a user contributes: linked through its first department with a truthy account, none otherwise; pinned down by LinkAt, NoLink and FirstDepartmentExample |
| Freshservice.LinkedUsers | pull_freshservice.py:157-174 | the user batch: each user's LinkOf, in user order; stated by LinkedUsersOne, LinkedUsersSplit and LinkedUsersShape |
| Freshservice.LinkedUsersShape | pull_freshservice.py:159-174 | the batch is no longer than the user list; every record is some user's link from its first linkable department; every linkable user's record is in it |
| Freshservice.LinkedUsersOne | pull_freshservice.py:159-174 | one user alone yields its link, or nothing when none of its departments resolves |
| Freshservice.LinkedUsersSplit | pull_freshservice.py:159-174 | the batch for two runs of users is the first run's batch followed by the second's: one record at most per user, in user order |
| Freshservice.LinkedUsersAppend | pull_freshservice.py:159-174 | appending a user to the list appends exactly that user's link, or nothing |
| Freshservice.LinkAt | pull_freshservice.py:161-164 | when department j is the first whose account is truthy, the user is linked through it |
| Freshservice.NoLink | pull_freshservice.py:161-164 | a user none of whose departments has a truthy account yields no record |
| Freshservice.FirstDepartmentExample | pull_freshservice.py:162-174 | a user in departments [7, 3] is linked to 7's account when it has one, else to 3's |
| Freshservice.LinkUsers | pull_freshservice.py:157-174 | the nested loop with `break` builds exactly the specified link list |
| Freshservice.LinkHasCompany | pull_freshservice.py:151-172 | a linked user's account is the account of some record in the company batch |
| Freshservice.LinkedUsersHaveCompanies | pull_freshservice.py:151-172 | every linked user's account is carried by the company batch |
| Freshservice.SyncEffect | pull_freshservice.py:144-195 | commits iff both fetches succeed, companies are non-empty and both upserts succeed; then both tables are updated, otherwise nothing changes |
| Freshservice.SyncLinksUsersToCompanies | pull_freshservice.py:179-188 | after a commit every linked user's account is a stored company |
| Freshservice.SyncFreshservice | pull_freshservice.py:132-198 | the main block's outcome and final store are the specified sync effect, with the rollback restoring the store |
| Datto.PageItems | pull_datto.py:45 | the first non-empty of items/sites, else devices as given |
| Datto.NextUrl | pull_datto.py:48 | the next URL: the nested `pageDetails` one when it is non-empty, else the top-level one; its use is stated by FollowChain |
| Datto.FollowFrom | pull_datto.py:36-52 | the reference for the next-page loop: the items of the pages up to a page without items or an empty next URL, None on a failed request; characterised by FollowChain |
| Datto.ChainLinks | pull_datto.py:40-48 | at most `fuel` requests, the start URL first, each later URL named by the page before |
| Datto.ChainItems | pull_datto.py:44-52 | a finished loop returns the items of the requested pages in order; it returns None exactly when the last request failed |
| Datto.FollowChain | pull_datto.py:40-52 | requests follow the next-page chain; the result is the items of the pages requested; None iff the last request failed |
| Datto.MakeApiRequest | pull_datto.py:36-52 | the loop method returns the specified chain result from `<endpoint>/api<path>` |
| Datto.FirstNamed | pull_datto.py:62-64 | finds the first variable with the given name, or none |
| Datto.GetSiteVariable | pull_datto.py:54-67 | returns the first matching variable's value; None for 404, errors and no match |
| Datto.AssetOf | pull_datto.py:130-141 | the asset tuple: account, uid, hostname, description, category, OS, 'Active'; a date iff creationDate is truthy |
| Datto.AssetsOf | pull_datto.py:129-141 | one tuple per device, in order |
| Datto.SiteAssets | pull_datto.py:113-141 | what one site contributes: nothing without a uid, a truthy AccountNumber, or devices; else one record per device; stated by SkippedSite and AssetsCarryAccounts |
| Datto.AssetsOfSites | pull_datto.py:113-141 | the site loop never reports a failure, since failed device fetches are skipped |
| Datto.AssetsOfSitesAppend | pull_datto.py:113-141 | processing two site lists in turn is processing their concatenation |
| Datto.SkippedSite | pull_datto.py:115-127 | a site with no uid, no account variable, or no or failed devices contributes nothing |
| Datto.AssetsCarryAccounts | pull_datto.py:119-141 | every asset tuple carries a non-empty account read from some site's variable, and status 'Active' |
| Datto.ProcessSite | pull_datto.py:114-141 | one pass of the site loop adds exactly what the site contributes: nothing for a missing uid, a falsy AccountNumber or an empty or failed device fetch, else one record per device in order; an unfinished device fetch is reported |
| Datto.BuildAssets | pull_datto.py:111-141 | the loop method builds exactly the specified asset list |
| Datto.SyncEffect | pull_datto.py:143-146 | commits iff the sites fetch succeeded, some asset exists and the upsert succeeds; otherwise the store is unchanged |
| Datto.DanglingAssetExample | pull_datto.py:113-146 | a run over one site whose AccountNumber has no company row commits that site's device as an asset under that account |
| Datto.PopulateAssets | pull_datto.py:70-94 | commits the upsert's result, or rolls back to the old store |
| Datto.SyncDatto | pull_datto.py:97-146 | the main block's outcome and final store are the specified sync effect |
| Billing.IsServer | main.py:87 | a server is an asset whose operating system contains "Server" under LIKE; a NULL system is not one; used by ClassificationBound |
| Billing.IsWorkstation | main.py:88 | a workstation is an asset with an operating system that does not contain "Server" under LIKE; used by ClassificationBound |
| Billing.ClassificationBound | main.py:87-88 | no asset is both server and workstation; together they are the assets with an OS, at most all assets |
| Billing.LowerCaseServerExample | main.py:87 | "Windows server 2019" is LIKE-matched by '%Server%' though it lacks the exact substring |
| Billing.JoinCounts | main.py:87-89 | the DISTINCT counts over the asset-by-user joined rows equal the company's own server, workstation and user counts |
| Billing.ClientRowOf | main.py:84-99 | a company's row carries its account, name, contract type, billing plan and three counts; the plan's billed_by and four prices when its pair has a plan, else 'Not Configured' and zeros |
| Billing.IsClientsQuery | main.py:84-99 | a result of the dashboard query: each company's own row, every company once, in name order; ClientsQueryExists and ClientsQueryUnique show it names one result |
| Billing.MinNameExists | main.py:99 | a non-empty company table has a company of least name |
| Billing.ClientsQueryExists | main.py:84-99 | the dashboard query has a result: one row per company, sorted by name |
| Billing.ClientsQueryUnique | main.py:84-99 | with unique company names, that result is unique |
| Billing.ComputeTotals | main.py:103-113 | one output per row, same order: base plus users × per-user for 'Per User', plus workstation and server costs for 'Per Device', base alone otherwise |
| Billing.TotalBill | main.py:106-112 | the bill of a row: base price plus users at the per-user cost for 'Per User', plus workstations and servers at their costs for 'Per Device', base alone otherwise; used by ComputeTotals |
| Billing.PlannedBill | main.py:84-112 | a company whose pair has a plan is billed by that plan's price for its own user, workstation and server counts |
| Billing.MissingPlanBillsNothing | main.py:90-94 | a company whose pair has no plan shows 'Not Configured', zero prices, and total 0 |
| Billing.BillAtLeastBase | main.py:106-111 | with non-negative unit costs the total is at least the base price |
| Billing.BillMonotone | main.py:106-111 | with non-negative unit costs, more users or devices never lower the total |
| Billing.TotalExamples | main.py:106-111 | Per User 50 + 4 × 10 = 90; Per Device 20 + 3 × 5 + 2 × 15 = 65 |
| Billing.PlanViewOf | main.py:174-186 | the settings row shows the pair and its plan's billed_by and four prices when there is one, else 'Per Device' and zeros |
| Billing.IsPlansQuery | main.py:174-186 | a result of the settings query: the view row of each pair some company uses, once each, in pair order |
| Billing.MinPairExists | main.py:185 | a non-empty set of pairs has a least pair in the ORDER BY order |
| Billing.PlansQueryExists | main.py:174-186 | the settings query has a result on every store |
| Billing.DefaultsDisagree | main.py:177 | a pair without a plan is 'Per Device' on the settings page but 'Not Configured' on the dashboard |
| Billing.FormPlan | main.py:155-163 | plan i parses iff its four prices parse (absent = 0); its text fields are the form's, or NULL when absent |
| Billing.FormPlans | main.py:154-163 | the plans 1..n in order, or none if any price fails to parse |
| Billing.PlansFromForm | main.py:151-163 | the loop builds plans 1..n, n being the number of `billed_by_` keys |
| Billing.SaveSettings | main.py:150-172 | a bad number leaves the store unchanged; otherwise saves iff every plan is filled, and rolls back if not |
| Billing.SavedPlans | main.py:165-170 | after a save each posted pair holds the plan of its last form entry; other pairs unchanged |

## Left out

- HTTP, authentication, tokens and credential files are not modelled. The OAuth token request and the `Authorization` headers are left out; HTTP answers are parameters of the model.
- Console and stderr output, `cur.rowcount` and `sys.exit` messages are left out; outcomes are datatype values.
- `time.sleep` is recorded as a `Waited(seconds)` event, not performed.
- The current time (`datetime.now(...).isoformat()`) is one `now` string per run. The source evaluates it once per linked user.
- `datetime.fromtimestamp(ms / 1000).isoformat()` is an opaque `iso` parameter.
- Python `float()` of a form value is an opaque `parse` parameter. It returns None where `float` raises ValueError.
- Floating-point rounding: prices and totals are Dafny `real`s.
- Inputs on which the Python code raises an uncaught exception are excluded by the types. Examples are a null `custom_fields`, a null `pageDetails`, a null `variables` list, a non-integer or negative `Retry-After` header, a JSON body that is not an object, a `deviceType` that is not an object, a `creationDate` that is not a number or is out of range for `fromtimestamp`, and a department id that cannot be hashed.
- Fuel bounds: a loop that would run forever (an endless 429 answer or an endless next-page chain) appears as `OutOfFuel` after `fuel` requests.
- Freshservice.SyncFreshservice: the request log is stated only when the department loop finishes, because the requester loop runs only then.
- The schema creation in `init_db.py` is not modelled as an operation. Its constraints are the validity predicates in `Store`. The `billing_events` and `ticket_work_hours` tables are outside this model.
- The Flask plumbing is left out. This covers login and session handling, `get_db`, templates, redirects, flash messages and the `run_script` route.
- The `client_settings` route only lists rows with four plain SELECTs, so it is not part of this model.
- Datto site names are read only for console output and are not modelled.
- Store.Database: assets and users are sequences whose position is the surrogate `id`. SQLite's rowid reuse and the order in which rows are returned are not modelled.
