# Verified model of the gluten-free restaurant finder's backend

The Dafny modules here model the parts of the Go server in which state, order or
concurrency decides whether the result is right, and prove what those parts promise.
`dafny verify dfyconfig.toml` checks the whole project.

| part | modules |
|---|---|
| discovery: extraction gate, link harvest | `Extract`, `RestaurantPlaces`, `CandidateLinks`, `JsonLinks`, `ListingLinks`, `ListingHarvest` |
| discovery: crawl, retry, the draft transaction | `Crawl`, `CrawlRuns`, `CrawlReports`, `CrawlRetry`, `RetryContents`, `RetryBudget`, `Drafts`, `DraftTransaction` |
| operators: sessions, password changes, emailed reset links; token renewal | `OperatorAuth`, `OperatorRequests`, `Renewal` |
| stores: review life cycle, the tables, the public listing | `Lifecycle`, `StoreDb`, `Stores`, `Pagination` |
| CSV import and coordinate backfill, the geocoder's throttle | `Import`, `ImportRuns`, `ImportRows`, `Geocode`, `Throttle` |
| subscriptions | `Subscriptions`, `SubscriptionHistory` |
| Apple's signing keys | `KeySource` |

Code that changes tables or loops over input is modelled as classes and methods with loops,
each proved equal to a specification function; the theorems are then about those functions.
`CrawlReports`, `ListingHarvest`, `OperatorRequests`, `ImportRows` and `SubscriptionHistory` say
what the answers and tables are from the inputs alone: the page's text, the places in its markup,
the requests of a run, the cells of a record, the events of a history.
The interleaved protocols (`DraftTransaction`, `OperatorAuth`, `Throttle`) are state machines
whose steps are single statements, and their theorems quantify over every run.
The outside world is a parameter: what a page yields, what the geocoder answers, how the k-th
database call ends (done, refused, or done although it reported an error), the clock, the
case mapping (one function, used for Go's and for SQL's lower-casing).

Where the code does not keep a promise its comments or documentation make, the model keeps the
code, a lemma gives a concrete input, and another says exactly when the promise holds:

- "A timed-out batch can safely be retried" (db/sqlc/discovery.go:13-14) holds for every run cut
  short at any call (`RetryConverges`), and for every run that committed nothing after its first
  failing call (`InTimeRetryConverges`). It does not hold when a single save of a linked page is
  lost and the crawl goes on: the freed place in the limit goes to another page, and the retry
  adds one draft too many (`LostSaveLeavesAnExtraDraft`). Up to ids and order it does hold when
  the failed run's outcomes and failed linked pages together stay within the limit, no seed page
  failed, and no two pages' candidates are taken for each other (`RetryWithinBudgetConverges`).
  `RetryExactlyWhen` compares the tables row by row, for every failed run; up to ids and order,
  `RetrySameDraftsExactlyWhen` does so for candidates that btrim and TrimSpace read alike only,
  and `UnalignedRetryLosesADraft` gives the input that breaks it without: the save of an address
  "w" followed by a tab is lost, that of "w" is not, and the retry takes the first for the second.
- The duplicate check trims stored text with SQL's `btrim`, which strips spaces only, and new text
  with Go's `TrimSpace`. The relation is therefore not symmetric; `SymmetricExactlyWhenAligned`
  says for which stored drafts it protects in both directions. An address given as a plain string
  is stored untrimmed (discovery/extract.go:138-140), so the difference can be met:
  `UntidyAddressIsRepeated` runs the two transactions of such a pair.
- "approved_at is set iff the store is currently approved" (db/sqlc/internal_stores.sql.go:232-233)
  fails for a store inserted as approved and not fully edited since (`StampExactlyWhen`).
- "sessions opened with the old password cannot be renewed" (db/sqlc/internal_sessions.sql.go:72-73)
  fails if a login had already passed its password check, or a refresh had already looked the
  session up, when the sessions were revoked; `OldPasswordsRenewNothingExactlyWhen` says that it
  holds exactly otherwise, and `OldPasswordStillRenews` gives one run of each kind from the start.
- A run of the coordinate backfill always takes the oldest stores, so stores that never match keep
  those behind them waiting, however often it runs (`QueueStarvesExactlyWhen`).
- A notification that is delivered again changes nothing only if the first delivery got through:
  the two writes are not one transaction, and the next delivery makes up for a cut one, so a user
  can go from free or expired to active then (`RedeliveryExactlyWhen`, `CutDeliveryIsMadeUp`).

## Model

| member | source | states |
|---|---|---|
| Text.TrimTwice | db/sqlc/discovery.go:30-32 | trimming fewer characters first and more afterwards equals trimming more at once, whichever ends are cut first |
| Text.TrimKeepsTheMiddle | db/sqlc/discovery.go:30-32 | trimming keeps one slice: everything around it is cut, and neither of its ends is |
| Text.BareBTrimIsTrimSpace | db/sqlc/discovery.go:30-32 | text whose btrim result has clean ends is what TrimSpace yields |
| Drafts.SaveAllKeeps | db/sqlc/discovery.go:15-59 | saving candidates one after another keeps every earlier row as a prefix and leaves each candidate recognised |
| Drafts.SaveAllResumes | docs/discovery.md:72-75 | saving a list over any stage of its own result ends with the same rows in the same order |
| StoreDb.StoreTable.CreateStoreFull | db/sqlc/internal_stores.sql.go:33-45 | appends one row with the given columns, no stamp and no reason, under an unused id, and keeps every other row and history |
| StoreDb.StoreTable.SubmitStore | db/sqlc/admin_stores.sql.go:283-288 | the named row steps by a submission if its guard passes, every other row stays; reports whether a row was affected |
| StoreDb.StoreTable.ApproveStore | db/sqlc/admin_stores.sql.go:15-20 | the same for an approval, from draft or pending only |
| StoreDb.StoreTable.RejectStore | db/sqlc/admin_stores.sql.go:238-243 | the same for a rejection with its reason, from pending only |
| StoreDb.StoreTable.UpdateStoreProfile | db/sqlc/admin_stores.sql.go:324-341 | the same for a partner edit, which keeps ward, status, stamp and reason |
| StoreDb.StoreTable.UpdateStoreFull | db/sqlc/internal_stores.sql.go:219-253 | the same for an operator edit: stamps on entering approved, keeps the stamp within it, clears it outside, leaves the reason |
| StoreDb.StoreTable.UpdateStoreCoords | db/sqlc/internal_stores.sql.go:200-203 | the same for a coordinate update |
| StoreDb.StoreTable.CountStoresByNameWard | db/sqlc/internal_stores.sql.go:15-17 | the number of rows with that lower-cased name in that ward, so positive exactly when there is one |
| StoreDb.StoreTable.ListStoresMissingCoords | db/sqlc/internal_stores.sql.go:145-150 | the first `limit` rows of the queue of addressed stores at (0,0), in creation order |
| StoreDb.StoreTable.CreateDiscoveryDraft | db/sqlc/discovery.go:15-59 | returns a row matching the candidate; inserts exactly when no row has its source URL and none of its ward has its name or, if it has an address, its address, trimmed and lower-cased; and then exactly a non-oriented on-request draft of it |
| StoreDb.AffectedMeansChanged | db/sqlc/admin_stores.sql.go:283-288 | submitting, approving and rejecting report an affected row exactly when a row changes |
| StoreDb.EveryRowKeepsTheRules | db/sqlc/internal_stores.sql.go:232-233 | after any sequence of the table's methods every row obeys the stamp and reason rules of its own history |
| Lifecycle.EachStatementDoesThis | db/sqlc/admin_stores.sql.go:283-288 | at every point of every history: the statuses each statement needs, every column it then writes, and that it otherwise leaves the row alone |
| Lifecycle.StampIsLatestEntry | db/sqlc/internal_stores.sql.go:229-237 | over every history of a store not inserted as approved: stamped exactly while approved, with the time of the latest entry, unmoved by edits since |
| Lifecycle.ApprovedFromBirth | db/sqlc/internal_stores.sql.go:35-43 | a store inserted as approved has no stamp until its first full edit and obeys the rule from then on |
| Lifecycle.StampExactlyWhen | db/sqlc/internal_stores.sql.go:232-233 | a stamp always means approved; "iff approved" holds exactly when the store was not inserted as approved or was fully edited since |
| Lifecycle.ReasonIffStandingRejection | db/sqlc/admin_stores.sql.go:238-241 | over every history, edits included: a reason is present exactly when the last review statement that took effect was a rejection |
| Lifecycle.GuardedReasonIffRejected | db/sqlc/admin_stores.sql.go:283-286 | with guarded statements and partner edits only, a reason is present exactly while the store is rejected |
| Pagination.ListStores | api/store.go:83-110 | the page is ascending, within the selection, complete up to its cursor; a cursor exists exactly when more than twenty matched, and is the twentieth id |
| Pagination.WalkAscends | db/sqlc/stores.sql.go:93-95 | ids strictly increase along a walk although the table changes between pages |
| Pagination.WalkReadsOnlyMatches | db/sqlc/stores.sql.go:91-93 | every store read was approved and in the ward in a table some page was answered from |
| Pagination.CompletedWalkMissesNothing | api/store.go:105-110 | a walk followed to its end reads every store that matched throughout |
| Pagination.PageSplits | db/sqlc/stores.sql.go:91-95 | what the next cursor selects is what this one selected without the page, twenty fewer |
| Pagination.FixedTableWalk | api/store.go:83-110 | on an unchanged table a walk ends after exactly max(1, ceil(n/20)) pages, which concatenate to the whole listing in id order |
| Pagination.OneListing | db/sqlc/stores.sql.go:91-95 | only one sequence lists a set of ids in order, so the concatenation is determined |
| Pagination.ReadAll | api/store.go:83-110 | a client following next_cursor reads exactly the filtered listing in that many pages |
| Pagination.ListingInPlainWords | db/sqlc/stores.sql.go:91-95 | what is read is every approved store, of the ward if one is given, each once and by rising id, on pages full of twenty but for the last |
| Extract.CountsOccurrences | discovery/extract.go:93-111 | the objects appended are counted exactly by the (path, type entry) pairs reachable through arrays and @graph, without repetition |
| Extract.ExactlyOneMeansUnique | discovery/extract.go:133-135 | the count is one exactly when one and only one recognised type entry is reachable |
| RestaurantPlaces.FindingsAreTheObjectsThere | discovery/extract.go:93-111 | the objects counted are those that stand at the recognised type entries, one for each, in document order |
| Extract.RestaurantsAdd | discovery/extract.go:93-98 | the objects found in two lists of scripts are those of the first followed by those of the second |
| Extract.RestaurantsReorder | discovery/extract.go:93-98 | reordering scripts or array entries only reorders what is found |
| Extract.NestingIsTransparent | discovery/extract.go:95-98 | splitting an array into nested arrays finds the same objects |
| Extract.WrappingIsTransparent | discovery/extract.go:106-109 | so does wrapping in an array of one or in a bare @graph |
| Extract.Found.Restaurant | discovery/extract.go:93-111 | the recursive append through the shared list adds exactly the specified objects, one per recognised type, in order |
| Extract.Extract | discovery/extract.go:115-168 | fails as ambiguous exactly when the count is not one; a candidate is made of that one object, with name, address and a gluten-free statement present |
| JsonLinks.LinksStandInPlace | discovery/extract.go:55-75 | the entries read from a type or link list are those of exactly the places, at any depth of arrays, where a string stands or an object with a link, in document order |
| JsonLinks.RestaurantTypeIsNamed | discovery/extract.go:100-103 | a type entry counts exactly if it is one of four names, bare or under schema.org |
| JsonLinks.CandidateSaysWhatTheRecordSays | discovery/extract.go:137-150 | name and telephone are the record's trimmed texts, the address its text or its parts from the large to the small, the cuisine all its kinds in order, each the first characters up to its limit |
| CandidateLinks.ListingUrlsAreTidy | discovery/extract.go:222-247 | listing markup never yields a blank or untrimmed entry, so the early return on a blank one loses no links |
| CandidateLinks.FromScript | discovery/extract.go:283-303 | one script's loop continues the harvest of the scripts before it, with the seen set it keeps |
| CandidateLinks.Candidates | discovery/extract.go:261-306 | the harvest equals: flatten in document order, resolve, filter, drop the source page, keep first occurrences modulo one trailing slash, take `max`; by place in the markup this is `ListingDelivers` |
| CandidateLinks.HarvestDelivers | discovery/extract.go:249-254 | at most `max` links, none the source page, no two equal up to a trailing slash, and below `max` every eligible link is represented |
| ListingLinks.ListedPlacesAreTheLinks | discovery/extract.go:222-247 | the harvested entries are the texts of exactly the places reached through arrays, itemListElement, @graph, item and mainEntity that end at a listing type entry of an object with a url, or else an @id; each once, in document order |
| ListingLinks.ListingTypeIsNamed | discovery/extract.go:229-231 | a type entry is a listing type exactly if it is one of six names, bare or under schema.org |
| ListingLinks.NestedItemIsListed | discovery/discovery_test.go:124 | the link of a restaurant inside a list entry's item is listed |
| ListingHarvest.CandidateMayLead | discovery/extract.go:200-217 | the filter lets a URL through exactly if its host is none of the named sites nor below one and its path ends in none of the file extensions |
| ListingHarvest.SamePageIsSameKey | discovery/extract.go:271-300 | two links have the same key exactly if they are equal up to one slash at the end of one of them |
| ListingHarvest.ListingDelivers | discovery/extract.go:249-306 | at which listed places of all scripts the kept links stand: in document order, at most `max`, none the source page, no two the same page; and a place with an acceptable link is left out only if it is the source page, repeats one kept before it, or comes after `max` kept ones |
| CandidateLinks.Search | discovery/service.go:84-95 | the acceptable results, each once, in ranking order, cut at the limit |
| Crawl.Save | db/sqlc/discovery.go:15-59 | a save changes the table unless its call was lost, and reports created exactly when no row matched |
| Crawl.DraftInto | api/discovery.go:96-120 | one candidate is refused outside its ward (`GateIsNaming` says when), else saved; outcome and table are those of the crawl specification |
| Crawl.FollowLinks | api/discovery.go:148-166 | the inner loop's outcomes, seen set, fetch count and table equal the specification, and `saved` counts the outcomes it added |
| Crawl.CrawlSeeds | api/discovery.go:89-171 | so do those of the outer loop |
| Crawl.InternalDiscover | api/discovery.go:32-173 | exactly when each refusal is answered (bad URL or ward, unreadable wards, no search key, failed search), never touching the table; exactly otherwise, the crawl of the given or searched URLs in the first ward of that id, which `WardGateHolds` and `CleanCrawlSkipsNothing` describe |
| CrawlRuns.SeedBudget | api/discovery.go:122-171 | one seed keeps the budget; a fetched page adds one row of its own, or, for a listing, its saved drafts alone or one summary row alone |
| CrawlRuns.EveryCrawlStaysInBudget | api/discovery.go:85-171 | in every request: outcomes within the limit, at most 12 fetches, no page twice, no second hop, each fetched seed answered, everything saved past the ward gate, which `GateIsNaming` spells out |
| CrawlReports.GateIsNaming | api/discovery.go:92-103 | an address is let in exactly if, lower-cased, it holds the ward's Japanese name, or its English name with no letter a to z next to it |
| CrawlReports.WardGateHolds | api/discovery.go:96-120 | over every crawl: whatever is reported as created, duplicate or not saved is a page whose address so names the ward; every new draft is an unreviewed one of such a page, with its name, address, phone, cuisine and source; whoever is turned away for the ward does not name it |
| CrawlReports.MinatomiraiIsElsewhere | api/discovery.go:92-103 | the address "Minatomirai" is turned away for the ward Minato |
| CrawlReports.OfficeIsInMinato | api/discovery.go:92-103 | the address "1 Minato, Tokyo" is let in |
| CrawlReports.CleanCrawlSkipsNothing | api/discovery.go:122-171 | in an undisturbed crawl every fetched restaurant that names the ward is reported as created or duplicate, and unless the limit or the twelve fetches run out every bad URL is reported and every other seed, and every link of every listing seed, is fetched |
| CrawlReports.CreatedMeansANewRow | api/discovery.go:105-119 | every outcome "created" stands for one new row, and in an undisturbed crawl every new row for one such outcome |
| CrawlRetry.SecondRunOnlyRecognises | docs/discovery.md:72-75 | repeating an undisturbed crawl inserts nothing and answers the same rows with every created turned into duplicate |
| CrawlRetry.InTimeRetryConverges | db/sqlc/discovery.go:13-14 | if every draft the failed run committed was committed before any call had failed, a full run afterwards leaves exactly the rows of one full run |
| CrawlRetry.RetryConverges | db/sqlc/discovery.go:13-14 | a run cut off at any call, its last save committed or not, followed by a full run leaves exactly the rows of one full run |
| CrawlRetry.RetryExactlyWhen | db/sqlc/discovery.go:13-14 | after any failures a retry loses nothing; compared with an undisturbed run, it ends with the same rows in the same order exactly when the failed run left a prefix of them |
| CrawlRetry.LostSaveLeavesAnExtraDraft | api/discovery.go:162-165 | a listing with two entries, limit one, and one lost save: two drafts instead of one |
| RetryContents.RetrySameDraftsExactlyWhen | db/sqlc/discovery.go:13-14 | up to ids and order, for candidates btrim and TrimSpace read alike: a retry after any failures ends with the undisturbed drafts exactly when the failed run left none that an undisturbed run would not |
| RetryContents.UnalignedRetryLosesADraft | db/sqlc/discovery.go:30-32 | without that, one lost save and a tab at the end of an address make the retry end one draft short, although the failed run left none that an undisturbed run would not |
| RetryBudget.RetryWithinBudgetConverges | api/discovery.go:122-171 | if no seed page's fetch failed, outcomes and failed linked pages together are within the limit, and no two pages' candidates are taken for each other, a retry ends, up to ids and order, with the undisturbed drafts |
| RetryContents.RetryAdds | db/sqlc/discovery.go:29-43 | saving the candidates over such drafts adds, at every point, exactly what the undisturbed run had added |
| DraftTransaction.NoDraftRepeatsAnEarlierOne | db/sqlc/discovery.go:25-58 | in every interleaving with other transactions and with lock-free writers inserting, deleting and editing rows: as long as nobody edits their URL, ward, name or address, no draft is refused by the check against one committed before it; every draft is inserted as a non-oriented on-request draft |
| DraftTransaction.SymmetricExactlyWhenAligned | db/sqlc/discovery.go:30-32 | the check protects a stored draft in both directions exactly when btrim and TrimSpace read its own name and address alike |
| DraftTransaction.AlignedDraftsAreDistinct | db/sqlc/discovery.go:30-32 | so two such drafts of a run whose earlier one is aligned are no duplicates of each other either way round |
| DraftTransaction.UnalignedCanBeRepeated | db/sqlc/discovery.go:30-32 | for every other draft, a second page of the same place, with tidy name and address, is committed after it although, stored first, it would have kept the draft out |
| DraftTransaction.UntidyAddressIsRepeated | discovery/extract.go:138-140 | a concrete such pair: two pages of one place whose addresses differ in a tab at the end |
| DraftTransaction.SoloIsSerial | db/sqlc/discovery.go:15-59 | a transaction nobody interleaves with turns the committed rows, listed in commit order, into what the serial save makes of them, and matches exactly when that save refuses |
| OperatorAuth.LinksAreSingleUse | db/sqlc/internal_admins.sql.go:167-171 | in every interleaving each reset link is claimed at most once and backs at most one stored password; changes ≤ claims ≤ links created; whose password it is says `PasswordsGoToTheAsker` |
| OperatorAuth.GoneLinkIsNeverClaimed | api/internal_admins.go:414-424 | a link whose row is gone is never claimed, not even by a request that had looked it up |
| OperatorAuth.CleanupVoidsUnclaimedLinks | api/internal_admins.go:195-197 | the reset cleanup of any password change voids for ever every link of that operator not claimed by then |
| OperatorAuth.RevokedStaysRevoked | db/sqlc/internal_sessions.sql.go:55-57 | a deleted session never returns, and is not renewed again unless a refresh had already found it |
| OperatorAuth.RevocationIsFinal | api/internal.go:126-134 | after a logout or a successful session cleanup, a refresh that looks the session up later finds nothing, whatever happened before and after |
| OperatorAuth.SessionsComeFromInserts | api/internal.go:83-91 | every session present later was there before or was inserted since |
| OperatorAuth.OwnChangeLeavesOneSession | api/internal_admins.go:208-244 | an undisturbed self-service change with working session cleanup leaves the operator exactly the new session and other operators' alone |
| OperatorAuth.OldPasswordsAreOutExactlyWhen | api/internal_admins.go:190-194 | after the sessions are revoked, no later run has a row of a session of an older password exactly when no request past its password check is in flight |
| OperatorAuth.OldPasswordsRenewNothingExactlyWhen | db/sqlc/internal_sessions.sql.go:72-73 | after the sessions are revoked, no later run renews a session of an older password exactly when no such request is in flight and no refresh has such a session already looked up |
| OperatorAuth.OldPasswordStillRenews | api/internal.go:126-162 | two runs from the start in which an old password's session is renewed after the revocation, one for each of the two ways |
| OperatorAuth.InFlightCanFinish | api/internal.go:50-55 | any such request can still open its session |
| OperatorRequests.PasswordsGoToTheAsker | api/internal_admins.go:400-429 | in every interleaving a stored password raises the version of exactly the operator the request is about: the one signed in, the one a colleague named, or the one whose forgotten-password request created the link; nothing else changes a password |
| OperatorRequests.TablesFollowTheRequests | api/internal_admins.go:178-200 | after every run: each password was replaced as often as requests about that operator did; the links are those sent and not voided since, used exactly where claimed; the sessions those opened and not ended, each of the operator who asked, under the password that request had checked or stored |
| OperatorRequests.LinkIsGoodExactlyWhen | api/internal_admins.go:409-424 | a lookup finds a link exactly if it was sent, is neither claimed nor voided, and is not past its time; a claim wins exactly if it still is neither |
| OperatorRequests.SessionIsGoodExactlyWhen | api/internal.go:126-151 | a refresh finds a session exactly if it was opened, is not ended and not past its time, and renews that one |
| OperatorRequests.ResetChangesTheAsker | api/internal_admins.go:272-434 | asked for, mailed, looked up after some time, claimed and stored: it goes through exactly within the link's time, and then the operator who had asked has a new password and nobody else |
| Renewal.RenewalCarriesTheRefreshToken | api/token.go:30-64 | in every reachable state a renewal succeeds exactly for a verified token of the table's own role with a live row, carries its user, e-mail and role, and the blocked, owner and token-match checks never fail |
| Renewal.RunKeepsInv | api/user.go:122-144 | each session table holds only issued tokens of its own role under their own ids, over all runs |
| Renewal.RenewalMintsTheSameIdentity | api/token.go:30-74 | in every reachable state a renewal issues exactly one token, for the presented one's user, e-mail and role, if that one verifies, is of the handler's role and has a row, and is not past its expiry; and otherwise none |
| Renewal.EveryTokenComesFromALogin | api/token.go:30-74 | over every run, each token ever issued, renewed however often, carries the user, e-mail and role of some login of the run |
| Renewal.SessionsLastUntilEnded | api/internal.go:167-177 | which step opens a session and which ends it: a stored login, an operator's own log-out, the revocation of that operator's sessions; nothing else adds, ends or changes a row |
| Import.SplitJoins | api/import.go:200-201 | splitting loses nothing and leaves no separator inside a part |
| Import.SplitSemicolonList | api/import.go:199-209 | the non-blank parts, trimmed, in order |
| Import.CreateRow | api/import.go:143-194 | table, items and counters after one new store, however its insert and item inserts end |
| Import.ImportStores | api/import.go:47-197 | the answer and both tables equal the import specification, which `UploadGoesRecordByRecord` describes; without a usable header or ward list nothing is written |
| ImportRuns.ImportAccounts | api/import.go:28-35 | whatever fails: created + skipped + failed equals the records read, errors equal failed rows plus failed items, items counted are items stored, errors come in row order |
| ImportRuns.ReimportAddsNothing | api/import.go:42-46 | with calls succeeding, importing again over tables in which every name is still taken in its ward adds no row and no item; created and skipped rows are skipped, failed rows fail with the same errors |
| ImportRuns.RowGrows | api/import.go:125-164 | a record adds at most one row: a draft at (0,0), its name new in its ward, its columns the record's trimmed cells under the headers of those names |
| ImportRuns.ItemsAreTheParts | api/import.go:174-193 | the items stored for a row are, in order and under their own positions, exactly the list's parts whose inserts did not fail |
| ImportRuns.WardByEitherName | api/import.go:70-80 | with unambiguous names a ward is found by its Japanese name and by its English one in any letter case |
| ImportRuns.ImportedRowsAreDistinct | api/import.go:125-139 | over rows of any number of imports with any inserts, deletions and edits between them, an imported row differs from every earlier row in lower-cased name or ward, unless an edit has renamed or moved one of the two |
| ImportRuns.ImportIsARun | api/import.go:90-104 | a whole import is such a run |
| ImportRuns.LastColumnWins | api/import.go:59-62 | a header name means its last column, and only names present mean any |
| ImportRuns.ColumnOrderDoesNotMatter | api/import.go:42-43 | rearranging the columns of full-length rows, or adding unknown ones, changes neither answer nor tables |
| ImportRuns.RepeatedColumnFollowsTheOrder | api/import.go:59-62 | with a known column there twice the order does matter |
| ImportRows.CellMeans | api/import.go:82-88 | a cell is the trimmed text under the last column of that name, or empty |
| ImportRows.WardMeans | api/import.go:70-80 | a ward cell means the last ward known by its text, failing that the last known by its lower-cased text, failing that none |
| ImportRows.NonBlankMeans | api/import.go:199-209 | the items are the trimmed parts that are not blank, each once and in order |
| ImportRows.EveryRecordIsAccountedFor | api/import.go:93-194 | every record is created exactly if it is readable, has a name and a known ward, its check and insert succeed and no store of the ward has the name; skipped exactly if one has; otherwise failed for the one reason that applies; with the row, the items, the errors and the counts it leaves |
| ImportRows.UploadGoesRecordByRecord | api/import.go:47-197 | the upload is refused for a missing name column, then a missing ward column, then unreadable wards, changing nothing; otherwise it goes through one such stage per record, numbered from 1, and answers with the last one's counts |
| Geocode.GeocodeStores | api/import.go:242-307 | limits are validated and capped first; then answer and table equal the backfill specification |
| Geocode.RunCounts | api/import.go:225-233 | the four counters sum to min(limit, queue), errors equal the three others, remaining is 1 exactly when the queue was longer than the limit |
| Geocode.CountersMean | api/import.go:268-304 | each counter is the number of handled stores that ended that way |
| Geocode.CountersFollowTheCalls | api/import.go:242-304 | which limits are refused, how many stores the others handle, and how many answers of the geocoder and endings of the update of each kind each counter counts |
| Geocode.ErrorsNameTheTroubled | api/import.go:218-223 | the errors name exactly the handled stores that were not geocoded, one each, in order, with its reason |
| Geocode.OnlyPreciseMatchesMove | api/import.go:284-303 | only stores matched precisely and saved change, each to the coordinates of its own match and nothing else |
| Geocode.QueueLosesTheSaved | api/import.go:235-238 | the queue loses exactly the stores saved away from (0,0); the others stay unchanged and in order |
| Geocode.QueueStandsStillExactlyWhen | api/import.go:256-266 | a run makes no progress exactly when none of the first `limit` stores is saved away from (0,0) |
| Geocode.QueueStarvesExactlyWhen | api/import.go:235-241 | with one geocoder, no number of runs ever shortens the queue exactly when it places none of the first `limit` stores |
| Throttle.GrantsAreSpaced | geocode/geocode.go:80-93 | in every interleaving of callers, timers and cancellations successive grants are at least the minimum interval apart |
| Throttle.WindowSeesFewGrants | geocode/geocode.go:45-47 | a window of length T sees at most T / minInterval + 1 grants |
| Throttle.CancelTakesNoSlot | geocode/geocode.go:85-90 | a caller cancelled while waiting leaves the throttle as if it had never come, but for the time gone by |
| Throttle.NobodyWaitsLongerThanDue | geocode/geocode.go:80-93 | a caller who finds the throttle free can be let through exactly when the interval since the last grant is over: at once, or after precisely the rest of it |
| Subscriptions.SubscriptionDb.CreateUser | db/sqlc/users.sql.go:15-19 | a new user starts free and without expiry; an id already there is refused and kept |
| Subscriptions.SubscriptionDb.UpsertSubscriptionReceipt | db/sqlc/subscription_receipts.sql.go:36-45 | inserts for an existing user or updates all but the owner; fails exactly for an unknown user without a receipt |
| Subscriptions.SubscriptionDb.VerifySubscription | api/storekit.go:34-94 | answer and both tables equal the specification, for both writes, one or none getting through |
| Subscriptions.SubscriptionDb.AppleWebhook | api/storekit.go:104-170 | the same for a notification, acknowledged without effect when it names no known receipt; which statuses these are says `UserIsAsLastToldToBe` |
| Subscriptions.OwnerIsFirstVerifier | db/sqlc/subscription_receipts.sql.go:36-45 | over every history a transaction has a receipt exactly when a registered user verified it, and its owner is the first who did, for ever |
| Subscriptions.UserIsWhatTheLastEventSaid | api/storekit.go:74-78 | every user's status and expiry are those of the last event that reached them, or those of registration |
| Subscriptions.AccessExactlyWhen | api/storekit.go:142-163 | after any history a user has access exactly when some event reached them and the last that did gives it: a purchase, renewal or billing retry, or a transaction neither revoked nor over |
| Subscriptions.PairedUserFollowsReceipt | api/storekit.go:184-201 | for a user and a transaction paired one to one, status is the projection of the receipt's and the expiries agree, whenever the last event writing the receipt also wrote the user |
| Subscriptions.RedeliveryExactlyWhen | api/storekit.go:100-103 | delivering an event again, wherever either delivery's writes were cut, changes something exactly when the second writes a row that the first missed and that does not say so already, or that the first wrote before an unrevoked transaction with time-derived status ran out |
| Subscriptions.RedeliveryLapses | api/storekit.go:173-182 | a receipt or user that the first delivery wrote goes from active to expired at most, never back |
| Subscriptions.LastDeliveryDecides | api/storekit.go:142-163 | a delivery whose writes get at least as far as the one before leaves what it alone would leave |
| Subscriptions.RetriedUntilWhole | api/storekit.go:100-103 | so however many deliveries were cut short, one that gets through heals them all |
| Subscriptions.CutDeliveryIsMadeUp | api/storekit.go:61-82 | a user left free, or expired, by a delivery cut between its writes becomes active with the next |
| SubscriptionHistory.UserIsAsLastToldToBe | api/storekit.go:173-201 | over every history, from the last event that wrote the user: withdrawn exactly by REVOKE, or a verification or other notification of a revoked transaction; lapsed exactly by EXPIRED, or such an event about an unrevoked one past its expiry; subscribed otherwise; expiring when the transaction does; free if there was none |
| SubscriptionHistory.ReceiptIsAsLastTold | api/storekit.go:184-214 | the same for the four statuses of a receipt, billing retry exactly by DID_FAIL_TO_RENEW, and for its product, environment and expiry; its owner is the first registered user who verified it |
| SubscriptionHistory.AnswersTellTheOutcome | api/storekit.go:104-170 | a notification is handled exactly if its transaction is someone's and both writes get through, and acknowledged unhandled exactly if it is nobody's; a verification answers with both new rows exactly if a registered user's writes get through |
| KeySource.OrOfDisjoint | applesignin/keysource.go:125-127 | or-ing below cleared low bits is adding |
| KeySource.Exponent | applesignin/keysource.go:119-130 | the shift-or loop yields the octets' integer modulo 2^64 read as int64, refused exactly when its low 64 bits are zero |
| KeySource.ExponentIsExactExactlyWhen | applesignin/keysource.go:124-130 | the integer comes out unchanged exactly when it lies strictly between 0 and 2^63 |
| KeySource.ShortExponentIsExact | applesignin/keysource.go:124-130 | up to 7 octets it always does, and is refused exactly when zero (section 6.3.1.2 of RFC 7518) |
| KeySource.LeadingZerosAreIgnored | applesignin/keysource.go:124-127 | leading zero octets change nothing |
| KeySource.OctetsRoundTrip | applesignin/keysource.go:124-132 | the shortest octets of an exponent below 2^63 decode to it |
| KeySource.AppleKeySource.Key | applesignin/keysource.go:40-62 | a fresh hit is served and nothing changes; otherwise a document with usable keys replaces the cache and answers; without one the cache stays and answers even when stale |
| KeySource.AppleKeySource.Refresh | applesignin/keysource.go:71-110 | the cache is replaced by the usable RSA keys of the document, or left alone when there are none |
| KeySource.UsableMeans | applesignin/keysource.go:91-106 | a key id means the last RSA entry of that id with a decodable modulus and a usable exponent, and nothing if there is none |
| KeySource.CacheIsLastDocument | applesignin/keysource.go:16-18 | after any run of requests the cache is the document fetched last, or still empty |
| KeySource.ServedFromTheLastDocument | applesignin/keysource.go:48-55 | a served key is the one that document lists, and is served past its time to live only when the endpoint does not answer |

## Left out

- Columns no modelled decision reads: opening hours, rating, review count, nearest station, blurb, created and updated times.
- The notes text with its capture time and provenance, warnings, menus, images and the evidence excerpt of a candidate.
- HTML and URL parsing, CSV lexing, JSON decoding and page fetching: their results are parameters. A reader that keeps failing without reaching the end of the file is not covered; records are a finite sequence.
- Case mapping is one function per character; multi-character mappings, and the Unicode folding of the ward name's regular expression, are not modelled.
- The `LIMIT 1` of the duplicate check may pick any matching row; the serial model returns the first, while `DraftTransaction` allows any.
- Row ids number rows in creation order instead of being random, and creation order stands for `created_at`.
- Hard deletion is modelled as a step in `DraftTransaction` and as table changes in `Pagination`, not as a method of `StoreTable`.
- `CreateStore` of a partner is `CreateStoreFull` with default columns.
- Errors of single database reads inside the session, listing and discovery handlers beyond those named: they end the request without a write.
- Two imports, or an import and another writer, interleaving between one row's duplicate check and its insert: the code takes no lock there and promises nothing.
- Other writers changing a store between the backfill's read of the queue and its update.
- Mail delivery, password and token hashing: hashes are injective, ids and tokens fresh and unforgeable; the user name, phone and cookie parts of the responses.
- The order of Apple notifications by signed date, which the code does not use: a late redelivery after other events counts as a new event.
- Atomicity of provisioning a store administrator, and that handler.
- `Normalize` and `preciseEnough` of the geocoder are part of the answer parameter; the menu gate of a single store and parsing of opening hours are not modelled.
- ImportedRowsAreDistinct: rows whose name or ward was edited after their import are not covered, since an edit may rename a store at will.
- NoDraftRepeatsAnEarlierOne: drafts whose URL, ward, name or address was edited since their commit are not covered, since an edit may set them at will.
- RetrySameDraftsExactlyWhen: candidates whose name or address carries edge white space that btrim keeps are not covered; without that the statement is false.
