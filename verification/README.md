# The market's release store, version order and ADP manifests

This project models the hard core of the market server and proves what it is for:

* the **release lifecycle** of an item: submission, review, unpublishing, and the
  public reads. Eight tables repeat parts of one another (the item row, its tags
  and its skill profile are a copy of one version's snapshot; publication flags
  stand on items, versions and platforms), and every operation is one transaction;
* the **version order** everything stands on: the parser and comparator for
  Semantic Versioning 2.0.0;
* the **ADP manifest** of a release: binding an uploaded artifact, merging it with
  what was stored for other platforms, validating before and after, and what a reader of
  the public manifest can rely on, file by file;
* smaller pieces with a proof of their own: the review log, ownership across items
  and accounts, the view counter, user accounts and their rekeying, the migration that
  strips version prefixes, and what starting the server fills in.

## How it is organised

| module | what it holds |
|---|---|
| `Text` | the string operations used, with their laws: split and join, decimal numbers, text order |
| `SemVer`, `Versions` | parser and comparator as functions; the loops that compute them |
| `SemVerStandard` | Semantic Versioning 2.0.0 (sections 2, 9, 10 and 11) as an independent definition, and how far the code agrees |
| `Market` | requests, table rows, conversions, public reads |
| `Release` | each release operation as a function from the rows of one item to new rows or an error |
| `Effects` | what each accepted release call leaves in the rows and why a refused one was refused, over the arguments of the call alone |
| `Consistency` | the invariant of all runs, legacy reviews included |
| `PublicView` | what the public can read, and what may change it |
| `ReleaseStack` | the refinement to a LIFO stack in reviewed runs |
| `Admission`, `Ledger`, `Backfill` | pre-check against commit; log, views and owners; snapshots rebuilt from rows |
| `Store`, `StoreRuns` | the operations statement by statement on mutable rows, with commit and rollback; runs of the whole store |
| `Startup` | what each start of the server adds to the platform rows; runs with starts in between |
| `Accounts`, `Creators` | usernames, identities, roles, favorites, rekeying; who owns what over runs of logins and calls, users and guests |
| `Logins` | what a login leaves in the account tables and is answered, over the profile and the account it found |
| `Migration` | the prefix-stripping statements on three keyed tables |
| `Adp`, `AdpDocument` | manifests as values; the in-place loops over a manifest |
| `AdpMerge`, `AdpJoin`, `AdpUploads` | validity of a merge; merge as least upper bound; all publish calls of one release, each with a manifest of its own |
| `AdpRelease` | the manifest pipeline inside the store, over whole runs in which reading and writing are apart; the files served |
| `AdpGuarantees` | what a reader can rely on in an accepted manifest, field by field, and that acceptance asks for exactly that |
| `Locations` | how the server reads the address of a download, and which of the addresses in a manifest it reads back |
| `AdpPublic` | what the public manifest says of each file, told by the columns of the file |
| `Witnesses` | concrete inputs for the departures listed below |

A `method` mirrors code that works step by step and is proved to compute the
`function` that specifies it; the lemmas are about the functions. A failed
transaction leaves every row as it was.

Two levels of invariant are kept apart. `Consistent` holds in every run. The stack
results hold in *reviewed* runs: every submission enters as pending with a version
(the publish handlers force the status, internal/market/server.go:806-820), and every
review finds a pending version or does not change whether the item is live. A review
that finds none takes the legacy path, and `LegacyKeepsStackExactly` says that this is
exactly when the stack survives it.

## Where the code departs from what one would expect

* **Precedence of very large numbers.** A numeric prerelease identifier beyond int64
  is compared as text. The comparator is still a total preorder, but it reverses
  section 11 exactly when the two cores are equal and, at the first difference, such
  a number stands on the wrong side in text order (`ComparatorAgreesExactly`);
  `OverflowReversesOrder` gives a pair.
* **Legacy reviews.** `updateLegacyReviewTx` never updates platform rows and leaves
  lower versions published. It preserves the stack exactly when it does not change
  whether the item is live. `LegacyReviewBreaksStack` is the run submit, approve,
  reject, after which no stack describes the item.
* **Shared provider mappings.** Merging adds a `platforms` field to every package both
  manifests declare, so a provider mapping both declare stops being one and the
  second validation rejects the merged manifest. Two valid manifests merge to a valid
  one exactly when they share no provider mapping (`MergePreservesValidity`);
  `SharedMappingIsRejected` is a valid manifest that does not merge with itself.
* **Publishing a platform without a manifest.** A further platform of a pending version
  may come without an `adp` file; the submission then stores an empty manifest over
  the one already there (`PlatformWithoutManifestErases`).
* **Publishing two platforms at once.** A publish call reads the stored manifest in one
  query (internal/market/server.go:912, internal/market/adp.go:103) and writes the merged
  one in a later transaction (internal/market/server.go:917), over up to eight connections
  (internal/market/store.go:104). Two calls that both read before either writes are both
  accepted, and the second erases what the first said (`ParallelSendsLoseOne`,
  `ParallelPlatformsLoseManifest`). One accepted call loses nothing exactly when merging
  into what it read gives what merging into what is there would give
  (`SendKeepsAllExactly`). In every run a version holds the joint manifest of its last
  call and of the calls that one had read (`VersionHoldsPipeline`); when no other
  submission of the version comes between the reading and the writing of one, these are
  all accepted calls since it was last submitted without a manifest (`VersionHoldsAll`).
* **Download locations.** A manifest names each file by an address that the server's own
  route and query parser read back as that file, unless the version has a sign that a query
  escapes, a plus sign of build metadata above all, which the address carries as it is
  (internal/market/adp.go:734-741), or the item is a software package, whose address and
  route differ by a letter (internal/market/adp.go:759-761, internal/market/server.go:1379).
  `DownloadIsRead` says that these are the only exceptions. Manifests are kept for command
  line tools and skills only, so the second cannot be met today.
* **Managed paths.** A managed path that begins with a slash of its own after the home
  directory is cleaned as a path from the root and accepted whatever its steps; any other
  is accepted exactly when it leads below the home directory without ever leaving it
  (`ValidIsSound`, internal/market/adp.go:558-561).
* **Guests and staff numbers.** Creators come from token claims and the proxy header as
  well as from accounts (internal/market/server.go:1237-1293), and such a principal has no
  row in `users`. Moving an account to its staff number is refused only when that is
  another account (internal/market/store.go:299-305), so the items of an account and those
  of a guest of that name become the items of one owner (`GuestIsJoined`,
  `StaffNumberJoinsGuest`). Over whole runs nothing else ever joins owners, and nothing
  parts them (`OwnersMeetExactly`).
* **Legacy rows.** A snapshot rebuilt from stored rows restores the same taxonomy exactly
  when a submission could have written these rows (`StoredRequestRoundTrip`). An included
  skill with sort order zero, the default of the column, comes back with another order
  (`ZeroOrderIsRewritten`), and a skill without a profile row gets one
  (`MissingProfileIsWritten`). Rows the server writes itself are restored as they are
  (`ConsistentRoundTrip`).
* **Platforms filled in.** Each start of the server adds a universal platform row to every
  version that has none, pending ones included (internal/market/store.go:802-826). The
  stack survives (`RestartSimulates`), but a pending version can then no longer be given
  its universal platform (`SubmissionAfterRestart`, `UniversalIsClosed`), and the public
  sees a universal platform of every release (`EveryReleaseIsUniversal`).
* **Blank names.** Restoring a version fails exactly when its request had a blank name
  (`RestoringLatestChangesNothing`, `NamedRunsAreRestorable`);
  `BlankNameCannotBeRestored` is a submission nobody can decide. The publish handlers
  replace a blank name by the item's identifier (internal/market/artifacts.go:54-57), so
  only a direct call of the store can bring one in.

## Model

| member | source | states |
|---|---|---|
| SemVer.CanonicalIdempotent | internal/market/version.go:8-14 | canonicalising twice changes nothing, and does not change what parses |
| SemVer.ComparatorTotal | internal/market/version.go:19-69 | the comparator answers exactly on pairs that parse, is antisymmetric in sign, and says 0 exactly when core and prerelease are equal |
| SemVer.ComparatorTransitive | internal/market/version.go:19-69 | "not newer" is transitive, strict as soon as one step is |
| SemVer.NewerIsStrictOrder | internal/market/version.go:19-69 | "newer" is irreflexive, asymmetric and transitive on all strings |
| SemVer.LatestIsMaximum | internal/market/store.go:1442-1465 | the scan answers with a maximum-precedence row that parses, and with nothing exactly when no row parses |
| SemVer.LatestOrderIndependent | internal/market/store.go:1442-1465 | the precedence found does not depend on the order of the rows |
| SemVerStandard.ParserAcceptsStandard | internal/market/version.go:76-140 | the parser accepts exactly the canonical spellings of grammatical versions whose core fits int64, and reads them right |
| SemVerStandard.ParseRender | internal/market/version.go:76-106 | every grammatical version is read back from its text; core overflow is the one reason to refuse it |
| SemVerStandard.BuildIgnored | internal/market/version.go:81-85 | build metadata never affects any comparison |
| SemVerStandard.ComparatorAgainstStandard | internal/market/version.go:19-69 | the comparator is section 11, reversed where a misplaced overflowing number decides |
| SemVerStandard.ComparatorAgreesExactly | internal/market/version.go:19-69 | agreement with section 11 if and only if no misplaced number decides |
| SemVerStandard.ComparatorAgreesWithinInt64 | internal/market/version.go:123-127 | agreement with section 11 whenever every numeric prerelease identifier fits int64 |
| SemVerStandard.OverflowReversesOrder | internal/market/version.go:123-127 | the concrete pair 10^20 - 1 and 10^20 is ordered the wrong way round |
| Versions.IsDigits | internal/market/version.go:129-132 | the loop accepts exactly non-empty digit strings |
| Versions.ValidIdentifier | internal/market/version.go:134-140 | the loop accepts exactly strings of identifier characters |
| Versions.ValidIdentifierList | internal/market/version.go:108-121 | the loop accepts exactly dot-separated identifiers, padded numbers excluded on demand |
| Versions.ParseSemanticVersion | internal/market/version.go:76-106 | the parser's loops compute the specified parse, failures included |
| Versions.ComparePrereleaseLists | internal/market/version.go:45-68 | the identifier loop computes the specified list comparison |
| Versions.CompareSemanticVersions | internal/market/version.go:19-69 | the comparator's loops compute the specified comparison, failures included |
| Versions.FindLatest | internal/market/store.go:1442-1465 | the scan computes the specified latest row, which is a maximum |
| Market.SanitizePlatformNormalises | internal/market/artifacts.go:961-967 | sanitised platform names are well spelled and are fixed points of the sanitiser |
| Market.SanitizePlatformIs | internal/market/artifacts.go:961-967 | sanitising lowers and trims, replaces every space by a dash and then every longest run of foreign characters by one, and takes the dashes off both ends |
| Consistency.PendingIsUnique | internal/market/store.go:1036-1040 | in a consistent state both pending queries answer with the one pending version, if there is one |
| Effects.SubmissionWritesVersion | internal/market/store.go:1090-1102 | an accepted submission leaves its version with the texts, dependencies, protocol and manifest of the request and exactly those metadata keys that do not spell creatorId, in the status it asks for, and keeps the time of a first submission |
| Effects.SubmissionWritesPlatform | internal/market/store.go:1103-1120 | it writes the platform as specified, or a blank one under the key requested, and no other |
| Effects.SubmissionWritesFile | internal/market/store.go:1126-1148 | it stores the file sent under its platform, and touches no other |
| Effects.SubmissionWritesItem | internal/market/store.go:1073-1089 | it leaves a published item as it is, and makes any other show the request, views and first publication kept |
| Effects.SubmissionWritesTaxonomy | internal/market/store.go:1214-1269 | then tags are the trimmed ones of the request; a skill gets the profile sent or the default one, and a package its included skills, each as it came last and numbered by its place unless it brings a number |
| Effects.SubmissionWritesEvent | internal/market/store.go:1149-1153 | it adds one event with the creator as actor, from the status of the item to that of the version |
| Effects.SubmissionRefusals | internal/market/store.go:1033-1072 | in a consistent state a submission is refused for the first that applies of another owner, a release that waits, a platform taken, a version not newer and a version published, each with its own error, and accepted otherwise |
| Effects.SubmissionAwaits | internal/market/store.go:1006-1013 | a pending submission waits for review with a snapshot of its request |
| Effects.ReviewWritesVersion | internal/market/store.go:1509-1521 | deciding a pending version writes the requested status, the trimmed note and the trimmed reviewer, or admin exactly when that is blank, to its row and nothing else; its platforms follow, files stay, and one event tells the same with the previous status |
| Effects.ApprovalWritesItem | internal/market/store.go:1340-1372 | an approval makes the item show the request kept in the snapshot under that judgement, views kept |
| Effects.RefusalWritesItem | internal/market/store.go:1496-1508 | any other decision reaches the item row only while that is unpublished and shows the version |
| Effects.LegacyReviewWrites | internal/market/store.go:1525-1554 | with nothing pending the item and its latest version carry the judgement, platforms and files stay, and one event tells of it |
| Effects.ReviewRefusals | internal/market/store.go:1467-1488 | a review is refused for a text that is no status, for a pending request without a name, or for want of an item, each with its own error, and accepted otherwise |
| Effects.UnpublishWithdraws | internal/market/store.go:1392-1406 | unpublishing takes the version and its platforms off the shelf; review, files and log stay |
| Effects.UnpublishFallsBack | internal/market/store.go:1408-1432 | the item then shows the newest version left with its own review and times, or goes offline when none is left |
| Effects.UnpublishRefusals | internal/market/store.go:1374-1418 | unpublishing is refused for a blank version, for want of an item, for a version that is not the current one or for a nameless replacement, each with its own error, and accepted otherwise |
| Effects.CountingWrites | internal/market/store.go:131-161 | a view is counted on a live item and changes nothing else |
| Effects.ThirdAttemptCounts | internal/market/store.go:131-161 | after two busy attempts the third decides |
| Effects.RenamingWrites | internal/market/store.go:306-315 | a rename reaches every creator and reviewer of item and versions that bore the old name, and nothing else |
| Effects.ReadsAre | internal/market/store.go:2107-2187 | files and platforms are read exactly of versions published and approved on an item published and approved, as they are stored |
| Effects.ManifestsAre | internal/market/store.go:2040-2084 | so are manifests, of the version asked for or of the item when none is; publishers read that of any version there is, and a blank one is none |
| Effects.SnapshotIsTaken | internal/market/store.go:1316-1326 | a snapshot stands for a release exactly when it is of this item and version and has a name |
| Effects.ApprovedIsShown | internal/market/store.go:958-1523 | a release submitted as pending and then approved is the one the item shows, with the request's texts and metadata |
| Effects.ApprovedIsServed | internal/market/store.go:2136-2187 | and the public is then given its platform and its file as they were sent |
| Consistency.PublishKeepsConsistent | internal/market/store.go:958-1156 | an accepted submission keeps the invariant of all runs |
| Consistency.ReviewKeepsConsistent | internal/market/store.go:1467-1523 | deciding a pending version keeps the invariant |
| Consistency.LegacyKeepsConsistent | internal/market/store.go:1525-1554 | so does the legacy review, when nothing is pending |
| Consistency.UnpublishKeepsConsistent | internal/market/store.go:1374-1438 | so does unpublishing, with any order of the replacement rows |
| Consistency.RekeyKeepsConsistent | internal/market/store.go:306-315 | so does renaming a user |
| Consistency.StepKeepsConsistent | internal/market/store.go:958-1554 | every operation, accepted or refused, keeps the invariant |
| Consistency.RunsAreConsistent | internal/market/store.go:958-1554 | every state of every run from an empty store: at most one pending version; published implies approved; pending implies a snapshot; the item row, tags and profile mirror the latest version's row and snapshot |
| PublicView.LiveLatestIsVisible | internal/market/store.go:2107-2121 | published and live are one condition, the live version is itself readable, and no pending version is |
| PublicView.RestoringLatestChangesNothing | internal/market/store.go:1340-1372 | the item's payload, tags and profile are what restoring the latest snapshot would write; on a live item a restore changes two timestamps only |
| PublicView.ManifestOfLatest | internal/market/store.go:2040-2067 | the live manifest is the manifest of the live version |
| PublicView.SubmissionIsInvisible | internal/market/store.go:1073-1148 | a submission that is not approved on the spot changes nothing the public can read, accepted or not |
| PublicView.RefusalIsInvisible | internal/market/store.go:1489-1516 | while a version is pending, a review that does not approve it changes nothing the public can read |
| PublicView.PublishedContentIsFixed | internal/market/store.go:1054-1057 | no operation, in any state, changes the columns, snapshot, files or platform specifications of a published version |
| PublicView.UnpublishFailsOnlyOnInput | internal/market/store.go:1374-1438 | with restorable versions, unpublishing succeeds exactly on the item's non-blank current version |
| PublicView.StepKeepsRestorable | internal/market/store.go:1316-1326 | requests with a name keep every version restorable |
| PublicView.NamedRunsAreRestorable | internal/market/store.go:1292-1326 | in runs of named requests rollback never misses a snapshot |
| ReleaseStack.SubmitSimulates | internal/market/store.go:958-1156 | a pending submission waits above the top of the stack and leaves the stack alone |
| ReleaseStack.ApproveSimulates | internal/market/store.go:1328-1372 | approving pushes the pending version, which is newer than the top |
| ReleaseStack.RetireSimulates | internal/market/store.go:1374-1438 | unpublishing the current version always succeeds and pops the stack |
| ReleaseStack.StepSimulates | internal/market/store.go:958-1554 | every operation of a reviewed run is a push above the top, a pop of the top, or leaves the stack; in between, platform flags equal version flags, pending versions of a live item are above the top, the item shows the top |
| ReleaseStack.SubmissionTaken | internal/market/store.go:1033-1072 | in a stacked state a submission is accepted if and only if its creator agrees and it is newer than the top, or adds a platform to the pending version |
| ReleaseStack.ReviewTaken | internal/market/store.go:1316-1326 | the pending version can be decided if and only if its request has a name |
| ReleaseStack.RetireTaken | internal/market/store.go:1374-1405 | unpublishing succeeds if and only if the version is the one the item shows |
| ReleaseStack.RunsAreStacks | internal/market/store.go:958-1554 | every reviewed run from an empty store is simulated by the LIFO machine, legacy reviews that leave liveness alone included |
| ReleaseStack.StackIsPublic | internal/market/store.go:1442-1465 | the item is live exactly when the stack is not empty, its latest version is the top, and the published versions are the stack |
| ReleaseStack.VisibleIffStacked | internal/market/store.go:2107-2187 | a file or platform row is readable exactly when its version is on the stack |
| ReleaseStack.DrainDescends | internal/market/store.go:1374-1438 | repeated unpublishing, each at its own time and with its own row order, visits the published versions from the top down, and the item goes offline after exactly as many steps as there were |
| ReleaseStack.RollbackInverse | internal/market/store.go:1328-1438 | on a live item, approving the pending version and unpublishing it again restores version, payload, tags, profile, note, reviewer, files and platforms, two timestamps excepted |
| ReleaseStack.LegacyKeepsStackExactly | internal/market/store.go:1525-1554 | a review with nothing pending leaves some stack behind if and only if it does not change whether the item is live |
| Admission.KeyIsNormalized | internal/market/artifacts.go:96-143 | the platform key of a normalised request is never empty and is a fixed point of the sanitiser |
| Admission.ChosenKeyIs | internal/market/artifacts.go:96-121 | the key is the specification's own unless blank, then its platform name unless blank, then the one requested |
| Admission.CleanKeyIsSpelled | internal/market/artifacts.go:118-121 | a platform that is named is sanitised, one that is not is the universal one, and keys spelled so are kept |
| Admission.PrecheckRefusals | internal/market/store.go:1158-1212 | in whatever spelling the platform is named, the pre-check refuses for the first that applies of its own order, each with its own error |
| Admission.PrecheckAgrees | internal/market/store.go:1158-1212 | on every consistent state the pre-check accepts a request, in whatever spelling its platform is named, if and only if the transaction accepts it with the platform spelled out |
| Ledger.StepKeepsAudited | internal/market/store.go:1149-1153 | submissions and reviews append exactly one event, nothing else touches the log, and the last event of each version still tells its status |
| Ledger.RunsAreAudited | internal/market/store.go:1509-1552 | in every run the last event recorded for a version carries its review status, and versions without events do not exist |
| Ledger.ViewsAreConserved | internal/market/store.go:131-161 | the view count is the number of successful counts of the run; no release operation loses or invents one |
| Ledger.StepKeepsOwner | internal/market/store.go:1020-1047 | item and version rows share one creator, which only a rename changes, consistently in both tables |
| Ledger.FirstStepOwns | internal/market/store.go:1031-1035 | the first successful submission settles the owner |
| Ledger.RunsAreOwned | internal/market/store.go:1020-1047 | in runs whose submissions name a creator the item always has one owner, shared by all its versions |
| Backfill.StoredRequestRoundTrip | internal/market/store.go:913-956 | a request rebuilt from any stored rows carries item, version, platform, creator and status, restores the same payload if and only if no metadata key spells creatorId and the manifest is trimmed, and the same taxonomy if and only if a submission could have written it: trimmed tags, a profile row for every skill and nothing else, included skills for packages alone, none with sort order zero |
| Backfill.MissingProfileIsWritten | internal/market/store.go:2390-2399 | a legacy skill without a profile row is restored with the defaults the loader fills in |
| Backfill.ConsistentRoundTrip | internal/market/store.go:1214-1269 | in every consistent state the round trip is exact, whatever order rows are read in |
| Backfill.BackfillMaterialises | internal/market/store.go:852-911 | any legacy item becomes one its latest row materialises if and only if a submission could have written its rows and its latest row agrees with it; the row is restorable when the item has a name, and agrees with its snapshot exactly when it agreed with the item |
| Backfill.BackfillCompletes | internal/market/store.go:852-911 | over all items, a release is counted incomplete exactly when the item names a version without a row, and running the backfill again changes nothing |
| Startup.RestartAdds | internal/market/store.go:802-826 | a start adds a platform row exactly for a missing universal platform and for missing platforms of stored files, published as the version is, with its texts and records, field by field, and dated by it or by the file; every row that was there and all other tables stay |
| Startup.RestartIsIdempotent | internal/market/store.go:802-826 | a second start adds nothing |
| Startup.RestartSimulates | internal/market/store.go:802-826 | the stack and the pending version survive a start |
| Startup.OtherTasksAreIdle | internal/market/store.go:668-900 | rows of every run have no version prefix, no latest version without snapshot and no creator in metadata, which is what the other start tasks look for |
| Startup.SubmissionAfterRestart | internal/market/store.go:1058-1072 | whatever the rows, after a start the same submissions are accepted, except exactly those that would give a pending version a platform the start has filled in |
| Startup.ReadsAfterRestart | internal/market/store.go:2107-2187 | every public read answers as before, and platform reads answer besides for the platforms added to published versions |
| Startup.EveryReleaseIsUniversal | internal/market/store.go:802-811 | after a start exactly the published versions have a public universal platform |
| Startup.MovesAreConsistent | internal/market/store.go:354-1554 | the invariant of all runs holds in runs with any number of starts in between |
| Startup.RestartedRunsAreStacks | internal/market/store.go:354-1554 | reviewed runs are simulated by the LIFO machine, however often the server is started in between |
| Store.Transaction.FindPending | internal/market/store.go:1271-1290 | the row scan answers both pending queries |
| Store.Transaction.WriteTaxonomy | internal/market/store.go:1214-1269 | the delete and insert loops leave exactly the taxonomy of the request |
| Store.Transaction.WriteSubmission | internal/market/store.go:1073-1154 | the upserts write exactly the specified rows, sparing a published item row |
| Store.Transaction.ApplySnapshot | internal/market/store.go:1340-1372 | the item row and taxonomy become those of the snapshot, views kept |
| Store.Transaction.FindLatestPublished | internal/market/store.go:1442-1465 | the query and scan answer with a visible version of maximum precedence, and with nothing exactly when none parses |
| Store.MarketStore.CheckSubmission | internal/market/store.go:1033-1072 | the refusals come in the specified order |
| Store.MarketStore.Publish | internal/market/store.go:958-1156 | the transaction commits the specified rows of its item or changes nothing, and no other item changes |
| Store.MarketStore.UpdateReview | internal/market/store.go:1467-1523 | likewise for a review, dispatching on the pending candidate |
| Store.MarketStore.ReviewSubmission | internal/market/store.go:1483-1521 | the statements deciding a pending version compute the specified rows |
| Store.MarketStore.ReviewLatest | internal/market/store.go:1525-1554 | the statements of the legacy review compute the specified rows |
| Store.MarketStore.Unpublish | internal/market/store.go:1374-1438 | the transaction commits the withdrawal and the fallback or changes nothing; the replacement rows are those left visible |
| Store.MarketStore.Replace | internal/market/store.go:1406-1432 | the replacement is restored with its own review and times, or the item goes offline |
| Store.MarketStore.IncrementDetailViewCount | internal/market/store.go:131-161 | with its retries on a busy database and pauses that may be cut short: one more view on a live item when an attempt is served, otherwise nothing |
| Store.MarketStore.RenameOwner | internal/market/store.go:307-311 | the four item and version statements rename the user on every item |
| Store.MarketStore.BackfillVersionPlatforms | internal/market/store.go:802-826 | the two insert statements of a start add the specified platform rows on every item |
| StoreRuns.SlicesRun | internal/market/store.go:958-1554 | in a run of the whole store each item goes through a run of exactly the calls that concern it, met in the states of the store |
| StoreRuns.StoreRunsAreConsistent | internal/market/store.go:958-1554 | so every item is consistent after every run of the store |
| StoreRuns.StoreRunsAreAudited | internal/market/store.go:1149-1153 | the log of every item tells the status of each version after every run of the store |
| StoreRuns.StoreRunsAreStacks | internal/market/store.go:958-1554 | an item whose own calls are reviewed ones is a stack, whatever happens to other items |
| StoreRuns.StoreRunsAreOwned | internal/market/store.go:1020-1047 | an item whose own submissions name a creator has one owner |
| StoreRuns.StoreRunsAreRestorable | internal/market/store.go:1292-1326 | an item whose own submissions have a name can always be rolled back |
| Accounts.CandidatesDiffer | internal/market/store.go:331-335 | different suffixes give names that differ even up to ASCII case |
| Accounts.ProbesAreBounded | internal/market/store.go:331-344 | n candidates all taken means at least n names taken |
| Accounts.NextAvailableUsername | internal/market/store.go:323-345 | the loop ends after at most one more probe than there are users, with the first candidate free up to case |
| Accounts.RegisterKeepsProper | internal/market/store.go:180-212 | a first login adds one user and keeps usernames unique, users paired with identities, and roles and favorites under their keys |
| Accounts.RekeyedIsProper | internal/market/store.go:298-321 | rekeying keeps all of these, and the number of users; no two rows fall together |
| Accounts.UpsertKeepsProper | internal/market/store.go:168-249 | every accepted login keeps all of these; the user answered is the one the identity stands for, and the staff number when there is one |
| Accounts.LoginIsAnswered | internal/market/store.go:251-278 | reading the user back finds the account that logged in, as an administrator exactly when the profile says so or a role from another source does |
| Logins.NameIsGiven | internal/market/store.go:323-345 | a newcomer gets the preferred name, else the subject, else market-user, as it is when nobody has it and otherwise with the first free number from two upwards |
| Logins.LoginRefusals | internal/market/store.go:168-321 | a login is refused for the first that applies of a blank issuer or subject, a staff number that is another account's, one with white space, and identifiers taken, each with its own error, and accepted otherwise |
| Logins.FirstLoginWrites | internal/market/store.go:183-201 | a first login adds one account: display name and email as claimed, the username where no display name is claimed, verified as claimed, active, all three times now; nobody else changes |
| Logins.FirstLoginLinks | internal/market/store.go:202-211 | and one identity with the trimmed claims |
| Logins.LaterLoginWrites | internal/market/store.go:215-228 | a later login takes over display name, email and verification that are claimed and keeps what is not, and keeps username, status and age; it answers for the staff number, if any |
| Logins.LaterLoginSparesOthers | internal/market/store.go:298-321 | no other account changes, and none is lost |
| Logins.LaterLoginKeepsIdentities | internal/market/store.go:229-232 | its identity goes along with the claims renewed, and no other identity changes |
| Logins.FavoritesFollow | internal/market/store.go:309 | favorites go along with an account that moves; all others stay |
| Logins.GrantsFollow | internal/market/store.go:234-244 | the login's own roles are renewed, roles of other sources go along with the account, all others stay |
| Logins.FirstLoginAnswers | internal/market/store.go:251-278 | the user answered after a first login is what the profile claims, under the preferred name when that is free |
| Logins.LaterLoginAnswers | internal/market/store.go:251-278 | the user answered later is what the profile claims, and otherwise what reading the account answered before |
| Accounts.AccountStore.Rekey | internal/market/store.go:298-321 | favorites, roles, identities, users and items are renamed together, or nothing is |
| Accounts.AccountStore.FirstLogin | internal/market/store.go:180-212 | the insert statements compute the specified directory, all columns included, or refuse |
| Accounts.AccountStore.LaterLogin | internal/market/store.go:213-248 | the update statements compute the specified directory, times included; items are renamed exactly when the account moves |
| Accounts.AccountStore.UpsertOIDCUser | internal/market/store.go:168-249 | the whole transaction and the user read back after it, refusals leaving accounts and items as they were |
| Creators.VisitKeepsSound | internal/market/store.go:168-321 | with any set of guests, a login or a call on an item keeps every creator a user, a guest or nobody |
| Creators.CreatorsAreKnown | internal/market/server.go:1266-1293 | so it is in every run that mixes logins with submissions by users and guests |
| Creators.LoginJoinsExactly | internal/market/store.go:298-321 | whoever owns items, after a login two items have one owner if and only if they had one before, or one belonged to the account that moves and the other to its staff number |
| Creators.ItemsFollowAccount | internal/market/store.go:213-321 | after any accepted login the items of the user answered are exactly those that bore that name already and those of the account that logged in, if there was one |
| Creators.OnlyGuestsAreJoined | internal/market/store.go:299-305 | a login can join an account's items to those of a guest only |
| Creators.OwnersMeetExactly | internal/market/store.go:168-321 | in every run of logins and signed submissions two items have one owner if and only if they had one at any earlier moment, or a login in between joined them; so owners once joined never part |
| Creators.StrangersStayApart | internal/market/store.go:298-321 | as long as no login names a guest as its staff number, different owners stay different |
| Migration.BareIsFixed | internal/market/store.go:741-744 | a stripped version has no prefix left, and is the canonical version of trimmed text |
| Migration.TargetIsFree | internal/market/store.go:741-744 | whichever rows have been updated already, the key a row is renamed to is free |
| Migration.StripPrefixes | internal/market/store.go:741-744 | updating row by row in any order moves every row to its bare key and makes up none |
| Migration.CanonicalizeTable | internal/market/store.go:719-744 | after the deletion and the update each canonical key holds the bare row if there was one and otherwise the oldest prefixed row |
| Migration.KeysPreserved | internal/market/store.go:719-786 | the set of canonical keys is preserved and nothing else appears |
| Migration.BareRowsKept | internal/market/store.go:719-786 | rows without prefix stay as they are |
| Migration.OutcomeUnique | internal/market/store.go:719-786 | the outcome does not depend on the order of the updates |
| Migration.Idempotent | internal/market/store.go:719-744 | a second run over one keyed table changes nothing |
| Migration.RowidsKept | internal/market/store.go:719-744 | row identifiers stay unique, so the migration can run again |
| Migration.RunningAgainChangesNothing | internal/market/store.go:712-800 | running all eight statements again changes nothing, download log and latest versions included |
| Migration.ReferencesPreserved | internal/market/store.go:745-786 | a file or platform row that had its version row has it afterwards |
| Migration.LatestPreserved | internal/market/store.go:787-790 | the latest version an item names keeps its row |
| Migration.Database.CanonicalizeStoredVersions | internal/market/store.go:712-800 | all eight statements together, with the reference guarantees, leaving rows it can run on again |
| Adp.MergeStringsLaws | internal/market/adp.go:809-827 | the merged list is strictly sorted and holds exactly the non-blank entries of both lists |
| Adp.SortedUnique | internal/market/adp.go:809-827 | a sorted list is determined by its elements, so map iteration order does not matter |
| AdpMerge.MergeAllShape | internal/market/adp.go:395-419 | a merge of keyed documents is the prior packages, each met by its namesake, followed by the unknown ones; it fails exactly when two namesakes conflict |
| AdpMerge.MergedPackageValid | internal/market/adp.go:422-450 | two valid namesakes that merge, and are no provider mapping, merge to a valid package |
| AdpMerge.MergePreservesValidity | internal/market/adp.go:374-450 | two valid manifests that merge give a valid one if and only if they share no provider mapping |
| AdpMerge.SecondValidationDecides | internal/market/adp.go:99-117 | with a valid stored manifest the pipeline answers with the merge, and its second validation rejects a shared provider mapping only |
| AdpMerge.MergedMaps | internal/market/adp.go:395-419 | a merge without shared provider mappings declares exactly the mappings either side declares |
| AdpJoin.JoinIsUpper | internal/market/adp.go:374-450 | the join of two manifests says everything either says |
| AdpJoin.JoinIsLeast | internal/market/adp.go:374-450 | it is the least such manifest, and exists exactly when there is one |
| AdpJoin.MergeIsJoin | internal/market/adp.go:374-450 | merging computes that join, failing exactly when there is none |
| AdpJoin.JoinAllAnyOrder | internal/market/adp.go:374-450 | joining any manifests gives the same result in any order, repetitions included |
| AdpJoin.JoinAllExactly | internal/market/adp.go:374-450 | manifests have a common join if and only if any two of them do |
| AdpJoin.SharingAgrees | internal/market/adp.go:422-450 | manifests agree if and only if they share their fields and, package by package, everything but platforms, and differ about no platform |
| AdpJoin.StoredIsJoin | internal/market/adp.go:105-113 | merging documents that declare no provider mapping twice one after the other stores their join, and fails exactly when there is none |
| AdpJoin.UploadsCommute | internal/market/adp.go:105-113 | the same documents in any order are accepted or refused alike, exactly by whether any two agree, and leave the same manifest |
| AdpUploads.PlatformKeysAreClean | internal/market/adp.go:709-732 | the keys of a market platform are proper ADP keys |
| AdpUploads.BindRefines | internal/market/adp.go:310-346 | binding sets the upload's keys in the one package with its role and changes nothing else |
| AdpUploads.UploadsJoin | internal/market/adp.go:310-450 | uploads with manifests of their own that agree, under distinct keys these leave free, always merge, to the joined manifest with every artifact bound |
| AdpUploads.JointContent | internal/market/adp.go:337-344 | in it each uploaded key maps to exactly that upload's location, hash and archive |
| AdpUploads.BaseBelow | internal/market/adp.go:337-344 | and nothing the manifest said before is lost or changed |
| AdpUploads.StoredContent | internal/market/adp.go:310-346 | whenever calls are accepted, each upload's keys map to its location, hash and archive in the stored manifest |
| AdpUploads.StoredKeepsAll | internal/market/adp.go:76-124 | and nothing any call said is lost or changed |
| AdpUploads.StoredManifest | internal/market/adp.go:310-450 | publish calls whose manifests agree, under distinct free keys, all merge into the joined manifest with every artifact bound |
| AdpUploads.PipelineIsMerge | internal/market/adp.go:76-124 | calls that pass the first validation over separated manifests lose nothing to the second, and what is stored is valid |
| AdpUploads.PipelineExactly | internal/market/adp.go:76-124 | any sequence of calls, each with its own manifest, with or without artifact, is accepted if and only if each is valid by itself, no provider mapping is declared twice, and any two manifests agree; what is stored says what all of them say |
| AdpUploads.PipelineAnyOrder | internal/market/adp.go:76-124 | the order of the calls, repeated ones included, decides neither acceptance nor the stored manifest |
| AdpUploads.PublishedManifest | internal/market/adp.go:76-124 | calls whose manifests agree, for platforms with distinct free keys and each valid by itself, succeed in any order and store a valid manifest that is the joined one with every artifact bound |
| AdpRelease.SendKeepsAllExactly | internal/market/adp.go:103-117 | a call normalised against an earlier state leaves the joint manifest of all calls behind if and only if normalising against the present one would have given the same |
| AdpRelease.StepRecords | internal/market/server.go:912-920 | a submission with a manifest normalised against any earlier rows makes the version hold the calls recorded there and its own; one without starts over, everything else leaves it alone |
| AdpRelease.VersionHoldsPipeline | internal/market/server.go:912-920 | in every run, whatever comes between the reading and the writing of manifests, a version holds the joint manifest of its last call and the calls that one had read |
| AdpRelease.VersionHoldsAll | internal/market/server.go:912-920 | when no submission of the version comes in between, these are all accepted calls since it was last submitted without a manifest |
| AdpRelease.PublicReadsStored | internal/market/store.go:2040-2084 | once the version is readable, that manifest is what the public reads |
| AdpGuarantees.ValidIsSound | internal/market/adp.go:167-707 | a manifest is accepted if and only if it is sound: known fields, names pairwise different, needs met, hooks that run one thing, managed paths that stay below the home, known platforms, and a version, a hash under each key and a way to use it wherever a location is given |
| AdpGuarantees.StoredIsSound | internal/market/adp.go:99-117 | whatever the pipeline accepts is sound |
| AdpGuarantees.LocationsAreHashed | internal/market/adp.go:263-280 | so every location in it has a hash under its own key, its package a version, and an expose map or a post hook |
| AdpPublic.KeysOfPlatform | internal/market/adp.go:709-732 | a file for every platform has all six keys; one for an operating system and an architecture, in any spelling, has just that key |
| Locations.DownloadIsRead | internal/market/adp.go:734-741 | the server reads the address a manifest gives for a file as a request for its type, identifier, version and platform, if and only if the version has no sign a query escapes and the item is no software package |
| AdpPublic.FilesAreTaken | internal/market/adp.go:310-346 | a manifest takes a file if and only if just one package is marked with its role and its platform has a key; without a file, if and only if no package asks for one |
| AdpPublic.PublicManifestIsSound | internal/market/store.go:2040-2065 | in every run the manifest the public reads of a version is sound |
| AdpPublic.PublicManifestGivesFile | internal/market/adp.go:331-344 | in every run it has, for each file of the calls it was made of, a package of the file's role that under every key of its platform gives the file's own hash, its archive without stripping, and a location that leads back to it |
| AdpPublic.ServedFileIsGiven | internal/market/store.go:2136-2148 | and when no submission comes in between, the file served for a platform is one it gives so |
| Witnesses.LegacyReviewBreaksStack | internal/market/store.go:1525-1554 | a run of three calls on one request reaches rows no stack describes |
| Witnesses.BlankNameCannotBeRestored | internal/market/store.go:1320-1322 | a submission with a blank name stays pending: deciding it fails for its snapshot |
| Witnesses.PlatformWithoutManifestErases | internal/market/adp.go:85-87 | a second platform submitted without manifest is accepted and erases the stored one |
| Witnesses.ParallelSendsLoseOne | internal/market/server.go:912-920 | two calls for different platforms of any new version that both read before either writes are both accepted, and the second manifest is stored as if the first call had never been |
| Witnesses.ParallelPlatformsLoseManifest | internal/market/adp.go:103-117 | such a run, after which the package of the first call is gone |
| Witnesses.GuestIsJoined | internal/market/store.go:298-321 | a run of two logins and two submissions that makes the items of an account and of a guest those of one owner, for any requests and profiles of that kind |
| Witnesses.StaffNumberJoinsGuest | internal/market/store.go:299-305 | such a run, with guest 1001 and an account that moves to staff number 1001 |
| Witnesses.UniversalIsClosed | internal/market/store.go:802-811 | a universal platform that is accepted before a start and refused after it |
| Witnesses.ZeroOrderIsRewritten | internal/market/store.go:1252-1256 | an included skill stored with order zero is restored with another |
| Witnesses.SharedMappingIsRejected | internal/market/adp.go:448 | a valid manifest that merges with itself to an invalid one |
| AdpDocument.MergeStringList | internal/market/adp.go:809-827 | collecting into a set and sorting computes the merged list |
| AdpDocument.MergeField | internal/market/adp.go:438-447 | the loop over a platform field joins it or finds the conflict |
| AdpDocument.MergeAdpPackage | internal/market/adp.go:422-450 | the package merge computes the specified one, failures included |
| AdpDocument.CollectNames | internal/market/adp.go:189-204 | the first loop names and checks each package in turn, accepts exactly valid packages with pairwise distinct names, and collects the names |
| AdpDocument.CheckNeeds | internal/market/adp.go:205-219 | the second loop accepts exactly when every need is among the names |
| AdpDocument.Validate | internal/market/adp.go:167-220 | the loops together decide validity |
| AdpDocument.FindBound | internal/market/adp.go:315-327 | the search finds the one package with the role, or tells that there are several |
| AdpDocument.Draft.BindArtifact | internal/market/adp.go:310-346 | binding in place computes the specified document or leaves it alone |
| AdpDocument.Draft.MergeFields | internal/market/adp.go:383-393 | the field loop joins the fields or finds the conflict; either way it loses and changes none and adds only current ones |
| AdpDocument.Draft.MergePackages | internal/market/adp.go:394-418 | the package loop with its index of prior positions computes the specified list, failures included |
| AdpDocument.Draft.MergeCurrent | internal/market/adp.go:374-420 | the document merge in place computes the specified merge, failures included |

## Left out

- HTTP handlers, sign-in, tokens and cookies, object storage, archive reading and hashing: plumbing over libraries.
- Comments, favorites, paging, search lists, npm names, dotenv parsing and the closed tables of enum values: easy members only.
- SQL, JSON and YAML encoding: rows are maps, a snapshot or manifest is the value its text encodes, and a transaction is all or nothing. The database constraints other than the primary keys named are not modelled.
- Timestamps: opaque text, kept as they are read. The order of `submitted_at` in the pending queries does not matter, for at most one version is pending (`Consistency.RunsAreConsistent`).
- Concurrency between transactions: they are serial, as the database runs them. Between reading a stored manifest and submitting the merged one, which is no transaction, anything may happen (`AdpRelease`); a query that fails there counts as reading the empty store, which is how the code takes it.
- Random identifiers and the clock: parameters of a login (`Draw`); random user identifiers are non-blank and trimmed, as the server draws them.
- rekeyMarketUser rewrites neither item_comments nor review_events; adding and removing favorites is not modelled, only that rows of favorite_items keep their key.
- Row order of the replacement query: a parameter (`rows`) that any listing of the visible versions may take.
- Publish with a status other than pending: covered by the invariants of all runs, left out of the stack results, for an approved submission over a live item would leave its latest version stale.
- Blank versions: the stack results exclude them, as the publish handlers do before they reach the store.
- Unicode lower-casing: exact on every character whose lower case is an ASCII letter, the identity on all others; what it feeds looks at ASCII characters only.
- Platform choice of publishRequestFromStoredItem: a parameter of `StoredRequest`; it does not reach the item row.
- Other tables and columns of the migration: a row's remaining columns are one opaque value; row identifiers are unique, as the database guarantees.
- ADP fields `from`, `sha256` and `archive` are absent or a map and `platforms` is absent or a list of strings, scalars keep their printed form, and the key clashes of normalizeYAMLValue are not modelled.
- ADP checks of one package (fields, hooks, managed paths, platform maps): predicates and not loops, for each is a plain conjunction over its fields; error messages are one refusal.
- Normalisation of skill profiles, dependencies, slugs and protocols before a publish: they overwrite request fields with closed values.
- Paths of download requests are split as they stand, for identifiers have no sign a path escapes; that the handler spells the identifier and the version again (internal/market/server.go:501-506) changes neither, as both are spelled so already.
- Fallback platforms of a download (a shorter platform name, then universal): reads are by exact platform, and each file served so is one of them.
- Start tasks for the tables of older servers: added columns, the old name of sandbox images, blank submission times.
- AdpDocument.Draft.MergeCurrent: says nothing about the packages after a conflict, because the caller discards the document.
- AdpDocument.Draft.MergePackages: likewise after a conflict; the original has then changed packages of the discarded document in place.
